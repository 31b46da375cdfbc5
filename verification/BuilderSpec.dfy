/**
 * The kubeconfig builder as state transitions (pkg/k8s/kubeconfig/builder.go).
 *
 * Files, the bundle, secrets and the creation of API clients are a fixed
 * environment; writing a kubeconfig and loading it again is the identity.
 */
module BuilderSpec {
  import opened Wrappers
  import opened Chains
  import opened ClusterMaps
  import opened Kubeconfigs

  datatype Client = Client(id: string)

  /** A key that is absent from one of the maps stands for a failed read. */
  datatype Env = Env(
    clusters: ClusterMap,
    files: map<string, Kubeconfig>,
    bundle: Option<Kubeconfig>,
    scratchWritable: bool,
    newClients: map<(string, Kubeconfig), Client>,
    secrets: map<(Client, string, string), Kubeconfig>)

  /** The fields of the builder that a build changes. */
  datatype State = State(site: Kubeconfig, client: Option<Client>)

  datatype BuildError = ClusterNotInMap | AllSourcesFailed | MergeFailed

  datatype Outcome = Built(context: string, config: Kubeconfig) | Failed(error: BuildError)

  datatype Step = Step(state: State, outcome: Outcome)
  datatype Attempt = Attempt(state: State, offer: Option<Kubeconfig>)

  /** What a source offers without asking the parent cluster. */
  ghost function StaticOffer(env: Env, c: string, source: Source): Option<Kubeconfig> {
    match source
    case FileSystem(path, name) =>
      if path in env.files then Extract(c, name, env.files[path]) else None
    case Bundle(name) =>
      if env.bundle.Some? then Extract(c, name, env.bundle.value) else None
    case ClusterAPI(_, _) => None
    case UnknownType(_) => None
  }

  /** Source i is reached: no earlier source can be taken without a parent. */
  ghost predicate Reaches(env: Env, c: string, i: nat)
    requires c in env.clusters
  {
    && i <= |env.clusters[c].sources|
    && forall j :: 0 <= j < i ==> StaticOffer(env, c, env.clusters[c].sources[j]).None?
  }

  /** Building c makes the builder build the parent of c first. */
  ghost predicate Asks(env: Env, c: string) {
    && c in Parents(env.clusters)
    && exists i :: 0 <= i < |env.clusters[c].sources|
                   && env.clusters[c].sources[i].ClusterAPI?
                   && Reaches(env, c, i)
  }

  ghost function AskLinks(env: Env): Links {
    map c | c in env.clusters && Asks(env, c) :: env.clusters[c].parent
  }

  function SecretOf(env: Env, client: Client, namespace: string, name: string): Option<Kubeconfig> {
    var key := (client, if namespace == "" then "default" else namespace, name + "-kubeconfig");
    if name == "" || key !in env.secrets then None else Some(env.secrets[key])
  }

  ghost function AlreadyBuilt(site: Kubeconfig, c: string): Option<Kubeconfig> {
    Extract(c, c, site)
  }

  ghost function BuildOne(env: Env, s: State, c: string): Step
    requires Ends(AskLinks(env), c)
    decreases Height(AskLinks(env), c), 2, 0
  {
    if c !in env.clusters then Step(s, Failed(ClusterNotInMap))
    else if AlreadyBuilt(s.site, c).Some? then Step(s, Built(c, AlreadyBuilt(s.site, c).value))
    else TrySources(env, s, c, 0)
  }

  /** The loop over the sources of c, from source i on. */
  ghost function TrySources(env: Env, s: State, c: string, i: nat): Step
    requires c in env.clusters && Ends(AskLinks(env), c) && Reaches(env, c, i)
    decreases Height(AskLinks(env), c), 1, |env.clusters[c].sources| - i
  {
    if i == |env.clusters[c].sources| then Step(s, Failed(AllSourcesFailed)) else
    var a := TrySource(env, s, c, i);
    if a.offer.None? then TrySources(env, a.state, c, i + 1) else MergeOffer(a.state, c, a.offer.value)
  }

  ghost function MergeOffer(s: State, c: string, one: Kubeconfig): Step {
    var m := MergeContext(c, c, s.site, one);
    Step(s.(site := m.config), if m.ok then Built(c, one) else Failed(MergeFailed))
  }

  ghost function TrySource(env: Env, s: State, c: string, i: nat): (a: Attempt)
    requires c in env.clusters && Ends(AskLinks(env), c)
    requires i < |env.clusters[c].sources| && Reaches(env, c, i)
    ensures a.offer.None? ==> Reaches(env, c, i + 1)
    decreases Height(AskLinks(env), c), 0, 1
  {
    var source := env.clusters[c].sources[i];
    if !source.ClusterAPI? then Attempt(s, StaticOffer(env, c, source)) else
    if c !in Parents(env.clusters) then Attempt(s, None) else
    var a := FromClusterAPI(env, s, c, source);
    Attempt(a.state, if a.offer.Some? then Extract(c, "", a.offer.value) else None)
  }

  ghost function FromClusterAPI(env: Env, s: State, c: string, source: Source): Attempt
    requires Ends(AskLinks(env), c) && Asks(env, c) && source.ClusterAPI?
    decreases Height(AskLinks(env), c), 0, 0
  {
    HeightOfNext(AskLinks(env), c);
    AskSecret(env, source, BuildOne(env, s, env.clusters[c].parent))
  }

  /** What follows the build of the parent: the client, if there is none yet, and the secret. */
  ghost function AskSecret(env: Env, source: Source, parent: Step): Attempt
    requires source.ClusterAPI?
  {
    if parent.outcome.Failed? || !env.scratchWritable then Attempt(parent.state, None) else
    var s' := WithClient(env, parent.state, parent.outcome);
    if s'.client.None? then Attempt(s', None)
    else Attempt(s', SecretOf(env, s'.client.value, source.namespace, source.name))
  }

  /** The client is made once, from the first parent that is reached. */
  function WithClient(env: Env, s: State, parent: Outcome): State
    requires parent.Built?
  {
    if s.client.Some? || (parent.context, parent.config) !in env.newClients then s
    else s.(client := Some(env.newClients[(parent.context, parent.config)]))
  }

  datatype Run = Run(state: State, error: Option<BuildError>)

  /** buildKubeconfig over a list of cluster names; single: one name was asked for. */
  ghost function BuildAll(env: Env, s: State, names: seq<string>, single: bool): Run
    requires forall c :: c in names ==> Ends(AskLinks(env), c)
    decreases |names|
  {
    if names == [] then Run(s, None) else
    var r := BuildOne(env, s, names[0]);
    var context := if r.outcome.Built? then r.outcome.context else "";
    var s' := if single then r.state.(site := r.state.site.(currentContext := context)) else r.state;
    if r.outcome.Failed? && r.outcome.error != AllSourcesFailed then Run(s', Some(r.outcome.error))
    else BuildAll(env, s', names[1..], single)
  }
}
