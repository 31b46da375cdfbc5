/** Builds that are not given a client: the client that they make, and the build with that client. */
module BuilderClients {
  import opened Wrappers
  import opened Chains
  import opened ClusterMaps
  import opened Kubeconfigs
  import opened BuilderSpec

  // ----- What a build can read before it has a client -----

  /** one comes from a file or the bundle. */
  ghost predicate StaticPart(env: Env, one: Kubeconfig) {
    exists c, i :: c in env.clusters && 0 <= i < |env.clusters[c].sources|
                   && StaticOffer(env, c, env.clusters[c].sources[i]) == Some(one)
  }

  ghost predicate StaticContext(env: Env, name: string, context: Context) {
    exists one :: StaticPart(env, one) && name in one.contexts && one.contexts[name] == context
  }

  ghost predicate StaticUser(env: Env, name: string, user: AuthInfo) {
    exists one :: StaticPart(env, one) && name in one.authInfos && one.authInfos[name] == user
  }

  ghost predicate StaticEndpoint(env: Env, name: string, endpoint: Endpoint) {
    exists one :: StaticPart(env, one) && name in one.clusters && one.clusters[name] == endpoint
  }

  /** Every entry comes from a file or the bundle, though not all from the same one. */
  ghost predicate FromStatic(env: Env, config: Kubeconfig) {
    && (forall x :: x in config.contexts ==> StaticContext(env, x, config.contexts[x]))
    && (forall x :: x in config.authInfos ==> StaticUser(env, x, config.authInfos[x]))
    && (forall x :: x in config.clusters ==> StaticEndpoint(env, x, config.clusters[x]))
  }

  /** config is what the asked parent of c may be read as, and a client made of, while there is none. */
  ghost predicate ReadsParent(env: Env, c: string, config: Kubeconfig) {
    Asks(env, c) && env.scratchWritable && Single(env.clusters[c].parent, config) && FromStatic(env, config)
  }

  /** Each such reading makes a client. */
  ghost predicate ClientsMade(env: Env) {
    forall c, config :: ReadsParent(env, c, config) ==> (env.clusters[c].parent, config) in env.newClients
  }

  /** k is made from one of these readings. */
  ghost predicate CanMake(env: Env, k: Client) {
    exists c, config :: ReadsParent(env, c, config) && Makes(env, c, config, k)
  }

  ghost predicate Makes(env: Env, c: string, config: Kubeconfig, k: Client)
    requires ReadsParent(env, c, config)
  {
    (env.clusters[c].parent, config) in env.newClients && env.newClients[(env.clusters[c].parent, config)] == k
  }

  /** All of these readings make the client k. */
  ghost predicate OneClient(env: Env, k: Client) {
    forall c, config :: ReadsParent(env, c, config) ==> Makes(env, c, config, k)
  }

  lemma OnlyClient(env: Env, k: Client)
    requires OneClient(env, k)
    ensures ClientsMade(env) && forall k' :: CanMake(env, k') ==> k' == k
  {
    hide FromStatic, Single;
    forall c, config | ReadsParent(env, c, config) ensures (env.clusters[c].parent, config) in env.newClients {
      assert Makes(env, c, config, k);
    }
  }

  // ----- A client stays, and none is made but from such a reading -----

  lemma {:induction false} ClientStays(env: Env, s: State, c: string)
    requires Ends(AskLinks(env), c) && s.client.Some?
    ensures BuildOne(env, s, c).state.client == s.client
    decreases Height(AskLinks(env), c), 2, 0
  {
    if c in env.clusters {
      ClientStaysThrough(env, s, c, 0);
    }
  }

  lemma {:induction false} ClientStaysThrough(env: Env, s: State, c: string, i: nat)
    requires c in env.clusters && Ends(AskLinks(env), c) && Reaches(env, c, i) && s.client.Some?
    ensures TrySources(env, s, c, i).state.client == s.client
    decreases Height(AskLinks(env), c), 1, |env.clusters[c].sources| - i
  {
    if i < |env.clusters[c].sources| {
      var a := TrySource(env, s, c, i);
      ClientStaysSource(env, s, c, i);
      if a.offer.None? {
        ClientStaysThrough(env, a.state, c, i + 1);
      }
    }
  }

  lemma {:induction false} ClientStaysSource(env: Env, s: State, c: string, i: nat)
    requires c in env.clusters && Ends(AskLinks(env), c) && s.client.Some?
    requires i < |env.clusters[c].sources| && Reaches(env, c, i)
    ensures TrySource(env, s, c, i).state.client == s.client
    decreases Height(AskLinks(env), c), 0, 1
  {
    var source := env.clusters[c].sources[i];
    if source.ClusterAPI? && c in Parents(env.clusters) {
      HeightOfNext(AskLinks(env), c);
      ClientStays(env, s, env.clusters[c].parent);
      assert FromClusterAPI(env, s, c, source).state.client == s.client;
    }
  }

  /** Until there is a client all entries are static; a client comes from a static reading. */
  ghost predicate Clean(env: Env, s: State) {
    match s.client
    case None => FromStatic(env, s.site)
    case Some(k) => CanMake(env, k)
  }

  /** A build without a client; while none is made, what it returns is static. */
  ghost predicate CleanStep(env: Env, c: string, r: Step) {
    && Clean(env, r.state)
    && (r.outcome.Built? && r.state.client.None? ==>
          r.outcome.context == c && Single(c, r.outcome.config) && (c != "" ==> FromStatic(env, r.outcome.config)))
  }

  lemma ReadIsStatic(env: Env, site: Kubeconfig, c: string)
    requires FromStatic(env, site) && c != "" && AlreadyBuilt(site, c).Some?
    ensures FromStatic(env, AlreadyBuilt(site, c).value)
  {
    hide StaticContext, StaticUser, StaticEndpoint;
  }

  lemma OfferIsStatic(env: Env, c: string, i: nat, one: Kubeconfig)
    requires c in env.clusters && i < |env.clusters[c].sources|
    requires StaticOffer(env, c, env.clusters[c].sources[i]) == Some(one)
    ensures FromStatic(env, one) && Single(c, one)
  {
    hide Extract;
    assert StaticPart(env, one);
  }

  lemma OverlayIsStatic(env: Env, site: Kubeconfig, one: Kubeconfig)
    requires FromStatic(env, site) && FromStatic(env, one)
    ensures FromStatic(env, Overlay(site, one))
  {
    hide StaticContext, StaticUser, StaticEndpoint;
  }

  /** Step g, taken with client k, is step r but for the client. */
  ghost predicate SameButClient(r: Step, g: Step, k: Client) {
    g == Step(r.state.(client := Some(k)), r.outcome)
  }

  ghost predicate Agrees(r: Step, g: Step, k: Client) {
    r.state.client == None || r.state.client == Some(k) ==> SameButClient(r, g, k)
  }

  function Given(s: State, k: Client): State { s.(client := Some(k)) }

  /**
   * A build without a client is the build with the client that it makes, given
   * from the start; if it makes none, it is the build with any client.
   */
  lemma {:induction false} BuildOneSame(env: Env, s: State, c: string, k: Client)
    requires Ends(AskLinks(env), c) && ClientsMade(env) && s.client.None? && Clean(env, s)
    ensures CleanStep(env, c, BuildOne(env, s, c))
    ensures Agrees(BuildOne(env, s, c), BuildOne(env, Given(s, k), c), k)
    decreases Height(AskLinks(env), c), 2, 0
  {
    hide FromStatic, CanMake, ClientsMade;
    if c in env.clusters {
      if AlreadyBuilt(s.site, c).Some? {
        if c != "" {
          ReadIsStatic(env, s.site, c);
        }
      } else {
        TrySourcesSame(env, s, c, 0, k);
      }
    }
  }

  lemma {:induction false} TrySourcesSame(env: Env, s: State, c: string, i: nat, k: Client)
    requires c in env.clusters && Ends(AskLinks(env), c) && Reaches(env, c, i)
    requires ClientsMade(env) && s.client.None? && Clean(env, s)
    ensures CleanStep(env, c, TrySources(env, s, c, i))
    ensures Agrees(TrySources(env, s, c, i), TrySources(env, Given(s, k), c, i), k)
    decreases Height(AskLinks(env), c), 1, |env.clusters[c].sources| - i
  {
    hide FromStatic, CanMake, ClientsMade, Extract, TrySource, Ends, AskLinks, MergeOffer, Single, StaticOffer;
    if i < |env.clusters[c].sources| {
      var a := TrySource(env, s, c, i);
      TrySourceSame(env, s, c, i, k);
      if a.offer.None? {
        if a.state.client.None? {
          TrySourcesSame(env, a.state, c, i + 1, k);
        } else {
          ClientStaysThrough(env, a.state, c, i + 1);
        }
      } else {
        MergeSame(env, a.state, c, a.offer.value, k);
      }
    }
  }

  lemma {:induction false} MergeSame(env: Env, s: State, c: string, one: Kubeconfig, k: Client)
    requires Clean(env, s) && (s.client.None? ==> FromStatic(env, one) && Single(c, one))
    ensures CleanStep(env, c, MergeOffer(s, c, one)) && MergeOffer(s, c, one).state.client == s.client
    ensures MergeOffer(Given(s, k), c, one) ==
            Step(Given(MergeOffer(s, c, one).state, k), MergeOffer(s, c, one).outcome)
  {
    hide FromStatic, CanMake, MergeContext, Single;
    if s.client.None? {
      MergeSingle(s.site, c, one);
      OverlayIsStatic(env, s.site, one);
    }
  }

  lemma {:induction false} TrySourceSame(env: Env, s: State, c: string, i: nat, k: Client)
    requires c in env.clusters && Ends(AskLinks(env), c)
    requires i < |env.clusters[c].sources| && Reaches(env, c, i)
    requires ClientsMade(env) && s.client.None? && Clean(env, s)
    ensures
      var a, g := TrySource(env, s, c, i), TrySource(env, Given(s, k), c, i);
      && Clean(env, a.state)
      && (a.state.client.None? && a.offer.Some? ==> FromStatic(env, a.offer.value) && Single(c, a.offer.value))
      && (a.state.client == None || a.state.client == Some(k) ==> g == Attempt(Given(a.state, k), a.offer))
    decreases Height(AskLinks(env), c), 0, 1
  {
    var source := env.clusters[c].sources[i];
    if !source.ClusterAPI? {
      hide FromStatic, Single;
      if StaticOffer(env, c, source).Some? {
        OfferIsStatic(env, c, i, StaticOffer(env, c, source).value);
      }
    } else if c in Parents(env.clusters) {
      hide FromStatic, Single, Extract, CanMake, ClientsMade, FromClusterAPI;
      assert Asks(env, c);
      AskSame(env, s, c, source, k);
    }
  }

  lemma {:induction false} AskSame(env: Env, s: State, c: string, source: Source, k: Client)
    requires Ends(AskLinks(env), c) && Asks(env, c) && source.ClusterAPI?
    requires ClientsMade(env) && s.client.None? && Clean(env, s)
    ensures
      var a, g := FromClusterAPI(env, s, c, source), FromClusterAPI(env, Given(s, k), c, source);
      && Clean(env, a.state) && (a.state.client.None? ==> a.offer.None?)
      && (a.state.client == None || a.state.client == Some(k) ==> g == Attempt(Given(a.state, k), a.offer))
    decreases Height(AskLinks(env), c), 0, 0
  {
    hide BuildOne, Ends, AskLinks, Clean, CleanStep, ClientsMade, Asks, AskSecret, Agrees;
    ParentEnds(env, c);
    var parent := env.clusters[c].parent;
    BuildOneSame(env, s, parent, k);
    AskAfter(env, c, source, BuildOne(env, s, parent), BuildOne(env, Given(s, k), parent), k);
  }

  lemma ParentEnds(env: Env, c: string)
    requires Ends(AskLinks(env), c) && Asks(env, c)
    ensures c in env.clusters && c in AskLinks(env) && AskLinks(env)[c] == env.clusters[c].parent
    ensures Ends(AskLinks(env), env.clusters[c].parent)
    ensures Height(AskLinks(env), env.clusters[c].parent) == Height(AskLinks(env), c) - 1
  {
    hide Ends;
    HeightOfNext(AskLinks(env), c);
  }

  /** What the source makes of the parent, which was built without a client as r, and with k as g. */
  lemma {:induction false} AskAfter(env: Env, c: string, source: Source, r: Step, g: Step, k: Client)
    requires ClientsMade(env) && Asks(env, c) && source.ClusterAPI?
    requires CleanStep(env, env.clusters[c].parent, r) && Agrees(r, g, k)
    ensures
      var a, b := AskSecret(env, source, r), AskSecret(env, source, g);
      && Clean(env, a.state) && (a.state.client.None? ==> a.offer.None?)
      && (a.state.client == None || a.state.client == Some(k) ==> b == Attempt(Given(a.state, k), a.offer))
  {
    hide FromStatic, Single, SecretOf;
    if r.outcome.Built? && r.state.client.None? && env.scratchWritable {
      var config := r.outcome.config;
      assert ReadsParent(env, c, config);
      assert Makes(env, c, config, env.newClients[(env.clusters[c].parent, config)]);
    }
  }

  /** The same for builds of several clusters. */
  lemma {:induction false} BuildAllSame(env: Env, s: State, names: seq<string>, single: bool, k: Client)
    requires forall c :: c in names ==> Ends(AskLinks(env), c)
    requires ClientsMade(env) && s.client.None? && Clean(env, s)
    ensures
      var r, g := BuildAll(env, s, names, single), BuildAll(env, Given(s, k), names, single);
      && Clean(env, r.state)
      && (r.state.client == None || r.state.client == Some(k) ==> g == Run(Given(r.state, k), r.error))
    decreases |names|
  {
    hide FromStatic, CanMake, ClientsMade, Ends;
    if names != [] {
      var r := BuildOne(env, s, names[0]);
      BuildOneSame(env, s, names[0], k);
      var context := if r.outcome.Built? then r.outcome.context else "";
      var s' := if single then r.state.(site := r.state.site.(currentContext := context)) else r.state;
      OtherCurrent(env, r.state.site, context);
      if s'.client.None? {
        BuildAllSame(env, s', names[1..], single, k);
      } else {
        ClientStaysAll(env, s', names[1..], single);
      }
    }
  }

  lemma OtherCurrent(env: Env, site: Kubeconfig, context: string)
    ensures FromStatic(env, site.(currentContext := context)) <==> FromStatic(env, site)
  {
    hide StaticContext, StaticUser, StaticEndpoint;
  }

  lemma {:induction false} ClientStaysAll(env: Env, s: State, names: seq<string>, single: bool)
    requires (forall c :: c in names ==> Ends(AskLinks(env), c)) && s.client.Some?
    ensures BuildAll(env, s, names, single).state.client == s.client
    decreases |names|
  {
    hide Ends;
    if names != [] {
      var r := BuildOne(env, s, names[0]);
      ClientStays(env, s, names[0]);
      var context := if r.outcome.Built? then r.outcome.context else "";
      var s' := if single then r.state.(site := r.state.site.(currentContext := context)) else r.state;
      ClientStaysAll(env, s', names[1..], single);
    }
  }
}
