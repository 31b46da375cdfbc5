/** The builder object, whose site kubeconfig and client change as it builds. */
module KubeconfigBuilder {
  import opened Wrappers
  import opened Chains
  import opened ClusterMaps
  import opened Kubeconfigs
  import opened BuilderSpec
  import opened BuilderClients
  import opened BuilderProofs
  import opened BuilderTheorems
  import opened BuilderSources

  lemma EveryClientSettled(env: Env, client: Option<Client>, names: seq<string>)
    requires "" !in env.clusters && Lists(env.clusters, names)
    requires forall c :: c in names ==> Ends(AskLinks(env), c)
    ensures forall k :: Settles(env, client, k) ==>
              BuildAll(env, State(EMPTY_CONFIG, client), names, false).state.site.contexts.Keys == Meaning(env, k).Keys
  {
    hide Ends, Lists, Settles, BuildAll, Meaning;
    forall k | Settles(env, client, k)
      ensures BuildAll(env, State(EMPTY_CONFIG, client), names, false).state.site.contexts.Keys == Meaning(env, k).Keys
    {
      SiteWideYieldsResolvable(env, client, k, names);
    }
  }

  lemma StaticSource(env: Env, c: string, i: nat)
    requires c in env.clusters && i < |env.clusters[c].sources| && !env.clusters[c].sources[i].ClusterAPI?
    ensures forall k, present, one ::
              StaticOffer(env, c, env.clusters[c].sources[i]) == Some(one) <==> Supplies(env, k, present, c, i, one)
  {
    hide StaticOffer, Supplies;
    forall k, present, one
      ensures StaticOffer(env, c, env.clusters[c].sources[i]) == Some(one) <==> Supplies(env, k, present, c, i, one)
    {
      StaticSupplies(env, k, present, c, i, one);
    }
  }

  lemma NoNames(env: Env, single: bool)
    ensures forall s :: BuildAll(env, s, [], single) == Run(s, None)
  {
  }

  /** The first turn of the loop over the names. */
  lemma NextName(env: Env, s: State, names: seq<string>, single: bool)
    requires names != [] && forall c :: c in names ==> Ends(AskLinks(env), c)
    ensures
      var r := BuilderSpec.BuildOne(env, s, names[0]);
      var context := if r.outcome.Built? then r.outcome.context else "";
      var s' := if single then r.state.(site := r.state.site.(currentContext := context)) else r.state;
      BuildAll(env, s, names, single) ==
      if r.outcome.Failed? && r.outcome.error != AllSourcesFailed then Run(s', Some(r.outcome.error))
      else BuildAll(env, s', names[1..], single)
  {
    hide Ends, AskLinks;
  }

  class Builder {
    const env: Env
    const siteWide: bool
    const clusterNames: seq<string>
    var site: Kubeconfig
    var client: Option<Client>

    constructor (env: Env, siteWide: bool, clusterNames: seq<string>, client: Option<Client>)
      ensures this.env == env && this.siteWide == siteWide && this.clusterNames == clusterNames
      ensures Now() == State(EMPTY_CONFIG, client)
    {
      this.env := env;
      this.siteWide := siteWide;
      this.clusterNames := clusterNames;
      this.site := EMPTY_CONFIG;
      this.client := client;
    }

    ghost function Now(): State
      reads this
    {
      State(site, client)
    }

    /** The names a build goes through, when order lists all clusters. */
    ghost predicate Requested(order: seq<string>) {
      if siteWide then Lists(env.clusters, order) else order == clusterNames
    }

    method BuildKubeconfig() returns (error: Option<BuildError>, ghost order: seq<string>)
      requires forall c :: c in env.clusters || c in clusterNames ==> Ends(AskLinks(env), c)
      modifies this
      ensures Requested(order) && forall c :: c in order ==> Ends(AskLinks(env), c)
      ensures Run(Now(), error) == BuildAll(env, old(Now()), order, !siteWide && |clusterNames| == 1)
      ensures old(Closed(site) && CurrentKnown(site)) && "" !in env.clusters ==>
                && Closed(site) && CurrentKnown(site) && Extends(site, old(site))
                && (siteWide ==> error.None?)
                && (!siteWide ==> (error.Some? <==> exists c :: c in clusterNames && c !in env.clusters))
      ensures siteWide && old(site) == EMPTY_CONFIG && "" !in env.clusters ==>
                forall k :: Settles(env, old(client), k) ==> site.contexts.Keys == Meaning(env, k).Keys
    {
      var names := clusterNames;
      if siteWide {
        names := AllClusters(env.clusters);
      }
      order := names;
      ghost var single := !siteWide && |clusterNames| == 1;
      if "" !in env.clusters && Closed(site) && CurrentKnown(site) {
        BuildAllKeepsClosed(env, Now(), names, single);
      }
      if siteWide && "" !in env.clusters {
        EveryClientSettled(env, client, names);
      }
      hide Closed, CurrentKnown, Extends, Meaning, Settles, Lists, AskLinks, Ends, BuildAll;
      error := BuildInTurn(names);
    }

    /** The loop over the names. */
    method BuildInTurn(names: seq<string>) returns (error: Option<BuildError>)
      requires forall c :: c in names ==> Ends(AskLinks(env), c)
      modifies this
      ensures Run(Now(), error) == BuildAll(env, old(Now()), names, !siteWide && |clusterNames| == 1)
    {
      hide AskLinks, Ends, BuildAll;
      ghost var single := !siteWide && |clusterNames| == 1;
      NoNames(env, single);
      for i := 0 to |names|
        invariant BuildAll(env, old(Now()), names, single) == BuildAll(env, Now(), names[i..], single)
      {
        assert names[i..][0] == names[i] && names[i..][1..] == names[i + 1..];
        NextName(env, Now(), names[i..], single);
        var outcome := BuildOne(names[i]);
        if !siteWide && |clusterNames| == 1 {
          site := site.(currentContext := if outcome.Built? then outcome.context else "");
        }
        if outcome.Failed? && outcome.error != AllSourcesFailed {
          return Some(outcome.error);
        }
      }
      return None;
    }

    method BuildOne(c: string) returns (outcome: Outcome)
      requires Ends(AskLinks(env), c)
      modifies this
      ensures Step(Now(), outcome) == BuilderSpec.BuildOne(env, old(Now()), c)
      decreases Height(AskLinks(env), c), 2
    {
      if c !in env.clusters {
        return Failed(ClusterNotInMap);
      }
      var built := ExtractContext(c, c, site);
      if built.Some? {
        return Built(c, built.value);
      }
      var sources := env.clusters[c].sources;
      for i := 0 to |sources|
        invariant Reaches(env, c, i)
        invariant TrySources(env, old(Now()), c, 0) == TrySources(env, Now(), c, i)
      {
        var one := TrySource(c, i);
        if one.Some? {
          var ok, merged := MergeContextAPI(c, c, site, one.value);
          site := merged;
          return if ok then Built(c, one.value) else Failed(MergeFailed);
        }
      }
      return Failed(AllSourcesFailed);
    }

    method TrySource(c: string, i: nat) returns (one: Option<Kubeconfig>)
      requires c in env.clusters && Ends(AskLinks(env), c)
      requires i < |env.clusters[c].sources| && Reaches(env, c, i)
      modifies this
      ensures Attempt(Now(), one) == BuilderSpec.TrySource(env, old(Now()), c, i)
      ensures !env.clusters[c].sources[i].ClusterAPI? ==>
                Now() == old(Now()) &&
                forall k, present, config :: one == Some(config) <==> Supplies(env, k, present, c, i, config)
      decreases Height(AskLinks(env), c), 1
    {
      if !env.clusters[c].sources[i].ClusterAPI? {
        StaticSource(env, c, i);
      }
      hide Supplies;
      match env.clusters[c].sources[i]
      case FileSystem(path, name) =>
        if path !in env.files { return None; }
        one := ExtractContext(c, name, env.files[path]);
      case Bundle(name) =>
        if env.bundle.None? { return None; }
        one := ExtractContext(c, name, env.bundle.value);
      case ClusterAPI(_, _) =>
        var secret := FromClusterAPI(c, i);
        if secret.None? { return None; }
        one := ExtractContext(c, "", secret.value);
      case UnknownType(_) =>
        one := None;
    }

    method FromClusterAPI(c: string, i: nat) returns (secret: Option<Kubeconfig>)
      requires c in env.clusters && Ends(AskLinks(env), c)
      requires i < |env.clusters[c].sources| && Reaches(env, c, i) && env.clusters[c].sources[i].ClusterAPI?
      modifies this
      ensures c !in Parents(env.clusters) ==> secret.None? && Now() == old(Now())
      ensures c in Parents(env.clusters) ==> Asks(env, c)
      ensures c in Parents(env.clusters) ==>
                Attempt(Now(), secret) == BuilderSpec.FromClusterAPI(env, old(Now()), c, env.clusters[c].sources[i])
      decreases Height(AskLinks(env), c), 0
    {
      var source := env.clusters[c].sources[i];
      var parent := ParentCluster(env.clusters, c);
      if parent.Err? {
        return None;
      }
      assert Asks(env, c);
      HeightOfNext(AskLinks(env), c);
      var outcome := BuildOne(parent.value);
      if outcome.Failed? || !env.scratchWritable {
        return None;
      }
      if client.None? {
        if (outcome.context, outcome.config) !in env.newClients {
          return None;
        }
        client := Some(env.newClients[(outcome.context, outcome.config)]);
      }
      return SecretOf(env, client.value, source.namespace, source.name);
    }
  }
}
