/** Builds with a bound on nested calls: how deep a build goes, and when it ends at all. */
module BuilderDepth {
  import opened Wrappers
  import opened Chains
  import opened ClusterMaps
  import opened Kubeconfigs
  import opened BuilderSpec
  import opened BuilderTheorems

  /** buildOne with at most depth nested calls of itself; None when these do not suffice. */
  ghost function BuildWithin(env: Env, s: State, c: string, depth: nat): Option<Step>
    decreases depth, 2, 0
  {
    if depth == 0 then None
    else if c !in env.clusters then Some(Step(s, Failed(ClusterNotInMap)))
    else if AlreadyBuilt(s.site, c).Some? then Some(Step(s, Built(c, AlreadyBuilt(s.site, c).value)))
    else SourcesWithin(env, s, c, 0, depth)
  }

  ghost function SourcesWithin(env: Env, s: State, c: string, i: nat, depth: nat): Option<Step>
    requires c in env.clusters && i <= |env.clusters[c].sources| && depth > 0
    decreases depth, 1, |env.clusters[c].sources| - i
  {
    if i == |env.clusters[c].sources| then Some(Step(s, Failed(AllSourcesFailed))) else
    match SourceWithin(env, s, c, i, depth)
    case None => None
    case Some(a) =>
      if a.offer.None? then SourcesWithin(env, a.state, c, i + 1, depth)
      else Some(MergeOffer(a.state, c, a.offer.value))
  }

  ghost function SourceWithin(env: Env, s: State, c: string, i: nat, depth: nat): Option<Attempt>
    requires c in env.clusters && i < |env.clusters[c].sources| && depth > 0
    decreases depth, 0, 0
  {
    var source := env.clusters[c].sources[i];
    if !source.ClusterAPI? then Some(Attempt(s, StaticOffer(env, c, source))) else
    if c !in Parents(env.clusters) then Some(Attempt(s, None)) else
    match BuildWithin(env, s, env.clusters[c].parent, depth - 1)
    case None => None
    case Some(parent) =>
      var a := AskSecret(env, source, parent);
      Some(Attempt(a.state, if a.offer.Some? then Extract(c, "", a.offer.value) else None))
  }

  // ----- Chains that end -----

  /** As many nested calls as the chain of asked parents is long suffice, and give the build. */
  lemma {:induction false} HeightSuffices(env: Env, s: State, c: string, depth: nat)
    requires Ends(AskLinks(env), c) && depth >= Height(AskLinks(env), c)
    ensures BuildWithin(env, s, c, depth) == Some(BuildOne(env, s, c))
    decreases depth, 2, 0
  {
    hide Extract, StaticOffer;
    if c in env.clusters && AlreadyBuilt(s.site, c).None? {
      HeightThrough(env, s, c, 0, depth);
    }
  }

  lemma {:induction false} HeightThrough(env: Env, s: State, c: string, i: nat, depth: nat)
    requires c in env.clusters && Ends(AskLinks(env), c) && Reaches(env, c, i)
    requires depth >= Height(AskLinks(env), c)
    ensures SourcesWithin(env, s, c, i, depth) == Some(TrySources(env, s, c, i))
    decreases depth, 1, |env.clusters[c].sources| - i
  {
    hide Extract, StaticOffer;
    if i < |env.clusters[c].sources| {
      var a, source := TrySource(env, s, c, i), env.clusters[c].sources[i];
      if source.ClusterAPI? && c in Parents(env.clusters) {
        assert Asks(env, c);
        HeightOfNext(AskLinks(env), c);
        HeightSuffices(env, s, env.clusters[c].parent, depth - 1);
        assert FromClusterAPI(env, s, c, source) == AskSecret(env, source, BuildOne(env, s, env.clusters[c].parent));
      }
      assert SourceWithin(env, s, c, i, depth) == Some(a);
      if a.offer.None? {
        HeightThrough(env, a.state, c, i + 1, depth);
      }
    }
  }

  // ----- Chains that do not -----

  lemma NothingBuilt(c: string)
    ensures AlreadyBuilt(EMPTY_CONFIG, c).None?
  {
  }

  /** On an endless chain of asked parents, no number of nested calls suffices for a fresh build. */
  lemma {:induction false} EndlessNeverBuilds(env: Env, client: Option<Client>, c: string, depth: nat)
    requires !Ends(AskLinks(env), c)
    ensures BuildWithin(env, State(EMPTY_CONFIG, client), c, depth).None?
    decreases depth, 2, 0
  {
    if depth > 0 {
      EndlessLink(AskLinks(env), c);
      NothingBuilt(c);
      var j :| 0 <= j < |env.clusters[c].sources| && env.clusters[c].sources[j].ClusterAPI? && Reaches(env, c, j);
      EndlessThrough(env, client, c, 0, j, depth);
    }
  }

  lemma EndlessLink(next: Links, c: string)
    requires !Ends(next, c)
    ensures c in next && !Ends(next, next[c])
  {
    assert Follow(next, c, 1).Some?;
    forall n: nat ensures Follow(next, next[c], n).Some? {
      assert Follow(next, c, n + 1).Some?;
    }
  }

  lemma {:induction false} EndlessThrough(env: Env, client: Option<Client>, c: string, i: nat, j: nat, depth: nat)
    requires c in AskLinks(env) && !Ends(AskLinks(env), env.clusters[c].parent) && depth > 0
    requires i <= j < |env.clusters[c].sources| && env.clusters[c].sources[j].ClusterAPI? && Reaches(env, c, j)
    ensures SourcesWithin(env, State(EMPTY_CONFIG, client), c, i, depth).None?
    decreases depth, 1, j - i
  {
    hide Ends, StaticOffer, Extract;
    if env.clusters[c].sources[i].ClusterAPI? {
      EndlessNeverBuilds(env, client, env.clusters[c].parent, depth - 1);
    } else {
      EndlessThrough(env, client, c, i + 1, j, depth);
    }
  }

  /** Some number of nested calls suffices for the build of c. */
  ghost predicate BuildEnds(env: Env, s: State, c: string) {
    exists depth :: BuildWithin(env, s, c, depth).Some?
  }

  /** A fresh build ends exactly when the chain of parents that it asks for does. */
  lemma {:induction false} FreshBuildEnds(env: Env, client: Option<Client>, c: string)
    ensures BuildEnds(env, State(EMPTY_CONFIG, client), c) <==> Ends(AskLinks(env), c)
  {
    var s := State(EMPTY_CONFIG, client);
    if Ends(AskLinks(env), c) {
      HeightSuffices(env, s, c, Height(AskLinks(env), c));
    } else {
      forall depth: nat ensures BuildWithin(env, s, c, depth).None? {
        EndlessNeverBuilds(env, client, c, depth);
      }
    }
  }

  /** On a validated map every build ends, with no more nested calls than there are clusters. */
  lemma {:induction false} ValidatedDepth(env: Env, s: State, c: string)
    requires ParentsDefined(env.clusters) && !Cyclic(Parents(env.clusters)) && c in env.clusters
    ensures Ends(AskLinks(env), c)
    ensures BuildWithin(env, s, c, |env.clusters|) == Some(BuildOne(env, s, c))
  {
    ValidatedMapBuilds(env, c);
    HeightSuffices(env, s, c, |env.clusters|);
  }
}
