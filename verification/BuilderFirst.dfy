/**
 * Which clients a build that is given none can end up with, and when the order
 * of AllClusters decides over contexts because of them.
 */
module BuilderFirst {
  import opened Wrappers
  import opened Chains
  import opened ClusterMaps
  import opened Kubeconfigs
  import opened BuilderSpec
  import opened BuilderClients
  import opened BuilderProofs
  import opened BuilderTheorems
  import opened BuilderOrder

  // ----- Clusters that are built before any client is made -----

  /** The first kubeconfig that a file or the bundle offers, from source i on. */
  ghost function FirstStatic(env: Env, c: string, i: nat): (r: Option<Kubeconfig>)
    requires c in env.clusters && i <= |env.clusters[c].sources|
    ensures r.Some? ==> Single(c, r.value)
    decreases |env.clusters[c].sources| - i
  {
    if i == |env.clusters[c].sources| then None else
    var offer := StaticOffer(env, c, env.clusters[c].sources[i]);
    if offer.Some? then offer else FirstStatic(env, c, i + 1)
  }

  ghost predicate StaticallyBuilt(env: Env, c: string) { c in env.clusters && FirstStatic(env, c, 0).Some? }

  /** The parent that makes the client when c is the first cluster whose build makes one. */
  ghost function TopParent(env: Env, c: string): Option<string>
    requires Ends(AskLinks(env), c)
    decreases Height(AskLinks(env), c)
  {
    if !Asks(env, c) || !env.scratchWritable then None else
    HeightOfNext(AskLinks(env), c);
    var parent := env.clusters[c].parent;
    var above := TopParent(env, parent);
    if above.Some? then above else if StaticallyBuilt(env, parent) then Some(parent) else None
  }

  ghost predicate BuiltAlone(env: Env, c: string) {
    StaticallyBuilt(env, c) && Ends(AskLinks(env), c) && TopParent(env, c).None?
  }

  /** The clusters that are built without making a client, each with its kubeconfig. */
  ghost function Early(env: Env): map<string, Kubeconfig> {
    map c | c in env.clusters && BuiltAlone(env, c) :: FirstStatic(env, c, 0).value
  }

  /** What cluster t is read as once the clusters of log are merged. */
  ghost function ReadOf(env: Env, log: seq<string>, t: string): Option<Kubeconfig>
    requires Resolved(Early(env), log) && t in Early(env)
  {
    if t in log then AlreadyBuilt(MergeLog(Early(env), log), t) else Some(Early(env)[t])
  }

  /** No client yet, and exactly the clusters of log are merged. */
  ghost predicate EarlyState(env: Env, s: State, log: seq<string>) {
    && s.client.None? && Clean(env, s) && Records(s.site, Early(env), log)
  }

  lemma EarlySingles(env: Env)
    ensures Singles(Early(env))
  {
  }

  /** The cache test before there is a client. */
  lemma {:induction false} EarlyCache(env: Env, s: State, log: seq<string>, c: string)
    requires EarlyState(env, s, log) && c != ""
    ensures Closed(s.site) && (AlreadyBuilt(s.site, c).Some? <==> c in log)
    ensures c in log ==> c in Early(env) && AlreadyBuilt(s.site, c) == ReadOf(env, log, c)
  {
    hide Clean;
    EarlySingles(env);
    LogContexts(Early(env), log);
    AlreadyBuiltIffContext(s.site, c);
    assert AlreadyBuilt(s.site, c) == AlreadyBuilt(MergeLog(Early(env), log), c);
  }

  /** The build of c, when that makes no client. */
  ghost predicate Alone(env: Env, log: seq<string>, c: string, r: Step)
    requires Resolved(Early(env), log)
  {
    && EarlyState(env, r.state, if c in Early(env) && c !in log then log + [c] else log)
    && (r.outcome.Built? <==> c in Early(env))
    && (r.outcome.Built? ==> r.outcome.context == c && Some(r.outcome.config) == ReadOf(env, log, c))
  }

  lemma {:induction false} BuildAlone(env: Env, s: State, log: seq<string>, c: string)
    requires Ends(AskLinks(env), c) && "" !in env.clusters && env.scratchWritable && ClientsMade(env)
    requires EarlyState(env, s, log) && TopParent(env, c).None?
    ensures Alone(env, log, c, BuildOne(env, s, c))
    decreases Height(AskLinks(env), c), 2, 0
  {
    hide EarlyState, ClientsMade, StaticOffer, Extract, ReadOf;
    if c in env.clusters {
      EarlyCache(env, s, log, c);
      if c !in log {
        AloneThrough(env, s, log, c, 0);
      }
    }
  }

  lemma {:induction false} AloneThrough(env: Env, s: State, log: seq<string>, c: string, i: nat)
    requires c in env.clusters && Ends(AskLinks(env), c) && Reaches(env, c, i)
    requires "" !in env.clusters && env.scratchWritable && ClientsMade(env)
    requires EarlyState(env, s, log) && TopParent(env, c).None? && c !in log
    requires FirstStatic(env, c, 0) == FirstStatic(env, c, i)
    ensures Alone(env, log, c, TrySources(env, s, c, i))
    decreases Height(AskLinks(env), c), 1, |env.clusters[c].sources| - i
  {
    hide EarlyState, ClientsMade, Extract, Records, Clean;
    if i < |env.clusters[c].sources| {
      var source := env.clusters[c].sources[i];
      if source.ClusterAPI? {
        AskFails(env, s, log, c, i);
        AloneThrough(env, TrySource(env, s, c, i).state, log, c, i + 1);
      } else if StaticOffer(env, c, source).None? {
        AloneThrough(env, s, log, c, i + 1);
      } else {
        EarlyMerge(env, s, log, c);
        OfferIsStatic(env, c, i, StaticOffer(env, c, source).value);
      }
    }
  }

  lemma {:induction false} EarlyMerge(env: Env, s: State, log: seq<string>, c: string)
    requires EarlyState(env, s, log) && c in Early(env) && c !in log
    ensures MergeOffer(s, c, Early(env)[c]).outcome == Built(c, Early(env)[c])
    ensures FromStatic(env, Early(env)[c]) ==>
              EarlyState(env, MergeOffer(s, c, Early(env)[c]).state, log + [c])
  {
    MergeSingle(s.site, c, Early(env)[c]);
    RecordMerge(s.site, Early(env), log, c);
    hide FromStatic, Records, Early;
    if FromStatic(env, Early(env)[c]) {
      OverlayIsStatic(env, s.site, Early(env)[c]);
    }
  }

  /** A source that asks the parent in vain merges nothing. */
  lemma {:induction false} AskFails(env: Env, s: State, log: seq<string>, c: string, i: nat)
    requires c in env.clusters && Ends(AskLinks(env), c) && Reaches(env, c, i)
    requires i < |env.clusters[c].sources| && env.clusters[c].sources[i].ClusterAPI?
    requires "" !in env.clusters && env.scratchWritable && ClientsMade(env)
    requires EarlyState(env, s, log) && TopParent(env, c).None?
    ensures TrySource(env, s, c, i).offer.None? && EarlyState(env, TrySource(env, s, c, i).state, log)
    decreases Height(AskLinks(env), c), 0, 1
  {
    hide EarlyState, ClientsMade, Extract;
    if c in Parents(env.clusters) {
      assert Asks(env, c);
      HeightOfNext(AskLinks(env), c);
      BuildAlone(env, s, log, env.clusters[c].parent);
      assert env.clusters[c].parent !in Early(env);
    }
  }

  // ----- The first client -----

  /** Building c after the clusters of log makes the first client, and it is k. */
  ghost predicate FirstMade(env: Env, log: seq<string>, c: string, k: Client) {
    && Ends(AskLinks(env), c) && c in env.clusters && TopParent(env, c).Some?
    && Resolved(Early(env), log)
    && var t := TopParent(env, c).value;
       && t in Early(env) && ReadOf(env, log, t).Some?
       && (t, ReadOf(env, log, t).value) in env.newClients
       && env.newClients[(t, ReadOf(env, log, t).value)] == k
  }

  /** Some order of the clusters makes k first. */
  ghost predicate FirstClient(env: Env, k: Client) {
    exists log, c :: Distinct(log) && FirstMade(env, log, c, k)
  }

  lemma {:induction false} MakesFirst(env: Env, s: State, log: seq<string>, c: string)
    requires Ends(AskLinks(env), c) && "" !in env.clusters && env.scratchWritable && ClientsMade(env)
    requires EarlyState(env, s, log) && TopParent(env, c).Some?
    ensures BuildOne(env, s, c).state.client.Some?
    ensures FirstMade(env, log, c, BuildOne(env, s, c).state.client.value)
    decreases Height(AskLinks(env), c), 2, 0
  {
    hide EarlyState, ClientsMade, FirstMade;
    assert c in env.clusters && c !in Early(env);
    assert Resolved(Early(env), log) by { RecordsResolved(env, s, log); }
    EarlyCache(env, s, log, c);
    MakesThrough(env, s, log, c, 0);
  }

  lemma RecordsResolved(env: Env, s: State, log: seq<string>)
    requires EarlyState(env, s, log)
    ensures Resolved(Early(env), log)
  {
  }

  lemma {:induction false} MakesThrough(env: Env, s: State, log: seq<string>, c: string, i: nat)
    requires Ends(AskLinks(env), c) && "" !in env.clusters && env.scratchWritable && ClientsMade(env)
    requires EarlyState(env, s, log) && TopParent(env, c).Some? && Reaches(env, c, i)
    requires forall j :: 0 <= j < i ==> !env.clusters[c].sources[j].ClusterAPI?
    ensures TrySources(env, s, c, i).state.client.Some?
    ensures FirstMade(env, log, c, TrySources(env, s, c, i).state.client.value)
    decreases Height(AskLinks(env), c), 1, |env.clusters[c].sources| - i
  {
    hide EarlyState, ClientsMade, FirstMade, Extract;
    var j :| 0 <= j < |env.clusters[c].sources| && env.clusters[c].sources[j].ClusterAPI? && Reaches(env, c, j);
    if env.clusters[c].sources[i].ClusterAPI? {
      MakesAt(env, s, log, c, i);
      var a := TrySource(env, s, c, i);
      if a.offer.None? {
        ClientStaysThrough(env, a.state, c, i + 1);
      }
    } else {
      assert StaticOffer(env, c, env.clusters[c].sources[i]).None?;
      MakesThrough(env, s, log, c, i + 1);
    }
  }

  lemma {:induction false} MakesAt(env: Env, s: State, log: seq<string>, c: string, i: nat)
    requires Ends(AskLinks(env), c) && "" !in env.clusters && env.scratchWritable && ClientsMade(env)
    requires EarlyState(env, s, log) && TopParent(env, c).Some? && Reaches(env, c, i)
    requires i < |env.clusters[c].sources| && env.clusters[c].sources[i].ClusterAPI?
    ensures TrySource(env, s, c, i).state.client.Some?
    ensures FirstMade(env, log, c, TrySource(env, s, c, i).state.client.value)
    decreases Height(AskLinks(env), c), 0, 1
  {
    hide EarlyState, ClientsMade, Extract;
    var parent, source := env.clusters[c].parent, env.clusters[c].sources[i];
    HeightOfNext(AskLinks(env), c);
    var r := BuildOne(env, s, parent);
    if TopParent(env, parent).Some? {
      MakesFirst(env, s, log, parent);
    } else {
      ParentMakes(env, s, log, c);
    }
    assert TrySource(env, s, c, i).state == FromClusterAPI(env, s, c, source).state;
  }

  lemma {:induction false} ParentMakes(env: Env, s: State, log: seq<string>, c: string)
    requires Ends(AskLinks(env), c) && "" !in env.clusters && env.scratchWritable && ClientsMade(env)
    requires EarlyState(env, s, log) && Asks(env, c) && Ends(AskLinks(env), env.clusters[c].parent)
    requires TopParent(env, env.clusters[c].parent).None? && TopParent(env, c) == Some(env.clusters[c].parent)
    requires StaticallyBuilt(env, env.clusters[c].parent)
    ensures
      var r := BuildOne(env, s, env.clusters[c].parent);
      && r.outcome.Built? && WithClient(env, r.state, r.outcome).client.Some?
      && FirstMade(env, log, c, WithClient(env, r.state, r.outcome).client.value)
  {
    var parent := env.clusters[c].parent;
    assert parent in Early(env);
    hide FromStatic, BuildOne, Early, ReadOf, Single;
    BuildAlone(env, s, log, parent);
    BuildOneSame(env, s, parent, Client(""));
    assert ReadsParent(env, c, BuildOne(env, s, parent).outcome.config);
  }

  // ----- Runs -----

  ghost predicate AllEnd(env: Env) { forall c :: c in env.clusters ==> Ends(AskLinks(env), c) }

  /** A build of known clusters ends without a client or with a possible first one. */
  lemma {:induction false} RunMakes(env: Env, s: State, log: seq<string>, names: seq<string>)
    requires "" !in env.clusters && env.scratchWritable && ClientsMade(env)
    requires forall c :: c in names ==> c in env.clusters && Ends(AskLinks(env), c)
    requires EarlyState(env, s, log) && Distinct(log)
    ensures
      var end := BuildAll(env, s, names, false).state.client;
      end.Some? ==> FirstClient(env, end.value)
    decreases |names|
  {
    hide Ends, ClientsMade, FirstMade, Early, Records, Clean;
    if names != [] {
      var c, r := names[0], BuildOne(env, s, names[0]);
      if TopParent(env, c).None? {
        BuildAlone(env, s, log, c);
        RunMakes(env, r.state, if c in Early(env) && c !in log then log + [c] else log, names[1..]);
      } else {
        MakesFirst(env, s, log, c);
        ClientStaysAll(env, r.state, names[1..], false);
      }
    }
  }

  /** Clusters of the early kind, named first, are merged as they are named. */
  lemma {:induction false} RunEarly(env: Env, s: State, log: seq<string>, early: seq<string>, rest: seq<string>)
    returns (s': State)
    requires "" !in env.clusters && env.scratchWritable && ClientsMade(env) && AllEnd(env)
    requires EarlyState(env, s, log) && Distinct(early)
    requires forall c :: c in early ==> c in Early(env) && c !in log
    requires forall c :: c in rest ==> c in env.clusters
    ensures EarlyState(env, s', log + early)
    ensures BuildAll(env, s, early + rest, false) == BuildAll(env, s', rest, false)
    decreases |early|
  {
    EarlyInMap(env);
    hide EarlyState, ClientsMade, Early, Ends, BuildAll, BuildOne, AskLinks;
    if early == [] {
      s' := s;
      assert log + early == log && early + rest == rest;
    } else {
      var c := early[0];
      assert log + [c] + early[1..] == log + early && early + rest == [c] + (early[1..] + rest);
      assert c in early && forall x :: x in early[1..] ==> x in early && x != c;
      EarlyStep(env, s, log, c, early[1..] + rest);
      s' := RunEarly(env, BuildOne(env, s, c).state, log + [c], early[1..], rest);
    }
  }

  lemma {:induction false} EarlyStep(env: Env, s: State, log: seq<string>, c: string, rest: seq<string>)
    requires "" !in env.clusters && env.scratchWritable && ClientsMade(env) && AllEnd(env)
    requires EarlyState(env, s, log) && c in Early(env) && c !in log
    requires forall x :: x in rest ==> x in env.clusters
    ensures EarlyState(env, BuildOne(env, s, c).state, log + [c])
    ensures BuildAll(env, s, [c] + rest, false) == BuildAll(env, BuildOne(env, s, c).state, rest, false)
  {
    BuildAlone(env, s, log, c);
    hide EarlyState, ClientsMade, BuildOne, Ends;
    NextName(env, s, c, rest);
  }

  /** The first turn of the loop over the names. */
  lemma NextName(env: Env, s: State, c: string, rest: seq<string>)
    requires Ends(AskLinks(env), c) && forall x :: x in rest ==> Ends(AskLinks(env), x)
    ensures
      var r := BuildOne(env, s, c);
      r.outcome.Built? || r.outcome.error == AllSourcesFailed ==>
        BuildAll(env, s, [c] + rest, false) == BuildAll(env, r.state, rest, false)
  {
    hide Ends, BuildOne;
    assert ([c] + rest)[1..] == rest;
  }

  /** The client that a site-wide build from nothing ends with. */
  ghost function FinalClient(env: Env, names: seq<string>): Option<Client>
    requires forall c :: c in names ==> Ends(AskLinks(env), c)
  {
    BuildAll(env, State(EMPTY_CONFIG, None), names, false).state.client
  }

  /** The given clusters first, then all others. */
  lemma {:induction false} ListedFirst(m: ClusterMap, log: seq<string>, c: string) returns (rest: seq<string>)
    requires Distinct(log) && c !in log && c in m && forall x :: x in log ==> x in m
    ensures Lists(m, log + ([c] + rest)) && forall x :: x in rest ==> x in m
  {
    rest := Listing(m.Keys - {c} - (set x | x in log));
    ThreeDistinct(log, c, rest);
    assert log + [c] + rest == log + ([c] + rest);
  }

  /** Every possible first client is the one that some site-wide build ends with. */
  lemma {:induction false} RunRealises(env: Env, k: Client) returns (names: seq<string>)
    requires "" !in env.clusters && ClientsMade(env) && AllEnd(env) && FirstClient(env, k)
    ensures Lists(env.clusters, names)
    ensures FinalClient(env, names) == Some(k)
  {
    hide ClientsMade, Early, FirstMade, Ends, BuildAll, BuildOne, AskLinks;
    var log, c :| Distinct(log) && FirstMade(env, log, c, k);
    names := RealisesAt(env, log, c, k);
  }

  lemma {:induction false} RealisesAt(env: Env, log: seq<string>, c: string, k: Client) returns (names: seq<string>)
    requires "" !in env.clusters && ClientsMade(env) && AllEnd(env)
    requires Distinct(log) && FirstMade(env, log, c, k)
    ensures Lists(env.clusters, names)
    ensures FinalClient(env, names) == Some(k)
  {
    FirstMadeFacts(env, log, c, k);
    EarlyInMap(env);
    StartsEarly(env);
    hide EarlyState, ClientsMade, Early, FirstMade, Ends, BuildAll, BuildOne, AskLinks, TopParent;
    var rest := ListedFirst(env.clusters, log, c);
    names := log + ([c] + rest);
    RunEnds(env, log, c, k, rest);
  }

  /** The build of log makes no client, and the build of c makes k. */
  lemma {:induction false} RunEnds(env: Env, log: seq<string>, c: string, k: Client, rest: seq<string>)
    requires "" !in env.clusters && ClientsMade(env) && AllEnd(env) && c in env.clusters
    requires Distinct(log) && FirstMade(env, log, c, k) && EarlyState(env, State(EMPTY_CONFIG, None), [])
    requires (forall x :: x in log ==> x in env.clusters) && forall x :: x in rest ==> x in env.clusters
    ensures BuildAll(env, State(EMPTY_CONFIG, None), log + ([c] + rest), false).state.client == Some(k)
  {
    FirstMadeFacts(env, log, c, k);
    hide EarlyState, ClientsMade, Early, FirstMade, Ends, BuildAll, BuildOne, AskLinks, TopParent, Distinct;
    assert [] + log == log;
    var s := RunEarly(env, State(EMPTY_CONFIG, None), [], log, [c] + rest);
    MakesFirst(env, s, log, c);
    LastName(env, s, log, c, k, rest);
  }

  lemma FirstMadeFacts(env: Env, log: seq<string>, c: string, k: Client)
    requires FirstMade(env, log, c, k)
    ensures c in env.clusters && Ends(AskLinks(env), c) && TopParent(env, c).Some? && env.scratchWritable
    ensures c !in log && forall x :: x in log ==> x in Early(env)
  {
    hide ReadOf, Asks, StaticallyBuilt;
  }

  lemma StartsEarly(env: Env)
    ensures EarlyState(env, State(EMPTY_CONFIG, None), [])
  {
  }

  lemma EarlyInMap(env: Env)
    ensures Early(env).Keys <= env.clusters.Keys
  {
  }

  /** The client is made by building c, and stays until the end. */
  lemma {:induction false} LastName(
    env: Env, s: State, log: seq<string>, c: string, k: Client, rest: seq<string>)
    requires AllEnd(env) && c in env.clusters && forall x :: x in rest ==> x in env.clusters
    requires FirstMade(env, log, c, k) && BuildOne(env, s, c).state.client.Some?
    requires FirstMade(env, log, c, BuildOne(env, s, c).state.client.value)
    ensures BuildAll(env, s, [c] + rest, false).state.client == Some(k)
  {
    hide Ends, BuildOne;
    assert ([c] + rest)[1..] == rest;
    ClientStaysAll(env, BuildOne(env, s, c).state, rest, false);
  }

  // ----- The condition -----

  /** The contexts of a site-wide build with client k. */
  ghost function SiteContexts(env: Env, k: Client): map<string, Context> {
    map x | x in Meaning(env, k) && x in Meaning(env, k)[x].contexts :: Meaning(env, k)[x].contexts[x]
  }

  /** All possible first clients resolve the same clusters to the same contexts. */
  ghost predicate FirstClientsAgree(env: Env) {
    forall k, k' :: FirstClient(env, k) && FirstClient(env, k') ==> SiteContexts(env, k) == SiteContexts(env, k')
  }

  lemma GivenContexts(env: Env, k: Client, names: seq<string>)
    requires "" !in env.clusters && AllEnd(env) && Lists(env.clusters, names)
    ensures FreshBuild(env, Some(k), names, false).contexts == SiteContexts(env, k)
  {
    hide Ends, BuildAll, BuildOne, Meaning, Single, FromStatic, OneClient;
    SiteWideYieldsResolvable(env, Some(k), k, names);
    BuildYieldsMeaning(env, Some(k), k, names, false);
    MeaningIsSingles(env, k);
  }

  /** A site-wide build that is given no client, against those that are given one. */
  lemma {:induction false} UngivenBuild(env: Env, names: seq<string>, k: Client)
    requires "" !in env.clusters && ClientsMade(env) && AllEnd(env) && Lists(env.clusters, names)
    ensures FinalClient(env, names).Some? ==> FirstClient(env, FinalClient(env, names).value)
    ensures FinalClient(env, names) == None || FinalClient(env, names) == Some(k) ==>
              FreshBuild(env, None, names, false) == FreshBuild(env, Some(k), names, false)
  {
    var start := State(EMPTY_CONFIG, None);
    assert EarlyState(env, start, []);
    BuildAllSame(env, start, names, false, k);
    if env.scratchWritable {
      RunMakes(env, start, [], names);
    }
  }

  lemma {:induction false} EndContexts(env: Env, names: seq<string>, names': seq<string>)
    requires "" !in env.clusters && ClientsMade(env) && AllEnd(env)
    requires Lists(env.clusters, names) && Lists(env.clusters, names')
    requires FirstClientsAgree(env)
    ensures FreshBuild(env, None, names, false).contexts == FreshBuild(env, None, names', false).contexts
  {
    hide FirstClient, ClientsMade, FreshBuild, FinalClient, SiteContexts;
    var any := Client("");
    UngivenBuild(env, names, any);
    UngivenBuild(env, names', any);
    var f, f' := FinalClient(env, names), FinalClient(env, names');
    var k := if f.Some? then f.value else if f'.Some? then f'.value else any;
    var k' := if f'.Some? then f'.value else k;
    UngivenBuild(env, names, k);
    UngivenBuild(env, names', k');
    GivenContexts(env, k, names);
    GivenContexts(env, k', names');
  }

  /** All orders of the clusters give the same contexts when no client is given. */
  ghost predicate ContextsIndependent(env: Env)
    requires AllEnd(env)
  {
    forall names, names' :: Lists(env.clusters, names) && Lists(env.clusters, names') ==>
      FreshBuild(env, None, names, false).contexts == FreshBuild(env, None, names', false).contexts
  }

  /**
   * Without a given client, the contexts of a site-wide build are the same for
   * all orders of AllClusters exactly when all possible first clients resolve
   * the same clusters to the same contexts.
   */
  lemma {:induction false} ContextsIndependentIff(env: Env)
    requires "" !in env.clusters && ClientsMade(env) && AllEnd(env)
    ensures ContextsIndependent(env) <==>
            FirstClientsAgree(env)
  {
    hide FirstClient, ClientsMade, FreshBuild, FinalClient, SiteContexts;
    if ContextsIndependent(env) {
      forall k, k' | FirstClient(env, k) && FirstClient(env, k') ensures SiteContexts(env, k) == SiteContexts(env, k') {
        var names := RunRealises(env, k);
        var names' := RunRealises(env, k');
        UngivenBuild(env, names, k);
        UngivenBuild(env, names', k');
        GivenContexts(env, k, names);
        GivenContexts(env, k', names');
      }
    }
    if FirstClientsAgree(env) {
      forall names, names' | Lists(env.clusters, names) && Lists(env.clusters, names')
        ensures FreshBuild(env, None, names, false).contexts == FreshBuild(env, None, names', false).contexts
      {
        EndContexts(env, names, names');
      }
    }
  }
}
