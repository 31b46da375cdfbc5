/** Whole builds: which contexts a site kubeconfig ends up with, in any order. */
module BuilderTheorems {
  import opened Wrappers
  import opened Chains
  import opened ClusterMaps
  import opened Kubeconfigs
  import opened BuilderSpec
  import opened BuilderClients
  import opened BuilderProofs

  // ----- Validation makes every build end -----

  /**
   * On a map that ValidateClusterMap accepts, every chain of parents that a
   * build follows ends, after at most as many clusters as the map holds.
   */
  lemma ValidatedMapBuilds(env: Env, c: string)
    requires ParentsDefined(env.clusters) && !Cyclic(Parents(env.clusters))
    ensures Ends(AskLinks(env), c)
    ensures c in env.clusters ==> Height(AskLinks(env), c) <= |env.clusters|
  {
    AcyclicIffAllEnd(Parents(env.clusters));
    FewerLinksEnd(AskLinks(env), Parents(env.clusters), c);
    if c in env.clusters {
      HeightBound(AskLinks(env), c, env.clusters.Keys);
    }
  }

  // ----- Logs of whole builds -----

  ghost function RunLog(
    next: Links, meaning: map<string, Kubeconfig>, log: seq<string>, names: seq<string>): seq<string>
    requires forall c :: c in names ==> Ends(next, c)
    decreases |names|
  {
    if names == [] then log
    else RunLog(next, meaning, log + NewLog(next, meaning, log, names[0]), names[1..])
  }

  /** A build whose names are all in the map merges exactly RunLog. */
  lemma {:induction false} BuildAllCorrect(
    env: Env, k: Client, s: State, log: seq<string>, names: seq<string>, single: bool)
    requires "" !in env.clusters && Decided(env, k, s)
    requires forall c :: c in names ==> c in env.clusters && Ends(AskLinks(env), c)
    requires Records(s.site, Meaning(env, k), log)
    ensures
      var r := BuildAll(env, s, names, single);
      && r.error.None? && Decided(env, k, r.state)
      && Records(r.state.site, Meaning(env, k), RunLog(AskLinks(env), Meaning(env, k), log, names))
    decreases |names|
  {
    hide Ends, BuildOne, Meaning, FromStatic, OneClient, Single, Extends, NewLog, AskLinks, MergeLog;
    if names != [] {
      var r := BuildOne(env, s, names[0]);
      BuildOneCorrect(env, k, s, log, names[0]);
      MeaningIsSingles(env, k);
      LogContexts(Meaning(env, k), log);
      BuildOneKeepsClosed(env, s, names[0]);
      var context := if r.outcome.Built? then r.outcome.context else "";
      var s' := if single then r.state.(site := r.state.site.(currentContext := context)) else r.state;
      OtherCurrent(env, r.state.site, context);
      BuildAllCorrect(env, k, s', log + NewLog(AskLinks(env), Meaning(env, k), log, names[0]), names[1..], single);
    }
  }

  /** x is brought in by building c. */
  ghost predicate Brings(next: Links, meaning: map<string, Kubeconfig>, c: string, x: string) {
    Ends(next, c) && x in Visited(next, c) && x in meaning
  }

  /** All that a logged cluster brings in is logged. */
  ghost predicate Complete(next: Links, meaning: map<string, Kubeconfig>, log: seq<string>) {
    forall c, x :: c in log && Brings(next, meaning, c, x) ==> x in log
  }

  lemma {:induction false} NewLogNames(next: Links, meaning: map<string, Kubeconfig>, log: seq<string>, c: string)
    requires Ends(next, c) && Complete(next, meaning, log)
    ensures forall x :: x in log + NewLog(next, meaning, log, c) <==> x in log || Brings(next, meaning, c, x)
    decreases Height(next, c)
  {
    if c in log {
      assert forall x :: Brings(next, meaning, c, x) ==> x in log;
    } else if c in next {
      HeightOfNext(next, c);
      NewLogNames(next, meaning, log, next[c]);
    }
  }

  lemma {:induction false} BringsTransitive(
    next: Links, meaning: map<string, Kubeconfig>, c: string, d: string, x: string)
    requires Brings(next, meaning, c, d) && Brings(next, meaning, d, x)
    ensures Brings(next, meaning, c, x)
  {
    VisitedAreLower(next, c, d);
  }

  lemma {:induction false} NewLogComplete(next: Links, meaning: map<string, Kubeconfig>, log: seq<string>, c: string)
    requires Ends(next, c) && Complete(next, meaning, log)
    ensures Complete(next, meaning, log + NewLog(next, meaning, log, c))
  {
    var log' := log + NewLog(next, meaning, log, c);
    NewLogNames(next, meaning, log, c);
    forall d, x | d in log' && Brings(next, meaning, d, x) ensures x in log' {
      if d !in log {
        BringsTransitive(next, meaning, c, d, x);
      }
    }
  }

  lemma {:induction false} RunLogNames(
    next: Links, meaning: map<string, Kubeconfig>, log: seq<string>, names: seq<string>)
    requires forall c :: c in names ==> Ends(next, c)
    requires Complete(next, meaning, log)
    ensures forall x :: x in RunLog(next, meaning, log, names) <==>
              x in log || exists c :: c in names && Brings(next, meaning, c, x)
    decreases |names|
  {
    if names != [] {
      var log' := log + NewLog(next, meaning, log, names[0]);
      NewLogNames(next, meaning, log, names[0]);
      NewLogComplete(next, meaning, log, names[0]);
      RunLogNames(next, meaning, log', names[1..]);
      forall x ensures x in RunLog(next, meaning, log, names) <==>
                       x in log || exists c :: c in names && Brings(next, meaning, c, x)
      {
        if exists c :: c in names && Brings(next, meaning, c, x) {
          var c :| c in names && Brings(next, meaning, c, x);
          assert c == names[0] || c in names[1..];
        }
        if x in RunLog(next, meaning, log, names) && x !in log {
          assert names[0] in names;
        }
      }
    }
  }

  // ----- What a build yields -----

  ghost function FreshBuild(env: Env, client: Option<Client>, names: seq<string>, single: bool): Kubeconfig
    requires forall c :: c in names ==> Ends(AskLinks(env), c)
  {
    BuildAll(env, State(EMPTY_CONFIG, client), names, single).state.site
  }

  /** k is given, or no client is given and k is the only one that can be made. */
  ghost predicate Settles(env: Env, client: Option<Client>, k: Client) {
    client == Some(k) || (client == None && OneClient(env, k))
  }

  /**
   * With the client settled, a build of known names holds exactly the contexts
   * that the memo-free meaning accepts among those names and the parents that
   * they ask for, each with the entry of its own kubeconfig.
   */
  lemma BuildYieldsMeaning(env: Env, client: Option<Client>, k: Client, names: seq<string>, single: bool)
    requires "" !in env.clusters && Settles(env, client, k)
    requires forall c :: c in names ==> c in env.clusters && Ends(AskLinks(env), c)
    ensures
      var site := FreshBuild(env, client, names, single);
      && (forall x :: x in site.contexts <==>
            exists c :: c in names && Brings(AskLinks(env), Meaning(env, k), c, x))
      && (forall x :: x in site.contexts ==>
            x in Meaning(env, k) && x in Meaning(env, k)[x].contexts &&
            site.contexts[x] == Meaning(env, k)[x].contexts[x])
  {
    var next, meaning := AskLinks(env), Meaning(env, k);
    MeaningIsSingles(env, k);
    BuildAllCorrect(env, k, State(EMPTY_CONFIG, client), [], names, single);
    RunLogNames(next, meaning, [], names);
    LogContexts(meaning, RunLog(next, meaning, [], names));
  }

  /** A site-wide build holds exactly the resolvable clusters, whatever the order. */
  lemma SiteWideYieldsResolvable(env: Env, client: Option<Client>, k: Client, names: seq<string>)
    requires "" !in env.clusters && Settles(env, client, k) && Lists(env.clusters, names)
    requires forall c :: c in names ==> Ends(AskLinks(env), c)
    ensures FreshBuild(env, client, names, false).contexts.Keys == Meaning(env, k).Keys
  {
    BuildYieldsMeaning(env, client, k, names, false);
    forall x | x in Meaning(env, k) ensures x in FreshBuild(env, client, names, false).contexts {
      assert x in names && Brings(AskLinks(env), Meaning(env, k), x, x);
    }
  }

  /** Parts that share a key agree on its entry. */
  ghost predicate PartsAgree<V>(parts: map<string, map<string, V>>) {
    forall x, y, u :: x in parts && y in parts && u in parts[x] && u in parts[y] ==>
      parts[x][u] == parts[y][u]
  }

  ghost function Users(meaning: map<string, Kubeconfig>): map<string, map<string, AuthInfo>> {
    map x | x in meaning :: meaning[x].authInfos
  }

  ghost function Endpoints(meaning: map<string, Kubeconfig>): map<string, map<string, Endpoint>> {
    map x | x in meaning :: meaning[x].clusters
  }

  ghost function Contexts(meaning: map<string, Kubeconfig>): map<string, map<string, Context>> {
    map x | x in meaning :: meaning[x].contexts
  }

  /** Parts laid over one another in the order of the log. */
  ghost function Stack<V>(parts: map<string, map<string, V>>, log: seq<string>): map<string, V>
    requires forall x :: x in log ==> x in parts
  {
    if log == [] then map[] else Stack(parts, log[..|log| - 1]) + parts[log[|log| - 1]]
  }

  lemma {:induction false} StackSource<V>(
    parts: map<string, map<string, V>>, log: seq<string>, u: string) returns (x: string)
    requires forall x :: x in log ==> x in parts
    requires u in Stack(parts, log)
    ensures x in log && u in parts[x] && parts[x][u] == Stack(parts, log)[u]
  {
    x := log[|log| - 1];
    if u !in parts[x] {
      x := StackSource(parts, log[..|log| - 1], u);
    }
  }

  lemma {:induction false} StackHas<V>(parts: map<string, map<string, V>>, log: seq<string>, x: string, u: string)
    requires forall x :: x in log ==> x in parts
    requires x in log && u in parts[x]
    ensures u in Stack(parts, log)
  {
    if x != log[|log| - 1] {
      StackHas(parts, log[..|log| - 1], x, u);
    }
  }

  /** Agreeing parts give the same stack in any order, and repeats do not matter. */
  lemma {:induction false} StackOrder<V>(parts: map<string, map<string, V>>, log: seq<string>, log': seq<string>)
    requires PartsAgree(parts)
    requires forall x :: x in log ==> x in parts
    requires forall x :: x in log <==> x in log'
    ensures Stack(parts, log) == Stack(parts, log')
  {
    forall u | u in Stack(parts, log)
      ensures u in Stack(parts, log') && Stack(parts, log')[u] == Stack(parts, log)[u]
    {
      var x := StackSource(parts, log, u);
      StackHas(parts, log', x, u);
      var x' := StackSource(parts, log', u);
    }
    forall u | u in Stack(parts, log') ensures u in Stack(parts, log) {
      var x := StackSource(parts, log', u);
      StackHas(parts, log, x, u);
    }
  }

  lemma {:induction false} LogIsStacks(meaning: map<string, Kubeconfig>, log: seq<string>)
    requires Resolved(meaning, log)
    ensures MergeLog(meaning, log) ==
              Kubeconfig(Stack(Contexts(meaning), log), Stack(Users(meaning), log), Stack(Endpoints(meaning), log), "")
  {
    if log != [] {
      LogIsStacks(meaning, log[..|log| - 1]);
    }
  }

  /** The contexts of a site-wide build do not depend on the order of AllClusters. */
  lemma SiteWideOrderIndependent(env: Env, client: Option<Client>, k: Client, names: seq<string>, names': seq<string>)
    requires "" !in env.clusters && Settles(env, client, k) && Lists(env.clusters, names) && Lists(env.clusters, names')
    requires forall c :: c in names ==> Ends(AskLinks(env), c)
    ensures FreshBuild(env, client, names, false).contexts == FreshBuild(env, client, names', false).contexts
  {
    var next, meaning := AskLinks(env), Meaning(env, k);
    var start := State(EMPTY_CONFIG, client);
    var log, log' := RunLog(next, meaning, [], names), RunLog(next, meaning, [], names');
    MeaningIsSingles(env, k);
    BuildAllCorrect(env, k, start, [], names, false);
    BuildAllCorrect(env, k, start, [], names', false);
    RunLogNames(next, meaning, [], names);
    RunLogNames(next, meaning, [], names');
    SameContexts(meaning, log, log');
  }

  lemma {:induction false} SameContexts(meaning: map<string, Kubeconfig>, log: seq<string>, log': seq<string>)
    requires Singles(meaning) && Resolved(meaning, log)
    requires forall x :: x in log <==> x in log'
    ensures MergeLog(meaning, log).contexts == MergeLog(meaning, log').contexts
  {
    LogIsStacks(meaning, log);
    LogIsStacks(meaning, log');
    StackOrder(Contexts(meaning), log, log');
  }

  lemma {:induction false} SiteWideCurrent(env: Env, s: State, names: seq<string>)
    requires forall c :: c in names ==> Ends(AskLinks(env), c)
    requires Closed(s.site)
    ensures BuildAll(env, s, names, false).state.site.currentContext == s.site.currentContext
    decreases |names|
  {
    if names != [] {
      BuildOneKeepsClosed(env, s, names[0]);
      SiteWideCurrent(env, BuildOne(env, s, names[0]).state, names[1..]);
    }
  }
}
