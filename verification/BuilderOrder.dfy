/** When the order of AllClusters shows in a site-wide kubeconfig. */
module BuilderOrder {
  import opened Wrappers
  import opened Chains
  import opened ClusterMaps
  import opened Kubeconfigs
  import opened BuilderSpec
  import opened BuilderClients
  import opened BuilderProofs
  import opened BuilderTheorems

  // ----- Logs hold each cluster once, after all that it brings in -----

  ghost predicate Ordered(next: Links, meaning: map<string, Kubeconfig>, log: seq<string>) {
    && Distinct(log)
    && forall i, x :: 0 <= i < |log| && Brings(next, meaning, log[i], x) && x != log[i] ==> x in log[..i]
  }

  lemma OrderedSnoc(next: Links, meaning: map<string, Kubeconfig>, log: seq<string>, c: string)
    requires Ordered(next, meaning, log) && c !in log
    requires forall x :: Brings(next, meaning, c, x) && x != c ==> x in log
    ensures Ordered(next, meaning, log + [c])
  {
    hide Brings;
    var more := log + [c];
    forall i, x | 0 <= i < |more| && Brings(next, meaning, more[i], x) && x != more[i] ensures x in more[..i] {
      assert more[..i] == log[..i];
      assert log[..|log|] == log;
    }
  }

  lemma {:induction false} NewLogOrdered(next: Links, meaning: map<string, Kubeconfig>, log: seq<string>, c: string)
    requires Ends(next, c) && Ordered(next, meaning, log) && Complete(next, meaning, log)
    ensures Ordered(next, meaning, log + NewLog(next, meaning, log, c))
    decreases Height(next, c)
  {
    hide Ordered, Complete, Ends;
    assert log + [] == log;
    if c !in log {
      var before := log;
      if c in next {
        HeightOfNext(next, c);
        NewLogOrdered(next, meaning, log, next[c]);
        NewLogNames(next, meaning, log, next[c]);
        if c in Visited(next, next[c]) {
          VisitedAreLower(next, next[c], c);
          assert false;
        }
        before := log + NewLog(next, meaning, log, next[c]);
      }
      if c in meaning {
        OrderedSnoc(next, meaning, before, c);
        assert log + NewLog(next, meaning, log, c) == before + [c];
      } else {
        assert log + NewLog(next, meaning, log, c) == before;
      }
    }
  }

  lemma {:induction false} RunLogOrdered(
    next: Links, meaning: map<string, Kubeconfig>, log: seq<string>, names: seq<string>)
    requires forall c :: c in names ==> Ends(next, c)
    requires Ordered(next, meaning, log) && Complete(next, meaning, log)
    ensures Ordered(next, meaning, RunLog(next, meaning, log, names))
    decreases |names|
  {
    hide Ordered, Complete;
    if names != [] {
      NewLogOrdered(next, meaning, log, names[0]);
      NewLogComplete(next, meaning, log, names[0]);
      RunLogOrdered(next, meaning, log + NewLog(next, meaning, log, names[0]), names[1..]);
    }
  }

  // ----- Who is merged last -----

  /** x has key u, and no cluster that brings x in has it. */
  ghost predicate Top<V>(
    next: Links, meaning: map<string, Kubeconfig>, parts: map<string, map<string, V>>, x: string, u: string) {
    && x in parts && u in parts[x]
    && forall z :: z in parts && z != x && Brings(next, meaning, z, x) ==> u !in parts[z]
  }

  ghost predicate TopsAgree<V(!new)>(
    next: Links, meaning: map<string, Kubeconfig>, parts: map<string, map<string, V>>) {
    forall x, y, u :: Top(next, meaning, parts, x, u) && Top(next, meaning, parts, y, u) ==> parts[x][u] == parts[y][u]
  }

  lemma {:induction false} LastHolder<V>(
    parts: map<string, map<string, V>>, log: seq<string>, u: string) returns (p: nat)
    requires forall x :: x in log ==> x in parts
    requires u in Stack(parts, log)
    ensures p < |log| && u in parts[log[p]] && Stack(parts, log)[u] == parts[log[p]][u]
    ensures forall j :: p < j < |log| ==> u !in parts[log[j]]
  {
    p := |log| - 1;
    if u !in parts[log[p]] {
      p := LastHolder(parts, log[..p], u);
    }
  }

  /** The log of a site-wide build. */
  ghost predicate WholeLog(next: Links, meaning: map<string, Kubeconfig>, log: seq<string>) {
    Ordered(next, meaning, log) && forall x :: x in log <==> x in meaning
  }

  lemma {:induction false} LastIsTop<V>(
    next: Links, meaning: map<string, Kubeconfig>, parts: map<string, map<string, V>>, log: seq<string>, u: string)
    returns (x: string)
    requires parts.Keys == meaning.Keys && WholeLog(next, meaning, log) && u in Stack(parts, log)
    ensures Top(next, meaning, parts, x, u) && Stack(parts, log)[u] == parts[x][u]
  {
    var p := LastHolder(parts, log, u);
    x := log[p];
    forall z | z in parts && z != x && Brings(next, meaning, z, x) ensures u !in parts[z] {
      var q :| 0 <= q < |log| && log[q] == z;
      if q < p {
        assert false;
      }
    }
  }

  lemma {:induction false} SameStacks<V(!new)>(
    next: Links, meaning: map<string, Kubeconfig>, parts: map<string, map<string, V>>,
    log: seq<string>, log': seq<string>)
    requires parts.Keys == meaning.Keys && TopsAgree(next, meaning, parts)
    requires WholeLog(next, meaning, log) && WholeLog(next, meaning, log')
    ensures Stack(parts, log) == Stack(parts, log')
  {
    hide Top, Brings;
    forall u | u in Stack(parts, log)
      ensures u in Stack(parts, log') && Stack(parts, log')[u] == Stack(parts, log)[u]
    {
      var p := LastHolder(parts, log, u);
      StackHas(parts, log', log[p], u);
      var x := LastIsTop(next, meaning, parts, log, u);
      var x' := LastIsTop(next, meaning, parts, log', u);
    }
    forall u | u in Stack(parts, log') ensures u in Stack(parts, log) {
      var p := LastHolder(parts, log', u);
      StackHas(parts, log, log'[p], u);
    }
  }

  // ----- An order that merges a given top last -----

  lemma {:induction false} RunLogAppend(
    next: Links, meaning: map<string, Kubeconfig>, log: seq<string>, a: seq<string>, b: seq<string>)
    requires forall c :: c in a + b ==> Ends(next, c)
    ensures RunLog(next, meaning, log, a + b) == RunLog(next, meaning, RunLog(next, meaning, log, a), b)
    decreases |a|
  {
    if a == [] {
      assert a + b == b;
    } else {
      assert (a + b)[1..] == a[1..] + b;
      RunLogAppend(next, meaning, log + NewLog(next, meaning, log, a[0]), a[1..], b);
    }
  }

  lemma {:induction false} RunLogExtends(
    next: Links, meaning: map<string, Kubeconfig>, log: seq<string>, names: seq<string>)
    requires forall c :: c in names ==> Ends(next, c)
    ensures log <= RunLog(next, meaning, log, names)
    decreases |names|
  {
    if names != [] {
      RunLogExtends(next, meaning, log + NewLog(next, meaning, log, names[0]), names[1..]);
    }
  }

  lemma {:induction false} StackTail<V>(
    parts: map<string, map<string, V>>, log: seq<string>, longer: seq<string>, u: string)
    requires forall x :: x in longer ==> x in parts
    requires log <= longer && forall j :: |log| <= j < |longer| ==> u !in parts[longer[j]]
    requires u in Stack(parts, log)
    ensures u in Stack(parts, longer) && Stack(parts, longer)[u] == Stack(parts, log)[u]
    decreases |longer|
  {
    if |log| < |longer| {
      StackTail(parts, log, longer[..|longer| - 1], u);
    } else {
      assert log == longer;
    }
  }

  lemma {:induction false} Listing(names: set<string>) returns (s: seq<string>)
    ensures Distinct(s) && forall c :: c in s <==> c in names
    decreases |names|
  {
    s := [];
    if names != {} {
      var c :| c in names;
      var rest := Listing(names - {c});
      s := [c] + rest;
    }
  }

  lemma ThreeDistinct(a: seq<string>, x: string, b: seq<string>)
    requires Distinct(a) && Distinct(b) && x !in a && x !in b && forall c :: c in a ==> c !in b
    ensures Distinct(a + [x] + b)
  {
    var all := a + [x] + b;
    forall i, j | 0 <= i < j < |all| ensures all[i] != all[j] {
      assert i < |a| ==> all[i] in a;
      assert |a| < j ==> all[j] == b[j - |a| - 1] && all[j] in b;
    }
  }

  lemma NothingLogged(next: Links, meaning: map<string, Kubeconfig>)
    ensures Ordered(next, meaning, []) && Complete(next, meaning, [])
  {
  }

  /** Building the clusters that do not bring x in, and then x, merges x last. */
  lemma {:induction false} MergesLast(
    next: Links, meaning: map<string, Kubeconfig>, first: seq<string>, x: string)
    requires (forall c :: c in first ==> Ends(next, c) && x !in Visited(next, c)) && Ends(next, x) && x in meaning
    ensures
      var log := RunLog(next, meaning, [], first + [x]);
      && log != [] && log[|log| - 1] == x
      && forall c :: c in first && c in meaning ==> c in log
  {
    var log0 := RunLog(next, meaning, [], first);
    RunLogAppend(next, meaning, [], first, [x]);
    assert [x][1..] == [];
    NothingLogged(next, meaning);
    RunLogNames(next, meaning, [], first);
    assert x !in log0;
    var added := NewLog(next, meaning, log0, x);
    assert added[|added| - 1] == x;
    forall c | c in first && c in meaning ensures c in log0 {
      assert Brings(next, meaning, c, c);
    }
  }

  /** First all clusters that do not bring x in, then x, then those that do. */
  lemma {:induction false} TopMergedLast<V>(
    next: Links, meaning: map<string, Kubeconfig>, parts: map<string, map<string, V>>,
    m: ClusterMap, x: string, u: string)
    returns (names: seq<string>)
    requires parts.Keys == meaning.Keys && meaning.Keys <= m.Keys && (forall c :: c in m ==> Ends(next, c))
    requires Top(next, meaning, parts, x, u)
    ensures Lists(m, names) && forall c :: c in names ==> Ends(next, c)
    ensures
      var log := RunLog(next, meaning, [], names);
      WholeLog(next, meaning, log) && u in Stack(parts, log) && Stack(parts, log)[u] == parts[x][u]
  {
    hide Ends;
    var early := set c | c in m && x !in Visited(next, c);
    var first := Listing(early);
    var last := Listing(m.Keys - early - {x});
    names := first + [x] + last;
    ThreeDistinct(first, x, last);
    var log1 := RunLog(next, meaning, [], first + [x]);
    var log := RunLog(next, meaning, [], names);
    MergesLast(next, meaning, first, x);
    RunLogAppend(next, meaning, [], first + [x], last);
    RunLogExtends(next, meaning, log1, last);
    WholeBuildLog(next, meaning, m, names);
    hide Ordered, RunLog, Top;
    LaterBringIn(next, meaning, m, log1, log, x);
    NoLaterHolder(next, meaning, parts, log1, log, x, u);
    StackTail(parts, log1, log, u);
  }

  /** Whatever is merged after x brings x in. */
  lemma {:induction false} LaterBringIn(
    next: Links, meaning: map<string, Kubeconfig>, m: ClusterMap, log1: seq<string>, log: seq<string>, x: string)
    requires meaning.Keys <= m.Keys && (forall c :: c in m ==> Ends(next, c)) && x in meaning && x in log1
    requires WholeLog(next, meaning, log) && log1 <= log
    requires forall c :: c in m && x !in Visited(next, c) && c in meaning ==> c in log1
    ensures forall j :: |log1| <= j < |log| ==> log[j] != x && Brings(next, meaning, log[j], x)
  {
    hide Ends;
    forall j | |log1| <= j < |log| ensures log[j] != x && Brings(next, meaning, log[j], x) {
      var w := log[j];
      if w in log1 {
        assert false;
      }
      assert w in meaning && x in Visited(next, w);
    }
  }

  lemma {:induction false} NoLaterHolder<V>(
    next: Links, meaning: map<string, Kubeconfig>, parts: map<string, map<string, V>>,
    log1: seq<string>, log: seq<string>, x: string, u: string)
    requires parts.Keys == meaning.Keys && Top(next, meaning, parts, x, u) && WholeLog(next, meaning, log)
    requires forall j :: |log1| <= j < |log| ==> log[j] != x && Brings(next, meaning, log[j], x)
    ensures forall j :: |log1| <= j < |log| ==> u !in parts[log[j]]
  {
    hide Ordered;
  }

  lemma {:induction false} WholeBuildLog(
    next: Links, meaning: map<string, Kubeconfig>, m: ClusterMap, names: seq<string>)
    requires meaning.Keys <= m.Keys && Lists(m, names) && forall c :: c in names ==> Ends(next, c)
    ensures WholeLog(next, meaning, RunLog(next, meaning, [], names))
  {
    hide Ends, Ordered;
    var log := RunLog(next, meaning, [], names);
    NothingLogged(next, meaning);
    RunLogOrdered(next, meaning, [], names);
    RunLogNames(next, meaning, [], names);
    forall x ensures x in log <==> x in meaning {
      if x in meaning {
        assert x in names && x in Visited(next, x) && Brings(next, meaning, x, x);
      }
    }
  }

  // ----- The condition, for builds -----

  lemma {:induction false} FreshIsStacks(env: Env, client: Option<Client>, k: Client, names: seq<string>)
    requires "" !in env.clusters && Settles(env, client, k) && Lists(env.clusters, names)
    requires forall c :: c in names ==> Ends(AskLinks(env), c)
    ensures
      var meaning := Meaning(env, k);
      var log := RunLog(AskLinks(env), meaning, [], names);
      && WholeLog(AskLinks(env), meaning, log)
      && FreshBuild(env, client, names, false) ==
         Kubeconfig(Stack(Contexts(meaning), log), Stack(Users(meaning), log), Stack(Endpoints(meaning), log), "")
  {
    var meaning := Meaning(env, k);
    var log := RunLog(AskLinks(env), meaning, [], names);
    BuildAllCorrect(env, k, State(EMPTY_CONFIG, client), [], names, false);
    SiteWideCurrent(env, State(EMPTY_CONFIG, client), names);
    LogIsStacks(meaning, log);
    WholeBuildLog(AskLinks(env), meaning, env.clusters, names);
  }

  /** All orders of the clusters give the same site-wide kubeconfig. */
  ghost predicate OrderIndependent(env: Env, client: Option<Client>)
    requires forall c :: c in env.clusters ==> Ends(AskLinks(env), c)
  {
    forall names, names' :: Lists(env.clusters, names) && Lists(env.clusters, names') ==>
      FreshBuild(env, client, names, false) == FreshBuild(env, client, names', false)
  }

  /**
   * With the client settled, the site-wide kubeconfig is the same for all orders
   * of AllClusters exactly when any two resolvable clusters that share a user
   * or endpoint name agree on its entry, unless a cluster that is built through
   * one of them holds the name as well.
   */
  lemma {:induction false} OrderIndependentIff(env: Env, client: Option<Client>, k: Client)
    requires "" !in env.clusters && forall c :: c in env.clusters ==> Ends(AskLinks(env), c)
    requires Settles(env, client, k)
    ensures OrderIndependent(env, client) <==>
              TopsAgree(AskLinks(env), Meaning(env, k), Users(Meaning(env, k))) &&
              TopsAgree(AskLinks(env), Meaning(env, k), Endpoints(Meaning(env, k)))
  {
    hide Ends, WholeLog, Stack, Meaning, AskLinks, FreshBuild, Settles;
    var next, meaning := AskLinks(env), Meaning(env, k);
    MeaningInMap(env, k);
    if TopsAgree(next, meaning, Users(meaning)) && TopsAgree(next, meaning, Endpoints(meaning)) {
      forall names, names' | Lists(env.clusters, names) && Lists(env.clusters, names')
        ensures FreshBuild(env, client, names, false) == FreshBuild(env, client, names', false)
      {
        SiteWideOrderIndependent(env, client, k, names, names');
        FreshIsStacks(env, client, k, names);
        FreshIsStacks(env, client, k, names');
        var log, log' := RunLog(next, meaning, [], names), RunLog(next, meaning, [], names');
        SameStacks(next, meaning, Users(meaning), log, log');
        SameStacks(next, meaning, Endpoints(meaning), log, log');
      }
    }
    if OrderIndependent(env, client) {
      forall x, y, u | Top(next, meaning, Users(meaning), x, u) && Top(next, meaning, Users(meaning), y, u)
        ensures Users(meaning)[x][u] == Users(meaning)[y][u]
      {
        var names := TopMergedLast(next, meaning, Users(meaning), env.clusters, x, u);
        var names' := TopMergedLast(next, meaning, Users(meaning), env.clusters, y, u);
        FreshIsStacks(env, client, k, names);
        FreshIsStacks(env, client, k, names');
      }
      forall x, y, u | Top(next, meaning, Endpoints(meaning), x, u) && Top(next, meaning, Endpoints(meaning), y, u)
        ensures Endpoints(meaning)[x][u] == Endpoints(meaning)[y][u]
      {
        var names := TopMergedLast(next, meaning, Endpoints(meaning), env.clusters, x, u);
        var names' := TopMergedLast(next, meaning, Endpoints(meaning), env.clusters, y, u);
        FreshIsStacks(env, client, k, names);
        FreshIsStacks(env, client, k, names');
      }
    }
  }

  lemma MeaningInMap(env: Env, k: Client)
    ensures Meaning(env, k).Keys <= env.clusters.Keys
  {
  }
}
