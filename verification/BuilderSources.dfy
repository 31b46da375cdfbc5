/** What a build holds, told by the sources themselves: files, the bundle and the secrets. */
module BuilderSources {
  import opened Wrappers
  import opened Chains
  import opened ClusterMaps
  import opened Kubeconfigs
  import opened BuilderSpec
  import opened BuilderClients
  import opened BuilderProofs
  import opened BuilderTheorems

  /**
   * Source i of c reads the kubeconfig src with client k, once the clusters
   * of present are built; name is the context that the source gives.
   */
  ghost predicate Reads(
    env: Env, k: Client, present: set<string>, c: string, i: nat, src: Kubeconfig, name: string)
    requires c in env.clusters && i < |env.clusters[c].sources|
  {
    match env.clusters[c].sources[i]
    case FileSystem(path, context) => path in env.files && src == env.files[path] && name == context
    case Bundle(context) => env.bundle == Some(src) && name == context
    case ClusterAPI(namespace, cluster) =>
      && env.clusters[c].parent != "" && env.clusters[c].parent in present && env.scratchWritable
      && cluster != "" && name == ""
      && var key := (k, if namespace == "" then "default" else namespace, cluster + "-kubeconfig");
         key in env.secrets && src == env.secrets[key]
    case UnknownType(_) => false
  }

  /** one is what source i of c gives: the selected context, with its user and endpoint, named c. */
  ghost predicate Supplies(env: Env, k: Client, present: set<string>, c: string, i: nat, one: Kubeconfig)
    requires c in env.clusters && i < |env.clusters[c].sources|
  {
    exists src, name, x :: Reads(env, k, present, c, i, src, name) && Selects(src, name, x) && Takes(one, c, src, x)
  }

  /** one is what the first source of c that gives anything gives. */
  ghost predicate FirstSupply(env: Env, k: Client, present: set<string>, c: string, one: Kubeconfig)
    requires c in env.clusters
  {
    exists i :: 0 <= i < |env.clusters[c].sources| && Supplies(env, k, present, c, i, one) &&
                forall j, other :: 0 <= j < i ==> !Supplies(env, k, present, c, j, other)
  }

  // ----- Each source against the meaning -----

  lemma {:induction false} StaticSupplies(
    env: Env, k: Client, present: set<string>, c: string, i: nat, one: Kubeconfig)
    requires c in env.clusters && i < |env.clusters[c].sources| && !env.clusters[c].sources[i].ClusterAPI?
    ensures StaticOffer(env, c, env.clusters[c].sources[i]) == Some(one) <==> Supplies(env, k, present, c, i, one)
  {
    match env.clusters[c].sources[i]
    case FileSystem(path, name) =>
      if path in env.files { Extracted(env, k, present, c, i, env.files[path], name, one); }
    case Bundle(name) =>
      if env.bundle.Some? { Extracted(env, k, present, c, i, env.bundle.value, name, one); }
    case UnknownType(_) =>
  }

  lemma {:induction false} Extracted(
    env: Env, k: Client, present: set<string>, c: string, i: nat, src: Kubeconfig, name: string, one: Kubeconfig)
    requires c in env.clusters && i < |env.clusters[c].sources|
    requires forall s, n :: Reads(env, k, present, c, i, s, n) <==> s == src && n == name
    ensures Extract(c, name, src) == Some(one) <==> Supplies(env, k, present, c, i, one)
  {
    hide Reads, Extract, Selects, Takes;
    ExtractExact(c, name, src, one);
  }

  /** A source that is reached offers what it supplies, if the parent is present exactly when it resolves. */
  lemma {:induction false} OfferSupplies(
    env: Env, k: Client, present: set<string>, c: string, i: nat, one: Kubeconfig)
    requires c in env.clusters && Ends(AskLinks(env), c)
    requires i < |env.clusters[c].sources| && Reaches(env, c, i)
    requires Asks(env, c) ==>
               (env.clusters[c].parent in present <==> env.clusters[c].parent in Meaning(env, k))
    ensures Offer(env, k, c, i) == Some(one) <==> Supplies(env, k, present, c, i, one)
  {
    var source, parent := env.clusters[c].sources[i], env.clusters[c].parent;
    if !source.ClusterAPI? {
      StaticSupplies(env, k, present, c, i, one);
    } else if parent != "" {
      assert c in Parents(env.clusters) && Asks(env, c);
      ParentEnds(env, c);
      MeaningOf(env, k, parent);
      hide Meaning, Ends, AskLinks, Resolve, Extract, Selects, Takes;
      var secret := SecretOf(env, k, source.namespace, source.name);
      if parent in present && env.scratchWritable && secret.Some? {
        Extracted(env, k, present, c, i, secret.value, "", one);
      }
    }
  }

  lemma {:induction false} ResolveSupplies(
    env: Env, k: Client, present: set<string>, c: string, i: nat, one: Kubeconfig)
    requires c in env.clusters && Ends(AskLinks(env), c) && Reaches(env, c, i)
    requires Asks(env, c) ==>
               (env.clusters[c].parent in present <==> env.clusters[c].parent in Meaning(env, k))
    requires forall j, other :: 0 <= j < i ==> !Supplies(env, k, present, c, j, other)
    ensures ResolveFrom(env, k, c, i) == Some(one) <==> FirstSupply(env, k, present, c, one)
    decreases |env.clusters[c].sources| - i
  {
    hide Supplies, Offer, Meaning, Ends, AskLinks;
    if i < |env.clusters[c].sources| {
      var offer := Offer(env, k, c, i);
      if offer.Some? {
        OfferSupplies(env, k, present, c, i, offer.value);
        OfferSupplies(env, k, present, c, i, one);
        forall j | 0 <= j < |env.clusters[c].sources| && Supplies(env, k, present, c, j, one) &&
                   (forall m, other :: 0 <= m < j ==> !Supplies(env, k, present, c, m, other))
          ensures j == i
        {
        }
      } else {
        forall other ensures !Supplies(env, k, present, c, i, other) {
          OfferSupplies(env, k, present, c, i, other);
        }
        ResolveSupplies(env, k, present, c, i + 1, one);
      }
    }
  }

  /** What a cluster resolves to: the first supply of its sources. */
  lemma {:induction false} MeaningIsSupply(env: Env, k: Client, present: set<string>, c: string)
    requires c in env.clusters && Ends(AskLinks(env), c)
    requires Asks(env, c) ==>
               (env.clusters[c].parent in present <==> env.clusters[c].parent in Meaning(env, k))
    ensures c in Meaning(env, k) <==> exists one :: FirstSupply(env, k, present, c, one)
    ensures forall one :: FirstSupply(env, k, present, c, one) <==> c in Meaning(env, k) && Meaning(env, k)[c] == one
  {
    MeaningOf(env, k, c);
    NoneAsked(env, k, [], c);
    hide Meaning, Ends, AskLinks, FirstSupply, Supplies, Asks, ResolveFrom, Reaches;
    forall one ensures FirstSupply(env, k, present, c, one) <==> c in Meaning(env, k) && Meaning(env, k)[c] == one {
      ResolveSupplies(env, k, present, c, 0, one);
    }
    if c in Meaning(env, k) {
      assert FirstSupply(env, k, present, c, Meaning(env, k)[c]);
    }
  }

  // ----- Whole builds -----

  /** A build of names gets to c. */
  ghost predicate GetsTo(env: Env, names: seq<string>, c: string)
    requires forall n :: n in names ==> Ends(AskLinks(env), n)
  {
    exists n :: n in names && c in Visited(AskLinks(env), n)
  }

  lemma {:induction false} ParentVisited(next: Links, n: string, c: string)
    requires Ends(next, n) && c in Visited(next, n) && c in next
    ensures next[c] in Visited(next, n) && Ends(next, c)
    decreases Height(next, n)
  {
    HeightOfNext(next, n);
    if c != n {
      ParentVisited(next, next[n], c);
    }
  }

  /** The log of a fresh build: what its site is made of, and which parents it holds. */
  ghost predicate BuiltAs(env: Env, k: Client, names: seq<string>, site: Kubeconfig, log: seq<string>)
    requires forall n :: n in names ==> Ends(AskLinks(env), n)
  {
    && Records(site, Meaning(env, k), log)
    && (forall x :: x in site.contexts <==> x in log)
    && (forall c :: GetsTo(env, names, c) ==> (c in log <==> c in Meaning(env, k)))
    && (forall c :: c in log ==> GetsTo(env, names, c))
  }

  lemma {:induction false} FreshLog(env: Env, client: Option<Client>, k: Client, names: seq<string>, single: bool)
    returns (log: seq<string>)
    requires "" !in env.clusters && Settles(env, client, k)
    requires forall c :: c in names ==> c in env.clusters && Ends(AskLinks(env), c)
    ensures log == RunLog(AskLinks(env), Meaning(env, k), [], names)
    ensures Records(FreshBuild(env, client, names, single), Meaning(env, k), log)
  {
    assert FromStatic(env, EMPTY_CONFIG) && Records(EMPTY_CONFIG, Meaning(env, k), []);
    hide Ends, AskLinks, Meaning, RunLog, BuildAll, FromStatic, OneClient, Records;
    log := RunLog(AskLinks(env), Meaning(env, k), [], names);
    BuildAllCorrect(env, k, State(EMPTY_CONFIG, client), [], names, single);
  }

  lemma LoggedContexts(env: Env, k: Client, site: Kubeconfig, log: seq<string>)
    requires Records(site, Meaning(env, k), log)
    ensures forall x :: x in site.contexts <==> x in log
    ensures forall x :: x in log ==>
              x in Meaning(env, k) && x in Meaning(env, k)[x].contexts &&
              site.contexts[x] == Meaning(env, k)[x].contexts[x]
  {
    MeaningIsSingles(env, k);
    LogContexts(Meaning(env, k), log);
    hide Meaning, MergeLog;
  }

  lemma {:induction false} BuildRecords(env: Env, client: Option<Client>, k: Client, names: seq<string>, single: bool)
    returns (log: seq<string>)
    requires "" !in env.clusters && Settles(env, client, k)
    requires forall c :: c in names ==> c in env.clusters && Ends(AskLinks(env), c)
    ensures BuiltAs(env, k, names, FreshBuild(env, client, names, single), log)
  {
    hide FreshBuild, Ends, AskLinks, Meaning, RunLog, Settles, Visited, Records, GetsTo;
    log := FreshLog(env, client, k, names, single);
    LoggedContexts(env, k, FreshBuild(env, client, names, single), log);
    LogGetsTo(env, k, names, log);
  }

  lemma {:induction false} LogGetsTo(env: Env, k: Client, names: seq<string>, log: seq<string>)
    requires forall c :: c in names ==> Ends(AskLinks(env), c)
    requires log == RunLog(AskLinks(env), Meaning(env, k), [], names)
    ensures forall c :: GetsTo(env, names, c) ==> (c in log <==> c in Meaning(env, k))
    ensures forall c :: c in log ==> GetsTo(env, names, c)
  {
    hide Ends, AskLinks, Meaning, RunLog, Visited;
    var next, meaning := AskLinks(env), Meaning(env, k);
    RunLogNames(next, meaning, [], names);
    forall c | GetsTo(env, names, c) ensures c in log <==> c in meaning {
      var n :| n in names && c in Visited(next, n);
      if c in meaning { assert Brings(next, meaning, n, c); }
    }
    forall c | c in log ensures GetsTo(env, names, c) {
      var n :| n in names && Brings(next, meaning, n, c);
    }
  }

  /** A build that gets to c holds its parent exactly if that resolves, once it asks for it. */
  lemma {:induction false} ParentPresent(
    env: Env, k: Client, names: seq<string>, site: Kubeconfig, log: seq<string>, c: string)
    requires forall n :: n in names ==> Ends(AskLinks(env), n)
    requires BuiltAs(env, k, names, site, log) && GetsTo(env, names, c) && Asks(env, c)
    ensures Ends(AskLinks(env), c)
    ensures env.clusters[c].parent in site.contexts <==> env.clusters[c].parent in Meaning(env, k)
  {
    hide Ends, Meaning, Visited, Records;
    var n :| n in names && c in Visited(AskLinks(env), n);
    ParentVisited(AskLinks(env), n, c);
    assert GetsTo(env, names, env.clusters[c].parent);
  }

  /**
   * With the client settled, a build that gets to c holds its context exactly if
   * one of its sources supplies it, where a cluster API counts if the parent is
   * held too; the context is then the one that the first such source selects.
   */
  lemma {:induction false} ContextSupplied(
    env: Env, client: Option<Client>, k: Client, names: seq<string>, single: bool, c: string, one: Kubeconfig)
    requires "" !in env.clusters && Settles(env, client, k) && c in env.clusters
    requires forall c :: c in names ==> c in env.clusters && Ends(AskLinks(env), c)
    requires c in names || c in FreshBuild(env, client, names, single).contexts
    ensures
      var site := FreshBuild(env, client, names, single);
      && (c in site.contexts <==> exists other :: FirstSupply(env, k, site.contexts.Keys, c, other))
      && (FirstSupply(env, k, site.contexts.Keys, c, one) ==>
            c in one.contexts && c in site.contexts && site.contexts[c] == one.contexts[c])
  {
    var site := FreshBuild(env, client, names, single);
    var log := BuildRecords(env, client, k, names, single);
    CountsAsBuilt(env, k, names, site, log, c);
    LoggedContexts(env, k, site, log);
    hide Meaning, Ends, AskLinks, FirstSupply, FreshBuild, Settles, GetsTo, Records, Asks;
    MeaningIsSupply(env, k, site.contexts.Keys, c);
  }

  lemma {:induction false} CountsAsBuilt(
    env: Env, k: Client, names: seq<string>, site: Kubeconfig, log: seq<string>, c: string)
    requires forall n :: n in names ==> Ends(AskLinks(env), n)
    requires BuiltAs(env, k, names, site, log) && (c in names || c in site.contexts)
    ensures GetsTo(env, names, c) && Ends(AskLinks(env), c) && (c in log <==> c in Meaning(env, k))
    ensures Asks(env, c) ==>
              (env.clusters[c].parent in site.contexts <==> env.clusters[c].parent in Meaning(env, k))
  {
    hide Ends, Meaning, Records, Asks, AskLinks;
    if c in names {
      assert c in Visited(AskLinks(env), c);
    }
    var n :| n in names && c in Visited(AskLinks(env), n);
    VisitedAreLower(AskLinks(env), n, c);
    if Asks(env, c) {
      ParentPresent(env, k, names, site, log, c);
    }
  }

  /** Every user and endpoint of the site comes with one of its contexts, and each context brings its own. */
  lemma {:induction false} EntriesSupplied(
    env: Env, client: Option<Client>, k: Client, names: seq<string>, single: bool)
    requires "" !in env.clusters && Settles(env, client, k)
    requires forall c :: c in names ==> c in env.clusters && Ends(AskLinks(env), c)
    ensures
      var site := FreshBuild(env, client, names, single);
      && site.contexts.Keys <= env.clusters.Keys
      && (forall c, one :: c in site.contexts && FirstSupply(env, k, site.contexts.Keys, c, one) ==>
            one.authInfos.Keys <= site.authInfos.Keys && one.clusters.Keys <= site.clusters.Keys)
      && (forall u :: u in site.authInfos ==>
            exists c, one :: c in site.contexts && FirstSupply(env, k, site.contexts.Keys, c, one) &&
                             u in one.authInfos && one.authInfos[u] == site.authInfos[u])
      && (forall e :: e in site.clusters ==>
            exists c, one :: c in site.contexts && FirstSupply(env, k, site.contexts.Keys, c, one) &&
                             e in one.clusters && one.clusters[e] == site.clusters[e])
  {
    var site, meaning := FreshBuild(env, client, names, single), Meaning(env, k);
    var log := BuildRecords(env, client, k, names, single);
    LogIsStacks(meaning, log);
    LogSupplies(env, k, names, site, log);
    hide Meaning, Ends, AskLinks, FirstSupply, FreshBuild, Settles, MergeLog, GetsTo;
    forall c, one | c in site.contexts && FirstSupply(env, k, site.contexts.Keys, c, one)
      ensures one.authInfos.Keys <= site.authInfos.Keys && one.clusters.Keys <= site.clusters.Keys
    {
      forall u | u in one.authInfos ensures u in site.authInfos { StackHas(Users(meaning), log, c, u); }
      forall e | e in one.clusters ensures e in site.clusters { StackHas(Endpoints(meaning), log, c, e); }
    }
    forall u | u in site.authInfos
      ensures exists c, one :: c in site.contexts && FirstSupply(env, k, site.contexts.Keys, c, one) &&
                               u in one.authInfos && one.authInfos[u] == site.authInfos[u]
    {
      var x := StackSource(Users(meaning), log, u);
      assert FirstSupply(env, k, site.contexts.Keys, x, meaning[x]);
    }
    forall e | e in site.clusters
      ensures exists c, one :: c in site.contexts && FirstSupply(env, k, site.contexts.Keys, c, one) &&
                               e in one.clusters && one.clusters[e] == site.clusters[e]
    {
      var x := StackSource(Endpoints(meaning), log, e);
      assert FirstSupply(env, k, site.contexts.Keys, x, meaning[x]);
    }
  }

  lemma {:induction false} LogSupplies(env: Env, k: Client, names: seq<string>, site: Kubeconfig, log: seq<string>)
    requires forall n :: n in names ==> Ends(AskLinks(env), n)
    requires BuiltAs(env, k, names, site, log)
    ensures Meaning(env, k).Keys <= env.clusters.Keys
    ensures forall c, one :: c in site.contexts ==>
              c in env.clusters && c in Meaning(env, k) &&
              (FirstSupply(env, k, site.contexts.Keys, c, one) <==> one == Meaning(env, k)[c])
  {
    assert Meaning(env, k).Keys <= env.clusters.Keys;
    hide FirstSupply, Records;
    forall c, one | c in site.contexts
      ensures c in env.clusters && c in Meaning(env, k)
      ensures FirstSupply(env, k, site.contexts.Keys, c, one) <==> one == Meaning(env, k)[c]
    {
      CountsAsBuilt(env, k, names, site, log, c);
      hide Meaning, Ends, AskLinks, GetsTo, Asks;
      MeaningIsSupply(env, k, site.contexts.Keys, c);
    }
  }

  // ----- The current context, and the names that end a build -----

  /** A fresh build of one name makes its context the current one, if it holds it. */
  lemma {:induction false} SingleCurrent(env: Env, client: Option<Client>, k: Client, c: string)
    requires "" !in env.clusters && Settles(env, client, k) && c in env.clusters && Ends(AskLinks(env), c)
    ensures
      var site := FreshBuild(env, client, [c], true);
      site.currentContext == if c in site.contexts then c else ""
  {
    var s := State(EMPTY_CONFIG, client);
    assert FromStatic(env, EMPTY_CONFIG) && Records(EMPTY_CONFIG, Meaning(env, k), []);
    BuildOneCorrect(env, k, s, [], c);
    BuildOneKeepsClosed(env, s, c);
    var r := BuildOne(env, s, c);
    OneName(env, s, c);
    var log := BuildRecords(env, client, k, [c], true);
    CountsAsBuilt(env, k, [c], FreshBuild(env, client, [c], true), log, c);
  }

  lemma OneName(env: Env, s: State, c: string)
    requires Ends(AskLinks(env), c)
    ensures
      var r := BuildOne(env, s, c);
      BuildAll(env, s, [c], true).state ==
      r.state.(site := r.state.site.(currentContext := if r.outcome.Built? then r.outcome.context else ""))
  {
    hide BuildOne, Ends;
    assert [c][1..] == [];
  }

  /** A build of several names ends at the first one that is not in the map, and keeps what it has built. */
  lemma {:induction false} StopsAtUnknown(env: Env, s: State, known: seq<string>, c: string, rest: seq<string>)
    requires "" !in env.clusters && Closed(s.site) && c !in env.clusters
    requires forall x :: x in known + [c] + rest ==> Ends(AskLinks(env), x)
    requires forall x :: x in known ==> x in env.clusters
    ensures BuildAll(env, s, known + [c] + rest, false) ==
            Run(BuildAll(env, s, known, false).state, Some(ClusterNotInMap))
    decreases |known|
  {
    hide Ends, BuildOne, Single, Extends;
    var names := known + [c] + rest;
    if known == [] {
      assert names[0] == c;
      BuildOneKeepsClosed(env, s, c);
      UnknownName(env, s, c);
    } else {
      assert names[0] == known[0] && names[1..] == known[1..] + [c] + rest;
      BuildOneKeepsClosed(env, s, known[0]);
      StopsAtUnknown(env, BuildOne(env, s, known[0]).state, known[1..], c, rest);
    }
  }

  lemma UnknownName(env: Env, s: State, c: string)
    requires Ends(AskLinks(env), c) && c !in env.clusters
    ensures BuildOne(env, s, c) == Step(s, Failed(ClusterNotInMap))
  {
  }
}
