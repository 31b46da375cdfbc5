/**
 * What every build keeps, and the memo-free meaning of a site kubeconfig.
 */
module BuilderProofs {
  import opened Wrappers
  import opened Chains
  import opened ClusterMaps
  import opened Kubeconfigs
  import opened BuilderSpec
  import opened BuilderClients

  // ----- The site kubeconfig stays closed, whatever the client is -----

  /** now holds every context of before, with the same entry. */
  ghost predicate Extends(now: Kubeconfig, before: Kubeconfig) {
    forall x :: x in before.contexts ==> x in now.contexts && now.contexts[x] == before.contexts[x]
  }

  /** The same, but the entry of c may have changed. */
  ghost predicate ExtendsExcept(now: Kubeconfig, before: Kubeconfig, c: string) {
    forall x :: x in before.contexts && x != c ==>
      x in now.contexts && now.contexts[x] == before.contexts[x]
  }

  /**
   * The cache test of buildOne recognises exactly the merged contexts, except
   * that the empty name stands for whatever context is the only one.
   */
  lemma {:induction false} AlreadyBuiltIffContext(site: Kubeconfig, c: string)
    requires Closed(site)
    ensures AlreadyBuilt(site, c).Some? <==> if c != "" then c in site.contexts else |site.contexts| == 1
    ensures AlreadyBuilt(site, c).Some? && c in site.contexts ==>
              AlreadyBuilt(site, c).value.contexts == map[c := site.contexts[c]]
  {
    if c == "" && c in site.contexts {
      assert |site.contexts.Keys| > 0;
    }
  }

  lemma {:induction false} BuildOneKeepsClosed(env: Env, s: State, c: string)
    requires Ends(AskLinks(env), c) && Closed(s.site)
    ensures
      var r := BuildOne(env, s, c);
      && Closed(r.state.site)
      && r.outcome != Failed(MergeFailed)
      && r.state.site.currentContext == s.site.currentContext
      && (r.outcome == Failed(ClusterNotInMap) <==> c !in env.clusters)
      && ("" !in env.clusters ==> Extends(r.state.site, s.site))
      && (r.outcome.Built? ==> r.outcome.context == c && Single(c, r.outcome.config))
      && (r.outcome.Built? && c != "" ==> c in r.state.site.contexts)
    decreases Height(AskLinks(env), c), 2, 0
  {
    hide Ends, TrySources, Extract;
    if c in env.clusters && AlreadyBuilt(s.site, c).None? {
      TrySourcesKeepsClosed(env, s, c, 0);
      if c != "" {
        AlreadyBuiltIffContext(s.site, c);
      }
    }
  }

  lemma {:induction false} TrySourcesKeepsClosed(env: Env, s: State, c: string, i: nat)
    requires c in env.clusters && Ends(AskLinks(env), c) && Reaches(env, c, i)
    requires Closed(s.site)
    ensures
      var r := TrySources(env, s, c, i);
      && Closed(r.state.site)
      && r.outcome != Failed(MergeFailed) && r.outcome != Failed(ClusterNotInMap)
      && r.state.site.currentContext == s.site.currentContext
      && ("" !in env.clusters ==> ExtendsExcept(r.state.site, s.site, c))
      && (r.outcome.Built? ==> r.outcome.context == c && Single(c, r.outcome.config))
      && (r.outcome.Built? ==> c in r.state.site.contexts)
    decreases Height(AskLinks(env), c), 1, |env.clusters[c].sources| - i
  {
    if i < |env.clusters[c].sources| {
      var a := TrySource(env, s, c, i);
      TrySourceKeepsClosed(env, s, c, i);
      if a.offer.None? {
        TrySourcesKeepsClosed(env, a.state, c, i + 1);
      } else {
        MergeSingle(a.state.site, c, a.offer.value);
        OverlaySingle(a.state.site, c, a.offer.value);
      }
    }
  }

  lemma {:induction false} TrySourceKeepsClosed(env: Env, s: State, c: string, i: nat)
    requires c in env.clusters && Ends(AskLinks(env), c)
    requires i < |env.clusters[c].sources| && Reaches(env, c, i)
    requires Closed(s.site)
    ensures
      var a := TrySource(env, s, c, i);
      && Closed(a.state.site)
      && a.state.site.currentContext == s.site.currentContext
      && ("" !in env.clusters ==> Extends(a.state.site, s.site))
      && (a.offer.Some? ==> Single(c, a.offer.value))
    decreases Height(AskLinks(env), c), 0, 1
  {
    var source := env.clusters[c].sources[i];
    hide Ends, AskLinks, BuildOne, Closed, Extract, Single, Extends;
    if source.ClusterAPI? && c in Parents(env.clusters) {
      assert Asks(env, c);
      ParentEnds(env, c);
      BuildOneKeepsClosed(env, s, env.clusters[c].parent);
    }
  }

  /** The current context is unset or one of the contexts. */
  ghost predicate CurrentKnown(site: Kubeconfig) {
    site.currentContext == "" || site.currentContext in site.contexts
  }

  /**
   * Over a whole build the site stays closed, merged contexts are never
   * replaced, and the only error that escapes is a requested name that the
   * map does not hold; failures of parents and of sources never do.
   */
  lemma {:induction false} BuildAllKeepsClosed(env: Env, s: State, names: seq<string>, single: bool)
    requires "" !in env.clusters
    requires forall c :: c in names ==> Ends(AskLinks(env), c)
    requires Closed(s.site) && CurrentKnown(s.site)
    ensures
      var r := BuildAll(env, s, names, single);
      && Closed(r.state.site) && CurrentKnown(r.state.site)
      && Extends(r.state.site, s.site)
      && (r.error.Some? <==> exists c :: c in names && c !in env.clusters)
      && (r.error.Some? ==> r.error == Some(ClusterNotInMap))
    decreases |names|
  {
    hide Ends, BuildOne, Single, Extends, Closed;
    if names != [] {
      var r := BuildOne(env, s, names[0]);
      BuildOneKeepsClosed(env, s, names[0]);
      var context := if r.outcome.Built? then r.outcome.context else "";
      var s' := if single then r.state.(site := r.state.site.(currentContext := context)) else r.state;
      CurrentKept(s.site, r.state.site, s'.site);
      if names[0] in env.clusters {
        BuildAllKeepsClosed(env, s', names[1..], single);
        ExtendsOn(s.site, s'.site, BuildAll(env, s', names[1..], single).state.site);
        assert forall c :: c in names <==> c == names[0] || c in names[1..];
      }
    } else {
      CurrentKept(s.site, s.site, s.site);
    }
  }

  lemma CurrentKept(before: Kubeconfig, now: Kubeconfig, then': Kubeconfig)
    requires then' == now.(currentContext := then'.currentContext)
    ensures Closed(now) ==> Closed(then')
    ensures Extends(now, before) ==> Extends(then', before)
    ensures
      Extends(now, before) && CurrentKnown(before) && before.currentContext == now.currentContext ==> CurrentKnown(now)
    ensures Extends(now, now)
  {
  }

  lemma ExtendsOn(a: Kubeconfig, b: Kubeconfig, c: Kubeconfig)
    requires Extends(b, a) && Extends(c, b)
    ensures Extends(c, a)
  {
  }

  // ----- The memo-free meaning, for one fixed client -----

  /** The kubeconfig of c, found without any shared state. */
  ghost function Resolve(env: Env, k: Client, c: string): (r: Option<Kubeconfig>)
    requires Ends(AskLinks(env), c)
    ensures r.Some? ==> c in env.clusters && Single(c, r.value)
    decreases Height(AskLinks(env), c), 2, 0
  {
    if c in env.clusters then ResolveFrom(env, k, c, 0) else None
  }

  ghost function ResolveFrom(env: Env, k: Client, c: string, i: nat): (r: Option<Kubeconfig>)
    requires c in env.clusters && Ends(AskLinks(env), c) && Reaches(env, c, i)
    ensures r.Some? ==> Single(c, r.value)
    decreases Height(AskLinks(env), c), 1, |env.clusters[c].sources| - i
  {
    if i == |env.clusters[c].sources| then None else
    var offer := Offer(env, k, c, i);
    if offer.Some? then offer else ResolveFrom(env, k, c, i + 1)
  }

  lemma ParentLower(env: Env, c: string, i: nat)
    requires c in Parents(env.clusters) && Ends(AskLinks(env), c)
    requires i < |env.clusters[c].sources| && Reaches(env, c, i) && env.clusters[c].sources[i].ClusterAPI?
    ensures Asks(env, c) && Ends(AskLinks(env), env.clusters[c].parent)
    ensures Height(AskLinks(env), env.clusters[c].parent) < Height(AskLinks(env), c)
  {
    hide StaticOffer;
    assert Asks(env, c);
    HeightOfNext(AskLinks(env), c);
  }

  /** What source i of c offers, given what the parent resolves to. */
  ghost function Offer(env: Env, k: Client, c: string, i: nat): (r: Option<Kubeconfig>)
    requires c in env.clusters && Ends(AskLinks(env), c)
    requires i < |env.clusters[c].sources| && Reaches(env, c, i)
    ensures r.Some? ==> Single(c, r.value)
    ensures r.None? ==> Reaches(env, c, i + 1)
    decreases Height(AskLinks(env), c), 0, 1
  {
    var source := env.clusters[c].sources[i];
    if !source.ClusterAPI? then StaticOffer(env, c, source) else
    if c !in Parents(env.clusters) then None else
    ParentLower(env, c, i);
    var secret := SecretOf(env, k, source.namespace, source.name);
    if Resolve(env, k, env.clusters[c].parent).Some? && env.scratchWritable && secret.Some?
    then Extract(c, "", secret.value) else None
  }

  ghost predicate Resolvable(env: Env, k: Client, c: string) {
    Ends(AskLinks(env), c) && Resolve(env, k, c).Some?
  }

  /** Every resolvable cluster with the kubeconfig it resolves to. */
  ghost function Meaning(env: Env, k: Client): map<string, Kubeconfig> {
    map c | c in env.clusters && Resolvable(env, k, c) :: Resolve(env, k, c).value
  }

  lemma MeaningOf(env: Env, k: Client, c: string)
    requires Ends(AskLinks(env), c)
    ensures c in Meaning(env, k) <==> Resolve(env, k, c).Some?
    ensures c in Meaning(env, k) ==> Meaning(env, k)[c] == Resolve(env, k, c).value
  {
  }

  lemma MeaningIsSingles(env: Env, k: Client)
    ensures Singles(Meaning(env, k))
  {
  }

  // ----- Merge logs: the clusters merged so far, in order -----

  ghost predicate Singles(meaning: map<string, Kubeconfig>) {
    forall x :: x in meaning ==> Single(x, meaning[x])
  }

  ghost predicate Resolved(meaning: map<string, Kubeconfig>, log: seq<string>) {
    forall x :: x in log ==> x in meaning
  }

  /** The site kubeconfig after merging the clusters of log, in that order. */
  ghost function MergeLog(meaning: map<string, Kubeconfig>, log: seq<string>): Kubeconfig
    requires Resolved(meaning, log)
  {
    if log == [] then EMPTY_CONFIG
    else Overlay(MergeLog(meaning, log[..|log| - 1]), meaning[log[|log| - 1]])
  }

  ghost predicate Records(site: Kubeconfig, meaning: map<string, Kubeconfig>, log: seq<string>) {
    && Resolved(meaning, log)
    && site == MergeLog(meaning, log).(currentContext := site.currentContext)
  }

  lemma {:induction false} LogContexts(meaning: map<string, Kubeconfig>, log: seq<string>)
    requires Singles(meaning) && Resolved(meaning, log)
    ensures Closed(MergeLog(meaning, log))
    ensures forall x :: x in MergeLog(meaning, log).contexts <==> x in log
    ensures forall x :: x in log ==> MergeLog(meaning, log).contexts[x] == meaning[x].contexts[x]
  {
    if log != [] {
      hide Closed, Single, Overlay;
      var front, last := log[..|log| - 1], log[|log| - 1];
      assert log == front + [last];
      LogContexts(meaning, front);
      OverlaySingle(MergeLog(meaning, front), last, meaning[last]);
      var before := MergeLog(meaning, front).contexts;
      assert MergeLog(meaning, log).contexts == before[last := meaning[last].contexts[last]];
    } else {
      assert Closed(EMPTY_CONFIG);
    }
  }

  lemma {:induction false} RecordMerge(site: Kubeconfig, meaning: map<string, Kubeconfig>, log: seq<string>, c: string)
    requires Records(site, meaning, log) && c in meaning
    ensures Records(Overlay(site, meaning[c]), meaning, log + [c])
  {
  }

  /**
   * What building c appends to the log: nothing if c is there already, else
   * what building the asked parent appends, and then c if c resolves.
   */
  ghost function NewLog(
    next: Links, meaning: map<string, Kubeconfig>, log: seq<string>, c: string): (added: seq<string>)
    requires Ends(next, c)
    ensures Resolved(meaning, added)
    decreases Height(next, c)
  {
    if c in log then [] else
    (if c in next then HeightOfNext(next, c); NewLog(next, meaning, log, next[c]) else [])
    + (if c in meaning then [c] else [])
  }

  /** Building a cluster a second time appends nothing. */
  lemma {:induction false} NewLogOnce(next: Links, meaning: map<string, Kubeconfig>, log: seq<string>, c: string)
    requires Ends(next, c)
    ensures NewLog(next, meaning, log + NewLog(next, meaning, log, c), c) == []
    decreases Height(next, c)
  {
    if c !in log && c !in meaning && c in next {
      HeightOfNext(next, c);
      NewLogOnce(next, meaning, log, next[c]);
      assert NewLog(next, meaning, log, c) == NewLog(next, meaning, log, next[c]);
    }
  }

  /** The client is k, or it is not made yet and can only become k. */
  ghost predicate Decided(env: Env, k: Client, s: State) {
    s.client == Some(k) || (s.client == None && OneClient(env, k) && FromStatic(env, s.site))
  }

  /** The step that building c takes, told by the log alone. */
  ghost predicate Appends(env: Env, k: Client, log: seq<string>, c: string, r: Step)
    requires Ends(AskLinks(env), c)
  {
    && Decided(env, k, r.state)
    && Records(r.state.site, Meaning(env, k), log + NewLog(AskLinks(env), Meaning(env, k), log, c))
    && (r.outcome.Built? <==> c in Meaning(env, k))
  }

  /**
   * buildOne with its cache, against the memo-free meaning: it succeeds
   * exactly on resolvable clusters and merges exactly NewLog.
   */
  lemma {:induction false} BuildOneCorrect(env: Env, k: Client, s: State, log: seq<string>, c: string)
    requires Ends(AskLinks(env), c) && "" !in env.clusters && Decided(env, k, s)
    requires Records(s.site, Meaning(env, k), log)
    ensures Appends(env, k, log, c, BuildOne(env, s, c))
    decreases Height(AskLinks(env), c), 2, 0
  {
    MeaningIsSingles(env, k);
    LogContexts(Meaning(env, k), log);
    MeaningOf(env, k, c);
    AlreadyBuiltIffContext(s.site, c);
    hide Ends, TrySources, FromStatic, Extract, Meaning, Single, Closed, Appends, Decided, NewLog, MergeLog;
    if c !in env.clusters || c in log {
      KnownStep(env, k, s, log, c, BuildOne(env, s, c).outcome);
    } else {
      NoneAsked(env, k, log, c);
      TrySourcesCorrect(env, k, s, log, c, 0);
    }
  }

  lemma NoneAsked(env: Env, k: Client, log: seq<string>, c: string)
    requires c in env.clusters && Ends(AskLinks(env), c)
    ensures Reaches(env, c, 0) && LogAt(env, k, log, c, 0) == log
    ensures Resolve(env, k, c) == ResolveFrom(env, k, c, 0)
  {
  }

  /** A build that finds its cluster unknown or merged changes nothing. */
  lemma KnownStep(env: Env, k: Client, s: State, log: seq<string>, c: string, outcome: Outcome)
    requires Ends(AskLinks(env), c) && Decided(env, k, s) && Records(s.site, Meaning(env, k), log)
    requires c in log || (c !in AskLinks(env) && c !in Meaning(env, k))
    requires outcome.Built? <==> c in Meaning(env, k)
    ensures Appends(env, k, log, c, Step(s, outcome))
  {
    hide Ends, AskLinks, Meaning, Decided, Records;
    assert NewLog(AskLinks(env), Meaning(env, k), log, c) == [];
    assert log + [] == log;
  }

  /** Some source before i has made the builder build the parent. */
  ghost predicate Asked(env: Env, c: string, i: nat)
    requires c in env.clusters && i <= |env.clusters[c].sources|
  {
    c in Parents(env.clusters) && exists j :: 0 <= j < i && env.clusters[c].sources[j].ClusterAPI?
  }

  lemma AskedIsAsks(env: Env, c: string, i: nat)
    requires c in env.clusters && Reaches(env, c, i) && Asked(env, c, i)
    ensures Asks(env, c)
  {
  }

  lemma AsksIsAsked(env: Env, c: string, i: nat)
    requires c in env.clusters && i <= |env.clusters[c].sources| && Asks(env, c)
    requires i == |env.clusters[c].sources| || StaticOffer(env, c, env.clusters[c].sources[i]).Some?
    ensures Asked(env, c, i)
  {
  }

  /** The log before source i of c is tried. */
  ghost function LogAt(env: Env, k: Client, log: seq<string>, c: string, i: nat): seq<string>
    requires c in env.clusters && Ends(AskLinks(env), c) && Reaches(env, c, i)
  {
    if Asked(env, c, i) then
      AskedIsAsks(env, c, i);
      HeightOfNext(AskLinks(env), c);
      log + NewLog(AskLinks(env), Meaning(env, k), log, env.clusters[c].parent)
    else log
  }

  lemma {:induction false} TrySourcesCorrect(env: Env, k: Client, s: State, log: seq<string>, c: string, i: nat)
    requires c in env.clusters && Ends(AskLinks(env), c) && Reaches(env, c, i) && "" !in env.clusters
    requires Decided(env, k, s) && c !in log && Resolved(Meaning(env, k), log)
    requires Resolve(env, k, c) == ResolveFrom(env, k, c, i)
    requires Records(s.site, Meaning(env, k), LogAt(env, k, log, c, i))
    ensures Appends(env, k, log, c, TrySources(env, s, c, i))
    decreases Height(AskLinks(env), c), 1, |env.clusters[c].sources| - i
  {
    MeaningOf(env, k, c);
    if i == |env.clusters[c].sources| {
      FinalLog(env, k, log, c, i);
    } else {
      var a := TrySource(env, s, c, i);
      TrySourceCorrect(env, k, s, log, c, i);
      if a.offer.None? {
        TrySourcesCorrect(env, k, a.state, log, c, i + 1);
      } else {
        SourceDecided(env, k, s, c, i);
        AcceptCorrect(env, k, a.state, log, c, i);
      }
    }
  }

  /** While the client is open it stays so or becomes k, and offers are static. */
  lemma {:induction false} SourceDecided(env: Env, k: Client, s: State, c: string, i: nat)
    requires c in env.clusters && Ends(AskLinks(env), c) && Decided(env, k, s)
    requires i < |env.clusters[c].sources| && Reaches(env, c, i)
    ensures
      var a := TrySource(env, s, c, i);
      && Decided(env, k, a.state)
      && (a.state.client.None? && a.offer.Some? ==> FromStatic(env, a.offer.value))
  {
    hide FromStatic, TrySource, OneClient;
    if s.client.None? {
      OnlyClient(env, k);
      TrySourceSame(env, s, c, i, k);
    } else {
      ClientStaysSource(env, s, c, i);
    }
  }

  /** Whatever the asked parent is read as, k is the client that its secrets are read with. */
  lemma {:induction false} ParentClient(env: Env, k: Client, s: State, c: string)
    requires Ends(AskLinks(env), c) && Asks(env, c) && Decided(env, k, s)
    requires Ends(AskLinks(env), env.clusters[c].parent)
    ensures
      var r := BuildOne(env, s, env.clusters[c].parent);
      r.outcome.Built? && env.scratchWritable ==> WithClient(env, r.state, r.outcome).client == Some(k)
  {
    hide FromStatic, BuildOne;
    var parent := env.clusters[c].parent;
    if s.client.None? {
      OnlyClient(env, k);
      BuildOneSame(env, s, parent, k);
      var r := BuildOne(env, s, parent);
      if r.outcome.Built? && r.state.client.None? && env.scratchWritable {
        assert ReadsParent(env, c, r.outcome.config) && Makes(env, c, r.outcome.config, k);
      }
    } else {
      ClientStays(env, s, parent);
    }
  }

  lemma {:induction false} AcceptCorrect(env: Env, k: Client, s: State, log: seq<string>, c: string, i: nat)
    requires c in env.clusters && Ends(AskLinks(env), c) && Reaches(env, c, i) && c !in log
    requires i < |env.clusters[c].sources| && Offer(env, k, c, i).Some?
    requires c in Meaning(env, k) && Meaning(env, k)[c] == Offer(env, k, c, i).value
    requires Records(s.site, Meaning(env, k), LogBeyond(env, k, log, c, i))
    requires Decided(env, k, s) && (s.client.None? ==> FromStatic(env, Offer(env, k, c, i).value))
    ensures Appends(env, k, log, c, MergeOffer(s, c, Offer(env, k, c, i).value))
  {
    hide FromStatic, Meaning, Records, MergeLog, OneClient, NewLog, LogBeyond;
    FinalLog(env, k, log, c, i);
    MergeSingle(s.site, c, Meaning(env, k)[c]);
    if s.client.None? {
      OverlayIsStatic(env, s.site, Meaning(env, k)[c]);
    }
    RecordMerge(s.site, Meaning(env, k), LogBeyond(env, k, log, c, i), c);
  }

  /** The log after source i of c has been tried. */
  ghost function LogBeyond(env: Env, k: Client, log: seq<string>, c: string, i: nat): seq<string>
    requires c in env.clusters && Ends(AskLinks(env), c) && Reaches(env, c, i)
  {
    if i < |env.clusters[c].sources| && env.clusters[c].sources[i].ClusterAPI?
    then assert Reaches(env, c, i + 1); LogAt(env, k, log, c, i + 1)
    else LogAt(env, k, log, c, i)
  }

  lemma {:induction false} FinalLog(env: Env, k: Client, log: seq<string>, c: string, i: nat)
    requires c in env.clusters && Ends(AskLinks(env), c) && Reaches(env, c, i) && c !in log
    requires i == |env.clusters[c].sources| || env.clusters[c].sources[i].ClusterAPI? ||
             StaticOffer(env, c, env.clusters[c].sources[i]).Some?
    ensures log + NewLog(AskLinks(env), Meaning(env, k), log, c) ==
            if c in Meaning(env, k) then LogBeyond(env, k, log, c, i) + [c] else LogBeyond(env, k, log, c, i)
  {
    hide Ends, Meaning, Extract;
    if Asks(env, c) {
      HeightOfNext(AskLinks(env), c);
      if i < |env.clusters[c].sources| && env.clusters[c].sources[i].ClusterAPI? {
        assert Asked(env, c, i + 1);
      } else {
        AsksIsAsked(env, c, i);
      }
    } else if Asked(env, c, i) {
      AskedIsAsks(env, c, i);
      assert false;
    }
  }

  lemma {:induction false} TrySourceCorrect(env: Env, k: Client, s: State, log: seq<string>, c: string, i: nat)
    requires c in env.clusters && Ends(AskLinks(env), c) && "" !in env.clusters
    requires i < |env.clusters[c].sources| && Reaches(env, c, i)
    requires Decided(env, k, s) && Resolved(Meaning(env, k), log)
    requires Records(s.site, Meaning(env, k), LogAt(env, k, log, c, i))
    ensures
      var a := TrySource(env, s, c, i);
      && Decided(env, k, a.state)
      && Records(a.state.site, Meaning(env, k), LogBeyond(env, k, log, c, i))
      && a.offer == Offer(env, k, c, i)
      && (a.offer.None? ==> LogAt(env, k, log, c, i + 1) == LogBeyond(env, k, log, c, i))
    decreases Height(AskLinks(env), c), 0, 1
  {
    var source := env.clusters[c].sources[i];
    AskedNext(env, c, i);
    SourceDecided(env, k, s, c, i);
    hide Decided, BuildOne, Ends, AskLinks, AskSecret, Extract, StaticOffer, Records, Asks, Appends, Meaning;
    if source.ClusterAPI? && c in Parents(env.clusters) {
      hide Asked, Reaches, LogAt, LogBeyond, Offer;
      var parent := env.clusters[c].parent;
      ParentAsked(env, k, log, c, i);
      BuildOneCorrect(env, k, s, LogAt(env, k, log, c, i), parent);
      ParentClient(env, k, s, c);
      AskCorrect(env, k, log, c, i, BuildOne(env, s, parent));
    }
  }

  /** What the source makes of the parent, which was built as r. */
  lemma {:induction false} AskCorrect(env: Env, k: Client, log: seq<string>, c: string, i: nat, r: Step)
    requires c in env.clusters && Ends(AskLinks(env), c) && c in Parents(env.clusters)
    requires i < |env.clusters[c].sources| && Reaches(env, c, i) && env.clusters[c].sources[i].ClusterAPI?
    requires Ends(AskLinks(env), env.clusters[c].parent)
    requires Appends(env, k, LogAt(env, k, log, c, i), env.clusters[c].parent, r)
    requires r.outcome.Built? && env.scratchWritable ==> WithClient(env, r.state, r.outcome).client == Some(k)
    ensures
      var a := AskSecret(env, env.clusters[c].sources[i], r);
      && Records(a.state.site, Meaning(env, k), LogBeyond(env, k, log, c, i))
      && (if a.offer.Some? then Extract(c, "", a.offer.value) else None) == Offer(env, k, c, i)
  {
    hide Decided, Ends, AskLinks, Extract, StaticOffer, Records, Asks, LogAt, LogBeyond, SecretOf, NewLog, Asked;
    ParentAsked(env, k, log, c, i);
    MeaningOf(env, k, env.clusters[c].parent);
  }

  lemma AskedNext(env: Env, c: string, i: nat)
    requires c in env.clusters && i < |env.clusters[c].sources|
    ensures Asked(env, c, i + 1) <==>
            Asked(env, c, i) || (c in Parents(env.clusters) && env.clusters[c].sources[i].ClusterAPI?)
  {
  }

  /** What asking the parent through source i adds to the log: nothing the second time. */
  lemma {:induction false} ParentAsked(env: Env, k: Client, log: seq<string>, c: string, i: nat)
    requires c in env.clusters && Ends(AskLinks(env), c) && c in Parents(env.clusters)
    requires i < |env.clusters[c].sources| && Reaches(env, c, i) && env.clusters[c].sources[i].ClusterAPI?
    ensures Asks(env, c) && c in AskLinks(env) && AskLinks(env)[c] == env.clusters[c].parent
    ensures Reaches(env, c, i + 1) && Ends(AskLinks(env), env.clusters[c].parent)
    ensures Height(AskLinks(env), env.clusters[c].parent) < Height(AskLinks(env), c)
    ensures
      var at := LogAt(env, k, log, c, i);
      && LogBeyond(env, k, log, c, i) == LogAt(env, k, log, c, i + 1)
      && LogBeyond(env, k, log, c, i) == at + NewLog(AskLinks(env), Meaning(env, k), at, env.clusters[c].parent)
  {
    hide Records, MergeLog, Extract, SecretOf, Meaning;
    assert Asks(env, c);
    HeightOfNext(AskLinks(env), c);
    AskedNext(env, c, i);
    if Asked(env, c, i) {
      NewLogOnce(AskLinks(env), Meaning(env, k), log, env.clusters[c].parent);
      assert LogAt(env, k, log, c, i) + [] == LogAt(env, k, log, c, i);
    }
  }
}
