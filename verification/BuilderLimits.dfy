/** Inputs on which the order of a build does show: what the theorems must assume. */
module BuilderLimits {
  import opened Wrappers
  import opened Chains
  import opened ClusterMaps
  import opened Kubeconfigs
  import opened BuilderSpec
  import opened BuilderClients
  import opened BuilderProofs
  import opened BuilderTheorems

  ghost function Sample(name: string): Kubeconfig {
    Kubeconfig(map[name := Context("e", "u", "")], map["u" := AuthInfo("secret")],
               map["e" := Endpoint("host")], "")
  }

  ghost predicate FourNames(p: string, c: string, q: string, d: string) {
    p != "" && q != "" && c != "" && d != "" && p != c && p != q && p != d && c != q && c != d && q != d
  }

  /**
   * Parents p and q are read from files; children c and d ask them.  The
   * secret of each child is known to the client of its own parent only.
   */
  ghost function TwoParents(p: string, c: string, q: string, d: string): Env {
    Env(map[p := Cluster("", [FileSystem(p, "x")]), q := Cluster("", [FileSystem(q, "x")]),
            c := Cluster(p, [ClusterAPI(c, "n")]), d := Cluster(q, [ClusterAPI(d, "n")])],
        map[p := Sample("x"), q := Sample("x")], None, true,
        map[(p, Sample(p)) := Client(p), (q, Sample(q)) := Client(q)],
        map[(Client(p), c, "n" + "-kubeconfig") := Sample("x"),
            (Client(q), d, "n" + "-kubeconfig") := Sample("x")])
  }

  /** Chains end where no parent has a parent. */
  lemma {:induction false} FlatEnds(env: Env, x: string)
    requires forall c :: c in Parents(env.clusters) ==> Parents(env.clusters)[c] !in Parents(env.clusters)
    ensures Ends(AskLinks(env), x)
  {
    var next := Parents(env.clusters);
    assert x in next ==> Follow(next, next[x], 1).None?;
    assert Follow(next, x, 2).None?;
    FewerLinksEnd(AskLinks(env), next, x);
  }

  lemma ExtractSample(dest: string, name: string)
    requires name == "x" || name == ""
    ensures Extract(dest, name, Sample("x")) == Some(Sample(dest))
  {
  }

  /** A cluster with one file as its source. */
  lemma {:induction false} FileBuild(env: Env, s: State, p: string, path: string, name: string, one: Kubeconfig)
    requires Ends(AskLinks(env), p) && p != "" && Closed(s.site) && p !in s.site.contexts
    requires p in env.clusters && env.clusters[p].sources == [FileSystem(path, name)]
    requires path in env.files && Extract(p, name, env.files[path]) == Some(one)
    ensures BuildOne(env, s, p) == Step(s.(site := Overlay(s.site, one)), Built(p, one))
  {
    AlreadyBuiltIffContext(s.site, p);
    assert Reaches(env, p, 0);
    assert TrySource(env, s, p, 0) == Attempt(s, Some(one));
    MergeSingle(s.site, p, one);
  }

  /** The secret that source 0 of c asks for, with whatever client there is. */
  ghost function SecretWith(env: Env, key: Option<Client>, c: string): Option<Kubeconfig>
    requires c in env.clusters && |env.clusters[c].sources| == 1 && env.clusters[c].sources[0].ClusterAPI?
  {
    var source := env.clusters[c].sources[0];
    if key.None? then None else SecretOf(env, key.value, source.namespace, source.name)
  }

  /** A cluster with its parent's cluster API as its only source. */
  lemma {:induction false} ChildBuild(
    env: Env, s: State, c: string, s1: State, one: Kubeconfig, cc: Kubeconfig, key: Option<Client>)
    requires Ends(AskLinks(env), c) && c != "" && Closed(s.site) && c !in s.site.contexts
    requires c in Parents(env.clusters) && |env.clusters[c].sources| == 1
    requires env.clusters[c].sources[0].ClusterAPI? && env.scratchWritable
    requires Ends(AskLinks(env), env.clusters[c].parent)
    requires BuildOne(env, s, env.clusters[c].parent) == Step(s1, Built(env.clusters[c].parent, one))
    requires WithClient(env, s1, Built(env.clusters[c].parent, one)) == s1.(client := key)
    requires SecretWith(env, key, c).Some? ==> Extract(c, "", SecretWith(env, key, c).value) == Some(cc)
    ensures BuildOne(env, s, c) ==
            if SecretWith(env, key, c).Some? then Step(State(Overlay(s1.site, cc), key), Built(c, cc))
            else Step(s1.(client := key), Failed(AllSourcesFailed))
  {
    AlreadyBuiltIffContext(s.site, c);
    assert Reaches(env, c, 0) && Asks(env, c);
    var s2, offer := s1.(client := key), SecretWith(env, key, c);
    assert FromClusterAPI(env, s, c, env.clusters[c].sources[0]) == Attempt(s2, offer);
    var a := TrySource(env, s, c, 0);
    assert a == Attempt(s2, if offer.Some? then Some(cc) else None);
    if offer.Some? {
      MergeSingle(s2.site, c, cc);
    } else {
      assert Reaches(env, c, 1);
      assert TrySources(env, s2, c, 1) == Step(s2, Failed(AllSourcesFailed));
    }
  }

  lemma OverlayKeys(k: Kubeconfig, c: string, one: Kubeconfig)
    requires Closed(k) && Single(c, one)
    ensures Closed(Overlay(k, one)) && Overlay(k, one).contexts.Keys == k.contexts.Keys + {c}
  {
  }

  /** c has only its parent p as a source, and p only a file with the context x. */
  ghost predicate Family(env: Env, c: string, p: string) {
    && Ends(AskLinks(env), c) && Ends(AskLinks(env), p) && p != "" && c != "" && p != c
    && p in env.clusters && env.clusters[p] == Cluster("", [FileSystem(p, "x")])
    && c in env.clusters && env.clusters[c] == Cluster(p, [ClusterAPI(c, "n")])
    && p in env.files && env.files[p] == Sample("x") && env.scratchWritable
    && forall key :: (key, c, "n" + "-kubeconfig") in env.secrets ==>
         env.secrets[(key, c, "n" + "-kubeconfig")] == Sample("x")
  }

  /** The client after the parent p was built. */
  ghost function KeyAfter(env: Env, key: Option<Client>, p: string): Option<Client> {
    if key.Some? || (p, Sample(p)) !in env.newClients then key else Some(env.newClients[(p, Sample(p))])
  }

  ghost predicate ChildBuilt(env: Env, s: State, c: string, p: string, r: Step)
    requires Family(env, c, p)
  {
    var key := KeyAfter(env, s.client, p);
    && Closed(r.state.site) && r.state.client == key
    && r.state.site.contexts.Keys == s.site.contexts.Keys + {p} + (if SecretWith(env, key, c).Some? then {c} else {})
    && (r.outcome.Failed? ==> r.outcome.error == AllSourcesFailed)
  }

  lemma {:induction false} SampleChild(env: Env, s: State, c: string, p: string)
    requires Family(env, c, p)
    requires Closed(s.site) && c !in s.site.contexts && p !in s.site.contexts
    ensures ChildBuilt(env, s, c, p, BuildOne(env, s, c))
  {
    hide BuildOne, Ends, Extract, Overlay, Asks, AskLinks, Sample, Single, Closed;
    ExtractSample(p, "x");
    ExtractSample(c, "");
    SampleSingle(p);
    SampleSingle(c);
    var s1, key := s.(site := Overlay(s.site, Sample(p))), KeyAfter(env, s.client, p);
    ParentsOf(env, c, p);
    FileBuild(env, s, p, p, "x", Sample(p));
    OverlayKeys(s.site, p, Sample(p));
    ChildBuild(env, s, c, s1, Sample(p), Sample(c), key);
    OverlayKeys(s1.site, c, Sample(c));
  }

  lemma SampleSingle(name: string)
    ensures Single(name, Sample(name))
  {
  }

  lemma ParentsOf(env: Env, c: string, p: string)
    requires Family(env, c, p)
    ensures c in Parents(env.clusters) && env.clusters[c].parent == p
  {
  }

  /** The contexts after two such children were named. */
  lemma {:induction false} TwoRuns(env: Env, p: string, c: string, q: string, d: string)
    requires FourNames(p, c, q, d) && Family(env, c, p) && Family(env, d, q)
    ensures
      var key := KeyAfter(env, None, p);
      BuildAll(env, State(EMPTY_CONFIG, None), [c, d], false).state.site.contexts.Keys ==
      {p, q} + (if SecretWith(env, key, c).Some? then {c} else {})
      + (if SecretWith(env, KeyAfter(env, key, q), d).Some? then {d} else {})
  {
    hide BuildOne, BuildAll, Ends, Family, AskLinks, SecretWith, KeyAfter;
    var start := State(EMPTY_CONFIG, None);
    FamilyEnds(env, c, p);
    FamilyEnds(env, d, q);
    var s1 := BuildOne(env, start, c).state;
    SampleChild(env, start, c, p);
    SampleChild(env, s1, d, q);
    TwoNames(env, start, c, d);
  }

  lemma FamilyEnds(env: Env, c: string, p: string)
    requires Family(env, c, p)
    ensures Ends(AskLinks(env), c) && c in env.clusters
    ensures |env.clusters[c].sources| == 1 && env.clusters[c].sources[0].ClusterAPI?
  {
    hide Ends;
  }

  lemma {:induction false} TwoNames(env: Env, s: State, first: string, second: string)
    requires Ends(AskLinks(env), first) && Ends(AskLinks(env), second)
    requires BuildOne(env, s, first).outcome.Failed? ==>
               BuildOne(env, s, first).outcome.error == AllSourcesFailed
    ensures BuildAll(env, s, [first, second], false).state ==
            BuildOne(env, BuildOne(env, s, first).state, second).state
  {
    hide BuildOne;
    assert [first, second][1..] == [second] && [second][1..] == [];
    var s1 := BuildOne(env, s, first).state;
    assert BuildAll(env, s1, [second], false).state == BuildOne(env, s1, second).state;
  }

  ghost function Contexts(env: Env, names: seq<string>): set<string>
    requires forall c :: c in names ==> Ends(AskLinks(env), c)
  {
    FreshBuild(env, None, names, false).contexts.Keys
  }

  /**
   * Without a client given from outside, the client is made from the first
   * parent reached and kept.  So the order in which two clusters are named
   * decides which of them the build holds.
   */
  lemma {:induction false} OrderShowsWithoutClient(p: string, c: string, q: string, d: string)
    requires FourNames(p, c, q, d)
    ensures forall x :: Ends(AskLinks(TwoParents(p, c, q, d)), x)
    ensures Contexts(TwoParents(p, c, q, d), [c, d]) == {p, q, c}
    ensures Contexts(TwoParents(p, c, q, d), [d, c]) == {q, p, d}
  {
    hide BuildAll, Ends, AskLinks, Sample, Family, TwoParents, KeyAfter, SecretWith;
    var env := TwoParents(p, c, q, d);
    TwoFamilies(env, p, c, q, d);
    TwoRuns(env, p, c, q, d);
    TwoRuns(env, q, d, p, c);
    TwoKeys(p, c, q, d);
    TwoKeysBack(p, c, q, d);
  }

  lemma TwoFamilies(env: Env, p: string, c: string, q: string, d: string)
    requires FourNames(p, c, q, d) && (env == TwoParents(p, c, q, d) || env == OneMaker(p, c, q, d))
    ensures forall x :: Ends(AskLinks(env), x)
    ensures Family(env, c, p) && Family(env, d, q)
  {
    hide Ends, AskLinks, Sample, Parents;
    forall x ensures Ends(AskLinks(env), x) { TwoLinks(env, p, c, q, d, x); }
    SamplesOnly(env, p, c, q, d);
    hide TwoParents, OneMaker;
    assert Family(env, c, p) && Family(env, d, q);
  }

  lemma SamplesOnly(env: Env, p: string, c: string, q: string, d: string)
    requires FourNames(p, c, q, d) && (env == TwoParents(p, c, q, d) || env == OneMaker(p, c, q, d))
    ensures forall key :: key in env.secrets ==> env.secrets[key] == Sample("x")
    ensures env.files == map[p := Sample("x"), q := Sample("x")] && env.scratchWritable
    ensures env.clusters == TwoParents(p, c, q, d).clusters
    ensures p in env.clusters && env.clusters[p] == Cluster("", [FileSystem(p, "x")])
    ensures q in env.clusters && env.clusters[q] == Cluster("", [FileSystem(q, "x")])
    ensures c in env.clusters && env.clusters[c] == Cluster(p, [ClusterAPI(c, "n")])
    ensures d in env.clusters && env.clusters[d] == Cluster(q, [ClusterAPI(d, "n")])
  {
    hide Sample;
  }

  lemma TwoLinks(env: Env, p: string, c: string, q: string, d: string, x: string)
    requires FourNames(p, c, q, d) && env.clusters == TwoParents(p, c, q, d).clusters
    ensures Ends(AskLinks(env), x)
  {
    hide Ends, AskLinks, Sample;
    var next := Parents(env.clusters);
    assert p !in next && q !in next;
    assert forall y :: y in next ==> next[y] == p || next[y] == q;
    FlatEnds(env, x);
  }

  lemma TwoKeys(p: string, c: string, q: string, d: string)
    requires FourNames(p, c, q, d)
    ensures
      var env := TwoParents(p, c, q, d);
      && KeyAfter(env, None, p) == Some(Client(p)) && KeyAfter(env, Some(Client(p)), q) == Some(Client(p))
      && SecretWith(env, Some(Client(p)), c).Some? && SecretWith(env, Some(Client(p)), d).None?
  {
    hide Sample;
  }

  lemma TwoKeysBack(p: string, c: string, q: string, d: string)
    requires FourNames(p, c, q, d)
    ensures
      var env := TwoParents(p, c, q, d);
      && KeyAfter(env, None, q) == Some(Client(q)) && KeyAfter(env, Some(Client(q)), p) == Some(Client(q))
      && SecretWith(env, Some(Client(q)), d).Some? && SecretWith(env, Some(Client(q)), c).None?
  {
    hide Sample;
  }

  /** The same parents and children, where p makes no client and that of q reads both secrets. */
  ghost function OneMaker(p: string, c: string, q: string, d: string): Env {
    TwoParents(p, c, q, d).(
      newClients := map[(q, Sample(q)) := Client(q)],
      secrets := map[(Client(q), c, "n" + "-kubeconfig") := Sample("x"),
                     (Client(q), d, "n" + "-kubeconfig") := Sample("x")])
  }

  /**
   * The order shows even though only one client can be made, where one reading
   * of a parent makes none: the child of that parent is lost if named first.
   */
  lemma {:induction false} OrderShowsWhenUnmade(p: string, c: string, q: string, d: string)
    requires FourNames(p, c, q, d)
    ensures forall x :: Ends(AskLinks(OneMaker(p, c, q, d)), x)
    ensures forall k :: CanMake(OneMaker(p, c, q, d), k) ==> k == Client(q)
    ensures Contexts(OneMaker(p, c, q, d), [c, d]) == {p, q, d}
    ensures Contexts(OneMaker(p, c, q, d), [d, c]) == {q, p, d, c}
  {
    hide BuildAll, Ends, AskLinks, Sample, Family, OneMaker, KeyAfter, SecretWith, CanMake;
    var env := OneMaker(p, c, q, d);
    TwoFamilies(env, p, c, q, d);
    TwoRuns(env, p, c, q, d);
    TwoRuns(env, q, d, p, c);
    OneKey(p, c, q, d);
  }

  lemma OneKey(p: string, c: string, q: string, d: string)
    requires FourNames(p, c, q, d)
    ensures
      var env, k := OneMaker(p, c, q, d), Some(Client(q));
      && KeyAfter(env, None, p) == None && KeyAfter(env, None, q) == k && KeyAfter(env, k, p) == k
      && SecretWith(env, None, c).None? && SecretWith(env, k, c).Some? && SecretWith(env, k, d).Some?
      && forall k' :: CanMake(env, k') ==> k' == Client(q)
  {
    hide Sample, ReadsParent;
  }
}
