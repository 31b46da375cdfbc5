/** The cluster map: clusters, their parents and their kubeconfig sources (pkg/cluster/clustermap/map.go). */
module ClusterMaps {
  import opened Wrappers
  import opened Chains

  datatype Source =
    | FileSystem(path: string, contextName: string)
    | Bundle(contextName: string)
    | ClusterAPI(namespace: string, name: string)
    | UnknownType(typeName: string)

  datatype Cluster = Cluster(parent: string, sources: seq<Source>)

  type ClusterMap = map<string, Cluster>

  datatype LookupError = NotInMap | NoParent

  /** Links from a cluster to its parent; the empty parent means "none". */
  function Parents(m: ClusterMap): Links {
    map c | c in m && m[c].parent != "" :: m[c].parent
  }

  function ParentCluster(m: ClusterMap, child: string): Result<string, LookupError> {
    if child !in m then Err(NotInMap)
    else if m[child].parent == "" then Err(NoParent)
    else Ok(m[child].parent)
  }

  /** Every named parent is itself a cluster of the map. */
  ghost predicate ParentsDefined(m: ClusterMap) {
    forall c :: c in Parents(m) ==> Parents(m)[c] in m
  }

  ghost predicate Distinct<T>(s: seq<T>) {
    forall i, j :: 0 <= i < j < |s| ==> s[i] != s[j]
  }

  /** names holds each cluster of the map once, in some order. */
  ghost predicate Lists(m: ClusterMap, names: seq<string>) {
    && Distinct(names)
    && forall c :: c in names <==> c in m
  }

  /** Go leaves the order in which a map is ranged over open; so does this method. */
  method AllClusters(m: ClusterMap) returns (names: seq<string>)
    ensures Lists(m, names)
  {
    names := [];
    var left := m.Keys;
    while left != {}
      invariant left <= m.Keys
      invariant Distinct(names)
      invariant forall c :: c in names <==> c in m.Keys - left
    {
      var c :| c in left;
      assert c !in names;
      left := left - {c};
      names := names + [c];
    }
  }

  /**
   * Outcome of the validation.  Dangling stands for the nil dereference that
   * happens when a parent is looked up that the map does not hold.
   */
  datatype Verdict = Valid | Circular(child: string) | Dangling(child: string)

  lemma {:induction false} DistinctSize<T>(s: seq<T>, within: set<T>)
    requires Distinct(s)
    requires forall x :: x in s ==> x in within
    ensures |s| <= |within|
  {
    if s != [] {
      var x := s[0];
      assert forall y :: y in s[1..] ==> y in within - {x};
      DistinctSize(s[1..], within - {x});
    }
  }

  /** parents is what the inner loop has appended: the chain above child. */
  ghost predicate Climbed(m: ClusterMap, child: string, parents: seq<string>, current: string) {
    && Distinct(parents) && "" !in parents
    && (forall k :: 0 <= k < |parents| ==> Follow(Parents(m), child, k + 1) == Some(parents[k]))
    && (forall k :: 0 <= k < |parents| - 1 ==> parents[k] in m)
    && current == (if parents == [] then child else parents[|parents| - 1])
    && Follow(Parents(m), child, |parents|) == Some(current)
  }

  lemma ClimbOne(m: ClusterMap, child: string, parents: seq<string>, current: string)
    requires Climbed(m, child, parents, current) && current in Parents(m)
    ensures Follow(Parents(m), child, |parents| + 1) == Some(m[current].parent)
    ensures m[current].parent !in parents ==>
              Climbed(m, child, parents + [m[current].parent], m[current].parent)
  {
    FollowAppend(Parents(m), child, |parents|, 1);
    assert Follow(Parents(m), Parents(m)[current], 0) == Some(Parents(m)[current]);
  }

  /** The inner loop of ValidateClusterMap, for one child. */
  method ValidateChain(m: ClusterMap, child: string) returns (r: Verdict)
    requires child in m
    ensures r.Valid? <==> Ends(Parents(m), child) && Visited(Parents(m), child) <= m.Keys
    ensures r.Circular? ==> r.child == child && !Ends(Parents(m), child)
    ensures r.Dangling? ==> r.child == child && !ParentsDefined(m)
  {
    var parents: seq<string> := [];
    var current := child;
    ghost var next := Parents(m);
    assert Follow(next, child, 0) == Some(child);
    while true
      invariant Climbed(m, child, parents, current)
      invariant current in m || (parents != [] && !ParentsDefined(m))
      decreases |m| + 2 - |parents|
    {
      assert |parents| <= |m| + 1 by {
        if parents != [] {
          DistinctSize(parents[..|parents| - 1], m.Keys);
        }
      }
      if current !in m {
        if Ends(next, child) {
          ChainVisits(next, child, |parents|);
        }
        return Dangling(child);
      }
      var parent := m[current].parent;
      if parent in parents {
        ClimbOne(m, child, parents, current);
        var k :| 0 <= k < |parents| && parents[k] == parent;
        RepeatNeverEnds(next, child, k + 1, |parents| + 1);
        return Circular(child);
      }
      if parent == "" {
        FollowAppend(next, child, |parents|, 1);
        assert Follow(next, child, |parents| + 1).None?;
        ChainInside(m, child, parents, current, 0);
        return Valid;
      }
      ClimbOne(m, child, parents, current);
      if parent !in m {
        assert next[current] == parent;
      }
      parents := parents + [parent];
      current := parent;
    }
  }

  lemma {:induction false} ChainVisits(next: Links, c: string, n: nat)
    requires Ends(next, c) && Follow(next, c, n).Some?
    ensures Follow(next, c, n).value in Visited(next, c)
    decreases n
  {
    if n > 0 {
      HeightOfNext(next, c);
      ChainVisits(next, next[c], n - 1);
    }
  }

  lemma {:induction false} ChainInside(m: ClusterMap, child: string, parents: seq<string>, current: string, k: nat)
    requires child in m && k <= |parents|
    requires Climbed(m, child, parents, current) && current in m && current !in Parents(m)
    requires Ends(Parents(m), child)
    ensures Follow(Parents(m), child, k).Some?
    ensures Ends(Parents(m), Follow(Parents(m), child, k).value)
    ensures Visited(Parents(m), Follow(Parents(m), child, k).value) <= m.Keys
    decreases |parents| - k
  {
    var next := Parents(m);
    FollowAppend(next, child, k, |parents| - k);
    HeightDrops(next, child, k);
    if k < |parents| {
      FollowAppend(next, child, k, 1);
      ChainInside(m, child, parents, current, k + 1);
    }
  }

  /**
   * ValidateClusterMap, for any order in which the map is ranged over: it
   * accepts exactly the maps whose parents are all defined and acyclic.
   */
  method ValidateClusterMap(m: ClusterMap) returns (r: Verdict)
    ensures r.Valid? <==> ParentsDefined(m) && !Cyclic(Parents(m))
    ensures r.Circular? ==> r.child in m && !Ends(Parents(m), r.child) && Cyclic(Parents(m))
    ensures r.Dangling? ==> !ParentsDefined(m)
  {
    AcyclicIffAllEnd(Parents(m));
    var names := AllClusters(m);
    for i := 0 to |names|
      invariant forall k :: 0 <= k < i ==>
                  Ends(Parents(m), names[k]) && Visited(Parents(m), names[k]) <= m.Keys
    {
      r := ValidateChain(m, names[i]);
      if !r.Valid? {
        return;
      }
    }
    forall c | c in m
      ensures Ends(Parents(m), c) && Visited(Parents(m), c) <= m.Keys
    {
      var k :| 0 <= k < |names| && names[k] == c;
    }
    AllInside(m);
    return Valid;
  }

  lemma AllInside(m: ClusterMap)
    requires forall c :: c in m ==> Ends(Parents(m), c) && Visited(Parents(m), c) <= m.Keys
    ensures ParentsDefined(m) && !Cyclic(Parents(m))
  {
    var next := Parents(m);
    forall c | c in next ensures next[c] in m {
      HeightOfNext(next, c);
      assert next[c] in Visited(next, next[c]);
    }
    if Cyclic(next) {
      var c :| c in next && ReturnsTo(next, c);
      var n: nat :| n > 0 && Follow(next, c, n) == Some(c);
      RepeatNeverEnds(next, c, 0, n);
      assert false;
    }
  }
}
