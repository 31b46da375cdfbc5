/**
 * Chains of names under a partial "next" function.
 *
 * Parent links between clusters, and the subset of them that the kubeconfig
 * builder really follows, are both finite maps from a name to the next name.
 */
module Chains {
  import opened Wrappers

  type Links = map<string, string>

  /** The name reached from c after n links, if the chain is that long. */
  function Follow(next: Links, c: string, n: nat): Option<string>
    decreases n
  {
    if n == 0 then Some(c)
    else if c in next then Follow(next, next[c], n - 1)
    else None
  }

  ghost predicate Ends(next: Links, c: string) {
    exists n: nat :: Follow(next, c, n).None?
  }

  ghost predicate ReturnsTo(next: Links, c: string) {
    exists n: nat :: n > 0 && Follow(next, c, n) == Some(c)
  }

  ghost predicate Cyclic(next: Links) {
    exists c :: c in next && ReturnsTo(next, c)
  }

  ghost function FirstGap(next: Links, c: string, n: nat): (h: nat)
    requires Follow(next, c, n).None?
    ensures 0 < h <= n && Follow(next, c, h).None? && Follow(next, c, h - 1).Some?
  {
    if Follow(next, c, n - 1).None? then FirstGap(next, c, n - 1) else n
  }

  /** The number of names on the chain that starts at c. */
  ghost function Height(next: Links, c: string): (h: nat)
    requires Ends(next, c)
    ensures h > 0 && Follow(next, c, h).None? && Follow(next, c, h - 1).Some?
  {
    var n: nat :| Follow(next, c, n).None?;
    FirstGap(next, c, n)
  }

  lemma {:induction false} FollowAppend(next: Links, c: string, m: nat, n: nat)
    ensures Follow(next, c, m).None? ==> Follow(next, c, m + n).None?
    ensures Follow(next, c, m).Some? ==>
              Follow(next, c, m + n) == Follow(next, Follow(next, c, m).value, n)
    decreases m
  {
    if m > 0 && c in next {
      FollowAppend(next, next[c], m - 1, n);
    }
  }

  lemma HeightIsFirstGap(next: Links, c: string, n: nat)
    requires Ends(next, c)
    ensures Follow(next, c, n).Some? <==> n < Height(next, c)
  {
    var h := Height(next, c);
    if n < h {
      FollowAppend(next, c, n, h - 1 - n);
    } else {
      FollowAppend(next, c, h, n - h);
    }
  }

  /** Along a chain that ends, every link lowers the height by exactly one. */
  lemma HeightDrops(next: Links, c: string, n: nat)
    requires Ends(next, c)
    requires Follow(next, c, n).Some?
    ensures Ends(next, Follow(next, c, n).value)
    ensures Height(next, Follow(next, c, n).value) == Height(next, c) - n
  {
    var d := Follow(next, c, n).value;
    var h := Height(next, c);
    HeightIsFirstGap(next, c, n);
    FollowAppend(next, c, n, h - n);
    FollowAppend(next, c, n, h - n - 1);
    HeightIsFirstGap(next, d, h - n);
    HeightIsFirstGap(next, d, h - n - 1);
  }

  lemma HeightOfNext(next: Links, c: string)
    requires Ends(next, c) && c in next
    ensures Ends(next, next[c]) && Height(next, next[c]) == Height(next, c) - 1
  {
    assert Follow(next, c, 1) == Some(next[c]) by {
      assert Follow(next, next[c], 0) == Some(next[c]);
    }
    HeightDrops(next, c, 1);
  }

  /** A chain that meets one name twice never ends. */
  lemma RepeatNeverEnds(next: Links, c: string, i: nat, j: nat)
    requires i < j
    requires Follow(next, c, i).Some? && Follow(next, c, i) == Follow(next, c, j)
    ensures !Ends(next, c)
  {
    if Ends(next, c) {
      HeightDrops(next, c, i);
      HeightDrops(next, c, j);
      assert false;
    }
  }

  /** x is among the first n names on the chain from c. */
  ghost predicate MetWithin(next: Links, c: string, n: nat, x: string) {
    exists i: nat :: i < n && Follow(next, c, i) == Some(x)
  }

  /** If a chain never ends, the links have a cycle. */
  lemma {:induction false} EndlessMeetsCycle(next: Links, start: string, n: nat, seen: set<string>)
    requires !Ends(next, start)
    requires seen <= next.Keys && |seen| == n
    requires forall x :: x in seen ==> MetWithin(next, start, n, x)
    ensures Cyclic(next)
    decreases |next.Keys - seen|
  {
    assert Follow(next, start, n).Some? && Follow(next, start, n + 1).Some?;
    var c := Follow(next, start, n).value;
    FollowAppend(next, start, n, 1);
    if c in seen {
      var i: nat :| i < n && Follow(next, start, i) == Some(c);
      FollowAppend(next, start, i, n - i);
      assert ReturnsTo(next, c);
    } else {
      assert |seen + {c}| == n + 1;
      forall x | x in seen + {c}
        ensures MetWithin(next, start, n + 1, x)
      {
        if x == c {
          assert n < n + 1 && Follow(next, start, n) == Some(c);
        } else {
          var i: nat :| i < n && Follow(next, start, i) == Some(x);
          assert i < n + 1;
        }
      }
      assert next.Keys - (seen + {c}) < next.Keys - seen;
      SmallerSet(next.Keys - (seen + {c}), next.Keys - seen);
      EndlessMeetsCycle(next, start, n + 1, seen + {c});
    }
  }

  lemma SmallerSet<T>(a: set<T>, b: set<T>)
    requires a < b
    ensures |a| < |b|
  {
    assert b == a + (b - a);
    assert |b| == |a| + |b - a|;
  }

  lemma SubsetSize<T>(a: set<T>, b: set<T>)
    requires a <= b
    ensures |a| <= |b|
  {
    if a != b {
      SmallerSet(a, b);
    }
  }

  /** Links are acyclic exactly when every chain ends. */
  lemma AcyclicIffAllEnd(next: Links)
    ensures !Cyclic(next) <==> forall c :: Ends(next, c)
  {
    if Cyclic(next) {
      var c :| c in next && ReturnsTo(next, c);
      var n: nat :| n > 0 && Follow(next, c, n) == Some(c);
      RepeatNeverEnds(next, c, 0, n);
    } else {
      forall c ensures Ends(next, c) {
        if !Ends(next, c) {
          EndlessMeetsCycle(next, c, 0, {});
        }
      }
    }
  }

  /** Dropping links cannot make a chain endless. */
  lemma {:induction false} FewerLinksEnd(fewer: Links, next: Links, c: string)
    requires forall x :: x in fewer ==> x in next && next[x] == fewer[x]
    requires Ends(next, c)
    ensures Ends(fewer, c)
    decreases Height(next, c)
  {
    if c in fewer {
      HeightOfNext(next, c);
      FewerLinksEnd(fewer, next, next[c]);
      var n: nat :| Follow(fewer, fewer[c], n).None?;
      assert Follow(fewer, c, n + 1).None?;
    } else {
      assert Follow(fewer, c, 1).None?;
    }
  }

  /** The names on the chain that starts at c. */
  ghost function Visited(next: Links, c: string): (names: set<string>)
    requires Ends(next, c)
    ensures c in names
    decreases Height(next, c)
  {
    if c in next then HeightOfNext(next, c); {c} + Visited(next, next[c])
    else {c}
  }

  lemma {:induction false} VisitedAreLower(next: Links, c: string, x: string)
    requires Ends(next, c)
    requires x in Visited(next, c)
    ensures Ends(next, x) && Height(next, x) <= Height(next, c)
    ensures Visited(next, x) <= Visited(next, c)
    decreases Height(next, c)
  {
    if x != c {
      HeightOfNext(next, c);
      VisitedAreLower(next, next[c], x);
    }
  }

  /** The names on a chain are distinct, so there are as many as its height. */
  lemma {:induction false} HeightCountsNames(next: Links, c: string)
    requires Ends(next, c)
    ensures |Visited(next, c)| == Height(next, c)
    decreases Height(next, c)
  {
    if c in next {
      HeightOfNext(next, c);
      HeightCountsNames(next, next[c]);
      if c in Visited(next, next[c]) {
        VisitedAreLower(next, next[c], c);
        assert false;
      }
    } else {
      assert Follow(next, c, 1).None?;
      HeightIsFirstGap(next, c, 1);
      HeightIsFirstGap(next, c, 0);
    }
  }

  /** A chain that stays inside a set of names is no longer than the set. */
  lemma HeightBound(next: Links, c: string, names: set<string>)
    requires Ends(next, c) && c in names
    requires forall x :: x in next ==> next[x] in names
    ensures Height(next, c) <= |names|
  {
    VisitedInside(next, c, names);
    HeightCountsNames(next, c);
    SubsetSize(Visited(next, c), names);
  }

  lemma {:induction false} VisitedInside(next: Links, c: string, names: set<string>)
    requires Ends(next, c) && c in names
    requires forall x :: x in next ==> next[x] in names
    ensures Visited(next, c) <= names
    decreases Height(next, c)
  {
    if c in next {
      HeightOfNext(next, c);
      VisitedInside(next, next[c], names);
    }
  }
}
