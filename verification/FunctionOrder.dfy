/** The order in which functions run (sortFns in pkg/container/runfn/runfn.go). */
module FunctionOrder {
  import opened Wrappers
  import opened GoStrings
  import opened YamlNodes
  import opened Comparisons

  /** A function file entry: its path and index annotations. */
  datatype Fn = Fn(path: string, index: string)

  // ----- Slash-separated paths of the Go library -----

  /** Path elements after dropping "", "." and what ".." takes back. */
  function CleanParts(parts: seq<string>, rooted: bool, kept: seq<string>): seq<string>
    decreases |parts|
  {
    if parts == [] then kept else
    var p := parts[0];
    CleanParts(parts[1..], rooted,
      if p == "" || p == "." then kept
      else if p != ".." then kept + [p]
      else if kept != [] && kept[|kept| - 1] != ".." then kept[..|kept| - 1]
      else if rooted then kept
      else kept + [p])
  }

  function Clean(s: string): string {
    var rooted := s != "" && s[0] == '/';
    var text := Join(CleanParts(Split(s, '/'), rooted, []), '/');
    if rooted then "/" + text else if text == "" then "." else text
  }

  function UpToLastSlash(s: string): string {
    if s == "" then "" else if s[|s| - 1] == '/' then s else UpToLastSlash(s[..|s| - 1])
  }

  function DirName(s: string): string { Clean(UpToLastSlash(s)) }

  function WithoutSlashes(s: string): string {
    if s != "" && s[|s| - 1] == '/' then WithoutSlashes(s[..|s| - 1]) else s
  }

  function BaseName(s: string): string {
    if s == "" then "." else
    var t := WithoutSlashes(s);
    if t == "" then "/" else var parts := Split(t, '/'); parts[|parts| - 1]
  }

  /** The directory a function is scoped to; a "functions" directory does not count. */
  function Scope(path: string): string {
    if BaseName(DirName(path)) == "functions" then DirName(DirName(path)) else DirName(path)
  }

  function Depth(dir: string): nat { if dir == "." then 0 else |Split(dir, '/')| }

  // ----- The comparison -----

  /** All that the comparison looks at. */
  datatype Rank = Rank(path: string, index: Option<int>, scope: string, depth: nat)

  function RankOf(f: Fn): Rank { Rank(f.path, Atoi(f.index), Scope(f.path), Depth(Scope(f.path))) }

  function Ranks(fns: seq<Fn>): seq<Rank> { if fns == [] then [] else [RankOf(fns[0])] + Ranks(fns[1..]) }

  /** The comparison function given to sort.Slice. */
  predicate Less(a: Rank, b: Rank) {
    if a.path == b.path then a.index.Some? && b.index.Some? && a.index.value < b.index.value
    else if a.depth != b.depth then a.depth > b.depth
    else StringLt(a.scope, b.scope)
  }

  /** Ranks of functions: the path decides the scope, and the scope its depth. */
  ghost predicate Coherent(a: Rank, b: Rank) {
    (a.path == b.path ==> a.scope == b.scope) && (a.scope == b.scope ==> a.depth == b.depth)
  }

  /** Ranks of one list of functions, all with integer indexes. */
  ghost predicate Sortable(s: seq<Rank>) {
    (forall a :: a in s ==> a.index.Some?) && (forall a, b :: a in s && b in s ==> Coherent(a, b))
  }

  lemma {:induction false} RanksAre(fns: seq<Fn>)
    ensures |Ranks(fns)| == |fns| && forall k :: 0 <= k < |fns| ==> Ranks(fns)[k] == RankOf(fns[k])
  {
    if fns != [] {
      RanksAre(fns[1..]);
    }
  }

  /** Functions with integer indexes can be sorted, whatever their paths are. */
  lemma {:induction false} FunctionsSortable(fns: seq<Fn>)
    ensures Sortable(Ranks(fns)) <==> forall f :: f in fns ==> Atoi(f.index).Some?
  {
    var s := Ranks(fns);
    RanksAre(fns);
    hide Scope, Depth, Atoi, Ranks;
    if Sortable(s) {
      forall f | f in fns ensures Atoi(f.index).Some? {
        var k :| 0 <= k < |fns| && fns[k] == f;
        assert s[k] in s;
      }
    }
    forall a, b | a in s && b in s ensures Coherent(a, b) {
      var i :| 0 <= i < |s| && s[i] == a;
      var j :| 0 <= j < |s| && s[j] == b;
    }
  }

  /** Neither comes first. */
  predicate Tied(a: Rank, b: Rank) { !Less(a, b) && !Less(b, a) }

  lemma {:induction false} StringLtTransitive(a: string, b: string, c: string)
    requires StringLt(a, b) && StringLt(b, c)
    ensures StringLt(a, c)
    decreases |a|
  {
    if a != "" && a[0] == b[0] && b[0] == c[0] {
      StringLtTransitive(a[1..], b[1..], c[1..]);
    }
  }

  /** The comparison is irreflexive and transitive. */
  lemma {:induction false} LessIsStrict(a: Rank, b: Rank, c: Rank)
    requires Sortable([a, b, c])
    ensures !Less(a, a)
    ensures Less(a, b) && Less(b, c) ==> Less(a, c)
  {
    assert a in [a, b, c] && b in [a, b, c] && c in [a, b, c];
    assert Coherent(a, b) && Coherent(b, c) && Coherent(a, c);
    StringsOrdered(a.scope, b.scope);
    StringsOrdered(b.scope, c.scope);
    StringsOrdered(a.scope, c.scope);
    if StringLt(a.scope, b.scope) && StringLt(b.scope, c.scope) {
      StringLtTransitive(a.scope, b.scope, c.scope);
    }
  }

  /** Functions of different files are tied exactly when their files share a scope. */
  lemma {:induction false} TiedAcrossFiles(a: Rank, b: Rank)
    requires a.path != b.path && Coherent(a, b)
    ensures Tied(a, b) <==> a.scope == b.scope
  {
    StringsOrdered(a.scope, b.scope);
  }

  /** One file gives a and b, with different indexes, and another file of the same scope gives c. */
  predicate Mixed(a: Rank, b: Rank, c: Rank) {
    a.path == b.path && a.path != c.path && a.scope == c.scope && a.index != b.index
  }

  /** Being tied is transitive on the list, as a sort needs it. */
  ghost predicate WeakOrder(s: seq<Rank>) {
    forall a, b, c :: a in s && b in s && c in s && Tied(a, b) && Tied(b, c) ==> Tied(a, c)
  }

  ghost predicate Unmixed(s: seq<Rank>) {
    !exists a, b, c :: a in s && b in s && c in s && Mixed(a, b, c)
  }

  /** The comparison is a weak order on a list exactly when no scope of it is mixed. */
  lemma {:induction false} WeakOrderIffUnmixed(s: seq<Rank>)
    requires Sortable(s)
    ensures WeakOrder(s) <==> Unmixed(s)
  {
    hide Less, Tied, Mixed, Coherent;
    if a, b, c :| a in s && b in s && c in s && Mixed(a, b, c) {
      MixedTies(a, b, c);
    } else {
      forall a, b, c | a in s && b in s && c in s && Tied(a, b) && Tied(b, c) ensures Tied(a, c) {
        UnmixedTies(a, b, c);
      }
    }
  }

  lemma {:induction false} MixedTies(a: Rank, b: Rank, c: Rank)
    requires Coherent(a, c) && Coherent(b, c) && Coherent(a, b) && a.index.Some? && b.index.Some? && Mixed(a, b, c)
    ensures Tied(a, c) && Tied(c, b) && !Tied(a, b)
  {
    TiedAcrossFiles(a, c);
    TiedAcrossFiles(c, b);
  }

  lemma {:induction false} UnmixedTies(a: Rank, b: Rank, c: Rank)
    requires a.index.Some? && b.index.Some? && c.index.Some?
    requires Coherent(a, b) && Coherent(b, c) && Coherent(a, c)
    requires Tied(a, b) && Tied(b, c) && !Mixed(a, c, b)
    ensures Tied(a, c)
  {
    if a.path != b.path { TiedAcrossFiles(a, b); }
    if b.path != c.path { TiedAcrossFiles(b, c); }
    if a.path != c.path { TiedAcrossFiles(a, c); }
  }

  // ----- Sorted lists -----

  /** No neighbour is out of order: all that a sort looks at in the end. */
  ghost predicate NeighboursSorted(s: seq<Rank>) {
    forall i :: 0 <= i < |s| - 1 ==> !Less(s[i + 1], s[i])
  }

  /** No function comes before an earlier one. */
  ghost predicate RunsInOrder(s: seq<Rank>) {
    forall i, j :: 0 <= i < j < |s| ==> !Less(s[j], s[i])
  }

  /** Deeper scopes come first, and a file's functions keep the order of their indexes. */
  lemma {:induction false} RunsInOrderMeans(s: seq<Rank>, i: nat, j: nat)
    requires Sortable(s) && RunsInOrder(s) && i < j < |s|
    ensures s[i].depth >= s[j].depth && s[i].index.Some? && s[j].index.Some?
    ensures s[i].path == s[j].path ==> s[i].index.value <= s[j].index.value
  {
    assert s[i] in s && s[j] in s && Coherent(s[i], s[j]);
    assert !Less(s[j], s[i]);
  }

  lemma {:induction false} SortedReaches(s: seq<Rank>, i: nat, j: nat)
    requires Sortable(s) && WeakOrder(s) && NeighboursSorted(s) && i < j < |s|
    ensures !Less(s[j], s[i])
    decreases j - i
  {
    hide Less, Tied, Coherent;
    if i + 1 < j {
      SortedReaches(s, i + 1, j);
      assert s[i] in s && s[i + 1] in s && s[j] in s;
      NotLessChain(s[i], s[i + 1], s[j]);
    }
  }

  /** If b does not come before a, nor c before b, then c does not come before a. */
  lemma {:induction false} NotLessChain(a: Rank, b: Rank, c: Rank)
    requires Sortable([a, b, c]) && !Less(b, a) && !Less(c, b)
    requires Tied(a, b) && Tied(b, c) ==> Tied(a, c)
    ensures !Less(c, a)
  {
    hide Less, Coherent;
    LessIsStrict(c, a, b);
    LessIsStrict(b, c, a);
  }

  /** On unmixed lists, sorted neighbours mean that the whole list runs in order. */
  lemma {:induction false} UnmixedSortRunsInOrder(s: seq<Rank>)
    requires Sortable(s) && NeighboursSorted(s) && Unmixed(s)
    ensures RunsInOrder(s)
  {
    WeakOrderIffUnmixed(s);
    forall i, j | 0 <= i < j < |s| ensures !Less(s[j], s[i]) {
      SortedReaches(s, i, j);
    }
  }

  lemma EndsSwapped(a: Rank, b: Rank, c: Rank)
    requires !Less(b, a) && !Less(c, b) && Less(c, a)
    ensures NeighboursSorted([a, b, c]) && !RunsInOrder([a, b, c])
  {
    hide Less;
    var s := [a, b, c];
    assert Less(s[2], s[0]);
  }

  /** Three mixed functions have an order with sorted neighbours that runs one file backwards. */
  lemma {:induction false} MixedSortMisleads(a: Rank, b: Rank, c: Rank) returns (s: seq<Rank>)
    requires Sortable([a, b, c]) && Mixed(a, b, c)
    ensures multiset(s) == multiset{a, b, c} && NeighboursSorted(s) && !RunsInOrder(s)
  {
    assert a in [a, b, c] && b in [a, b, c] && c in [a, b, c];
    assert Coherent(a, b) && Coherent(b, c) && Coherent(a, c);
    MixedTies(a, b, c);
    hide Less, Mixed, NeighboursSorted, RunsInOrder, Sortable;
    if Less(a, b) {
      EndsSwapped(b, c, a);
      s := [b, c, a];
    } else {
      EndsSwapped(a, c, b);
      s := [a, c, b];
    }
  }
}
