/** When the early end of the slice loop loses nodes, and queries for which it cannot. */
module JsonSlices {
  import opened Wrappers
  import opened YamlNodes
  import opened Comparisons
  import opened JsonPaths
  import opened JsonPositions
  import opened JsonMeaning

  /** All that s selects at the nodes, without an early end. */
  ghost function AllSelected(floats: FloatParser, rns: seq<Node>, s: Segment): seq<Node> {
    if rns == [] then [] else
    (if Select(floats, rns[0], s).Ok? then Children(rns[0], Select(floats, rns[0], s).value) else [])
    + AllSelected(floats, rns[1..], s)
  }

  /** Wherever a slice is empty, it selects nothing at the nodes that follow. */
  predicate NoDropAt(floats: FloatParser, rns: seq<Node>, s: Segment) {
    forall i, j :: 0 <= i < j < |rns| && StopsAt(rns[i], s) ==> SelectsNothing(floats, rns[j], s)
  }

  /** s selects no child at n, perhaps because it fails there. */
  predicate SelectsNothing(floats: FloatParser, n: Node, s: Segment) {
    Select(floats, n, s).Err? || Select(floats, n, s).value == []
  }

  lemma {:induction false} ChildrenLength(n: Node, places: seq<nat>)
    requires Within(places, |n.content|)
    ensures |Children(n, places)| == |places|
  {
    if places != [] {
      ChildrenLength(n, places[1..]);
    }
  }

  lemma {:induction false} NothingSelected(floats: FloatParser, rns: seq<Node>, s: Segment)
    ensures AllSelected(floats, rns, s) == [] <==>
            forall j :: 0 <= j < |rns| ==> SelectsNothing(floats, rns[j], s)
  {
    hide Select, Children;
    if rns != [] {
      NothingSelected(floats, rns[1..], s);
      if Select(floats, rns[0], s).Ok? {
        ChildrenLength(rns[0], Select(floats, rns[0], s).value);
      }
      assert AllSelected(floats, rns, s) == [] <==>
             SelectsNothing(floats, rns[0], s) && AllSelected(floats, rns[1..], s) == [];
      hide AllSelected, SelectsNothing;
      assert rns == [rns[0]] + rns[1..];
    }
  }

  /** The slice loop gives all selected nodes exactly when no empty slice precedes a selected one. */
  lemma {:induction false} SliceLoopExact(floats: FloatParser, rns: seq<Node>, s: Segment)
    requires s.Slice? && Gather(floats, rns, s).Ok?
    ensures Gather(floats, rns, s).value == AllSelected(floats, rns, s) <==> NoDropAt(floats, rns, s)
    decreases |rns|
  {
    if rns != [] {
      assert rns == [rns[0]] + rns[1..];
      GatherOne(floats, rns[0], rns[1..], s);
      if StopsAt(rns[0], s) {
        NothingSelected(floats, rns[1..], s);
        StopFirst(floats, rns, s);
      } else {
        SliceLoopExact(floats, rns[1..], s);
        SkipFirst(floats, rns, s);
        Cancel(Children(rns[0], Select(floats, rns[0], s).value),
               Gather(floats, rns[1..], s).value, AllSelected(floats, rns[1..], s));
      }
    }
  }

  lemma Cancel(front: seq<Node>, a: seq<Node>, b: seq<Node>)
    ensures front + a == front + b <==> a == b
  {
    assert (front + a)[|front|..] == a && (front + b)[|front|..] == b;
  }

  lemma StopFirst(floats: FloatParser, rns: seq<Node>, s: Segment)
    requires s.Slice? && rns != [] && StopsAt(rns[0], s)
    ensures NoDropAt(floats, rns, s) <==>
            forall j :: 0 <= j < |rns[1..]| ==> SelectsNothing(floats, rns[1..][j], s)
  {
    if NoDropAt(floats, rns, s) {
      forall j | 0 <= j < |rns[1..]| ensures SelectsNothing(floats, rns[1..][j], s) {
        assert rns[1..][j] == rns[j + 1];
      }
    }
    if forall j :: 0 <= j < |rns[1..]| ==> SelectsNothing(floats, rns[1..][j], s) {
      forall i, j | 0 <= i < j < |rns| && StopsAt(rns[i], s) ensures SelectsNothing(floats, rns[j], s) {
        assert rns[j] == rns[1..][j - 1];
      }
    }
  }

  lemma SkipFirst(floats: FloatParser, rns: seq<Node>, s: Segment)
    requires s.Slice? && rns != [] && !StopsAt(rns[0], s)
    ensures NoDropAt(floats, rns, s) <==> NoDropAt(floats, rns[1..], s)
  {
  }

  /** A segment that selects at most one child of a node. */
  predicate AtMostOne(s: Segment) {
    s.Field? || (s.Slice? && s == Index(s.first.value))
  }

  /** Slices come only where at most one node is at hand, in the query and in its filters. */
  predicate Tame(q: Query, single: bool)
    decreases q, 0
  {
    q == [] || (TameSegment(q[0], single) && Tame(q[1..], Literal(q[0]) || (single && AtMostOne(q[0]))))
  }

  predicate TameSegment(s: Segment, single: bool)
    decreases s, 1
  {
    match s
    case Slice(_, _, _) => single
    case Filter(left, _, right) => Tame(left, true) && Tame(right, true)
    case _ => true
  }

  lemma {:induction false} OneAtMost(floats: FloatParser, rns: seq<Node>, s: Segment)
    requires AtMostOne(s) && |rns| <= 1 && Apply(floats, rns, s).Ok?
    ensures |Apply(floats, rns, s).value| <= 1
  {
    if rns != [] && s != Field("") {
      assert rns == [rns[0]] + [];
      GatherOne(floats, rns[0], [], s);
      var places := Select(floats, rns[0], s).value;
      ChildrenLength(rns[0], places);
      if s.Slice? {
        IndexBounds(s.first.value, |rns[0].content|);
        var b := SliceBounds(s, |rns[0].content|).value;
        assert Steps(b.min + 1, b.max, 1) == [];
      }
    }
  }

  /** On tame queries the early end never loses a node, whatever the document is. */
  lemma {:induction false} TameLosesNothing(floats: FloatParser, rns: seq<Node>, q: Query, single: bool)
    requires Tame(q, single) && (single ==> |rns| <= 1)
    ensures LosesNothing(floats, rns, q)
    decreases q
  {
    if q != [] {
      var s := q[0];
      if s.Filter? {
        forall n, item | n in rns && item in n.content
          ensures LosesNothing(floats, [item], s.left) && LosesNothing(floats, [item], s.right)
        {
          TameLosesNothing(floats, [item], s.left, true);
          TameLosesNothing(floats, [item], s.right, true);
        }
      }
      OnlyNodeStops(floats, rns, q);
      if Apply(floats, rns, s).Ok? {
        if single && AtMostOne(s) {
          OneAtMost(floats, rns, s);
        }
        TameLosesNothing(floats, Apply(floats, rns, s).value, q[1..], Literal(s) || (single && AtMostOne(s)));
      }
    }
  }

  /** A loop that an empty slice ends leaves out nothing if there is only one node. */
  lemma {:induction false} OnlyNodeStops(floats: FloatParser, rns: seq<Node>, q: Query)
    requires q != [] && (q[0].Slice? ==> |rns| <= 1)
    ensures NoneLeftOut(floats, rns, q)
  {
    if q[0].Slice? {
    } else {
      AllTaken(rns, q[0]);
    }
  }

  /** A tame query that evaluates without error yields exactly the denoted nodes, in document order. */
  lemma {:induction false} TameQueryYieldsDenoted(floats: FloatParser, root: Node, q: Query) returns (qs: seq<Position>)
    requires UniqueKeys(root) && Located(q) && Tame(q, true) && Walk(floats, [root], q).Ok?
    ensures forall p :: p in qs <==> Denotes(floats, root, q, p)
    ensures forall i, j :: 0 <= i < j < |qs| ==> Before(qs[i], qs[j])
    ensures (forall p :: p in qs ==> At(root, p).Some?) && NodesAt(root, qs) == Walk(floats, [root], q).value
  {
    TameLosesNothing(floats, [root], q, true);
    qs := QueryYieldsDenoted(floats, root, q);
  }

  ghost function Row(n: nat): Node { Node(SequenceKind, "!!seq", "", seq(n, i => ScalarNode("!!str", "x"))) }

  ghost const ROWS := Node(SequenceKind, "!!seq", "", [Row(2), Row(3)])

  const INNER := Slice(Param(1, true, false), Param(-1, true, false), Param(0, false, false))

  /** Without tameness nodes can be lost: [*][1:-1] on rows of two and three items. */
  lemma {:induction false} SliceLosesRow(floats: FloatParser)
    ensures Walk(floats, [ROWS], [Wildcard, INNER]) == Ok([])
    ensures Denotes(floats, ROWS, [Wildcard, INNER], [1, 1])
  {
    assert [Wildcard, INNER][1..] == [INNER] && [INNER][1..] == [] && [1, 1][1..] == [1];
    LosesRow(floats);
    DenotesRow(floats);
    hide Apply, StepTo;
    assert Walk(floats, [], []) == Ok([]) && Walk(floats, [Row(2), Row(3)], [INNER]) == Ok([]);
  }

  lemma {:induction false} LosesRow(floats: FloatParser)
    ensures Apply(floats, [ROWS], Wildcard) == Ok([Row(2), Row(3)])
    ensures Apply(floats, [Row(2), Row(3)], INNER) == Ok([])
  {
    var all := Select(floats, ROWS, Wildcard).value;
    assert all == [0, 1];
    assert all[1..] == [1] && [1][1..] == [];
    assert Children(ROWS, [1]) == [Row(3)] + Children(ROWS, []);
    assert Children(ROWS, all) == [Row(2)] + Children(ROWS, [1]);
    assert [ROWS][1..] == [] && Gather(floats, [ROWS][1..], Wildcard) == Ok([]);
    assert Select(floats, ROWS, Wildcard) == Ok(all);
    assert Apply(floats, [ROWS], Wildcard).value == [Row(2), Row(3)];
    assert SliceBounds(INNER, 2) == Ok(Bounds(1, 1, 1)) && StopsAt(Row(2), INNER);
  }

  lemma {:induction false} DenotesRow(floats: FloatParser)
    ensures StepTo(floats, ROWS, Wildcard, 1) && ROWS.content[1] == Row(3)
    ensures Denotes(floats, Row(3), [INNER], [1])
  {
    assert SliceBounds(INNER, 3) == Ok(Bounds(1, 2, 1));
    assert [INNER][1..] == [] && [1][1..] == [];
    assert StepTo(floats, Row(3), INNER, 1);
  }
}
