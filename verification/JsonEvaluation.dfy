/** When a query evaluates, and when it ends in an error. */
module JsonEvaluation {
  import opened Wrappers
  import opened YamlNodes
  import opened Comparisons
  import opened JsonPaths
  import opened JsonPositions
  import opened JsonMeaning
  import opened JsonSlices

  // ----- Filters -----

  /** The query evaluates at the item, to one node at most. */
  ghost predicate GivesOneAtMost(floats: FloatParser, item: Node, q: Query) {
    Walk(floats, [item], q).Ok? && |Walk(floats, [item], q).value| <= 1
  }

  ghost predicate GivesNone(floats: FloatParser, item: Node, q: Query) { Walk(floats, [item], q) == Ok([]) }

  /** Both sides give one node each. */
  ghost predicate BothGive(floats: FloatParser, item: Node, s: Segment, l: Node, r: Node)
    requires s.Filter?
  {
    Walk(floats, [item], s.left) == Ok([l]) && Walk(floats, [item], s.right) == Ok([r])
  }

  /**
   * The left side gives one node at most; if it gives one, so does the right
   * side; and if both give one, the two compare.
   */
  ghost predicate ItemFits(floats: FloatParser, item: Node, s: Segment)
    requires s.Filter?
  {
    && GivesOneAtMost(floats, item, s.left)
    && (!GivesNone(floats, item, s.left) ==> GivesOneAtMost(floats, item, s.right))
    && (forall l, r :: BothGive(floats, item, s, l, r) ==> Compare(floats, s.op, l, r).Ok?)
  }

  /** A filter fails at no other items; one that gives nothing on a side is skipped. */
  lemma {:induction false} FilterEvaluates(floats: FloatParser, item: Node, s: Segment)
    requires s.Filter?
    ensures Passes(floats, item, s).Ok? <==> ItemFits(floats, item, s)
    ensures Passes(floats, item, s) == Ok(true) <==>
            exists l, r :: BothGive(floats, item, s, l, r) && Compare(floats, s.op, l, r) == Ok(true)
    ensures GivesNone(floats, item, s.left) ==> Passes(floats, item, s) == Ok(false)
    ensures GivesNone(floats, item, s.right) && GivesOneAtMost(floats, item, s.left) ==>
              Passes(floats, item, s) == Ok(false)
  {
    hide Walk, Compare;
    var left, right := Walk(floats, [item], s.left), Walk(floats, [item], s.right);
    if left.Ok? && |left.value| == 1 {
      assert left.value == [left.value[0]];
      if right.Ok? && |right.value| == 1 {
        assert right.value == [right.value[0]];
        var l, r := left.value[0], right.value[0];
        assert BothGive(floats, item, s, l, r);
        assert forall l', r' :: BothGive(floats, item, s, l', r') ==> left.value[0] == l' && right.value[0] == r';
      }
    }
  }

  lemma {:induction false} PassingEvaluates(floats: FloatParser, items: seq<Node>, s: Segment, i: nat)
    requires s.Filter? && i <= |items|
    ensures Passing(floats, items, s, i).Ok? <==> forall k :: i <= k < |items| ==> ItemFits(floats, items[k], s)
    decreases |items| - i
  {
    hide Passes, ItemFits;
    if i < |items| {
      FilterEvaluates(floats, items[i], s);
      PassingEvaluates(floats, items, s, i + 1);
    }
  }

  // ----- One segment -----

  /** Segment s applies to node n. */
  ghost predicate NodeFits(floats: FloatParser, n: Node, s: Segment) {
    match s
    case Field(_) => Acceptable(n, MappingKind)
    case Slice(_, _, _) => Acceptable(n, SequenceKind) && SliceBounds(s, |n.content|).Ok?
    case Filter(_, _, _) =>
      Acceptable(n, SequenceKind) && forall k :: 0 <= k < |n.content| ==> ItemFits(floats, n.content[k], s)
    case Wildcard => n.kind == MappingKind ==> |n.content| % 2 == 0
    case _ => false
  }

  lemma {:induction false} SelectEvaluates(floats: FloatParser, n: Node, s: Segment)
    ensures Select(floats, n, s).Ok? <==> NodeFits(floats, n, s)
    ensures StopsAt(n, s) ==> NodeFits(floats, n, s)
  {
    if s.Filter? {
      PassingEvaluates(floats, n.content, s, 0);
    }
  }

  /** Segment s applies to all nodes that the loop over them takes. */
  ghost predicate StepFits(floats: FloatParser, rns: seq<Node>, s: Segment) {
    if Literal(s) || s == Field("") then true
    else !s.Unsupported? && forall i :: 0 <= i < LoopEnd(rns, s) ==> NodeFits(floats, rns[i], s)
  }

  lemma {:induction false} GatherEvaluates(floats: FloatParser, rns: seq<Node>, s: Segment)
    ensures Gather(floats, rns, s).Ok? <==> forall i :: 0 <= i < LoopEnd(rns, s) ==> NodeFits(floats, rns[i], s)
    decreases |rns|
  {
    hide Select, NodeFits, Children, StopsAt;
    if rns != [] {
      SelectEvaluates(floats, rns[0], s);
      if !StopsAt(rns[0], s) {
        GatherEvaluates(floats, rns[1..], s);
        assert forall i :: 0 < i < LoopEnd(rns, s) ==> rns[i] == rns[1..][i - 1];
        assert forall i :: 0 <= i < LoopEnd(rns[1..], s) ==> rns[1..][i] == rns[i + 1];
      }
    }
  }

  lemma {:induction false} StepEvaluates(floats: FloatParser, rns: seq<Node>, s: Segment)
    ensures Apply(floats, rns, s).Ok? <==> StepFits(floats, rns, s)
  {
    GatherEvaluates(floats, rns, s);
  }

  // ----- Whole queries -----

  /** The part of the query before segment k evaluates, but not to nodes that segment k applies to. */
  ghost predicate StuckAt(floats: FloatParser, rns: seq<Node>, q: Query, k: nat)
    requires k < |q|
  {
    Walk(floats, rns, q[..k]).Ok? && !StepFits(floats, Walk(floats, rns, q[..k]).value, q[k])
  }

  /** A query evaluates exactly if it is stuck at none of its segments. */
  lemma {:induction false} QueryEvaluates(floats: FloatParser, rns: seq<Node>, q: Query)
    ensures Walk(floats, rns, q).Ok? <==> forall k :: 0 <= k < |q| ==> !StuckAt(floats, rns, q, k)
    decreases |q|
  {
    if q != [] {
      StepEvaluates(floats, rns, q[0]);
      hide StepFits, Apply;
      assert q[..0] == [];
      assert StuckAt(floats, rns, q, 0) <==> Apply(floats, rns, q[0]).Err?;
      if Apply(floats, rns, q[0]).Ok? {
        var next := Apply(floats, rns, q[0]).value;
        QueryEvaluates(floats, next, q[1..]);
        forall k | 0 < k < |q| ensures StuckAt(floats, rns, q, k) <==> StuckAt(floats, next, q[1..], k - 1) {
          assert q[..k][0] == q[0] && q[..k][1..] == q[1..][..k - 1];
        }
        assert forall k :: 0 <= k < |q[1..]| ==> (StuckAt(floats, next, q[1..], k) <==> StuckAt(floats, rns, q, k + 1));
      }
    }
  }

  // ----- Tame queries, told by what they denote -----

  lemma {:induction false} TamePrefix(q: Query, single: bool, k: nat)
    requires Tame(q, single) && k <= |q|
    ensures Tame(q[..k], single)
    decreases |q|
  {
    if k > 0 {
      assert q[..k][0] == q[0] && q[..k][1..] == q[1..][..k - 1];
      TamePrefix(q[1..], Literal(q[0]) || (single && AtMostOne(q[0])), k - 1);
    }
  }

  /** Where a tame query has a slice, at most one node is at hand. */
  lemma {:induction false} TameSlice(floats: FloatParser, rns: seq<Node>, q: Query, single: bool, k: nat)
    requires Tame(q, single) && (single ==> |rns| <= 1)
    requires k < |q| && q[k].Slice? && Walk(floats, rns, q[..k]).Ok?
    ensures |Walk(floats, rns, q[..k]).value| <= 1
    decreases k
  {
    if k > 0 {
      hide Apply;
      assert q[..k][0] == q[0] && q[..k][1..] == q[1..][..k - 1];
      var next := Apply(floats, rns, q[0]).value;
      if single && AtMostOne(q[0]) {
        OneAtMost(floats, rns, q[0]);
      } else if Literal(q[0]) {
        assert next == [LiteralNode(q[0])] by { LiteralStep(floats, rns, q[0]); }
      }
      TameSlice(floats, next, q[1..], Literal(q[0]) || (single && AtMostOne(q[0])), k - 1);
    }
  }

  lemma LiteralStep(floats: FloatParser, rns: seq<Node>, s: Segment)
    requires Literal(s)
    ensures Apply(floats, rns, s) == Ok([LiteralNode(s)])
  {
  }

  lemma {:induction false} WalkPrefix(floats: FloatParser, rns: seq<Node>, q: Query, k: nat)
    requires k <= |q| && Walk(floats, rns, q).Ok?
    ensures Walk(floats, rns, q[..k]).Ok?
    decreases k
  {
    if k > 0 {
      assert q[..k][0] == q[0] && q[..k][1..] == q[1..][..k - 1];
      WalkPrefix(floats, Apply(floats, rns, q[0]).value, q[1..], k - 1);
    }
  }

  /** Position p is denoted by the query before segment k, which does not apply to the node there. */
  ghost predicate MisfitAt(floats: FloatParser, root: Node, q: Query, k: nat, p: Position)
    requires k < |q|
  {
    && q[k] != Field("") && Denotes(floats, root, q[..k], p)
    && At(root, p).Some? && !NodeFits(floats, At(root, p).value, q[k])
  }

  /** A tame query evaluates exactly if each of its segments applies to all nodes that those before it denote. */
  lemma {:induction false} TameQueryEvaluates(floats: FloatParser, root: Node, q: Query)
    requires UniqueKeys(root) && Located(q) && Tame(q, true)
    ensures Walk(floats, [root], q).Ok? <==> forall k, p :: 0 <= k < |q| ==> !MisfitAt(floats, root, q, k, p)
  {
    hide Walk, Tame, UniqueKeys, Located, StuckAt, MisfitAt;
    QueryEvaluates(floats, [root], q);
    if Walk(floats, [root], q).Ok? {
      forall k, p | 0 <= k < |q| ensures !MisfitAt(floats, root, q, k, p) {
        WalkPrefix(floats, [root], q, k);
        FitsWhereDenoted(floats, root, q, k, p);
      }
    } else {
      var k :| 0 <= k < |q| && StuckAt(floats, [root], q, k);
      var p := StuckWhere(floats, root, q, k);
    }
  }

  lemma LocatedPart(q: Query, k: nat)
    requires Located(q) && k < |q|
    ensures Located(q[..k]) && !Literal(q[k]) && !q[k].Unsupported?
  {
    assert q[k] in q;
    assert forall s :: s in q[..k] ==> s in q;
  }

  lemma {:induction false} FitsWhereDenoted(floats: FloatParser, root: Node, q: Query, k: nat, p: Position)
    requires UniqueKeys(root) && Located(q) && Tame(q, true) && k < |q|
    requires Walk(floats, [root], q[..k]).Ok? && !StuckAt(floats, [root], q, k)
    ensures !MisfitAt(floats, root, q, k, p)
  {
    LocatedPart(q, k);
    TamePrefix(q, true, k);
    hide Walk, Tame, UniqueKeys, Located, NodeFits, Denotes, At;
    var qs := TameQueryYieldsDenoted(floats, root, q[..k]);
    var rns := Walk(floats, [root], q[..k]).value;
    if p in qs && q[k] != Field("") {
      var i :| 0 <= i < |qs| && qs[i] == p;
      NodesAtIndex(root, qs, i);
      if q[k].Slice? {
        TameSlice(floats, [root], q, true, k);
        assert rns == [rns[0]];
        SelectEvaluates(floats, rns[0], q[k]);
      } else {
        AllTaken(rns, q[k]);
      }
    }
  }

  lemma {:induction false} StuckWhere(floats: FloatParser, root: Node, q: Query, k: nat) returns (p: Position)
    requires UniqueKeys(root) && Located(q) && Tame(q, true) && k < |q| && StuckAt(floats, [root], q, k)
    ensures MisfitAt(floats, root, q, k, p)
  {
    LocatedPart(q, k);
    TamePrefix(q, true, k);
    hide Walk, Tame, UniqueKeys, Located, NodeFits, Denotes, At;
    var qs := TameQueryYieldsDenoted(floats, root, q[..k]);
    var rns := Walk(floats, [root], q[..k]).value;
    var i :| 0 <= i < LoopEnd(rns, q[k]) && !NodeFits(floats, rns[i], q[k]);
    NodesAtIndex(root, qs, i);
    p := qs[i];
    assert p in qs;
  }
}
