/** Evaluation yields exactly the positions a query denotes, in document order. */
module JsonMeaning {
  import opened Wrappers
  import opened YamlNodes
  import opened Comparisons
  import opened JsonPaths
  import opened JsonPositions

  // ----- One segment at many nodes -----

  ghost function Extend(p: Position, places: seq<nat>): seq<Position> {
    if places == [] then [] else [p + [places[0]]] + Extend(p, places[1..])
  }

  lemma {:induction false} ExtendMembers(p: Position, places: seq<nat>)
    ensures |Extend(p, places)| == |places|
    ensures forall k :: 0 <= k < |places| ==> Extend(p, places)[k] == p + [places[k]]
  {
    if places != [] {
      ExtendMembers(p, places[1..]);
    }
  }

  lemma {:induction false} ExtendNodes(root: Node, p: Position, places: seq<nat>)
    requires At(root, p).Some? && Within(places, |At(root, p).value.content|)
    ensures forall x :: x in Extend(p, places) ==> At(root, x).Some?
    ensures NodesAt(root, Extend(p, places)) == Children(At(root, p).value, places)
  {
    if places != [] {
      var n := At(root, p).value;
      AtAppend(root, p, [places[0]]);
      assert At(n.content[places[0]], []) == Some(n.content[places[0]]);
      ExtendNodes(root, p, places[1..]);
    }
  }

  lemma {:induction false} NodesAtAppend(root: Node, ps: seq<Position>, qs: seq<Position>)
    requires forall p :: p in ps + qs ==> At(root, p).Some?
    ensures NodesAt(root, ps + qs) == NodesAt(root, ps) + NodesAt(root, qs)
    decreases |ps|
  {
    if ps == [] {
      assert ps + qs == qs;
    } else {
      assert (ps + qs)[1..] == ps[1..] + qs;
      NodesAtAppend(root, ps[1..], qs);
    }
  }

  lemma {:induction false} NodesAtIndex(root: Node, ps: seq<Position>, k: nat)
    requires forall p :: p in ps ==> At(root, p).Some?
    ensures |NodesAt(root, ps)| == |ps|
    ensures k < |ps| ==> NodesAt(root, ps)[k] == At(root, ps[k]).value
    decreases |ps|
  {
    if ps != [] {
      NodesAtIndex(root, ps[1..], if k > 0 then k - 1 else 0);
    }
  }

  /** Position x is a child that s selects at one of ps, which lie at depth d. */
  ghost predicate Chosen(floats: FloatParser, root: Node, ps: seq<Position>, d: nat, s: Segment, x: Position) {
    && |x| == d + 1 && x[..d] in ps && At(root, x[..d]).Some?
    && x[d] < |At(root, x[..d]).value.content|
    && StepTo(floats, At(root, x[..d]).value, s, x[d])
  }

  ghost predicate SelectsRight(floats: FloatParser, n: Node, s: Segment) {
    Select(floats, n, s).Ok? ==> Selects(floats, n, s, Select(floats, n, s).value)
  }

  /** The children of the first node come before those of the later ones. */
  lemma {:induction false} Concatenate(
    root: Node, p: Position, places: seq<nat>, ps: seq<Position>, rest: seq<Position>, d: nat)
    requires Placed(root, [p] + ps, d) && Placed(root, rest, d + 1)
    requires Within(places, |At(root, p).value.content|) && Increasing(places)
    requires forall x :: x in rest ==> x[..d] in ps
    ensures Placed(root, Extend(p, places) + rest, d + 1)
    ensures NodesAt(root, Extend(p, places) + rest) == Children(At(root, p).value, places) + NodesAt(root, rest)
  {
    hide At, Before, NodesAt, Children, Extend;
    var front := Extend(p, places);
    assert ([p] + ps)[0] == p;
    ExtendMembers(p, places);
    ExtendNodes(root, p, places);
    forall x | x in front + rest ensures |x| == d + 1 && At(root, x).Some? {
      if x !in rest {
        var k :| 0 <= k < |front| && front[k] == x;
      }
    }
    NodesAtAppend(root, front, rest);
    forall i, j | 0 <= i < j < |front + rest| ensures Before((front + rest)[i], (front + rest)[j]) {
      if j < |front| {
        BeforeExtends(p, p, places[i], places[j]);
      } else if i < |front| {
        LaterNode(root, p, ps, places[i], rest[j - |front|], d);
      } else {
        assert Before(rest[i - |front|], rest[j - |front|]);
      }
    }
  }

  lemma {:induction false} LaterNode(root: Node, p: Position, ps: seq<Position>, a: nat, x: Position, d: nat)
    requires Placed(root, [p] + ps, d) && |x| == d + 1 && x[..d] in ps
    ensures Before(p + [a], x)
  {
    hide At, Before;
    var k :| 0 <= k < |ps| && ps[k] == x[..d];
    assert ([p] + ps)[0] == p && ([p] + ps)[k + 1] == x[..d];
    assert Before(p, x[..d]);
    assert |p| == d by { assert p in [p] + ps; }
    BeforeExtends(p, x[..d], a, x[d]);
    assert x == x[..d] + [x[d]];
  }

  lemma {:induction false} GatherOne(floats: FloatParser, n: Node, ns: seq<Node>, s: Segment)
    requires Gather(floats, [n] + ns, s).Ok?
    ensures Select(floats, n, s).Ok?
    ensures StopsAt(n, s) ==> Select(floats, n, s).value == [] && Gather(floats, [n] + ns, s).value == []
    ensures !StopsAt(n, s) ==>
              Gather(floats, ns, s).Ok? &&
              Gather(floats, [n] + ns, s).value == Children(n, Select(floats, n, s).value) + Gather(floats, ns, s).value
  {
  }

  /** What follows the end of the loop has no part in the result. */
  lemma {:induction false} GatherEnds(floats: FloatParser, rns: seq<Node>, s: Segment)
    requires Gather(floats, rns, s).Ok?
    ensures Gather(floats, rns[..LoopEnd(rns, s)], s) == Gather(floats, rns, s)
    ensures forall i :: 0 <= i < LoopEnd(rns, s) ==> !StopsAt(rns[i], s)
    decreases |rns|
  {
    if rns != [] && !StopsAt(rns[0], s) {
      var n := LoopEnd(rns[1..], s);
      GatherEnds(floats, rns[1..], s);
      assert rns[..n + 1] == [rns[0]] + rns[1..][..n];
    }
  }

  lemma {:induction false} GatherLocates(floats: FloatParser, root: Node, ps: seq<Position>, d: nat, s: Segment)
    returns (qs: seq<Position>)
    requires Placed(root, ps, d)
    requires Gather(floats, NodesAt(root, ps), s).Ok?
    requires forall p :: p in ps ==> !StopsAt(At(root, p).value, s) && SelectsRight(floats, At(root, p).value, s)
    ensures Placed(root, qs, d + 1)
    ensures NodesAt(root, qs) == Gather(floats, NodesAt(root, ps), s).value
    ensures forall x :: x in qs <==> Chosen(floats, root, ps, d, s, x)
    decreases |ps|
  {
    if ps == [] {
      qs := [];
    } else {
      PlacedTail(root, ps, d);
      hide StepTo, Before, Select, Chosen, Selects, Placed, NodesAt, Gather, StopsAt, At, Extend;
      var p, n := ps[0], At(root, ps[0]).value;
      GatherOne(floats, n, NodesAt(root, ps[1..]), s);
      var places := Select(floats, n, s).value;
      assert p in ps && SelectsRight(floats, n, s);
      var rest := GatherLocates(floats, root, ps[1..], d, s);
      Join(floats, root, ps, d, s, places, rest);
      qs := Extend(p, places) + rest;
    }
  }

  lemma PlacedTail(root: Node, ps: seq<Position>, d: nat)
    requires Placed(root, ps, d) && ps != []
    ensures At(root, ps[0]).Some? && Placed(root, ps[1..], d) && forall p :: p in ps ==> At(root, p).Some?
    ensures NodesAt(root, ps) == [At(root, ps[0]).value] + NodesAt(root, ps[1..])
  {
  }

  lemma {:induction false} Join(
    floats: FloatParser, root: Node, ps: seq<Position>, d: nat, s: Segment, places: seq<nat>, rest: seq<Position>)
    requires Placed(root, ps, d) && ps != [] && Placed(root, rest, d + 1)
    requires Selects(floats, At(root, ps[0]).value, s, places)
    requires forall x :: x in rest <==> Chosen(floats, root, ps[1..], d, s, x)
    ensures Placed(root, Extend(ps[0], places) + rest, d + 1)
    ensures NodesAt(root, Extend(ps[0], places) + rest) ==
            Children(At(root, ps[0]).value, places) + NodesAt(root, rest)
    ensures forall x :: x in Extend(ps[0], places) + rest <==> Chosen(floats, root, ps, d, s, x)
  {
    assert ps == [ps[0]] + ps[1..];
    Concatenate(root, ps[0], places, ps[1..], rest, d);
    forall x ensures x in Extend(ps[0], places) + rest <==> Chosen(floats, root, ps, d, s, x) {
      ChosenStep(floats, root, ps, d, s, places, rest, x);
    }
  }

  lemma {:induction false} ChosenStep(
    floats: FloatParser, root: Node, ps: seq<Position>, d: nat, s: Segment, places: seq<nat>,
    rest: seq<Position>, x: Position)
    requires Placed(root, ps, d) && ps != []
    requires Selects(floats, At(root, ps[0]).value, s, places)
    requires x in rest <==> Chosen(floats, root, ps[1..], d, s, x)
    ensures x in Extend(ps[0], places) + rest <==> Chosen(floats, root, ps, d, s, x)
  {
    ExtendContains(ps[0], places, x);
    if |x| == d + 1 {
      NotRepeated(ps, x, d);
    }
  }

  lemma {:induction false} ExtendContains(p: Position, places: seq<nat>, x: Position)
    ensures x in Extend(p, places) <==> |x| == |p| + 1 && x[..|p|] == p && x[|p|] in places
  {
    ExtendMembers(p, places);
    if x in Extend(p, places) {
      var k :| 0 <= k < |places| && Extend(p, places)[k] == x;
      assert x == p + [places[k]];
    }
    if |x| == |p| + 1 && x[..|p|] == p && x[|p|] in places {
      var k :| 0 <= k < |places| && places[k] == x[|p|];
      assert x == p + [places[k]] == Extend(p, places)[k];
    }
  }

  lemma NotRepeated(ps: seq<Position>, x: Position, d: nat)
    requires ps != [] && |x| >= d
    ensures x[..d] in ps <==> x[..d] == ps[0] || x[..d] in ps[1..]
  {
  }

  // ----- Whole queries -----

  /** x extends one of ps, which lie at depth d, by a position that q denotes there. */
  ghost predicate Reached(floats: FloatParser, root: Node, ps: seq<Position>, d: nat, q: Query, x: Position) {
    && |x| >= d && x[..d] in ps && At(root, x[..d]).Some?
    && Denotes(floats, At(root, x[..d]).value, q, x[d..])
  }

  /** Reaching by q is choosing by its first segment and then reaching by the rest. */
  lemma {:induction false} ReachedStep(
    floats: FloatParser, root: Node, ps: seq<Position>, d: nat, q: Query, qs: seq<Position>, x: Position)
    requires q != [] && q[0] != Field("")
    requires forall y :: y in qs <==> Chosen(floats, root, ps, d, q[0], y)
    ensures Reached(floats, root, qs, d + 1, q[1..], x) <==> Reached(floats, root, ps, d, q, x)
  {
    if |x| > d {
      var y := x[..d + 1];
      assert y[..d] == x[..d] && y[d] == x[d] && y == x[..d] + [x[d]];
      assert x[d..][1..] == x[d + 1..];
      AtAppend(root, x[..d], [x[d]]);
      if At(root, x[..d]).Some? && x[d] < |At(root, x[..d]).value.content| {
        var child := At(root, x[..d]).value.content[x[d]];
        assert At(child, []) == Some(child);
      }
      assert y in qs <==> Chosen(floats, root, ps, d, q[0], y);
    }
  }

  lemma {:induction false} LocatedRest(q: Query)
    requires q != [] && Located(q)
    ensures Located(q[1..]) && !Literal(q[0]) && !q[0].Unsupported?
    ensures q[0].Filter? ==> ValidSide(q[0].left) && ValidSide(q[0].right)
  {
    assert q[0] in q;
    assert forall s :: s in q[1..] ==> s in q;
  }

  /** The positions that the loop over ps takes. */
  ghost function Taken(root: Node, ps: seq<Position>, s: Segment): seq<Position>
    requires forall p :: p in ps ==> At(root, p).Some?
  {
    NodesAtIndex(root, ps, 0);
    ps[..LoopEnd(NodesAt(root, ps), s)]
  }

  /**
   * A query that evaluates without error yields nodes at denoted positions, in
   * document order, and all of them exactly when no slice loop leaves out a
   * node that leads to one.
   */
  lemma {:induction false} WalkLocates(floats: FloatParser, root: Node, ps: seq<Position>, d: nat, q: Query)
    returns (qs: seq<Position>, e: nat)
    requires UniqueKeys(root) && Placed(root, ps, d) && Located(q)
    requires Walk(floats, NodesAt(root, ps), q).Ok? && FiltersExact(floats, NodesAt(root, ps), q)
    ensures Placed(root, qs, e)
    ensures NodesAt(root, qs) == Walk(floats, NodesAt(root, ps), q).value
    ensures forall x :: x in qs ==> Reached(floats, root, ps, d, q, x)
    ensures (forall x :: Reached(floats, root, ps, d, q, x) ==> x in qs) <==>
            SlicesExact(floats, NodesAt(root, ps), q)
    decreases q, 3
  {
    if q == [] {
      qs, e := ps, d;
      forall x ensures x in qs <==> Reached(floats, root, ps, d, q, x) {
        if |x| == d {
          assert x[..d] == x;
        }
      }
    } else {
      LocatedRest(q);
      if q[0] == Field("") {
        AllTaken(NodesAt(root, ps), q[0]);
        qs, e := WalkLocates(floats, root, ps, d, q[1..]);
      } else {
        var chosen := ApplyLocates(floats, root, ps, d, q[0]);
        qs, e := WalkLocates(floats, root, chosen, d + 1, q[1..]);
        ExactStep(floats, root, ps, d, q, chosen, qs);
      }
    }
  }

  /** One segment further: what the loop leaves out, and what the rest of the query finds. */
  lemma {:induction false} ExactStep(
    floats: FloatParser, root: Node, ps: seq<Position>, d: nat, q: Query, chosen: seq<Position>, qs: seq<Position>)
    requires q != [] && q[0] != Field("") && Placed(root, ps, d) && Placed(root, chosen, d + 1)
    requires Apply(floats, NodesAt(root, ps), q[0]) == Ok(NodesAt(root, chosen))
    requires forall x :: x in chosen <==> Chosen(floats, root, Taken(root, ps, q[0]), d, q[0], x)
    requires forall x :: x in qs ==> Reached(floats, root, chosen, d + 1, q[1..], x)
    requires (forall x :: Reached(floats, root, chosen, d + 1, q[1..], x) ==> x in qs) <==>
             SlicesExact(floats, NodesAt(root, chosen), q[1..])
    ensures forall x :: x in qs ==> Reached(floats, root, ps, d, q, x)
    ensures (forall x :: Reached(floats, root, ps, d, q, x) ==> x in qs) <==>
            SlicesExact(floats, NodesAt(root, ps), q)
  {
    var taken := Taken(root, ps, q[0]);
    hide At, Denotes, Placed, Chosen, Apply, Before, LoopEnd, NodesAt;
    forall x ensures Reached(floats, root, chosen, d + 1, q[1..], x) <==> Reached(floats, root, taken, d, q, x) {
      ReachedStep(floats, root, taken, d, q, chosen, x);
    }
    hide Taken, Reached;
    forall x ensures Reached(floats, root, taken, d, q, x) <==>
                     Reached(floats, root, ps, d, q, x) && !LeftOut(floats, root, ps, d, q, x)
    {
      TakenReach(floats, root, ps, d, q, x);
    }
    hide LeftOut;
    if NoneLeftOut(floats, NodesAt(root, ps), q) {
      forall x ensures !LeftOut(floats, root, ps, d, q, x) {
        if LeftOut(floats, root, ps, d, q, x) { LeftOutMeans(floats, root, ps, d, q, x); }
      }
    } else {
      var x := LeftOutAt(floats, root, ps, d, q);
      TakenReach(floats, root, ps, d, q, x);
    }
  }

  /** x is reached from a position that the loop over ps leaves out. */
  ghost predicate LeftOut(floats: FloatParser, root: Node, ps: seq<Position>, d: nat, q: Query, x: Position)
    requires q != [] && Placed(root, ps, d)
  {
    Reached(floats, root, ps, d, q, x) && x[..d] !in Taken(root, ps, q[0])
  }

  lemma TakenReach(floats: FloatParser, root: Node, ps: seq<Position>, d: nat, q: Query, x: Position)
    requires q != [] && Placed(root, ps, d)
    ensures Reached(floats, root, Taken(root, ps, q[0]), d, q, x) <==>
            Reached(floats, root, ps, d, q, x) && !LeftOut(floats, root, ps, d, q, x)
    ensures LeftOut(floats, root, ps, d, q, x) ==> Reached(floats, root, ps, d, q, x)
  {
    hide At, Denotes, LoopEnd, NodesAt, Before;
  }

  lemma LeftOutMeans(floats: FloatParser, root: Node, ps: seq<Position>, d: nat, q: Query, x: Position)
    requires q != [] && Placed(root, ps, d) && LeftOut(floats, root, ps, d, q, x)
    ensures !NoneLeftOut(floats, NodesAt(root, ps), q)
  {
    hide At, Denotes, LoopEnd, NodesAt, Before;
    var taken := Taken(root, ps, q[0]);
    var j :| 0 <= j < |ps| && ps[j] == x[..d];
    NodesAtIndex(root, ps, j);
    forall i | 0 <= i < |taken| ensures ps[i] in taken { assert taken[i] == ps[i]; }
    assert Denotes(floats, NodesAt(root, ps)[j], q, x[d..]);
  }

  lemma LeftOutAt(floats: FloatParser, root: Node, ps: seq<Position>, d: nat, q: Query) returns (x: Position)
    requires q != [] && Placed(root, ps, d) && !NoneLeftOut(floats, NodesAt(root, ps), q)
    ensures LeftOut(floats, root, ps, d, q, x)
  {
    hide At, Denotes, LoopEnd, NodesAt, Before;
    var rns, end := NodesAt(root, ps), LoopEnd(NodesAt(root, ps), q[0]);
    var j, p :| end <= j < |rns| && Denotes(floats, rns[j], q, p);
    NodesAtIndex(root, ps, j);
    x := ps[j] + p;
    assert ps[j] in ps && x[..d] == ps[j] && x[d..] == p;
    forall i | 0 <= i < end ensures ps[i] != ps[j] { Irreflexive(ps[j]); }
  }

  lemma {:induction false} Irreflexive(p: Position)
    ensures !Before(p, p)
  {
    if p != [] {
      Irreflexive(p[1..]);
    }
  }

  lemma {:induction false} ApplyLocates(floats: FloatParser, root: Node, ps: seq<Position>, d: nat, s: Segment)
    returns (qs: seq<Position>)
    requires UniqueKeys(root) && Placed(root, ps, d)
    requires s != Field("") && !Literal(s) && !s.Unsupported?
    requires s.Filter? ==> ValidSide(s.left) && ValidSide(s.right)
    requires Apply(floats, NodesAt(root, ps), s).Ok? && SidesExact(floats, NodesAt(root, ps), s)
    ensures Placed(root, qs, d + 1)
    ensures NodesAt(root, qs) == Apply(floats, NodesAt(root, ps), s).value
    ensures forall x :: x in qs <==> Chosen(floats, root, Taken(root, ps, s), d, s, x)
    decreases s, 3
  {
    var taken := Taken(root, ps, s);
    TakenNodes(floats, root, ps, d, s);
    hide At, Before, StopsAt, Select, Selects, UniqueKeys, Gather, LoopEnd, Chosen, LosesNothing, Taken, NodesAt;
    forall p | p in taken ensures SelectsRight(floats, At(root, p).value, s) {
      UniqueKeysAt(root, p);
      SelectMeans(floats, At(root, p).value, s);
    }
    qs := GatherLocates(floats, root, taken, d, s);
  }

  /** The nodes that the loop takes give its whole result. */
  lemma TakenNodes(floats: FloatParser, root: Node, ps: seq<Position>, d: nat, s: Segment)
    requires Placed(root, ps, d) && Gather(floats, NodesAt(root, ps), s).Ok?
    ensures Placed(root, Taken(root, ps, s), d)
    ensures Gather(floats, NodesAt(root, Taken(root, ps, s)), s) == Gather(floats, NodesAt(root, ps), s)
    ensures forall p :: p in Taken(root, ps, s) ==> !StopsAt(At(root, p).value, s)
    ensures forall p :: p in Taken(root, ps, s) ==> At(root, p).Some? && At(root, p).value in NodesAt(root, ps)
  {
    hide At, Before, StopsAt, Gather, LoopEnd, NodesAt;
    var rns, taken := NodesAt(root, ps), Taken(root, ps, s);
    GatherEnds(floats, rns, s);
    NodesAtIndex(root, ps, 0);
    NodesAtIndex(root, taken, 0);
    forall k | 0 <= k < |taken|
      ensures NodesAt(root, taken)[k] == rns[k] && At(root, taken[k]).value == rns[k]
    {
      assert taken[k] == ps[k] && taken[k] in taken;
      NodesAtIndex(root, ps, k);
      NodesAtIndex(root, taken, k);
    }
    assert NodesAt(root, taken) == rns[..|taken|];
  }

  lemma {:induction false} SelectMeans(floats: FloatParser, n: Node, s: Segment)
    requires UniqueKeys(n) && !Literal(s) && !s.Unsupported?
    requires s.Filter? ==>
      && ValidSide(s.left) && ValidSide(s.right)
      && forall item :: item in n.content ==>
           LosesNothing(floats, [item], s.left) && LosesNothing(floats, [item], s.right)
    ensures SelectsRight(floats, n, s)
    decreases s, 2
  {
    if Select(floats, n, s).Ok? {
      match s
      case Field(name) =>
        if !IsNull(n) {
          FindFieldMeaning(n.content, name, 0);
        }
      case Slice(_, _, _) =>
        var b := SliceBounds(s, |n.content|).value;
        StepsMeaning(b.min, b.max, b.step);
      case Wildcard =>
        var all := Select(floats, n, s).value;
        if n.kind == SequenceKind {
          forall j: nat | j < |n.content| ensures j in all {
            assert all[j] == j;
          }
        }
        if n.kind == MappingKind {
          FieldValuesMeaning(n.content, 0);
        }
      case Filter(_, _, _) =>
        PassingMeans(floats, n.content, s, 0);
    }
  }

  lemma {:induction false} PassingMeans(floats: FloatParser, items: seq<Node>, s: Segment, i: nat)
    requires s.Filter? && i <= |items| && ValidSide(s.left) && ValidSide(s.right)
    requires forall item :: item in items ==>
      UniqueKeys(item) && LosesNothing(floats, [item], s.left) && LosesNothing(floats, [item], s.right)
    requires Passing(floats, items, s, i).Ok?
    ensures Increasing(Passing(floats, items, s, i).value)
    ensures forall j: nat :: j in Passing(floats, items, s, i).value <==>
              i <= j < |items| && Holds(floats, items[j], s)
    decreases s, 1, |items| - i
  {
    hide Holds, Passes, UniqueKeys, LosesNothing;
    if i < |items| {
      PassesMeans(floats, items[i], s);
      PassingMeans(floats, items, s, i + 1);
      var rest := Passing(floats, items, s, i + 1).value;
      assert forall k :: 0 <= k < |rest| ==> rest[k] in rest;
    }
  }

  lemma {:induction false} PassesMeans(floats: FloatParser, item: Node, s: Segment)
    requires s.Filter? && ValidSide(s.left) && ValidSide(s.right) && UniqueKeys(item)
    requires LosesNothing(floats, [item], s.left) && LosesNothing(floats, [item], s.right)
    requires Passes(floats, item, s).Ok?
    ensures Passes(floats, item, s).value <==> Holds(floats, item, s)
    decreases s, 0
  {
    SideMeaning(floats, item, s.left);
    var left := Walk(floats, [item], s.left).value;
    if left != [] {
      assert left == [left[0]];
      SideMeaning(floats, item, s.right);
      var right := Walk(floats, [item], s.right).value;
      if right != [] {
        assert right == [right[0]];
        assert left[0] in left && right[0] in right;
      }
    }
  }

  lemma {:induction false} SideMeaning(floats: FloatParser, item: Node, q: Query)
    requires ValidSide(q) && UniqueKeys(item)
    requires Walk(floats, [item], q).Ok? && LosesNothing(floats, [item], q)
    ensures forall v :: v in Walk(floats, [item], q).value <==> SideMeans(floats, item, q, v)
    decreases q, 4
  {
    hide UniqueKeys, SlicesExact, FiltersExact, Denotes;
    if |q| == 1 && Literal(q[0]) {
      assert q[1..] == [];
      assert Walk(floats, [item], q).value == [LiteralNode(q[0])];
    } else {
      var top: seq<Position> := [[]];
      assert NodesAt(item, top) == [item];
      var qs, e := WalkLocates(floats, item, top, 0, q);
      forall v ensures v in Walk(floats, [item], q).value <==> SideMeans(floats, item, q, v) {
        if v in NodesAt(item, qs) {
          var k :| 0 <= k < |NodesAt(item, qs)| && NodesAt(item, qs)[k] == v;
          NodesAtIndex(item, qs, k);
          assert qs[k] in qs && qs[k][0..] == qs[k];
        }
        if SideMeans(floats, item, q, v) {
          var p :| Denotes(floats, item, q, p) && At(item, p) == Some(v);
          assert p[..0] == [] && p[0..] == p;
          assert p in qs;
          var k :| 0 <= k < |qs| && qs[k] == p;
          NodesAtIndex(item, qs, k);
        }
      }
    }
  }

  /** qs are the positions that q denotes, in document order. */
  ghost predicate InOrder(floats: FloatParser, root: Node, q: Query, qs: seq<Position>) {
    && (forall p :: p in qs <==> Denotes(floats, root, q, p))
    && (forall i, j :: 0 <= i < j < |qs| ==> Before(qs[i], qs[j]))
    && (forall p :: p in qs ==> At(root, p).Some?)
  }

  /** The result is the denoted nodes, in document order. */
  ghost predicate YieldsDenoted(floats: FloatParser, root: Node, q: Query, result: seq<Node>) {
    exists qs :: InOrder(floats, root, q, qs) && NodesAt(root, qs) == result
  }

  /** From the root of a document: which of the denoted positions are found. */
  lemma {:induction false} RootLocates(floats: FloatParser, root: Node, q: Query) returns (qs: seq<Position>)
    requires UniqueKeys(root) && Located(q)
    requires Walk(floats, [root], q).Ok? && FiltersExact(floats, [root], q)
    ensures forall p :: p in qs ==> Denotes(floats, root, q, p)
    ensures forall i, j :: 0 <= i < j < |qs| ==> Before(qs[i], qs[j])
    ensures (forall p :: p in qs ==> At(root, p).Some?) && NodesAt(root, qs) == Walk(floats, [root], q).value
    ensures (forall p :: Denotes(floats, root, q, p) ==> p in qs) <==> SlicesExact(floats, [root], q)
  {
    var top: seq<Position> := [[]];
    assert NodesAt(root, top) == [root];
    var e;
    qs, e := WalkLocates(floats, root, top, 0, q);
    forall p ensures Denotes(floats, root, q, p) <==> Reached(floats, root, top, 0, q, p) {
      assert p[..0] == [] && p[0..] == p;
    }
  }

  /** A query that loses nothing yields exactly the denoted nodes, in document order. */
  lemma {:induction false} QueryYieldsDenoted(floats: FloatParser, root: Node, q: Query) returns (qs: seq<Position>)
    requires UniqueKeys(root) && Located(q)
    requires Walk(floats, [root], q).Ok? && LosesNothing(floats, [root], q)
    ensures forall p :: p in qs <==> Denotes(floats, root, q, p)
    ensures forall i, j :: 0 <= i < j < |qs| ==> Before(qs[i], qs[j])
    ensures (forall p :: p in qs ==> At(root, p).Some?) && NodesAt(root, qs) == Walk(floats, [root], q).value
  {
    qs := RootLocates(floats, root, q);
  }

  /** Where the filters lose nothing, it does so exactly when its own slices lose nothing either. */
  lemma {:induction false} QueryExact(floats: FloatParser, root: Node, q: Query)
    requires UniqueKeys(root) && Located(q)
    requires Walk(floats, [root], q).Ok? && FiltersExact(floats, [root], q)
    ensures YieldsDenoted(floats, root, q, Walk(floats, [root], q).value) <==> SlicesExact(floats, [root], q)
  {
    var qs := RootLocates(floats, root, q);
    var result := Walk(floats, [root], q).value;
    hide At, Before, Denotes, Walk, SlicesExact, FiltersExact;
    if SlicesExact(floats, [root], q) {
      assert InOrder(floats, root, q, qs);
    }
    if YieldsDenoted(floats, root, q, result) {
      var all :| InOrder(floats, root, q, all) && NodesAt(root, all) == result;
      NodesAtIndex(root, all, 0);
      NodesAtIndex(root, qs, 0);
      forall i, j | 0 <= i < j < |qs| ensures qs[i] != qs[j] { Irreflexive(qs[i]); }
      SameLength(qs, all);
    }
  }

  /** Different members of a list that is no longer are all of its members. */
  lemma {:induction false} SameLength(some: seq<Position>, all: seq<Position>)
    requires forall i, j :: 0 <= i < j < |some| ==> some[i] != some[j]
    requires |all| <= |some| && forall p :: p in some ==> p in all
    ensures forall p :: p in all ==> p in some
    decreases |some|
  {
    if some != [] {
      assert some[0] in all;
      var k :| 0 <= k < |all| && all[k] == some[0];
      var rest := all[..k] + all[k + 1..];
      forall p | p in some[1..] ensures p in rest {
        assert p in all;
      }
      SameLength(some[1..], rest);
      forall p | p in all ensures p in some {
        assert p == some[0] || p in rest;
      }
    }
  }
}
