/**
 * What a JSONPath query means: the set of positions it denotes in a tree,
 * and the proof that evaluation yields exactly those, in document order.
 */
module JsonPositions {
  import opened Wrappers
  import opened YamlNodes
  import opened Comparisons
  import opened JsonPaths

  /** A place in a tree: which child to take at each level. */
  type Position = seq<nat>

  function At(root: Node, p: Position): Option<Node> {
    if p == [] then Some(root)
    else if p[0] < |root.content| then At(root.content[p[0]], p[1..])
    else None
  }

  /** Document order of positions at the same depth. */
  predicate Before(p: Position, q: Position) {
    p != [] && q != [] && (p[0] < q[0] || (p[0] == q[0] && Before(p[1..], q[1..])))
  }

  /** The keys, at the even places, all differ. */
  ghost predicate DistinctKeys(content: seq<Node>) {
    forall i, j :: 0 <= i < j < |content| && i % 2 == 0 && j % 2 == 0 ==> content[i].value != content[j].value
  }

  /** Mappings pair keys with values, and no key occurs twice. */
  ghost predicate UniqueKeys(n: Node)
    decreases n
  {
    && (n.kind == MappingKind ==> |n.content| % 2 == 0 && DistinctKeys(n.content))
    && forall child :: child in n.content ==> UniqueKeys(child)
  }

  // ----- Meaning -----

  /** Queries without literals; a filter side is one literal or such a query. */
  ghost predicate Located(q: Query)
    decreases q, 0
  {
    forall s :: s in q ==>
      match s
      case Field(_) => true
      case Slice(_, _, _) => true
      case Wildcard => true
      case Filter(left, _, right) => ValidSide(left) && ValidSide(right)
      case _ => false
  }

  ghost predicate ValidSide(q: Query)
    decreases q, 1
  {
    (|q| == 1 && Literal(q[0])) || Located(q)
  }

  /** Position p, relative to n, is one that q denotes. */
  ghost predicate Denotes(floats: FloatParser, n: Node, q: Query, p: Position)
    decreases q, 3
  {
    if q == [] then p == []
    else if q[0] == Field("") then Denotes(floats, n, q[1..], p)
    else
      && p != [] && p[0] < |n.content|
      && StepTo(floats, n, q[0], p[0])
      && Denotes(floats, n.content[p[0]], q[1..], p[1..])
  }

  /** Child j of n is one that s selects. */
  ghost predicate StepTo(floats: FloatParser, n: Node, s: Segment, j: nat)
    requires j < |n.content|
    decreases s, 2
  {
    match s
    case Field(name) =>
      !IsNull(n) && n.kind == MappingKind && j % 2 == 1 && n.content[j - 1].value == name
    case Slice(_, _, _) =>
      && Acceptable(n, SequenceKind) && SliceBounds(s, |n.content|).Ok?
      && var b := SliceBounds(s, |n.content|).value;
         j < b.max && OnStep(j, b.min, b.step)
    case Wildcard => n.kind == SequenceKind || (n.kind == MappingKind && j % 2 == 1)
    case Filter(_, _, _) => Holds(floats, n.content[j], s)
    case _ => false
  }

  /** Both sides of the filter denote a node at the item, and these compare. */
  ghost predicate Holds(floats: FloatParser, item: Node, s: Segment)
    requires s.Filter?
    decreases s, 1
  {
    exists l, r ::
      && SideMeans(floats, item, s.left, l) && SideMeans(floats, item, s.right, r)
      && Compare(floats, s.op, l, r) == Ok(true)
  }

  ghost predicate SideMeans(floats: FloatParser, item: Node, q: Query, v: Node)
    decreases q, 4
  {
    if |q| == 1 && Literal(q[0]) then v == LiteralNode(q[0])
    else exists p :: Denotes(floats, item, q, p) && At(item, p) == Some(v)
  }

  // ----- What the early end of the slice loop may lose -----

  /** How many nodes the loop over them takes: an empty slice at one of them ends it. */
  function LoopEnd(rns: seq<Node>, s: Segment): (n: nat)
    ensures n <= |rns|
  {
    if rns == [] || StopsAt(rns[0], s) then 0 else 1 + LoopEnd(rns[1..], s)
  }

  lemma {:induction false} AllTaken(rns: seq<Node>, s: Segment)
    requires !s.Slice?
    ensures LoopEnd(rns, s) == |rns|
  {
    if rns != [] {
      AllTaken(rns[1..], s);
    }
  }

  /** Neither the slices of the query nor those of its filters lose a node that matters. */
  ghost predicate LosesNothing(floats: FloatParser, rns: seq<Node>, q: Query)
    decreases q, 2
  {
    FiltersExact(floats, rns, q) && SlicesExact(floats, rns, q)
  }

  /** No node that a loop leaves out leads to a denoted one by the rest of the query. */
  ghost predicate SlicesExact(floats: FloatParser, rns: seq<Node>, q: Query)
    decreases q, 1
  {
    q != [] ==>
      && NoneLeftOut(floats, rns, q)
      && (Apply(floats, rns, q[0]).Ok? ==> SlicesExact(floats, Apply(floats, rns, q[0]).value, q[1..]))
  }

  ghost predicate NoneLeftOut(floats: FloatParser, rns: seq<Node>, q: Query)
    requires q != []
    decreases q, 0
  {
    forall j, p :: LoopEnd(rns, q[0]) <= j < |rns| ==> !Denotes(floats, rns[j], q, p)
  }

  /** The same for both sides of every filter, at every item that it is put to. */
  ghost predicate FiltersExact(floats: FloatParser, rns: seq<Node>, q: Query)
    decreases q, 1
  {
    q != [] ==>
      && SidesExact(floats, rns, q[0])
      && (Apply(floats, rns, q[0]).Ok? ==> FiltersExact(floats, Apply(floats, rns, q[0]).value, q[1..]))
  }

  ghost predicate SidesExact(floats: FloatParser, rns: seq<Node>, s: Segment)
    decreases s, 0
  {
    s.Filter? ==>
      forall n, item :: n in rns && item in n.content ==>
        LosesNothing(floats, [item], s.left) && LosesNothing(floats, [item], s.right)
  }

  // ----- Selection at one node -----

  ghost predicate Increasing(s: seq<nat>) {
    forall i, j :: 0 <= i < j < |s| ==> s[i] < s[j]
  }

  /** places are the children that s selects at n, in order. */
  ghost predicate Selects(floats: FloatParser, n: Node, s: Segment, places: seq<nat>) {
    && Within(places, |n.content|) && Increasing(places)
    && forall j :: 0 <= j < |n.content| ==> (j in places <==> StepTo(floats, n, s, j))
  }

  lemma {:induction false} FindFieldMeaning(content: seq<Node>, name: string, i: nat)
    requires i <= |content| && |content| % 2 == 0 && i % 2 == 0 && DistinctKeys(content)
    ensures forall j :: j in FindField(content, name, i) <==>
              i < j < |content| && j % 2 == 1 && content[j - 1].value == name
    decreases |content| - i
  {
    if i < |content| {
      FindFieldMeaning(content, name, i + 2);
      forall j: nat ensures j in FindField(content, name, i) <==>
              i < j < |content| && j % 2 == 1 && content[j - 1].value == name
      {
        if i < j < |content| && j % 2 == 1 && j != i + 1 {
          assert i + 2 <= j - 1;
        }
      }
    }
  }

  /** Child j is a value of one of the pairs from i on. */
  ghost predicate ValueFrom(j: int, i: int, len: int) { i < j < len && j % 2 == 1 }

  lemma ValueFromNext(j: int, i: int, len: int)
    requires i % 2 == 0 && len % 2 == 0 && i < len
    ensures ValueFrom(j, i, len) <==> j == i + 1 || ValueFrom(j, i + 2, len)
    ensures ValueFrom(j, i + 2, len) ==> i + 1 < j
  {
  }

  lemma SameKey(content: seq<Node>, i: int, j: int)
    requires DistinctKeys(content) && 0 <= i < |content| && 0 <= j < |content| && i % 2 == 0 && j % 2 == 0
    requires content[i].value == content[j].value
    ensures i == j
  {
  }

  lemma OnlyField(content: seq<Node>, i: nat)
    requires i < |content| && |content| % 2 == 0 && i % 2 == 0 && DistinctKeys(content)
    ensures FindField(content, content[i].value, 0) == [i + 1]
  {
    var here := FindField(content, content[i].value, 0);
    FindFieldMeaning(content, content[i].value, 0);
    hide FindField, DistinctKeys;
    assert i + 1 in here;
    assert here[0] in here;
    SameKey(content, here[0] - 1, i);
  }

  lemma {:induction false} FieldValuesMeaning(content: seq<Node>, i: nat)
    requires i <= |content| && |content| % 2 == 0 && i % 2 == 0 && DistinctKeys(content)
    ensures Increasing(FieldValues(content, i))
    ensures forall j :: j in FieldValues(content, i) <==> ValueFrom(j, i, |content|)
    decreases |content| - i
  {
    hide FindField;
    if i < |content| {
      FieldValuesMeaning(content, i + 2);
      OnlyField(content, i);
      hide ValueFrom;
      var rest := FieldValues(content, i + 2);
      forall j: int ensures j in [i + 1] + rest <==> ValueFrom(j, i, |content|) {
        ValueFromNext(j, i, |content|);
      }
      forall k | 0 <= k < |rest| ensures i + 1 < rest[k] {
        assert rest[k] in rest;
        ValueFromNext(rest[k], i, |content|);
      }
    }
  }

  lemma AtLeastOnce(a: int, step: int)
    requires a >= 1 && step >= 1
    ensures a * step >= step
  {
  }

  lemma MulGrows(q: int, q': int, step: int)
    requires q > q' && step >= 1
    ensures q * step >= q' * step + step
  {
    AtLeastOnce(q - q', step);
    assert (q - q') * step == q * step - q' * step;
  }

  lemma UniqueRest(q: int, r: int, q': int, r': int, step: int)
    requires 0 <= r < step && 0 <= r' < step && q * step + r == q' * step + r'
    ensures r == r'
  {
    if q > q' {
      MulGrows(q, q', step);
    } else if q < q' {
      MulGrows(q', q, step);
    }
  }

  lemma ModStep(d: int, step: int)
    requires step >= 1 && d >= step
    ensures d % step == (d - step) % step
  {
    var q := (d - step) / step;
    assert (q + 1) * step == q * step + step;
    UniqueRest(d / step, d % step, q + 1, (d - step) % step, step);
  }

  /** Place j is one of min, min+step, ... */
  ghost predicate OnStep(j: int, min: int, step: int)
    requires step >= 1
  {
    min <= j && (j - min) % step == 0
  }

  lemma OnStepNext(j: int, min: int, step: int)
    requires step >= 1
    ensures OnStep(j, min, step) <==> j == min || OnStep(j, min + step, step)
  {
    if min + step <= j {
      ModStep(j - min, step);
      assert j - min - step == j - (min + step);
    } else if min <= j {
      UniqueRest(0, j - min, (j - min) / step, (j - min) % step, step);
    }
  }

  lemma OnStepLeast(j: int, min: int, step: int)
    requires step >= 1 && OnStep(j, min, step)
    ensures j >= min
  {
  }

  lemma {:induction false} StepsMeaning(min: nat, max: nat, step: nat)
    requires step >= 1
    ensures Increasing(Steps(min, max, step))
    ensures forall j: nat :: j in Steps(min, max, step) <==> j < max && OnStep(j, min, step)
    decreases max - min
  {
    hide OnStep;
    if min < max {
      var rest := Steps(min + step, max, step);
      StepsMeaning(min + step, max, step);
      forall j: nat ensures j in [min] + rest <==> j < max && OnStep(j, min, step) {
        OnStepNext(j, min, step);
      }
      forall k | 0 <= k < |rest| ensures rest[k] >= min + step {
        assert rest[k] in rest;
        OnStepLeast(rest[k], min + step, step);
      }
    } else {
      forall j: nat | OnStep(j, min, step) ensures j >= max { OnStepLeast(j, min, step); }
    }
  }

  // ----- Positions and document order -----

  lemma {:induction false} AtAppend(root: Node, p: Position, r: Position)
    ensures At(root, p + r) == if At(root, p).Some? then At(At(root, p).value, r) else None
    decreases |p|
  {
    if p == [] {
      assert p + r == r;
    } else {
      assert (p + r)[1..] == p[1..] + r;
      if p[0] < |root.content| {
        AtAppend(root.content[p[0]], p[1..], r);
      }
    }
  }

  lemma {:induction false} UniqueKeysAt(root: Node, p: Position)
    requires UniqueKeys(root) && At(root, p).Some?
    ensures UniqueKeys(At(root, p).value)
    decreases |p|
  {
    if p != [] {
      UniqueKeysAt(root.content[p[0]], p[1..]);
    }
  }

  lemma {:induction false} BeforeExtends(p: Position, q: Position, a: nat, b: nat)
    requires |p| == |q| && (Before(p, q) || (p == q && a < b))
    ensures Before(p + [a], q + [b])
    decreases |p|
  {
    if p != [] {
      assert (p + [a])[1..] == p[1..] + [a] && (q + [b])[1..] == q[1..] + [b];
      if p[0] == q[0] {
        BeforeExtends(p[1..], q[1..], a, b);
      }
    }
  }

  /** Positions of the tree, all at depth d, in document order. */
  ghost predicate Placed(root: Node, ps: seq<Position>, d: nat) {
    && (forall p :: p in ps ==> |p| == d && At(root, p).Some?)
    && (forall i, j :: 0 <= i < j < |ps| ==> Before(ps[i], ps[j]))
  }

  ghost function NodesAt(root: Node, ps: seq<Position>): seq<Node>
    requires forall p :: p in ps ==> At(root, p).Some?
  {
    if ps == [] then [] else [At(root, ps[0]).value] + NodesAt(root, ps[1..])
  }
}
