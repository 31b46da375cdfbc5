/** Reading and writing one field of a document, with missing fields created on the way. */
module FieldPaths {
  import opened Wrappers
  import opened YamlNodes
  import opened Comparisons
  import opened JsonPaths
  import opened JsonPositions

  /** An empty field name is the identity in a query, so paths do without it. */
  type FieldName = s: string | s != "" witness "x"

  datatype Ref = FieldRef(name: FieldName) | IndexRef(i: int)

  type Path = seq<Ref>

  function SegmentOf(r: Ref): Segment {
    match r
    case FieldRef(name) => Field(name)
    case IndexRef(i) => Index(i)
  }

  function QueryOf(p: Path): Query {
    if p == [] then [] else [SegmentOf(p[0])] + QueryOf(p[1..])
  }

  /** Null nodes are set apart: what becomes of a field set on one is up to the YAML library. */
  datatype PutError = NoSuchKind | OutOfBound | OnNull

  /** The child of n that a reference leads to, if there is one. */
  function ChildOf(n: Node, r: Ref): (j: Option<nat>)
    ensures j.Some? ==> j.value < |n.content|
  {
    match r
    case FieldRef(name) =>
      if IsNull(n) || !Acceptable(n, MappingKind) then None else
      var found := FindField(n.content, name, 0);
      if found == [] then None else Some(found[0])
    case IndexRef(i) =>
      if !Acceptable(n, SequenceKind) || SliceBounds(Index(i), |n.content|).Err? then None
      else Some(SliceBounds(Index(i), |n.content|).value.min)
  }

  /** The node at a path. */
  function Look(n: Node, p: Path): Option<Node> {
    if p == [] then Some(n)
    else if ChildOf(n, p[0]).None? then None
    else Look(n.content[ChildOf(n, p[0]).value], p[1..])
  }

  /** The query of a path errs: a node on the way has the wrong kind or too few items. */
  predicate ReadFails(n: Node, p: Path)
    decreases |p|
  {
    p != [] &&
    if ChildOf(n, p[0]).Some? then ReadFails(n.content[ChildOf(n, p[0]).value], p[1..])
    else if p[0].FieldRef? then !IsNull(n) && !Acceptable(n, MappingKind)
    else true
  }

  function WithChild(n: Node, j: nat, child: Node): Node
    requires j < |n.content|
  {
    n.(content := n.content[j := child])
  }

  function WithField(n: Node, name: string, child: Node): Node {
    n.(content := n.content + [ScalarNode("", name), child])
  }

  /** Write v at a path, creating the fields that are missing. */
  function Put(n: Node, p: Path, v: Node): Result<Node, PutError>
    decreases |p|
  {
    if p == [] then Ok(v)
    else if ChildOf(n, p[0]).Some? then
      var j := ChildOf(n, p[0]).value;
      match Put(n.content[j], p[1..], v)
      case Ok(child) => Ok(WithChild(n, j, child))
      case Err(e) => Err(e)
    else if p[0].FieldRef? then
      if IsNull(n) then Err(OnNull)
      else if !Acceptable(n, MappingKind) then Err(NoSuchKind)
      else
        match Put(EMPTY_MAPPING, p[1..], v)
        case Ok(child) => Ok(WithField(n, p[0].name, child))
        case Err(e) => Err(e)
    else if !Acceptable(n, SequenceKind) then Err(NoSuchKind)
    else Err(OutOfBound)
  }

  // ----- Reading agrees with the query -----

  lemma {:induction false} LookIsWalk(floats: FloatParser, n: Node, p: Path)
    ensures Look(n, p).Some? ==> Walk(floats, [n], QueryOf(p)) == Ok([Look(n, p).value])
    ensures Look(n, p).None? && !ReadFails(n, p) ==> Walk(floats, [n], QueryOf(p)) == Ok([])
    ensures ReadFails(n, p) ==> Look(n, p).None? && Walk(floats, [n], QueryOf(p)).Err?
    decreases |p|
  {
    if p != [] {
      var s, rest := SegmentOf(p[0]), QueryOf(p[1..]);
      assert QueryOf(p)[0] == s && QueryOf(p)[1..] == rest;
      OneStep(floats, n, p[0]);
      if ChildOf(n, p[0]).Some? {
        LookIsWalk(floats, n.content[ChildOf(n, p[0]).value], p[1..]);
      } else if Apply(floats, [n], s).Ok? {
        NothingStays(floats, p[1..]);
      }
    }
  }

  lemma {:induction false} NothingStays(floats: FloatParser, p: Path)
    ensures Walk(floats, [], QueryOf(p)) == Ok([])
    decreases |p|
  {
    if p != [] {
      assert QueryOf(p)[0] == SegmentOf(p[0]) && QueryOf(p)[1..] == QueryOf(p[1..]);
      assert Gather(floats, [], SegmentOf(p[0])) == Ok([]);
      NothingStays(floats, p[1..]);
    }
  }

  lemma {:induction false} OneStep(floats: FloatParser, n: Node, r: Ref)
    ensures ChildOf(n, r).Some? ==> Apply(floats, [n], SegmentOf(r)) == Ok([n.content[ChildOf(n, r).value]])
    ensures ChildOf(n, r).None? ==>
              if r.FieldRef? && (IsNull(n) || Acceptable(n, MappingKind))
              then Apply(floats, [n], SegmentOf(r)) == Ok([])
              else Apply(floats, [n], SegmentOf(r)).Err?
  {
    var s := SegmentOf(r);
    GatherSingle(floats, n, s);
    if r.IndexRef? {
      IndexBounds(r.i, |n.content|);
      if SliceBounds(s, |n.content|).Ok? {
        var b := SliceBounds(s, |n.content|).value;
        assert Steps(b.min, b.max, 1) == [b.min] + Steps(b.max, b.max, 1) == [b.min];
        assert Select(floats, n, s).Ok? ==> Children(n, [b.min]) == [n.content[b.min]];
      }
    } else if Select(floats, n, s).Ok? && Select(floats, n, s).value != [] {
      var places := Select(floats, n, s).value;
      assert places == [places[0]] && places[1..] == [];
      assert Children(n, places) == [n.content[places[0]]] + [] == [n.content[places[0]]];
    }
  }

  lemma GatherSingle(floats: FloatParser, n: Node, s: Segment)
    ensures Gather(floats, [n], s) ==
              match Select(floats, n, s)
              case Err(e) => Err(e)
              case Ok(places) => Ok(if StopsAt(n, s) then [] else Children(n, places))
  {
    var ns := [n];
    assert ns[0] == n && ns[1..] == [] && Gather(floats, ns[1..], s) == Ok([]);
    if Select(floats, n, s).Ok? {
      assert Children(n, Select(floats, n, s).value) + [] == Children(n, Select(floats, n, s).value);
    }
  }

  // ----- The laws of reading and writing -----

  lemma {:induction false} FindAfterChild(content: seq<Node>, name: string, i: nat, j: nat, child: Node)
    requires i <= |content| && |content| % 2 == 0 && i % 2 == 0 && j < |content| && j % 2 == 1
    ensures FindField(content[j := child], name, i) == FindField(content, name, i)
    decreases |content| - i
  {
    if i < |content| {
      FindAfterChild(content, name, i + 2, j, child);
    }
  }

  lemma {:induction false} FoundIsValue(content: seq<Node>, name: string, i: nat)
    requires i <= |content| && |content| % 2 == 0 && i % 2 == 0
    ensures FindField(content, name, i) != [] ==> FindField(content, name, i)[0] % 2 == 1
    ensures FindField(content, name, i) != [] ==> content[FindField(content, name, i)[0] - 1].value == name
    decreases |content| - i
  {
    if i < |content| {
      FoundIsValue(content, name, i + 2);
    }
  }

  lemma {:induction false} FindAfterField(content: seq<Node>, name: string, i: nat, key: Node, child: Node)
    requires i <= |content| && |content| % 2 == 0 && i % 2 == 0
    ensures FindField(content + [key, child], name, i) ==
            if FindField(content, name, i) != [] then FindField(content, name, i)
            else if key.value == name then [|content| + 1] else []
    decreases |content| - i
  {
    if i < |content| {
      FindAfterField(content, name, i + 2, key, child);
    } else {
      assert FindField(content + [key, child], name, i + 2) == [];
    }
  }

  /** Replacing a child leaves all references where they were. */
  lemma {:induction false} ChildOfWithChild(n: Node, r: Ref, child: Node, q: Ref)
    requires ChildOf(n, r).Some?
    ensures ChildOf(WithChild(n, ChildOf(n, r).value, child), q) == ChildOf(n, q)
  {
    if r.FieldRef? {
      FoundIsValue(n.content, r.name, 0);
      if q.FieldRef? {
        FindAfterChild(n.content, q.name, 0, ChildOf(n, r).value, child);
      }
    }
  }

  lemma {:induction false} ChildOfWithField(n: Node, name: FieldName, child: Node, q: Ref)
    requires !IsNull(n) && Acceptable(n, MappingKind) && ChildOf(n, FieldRef(name)).None?
    ensures ChildOf(WithField(n, name, child), q) ==
            if q == FieldRef(name) then Some(|n.content| + 1) else ChildOf(n, q)
  {
    if q.FieldRef? {
      FindAfterField(n.content, q.name, 0, ScalarNode("", name), child);
    }
  }

  /** A written path reads back the written value. */
  lemma {:induction false} PutGet(n: Node, p: Path, v: Node)
    requires Put(n, p, v).Ok?
    ensures Look(Put(n, p, v).value, p) == Some(v)
    decreases |p|
  {
    if p != [] {
      if ChildOf(n, p[0]).Some? {
        var j := ChildOf(n, p[0]).value;
        PutGet(n.content[j], p[1..], v);
        ChildOfWithChild(n, p[0], Put(n.content[j], p[1..], v).value, p[0]);
      } else {
        PutGet(EMPTY_MAPPING, p[1..], v);
        ChildOfWithField(n, p[0].name, Put(EMPTY_MAPPING, p[1..], v).value, p[0]);
      }
    }
  }

  /** At node n, one of the two paths leads through or to the other. */
  predicate Overlap(n: Node, p: Path, q: Path)
    decreases |p|
  {
    p == [] || q == [] ||
    (if ChildOf(n, p[0]).Some? then
       ChildOf(n, p[0]) == ChildOf(n, q[0]) && Overlap(n.content[ChildOf(n, p[0]).value], p[1..], q[1..])
     else p[0] == q[0] && Overlap(EMPTY_MAPPING, p[1..], q[1..]))
  }

  /** Paths that part ways at a field name, or at two indexes counted from the same end. */
  predicate Diverge(p: Path, q: Path)
    decreases |p|
  {
    p != [] && q != [] &&
    match (p[0], q[0])
    case (FieldRef(a), FieldRef(b)) => a != b || Diverge(p[1..], q[1..])
    case (IndexRef(i), IndexRef(k)) => if i == k then Diverge(p[1..], q[1..]) else i < 0 <==> k < 0
    case _ => true
  }

  lemma {:induction false} DivergeNoOverlap(n: Node, p: Path, q: Path)
    requires Diverge(p, q)
    ensures !Overlap(n, p, q)
    decreases |p|
  {
    if p[0] == q[0] {
      var child := if ChildOf(n, p[0]).Some? then n.content[ChildOf(n, p[0]).value] else EMPTY_MAPPING;
      DivergeNoOverlap(child, p[1..], q[1..]);
    } else if ChildOf(n, p[0]).Some? && ChildOf(n, p[0]) == ChildOf(n, q[0]) {
      if p[0].FieldRef? && q[0].FieldRef? {
        FoundIsValue(n.content, p[0].name, 0);
        FoundIsValue(n.content, q[0].name, 0);
      } else if p[0].IndexRef? && q[0].IndexRef? {
        IndexBounds(p[0].i, |n.content|);
        IndexBounds(q[0].i, |n.content|);
      }
    }
  }

  lemma {:induction false} NothingInEmpty(q: Path)
    requires q != []
    ensures Look(EMPTY_MAPPING, q) == None
  {
  }

  /** Writing one path leaves every path that does not overlap it as it was. */
  lemma {:induction false} PutGetOther(n: Node, p: Path, q: Path, v: Node)
    requires Put(n, p, v).Ok? && !Overlap(n, p, q)
    ensures Look(Put(n, p, v).value, q) == Look(n, q)
    decreases |p|
  {
    if ChildOf(n, p[0]).Some? {
      var j := ChildOf(n, p[0]).value;
      var child := Put(n.content[j], p[1..], v).value;
      ChildOfWithChild(n, p[0], child, q[0]);
      if ChildOf(n, q[0]) == Some(j) {
        PutGetOther(n.content[j], p[1..], q[1..], v);
      }
    } else {
      var child := Put(EMPTY_MAPPING, p[1..], v).value;
      ChildOfWithField(n, p[0].name, child, q[0]);
      if p[0] == q[0] {
        PutGetOther(EMPTY_MAPPING, p[1..], q[1..], v);
        if q[1..] != [] {
          NothingInEmpty(q[1..]);
        }
      }
    }
  }

  /** Only the last of two writes to one path shows. */
  lemma {:induction false} PutPut(n: Node, p: Path, v: Node, w: Node)
    requires Put(n, p, v).Ok?
    ensures Put(n, p, w).Ok? && Put(Put(n, p, v).value, p, w) == Put(n, p, w)
    decreases |p|
  {
    if p != [] {
      if ChildOf(n, p[0]).Some? {
        var j := ChildOf(n, p[0]).value;
        PutPut(n.content[j], p[1..], v, w);
        var c1, c2 := Put(n.content[j], p[1..], v).value, Put(n.content[j], p[1..], w).value;
        ChildOfWithChild(n, p[0], c1, p[0]);
        assert n.content[j := c1][j := c2] == n.content[j := c2];
        assert WithChild(WithChild(n, j, c1), j, c2) == WithChild(n, j, c2);
      } else {
        PutPut(EMPTY_MAPPING, p[1..], v, w);
        var c1, c2 := Put(EMPTY_MAPPING, p[1..], v).value, Put(EMPTY_MAPPING, p[1..], w).value;
        ChildOfWithField(n, p[0].name, c1, p[0]);
        assert WithChild(WithField(n, p[0].name, c1), |n.content| + 1, c2) == WithField(n, p[0].name, c2);
      }
    }
  }

  // ----- When a write succeeds -----

  /** From reference m on, p names fields that are missing in the mapping that the references before it lead to. */
  ghost predicate MissingFrom(n: Node, p: Path, m: nat)
    requires m < |p|
  {
    && (forall k :: m <= k < |p| ==> p[k].FieldRef?)
    && Look(n, p[..m]).Some?
    && var x := Look(n, p[..m]).value;
       ChildOf(x, p[m]).None? && !IsNull(x) && x.kind == MappingKind && |x.content| % 2 == 0
  }

  /** The path exists, or fields that are missing can be created. */
  ghost predicate Writable(n: Node, p: Path) {
    Look(n, p).Some? || exists m :: 0 <= m < |p| && MissingFrom(n, p, m)
  }

  lemma {:induction false} PutSucceeds(n: Node, p: Path, v: Node)
    ensures Put(n, p, v).Ok? <==> Writable(n, p)
    decreases |p|
  {
    if p != [] {
      if ChildOf(n, p[0]).Some? {
        PutSucceeds(n.content[ChildOf(n, p[0]).value], p[1..], v);
        WritableBelow(n, p);
      } else {
        FreshFields(p[1..], v);
        assert p[..0] == [];
        if Writable(n, p) {
          var m :| 0 <= m < |p| && MissingFrom(n, p, m);
          assert m > 0 ==> p[..m][0] == p[0];
        }
        if Put(n, p, v).Ok? {
          assert forall k :: 0 < k < |p| ==> p[k] == p[1..][k - 1];
          assert MissingFrom(n, p, 0);
        }
      }
    }
  }

  lemma WritableBelow(n: Node, p: Path)
    requires p != [] && ChildOf(n, p[0]).Some?
    ensures Writable(n, p) <==> Writable(n.content[ChildOf(n, p[0]).value], p[1..])
  {
    var child := n.content[ChildOf(n, p[0]).value];
    forall m | 0 < m < |p| ensures MissingFrom(n, p, m) <==> MissingFrom(child, p[1..], m - 1) {
      assert p[..m][0] == p[0] && p[..m][1..] == p[1..][..m - 1];
      assert forall k :: m <= k < |p| ==> p[k] == p[1..][k - 1];
      assert forall k :: m - 1 <= k < |p[1..]| ==> p[1..][k] == p[k + 1];
    }
    if Writable(child, p[1..]) && Look(child, p[1..]).None? {
      var m :| 0 <= m < |p[1..]| && MissingFrom(child, p[1..], m);
      assert MissingFrom(n, p, m + 1);
    }
    if Writable(n, p) && Look(n, p).None? {
      var m :| 0 <= m < |p| && MissingFrom(n, p, m);
      assert p[..0] == [];
      assert MissingFrom(child, p[1..], m - 1);
    }
  }

  lemma {:induction false} FreshFields(p: Path, v: Node)
    ensures Put(EMPTY_MAPPING, p, v).Ok? <==> forall k :: 0 <= k < |p| ==> p[k].FieldRef?
    decreases |p|
  {
    if p != [] {
      FreshFields(p[1..], v);
      assert forall k :: 0 < k < |p| ==> p[k] == p[1..][k - 1];
      assert forall k :: 0 <= k < |p[1..]| ==> p[1..][k] == p[k + 1];
    }
  }

  /** A missing field goes behind the entries that are there. */
  lemma PutCreates(n: Node, p: Path, v: Node)
    requires p != [] && ChildOf(n, p[0]).None? && Put(n, p, v).Ok?
    ensures
      var after := Put(n, p, v).value;
      && after == n.(content := after.content) && |after.content| == |n.content| + 2
      && after.content[..|n.content|] == n.content
      && after.content[|n.content|].value == p[0].name
      && Look(after.content[|n.content| + 1], p[1..]) == Some(v)
  {
    PutGet(EMPTY_MAPPING, p[1..], v);
  }

  lemma OtherChild(n: Node, r: Ref, q: Ref)
    requires r != q && Diverge([r], [q]) && ChildOf(n, r).Some?
    ensures ChildOf(n, q) != ChildOf(n, r)
  {
    DivergeNoOverlap(n, [r], [q]);
    assert [r][1..] == [] && [q][1..] == [];
  }

  /** Whether one path can be written does not depend on what was written to another that parts ways with it. */
  lemma {:induction false} PutOther(n: Node, p: Path, v: Node, q: Path, w: Node)
    requires Diverge(p, q) && Put(n, p, v).Ok?
    ensures Put(Put(n, p, v).value, q, w).Ok? <==> Put(n, q, w).Ok?
    decreases |p|
  {
    hide Overlap, FindField, SliceBounds;
    if ChildOf(n, p[0]).Some? {
      var j := ChildOf(n, p[0]).value;
      var child := Put(n.content[j], p[1..], v).value;
      ChildOfWithChild(n, p[0], child, q[0]);
      if p[0] != q[0] {
        OtherChild(n, p[0], q[0]);
      } else {
        PutOther(n.content[j], p[1..], v, q[1..], w);
      }
    } else {
      var child := Put(EMPTY_MAPPING, p[1..], v).value;
      ChildOfWithField(n, p[0].name, child, q[0]);
      if p[0] == q[0] {
        PutOther(EMPTY_MAPPING, p[1..], v, q[1..], w);
      }
    }
  }

  // ----- The walk in Create mode, node by node -----

  function SetAt(root: Node, at: Position, v: Node): Node
    requires At(root, at).Some?
    decreases |at|
  {
    if at == [] then v else WithChild(root, at[0], SetAt(root.content[at[0]], at[1..], v))
  }

  lemma {:induction false} SetAtTwice(root: Node, at: Position, n: Node, v: Node)
    requires At(root, at).Some?
    ensures At(SetAt(root, at, n), at) == Some(n)
    ensures SetAt(SetAt(root, at, n), at, v) == SetAt(root, at, v)
    decreases |at|
  {
    if at != [] {
      SetAtTwice(root.content[at[0]], at[1..], n, v);
      var c := root.content;
      var a := SetAt(c[at[0]], at[1..], n);
      assert c[at[0] := a][at[0] := SetAt(a, at[1..], v)] == c[at[0] := SetAt(a, at[1..], v)];
    }
  }

  lemma {:induction false} SetAtDeeper(root: Node, at: Position, j: nat, v: Node)
    requires At(root, at).Some? && j < |At(root, at).value.content|
    ensures At(root, at + [j]) == Some(At(root, at).value.content[j])
    ensures SetAt(root, at + [j], v) == SetAt(root, at, WithChild(At(root, at).value, j, v))
    decreases |at|
  {
    if at == [] {
      assert at + [j] == [j] && [j][1..] == [];
    } else {
      assert (at + [j])[1..] == at[1..] + [j];
      SetAtDeeper(root.content[at[0]], at[1..], j, v);
    }
  }

  /** The walk of one path in Create mode, then the mutation: it does what Put says. */
  method PutInPlace(doc: Node, p: Path, v: Node) returns (r: Result<Node, PutError>)
    ensures r == Put(doc, p, v)
  {
    var root := doc;
    var at: Position := [];
    for i := 0 to |p|
      invariant At(root, at).Some?
      invariant Put(doc, p, v) == match Put(At(root, at).value, p[i..], v)
                                  case Ok(n) => Ok(SetAt(root, at, n))
                                  case Err(e) => Err(e)
    {
      var n := At(root, at).value;
      assert p[i..][0] == p[i] && p[i..][1..] == p[i + 1..];
      var place := ChildOf(n, p[i]);
      if place.Some? {
        if Put(n.content[place.value], p[i + 1..], v).Ok? {
          SetAtDeeper(root, at, place.value, Put(n.content[place.value], p[i + 1..], v).value);
        }
        SetAtDeeper(root, at, place.value, v);
        at := at + [place.value];
      } else if p[i].FieldRef? {
        if IsNull(n) {
          return Err(OnNull);
        }
        if !Acceptable(n, MappingKind) {
          return Err(NoSuchKind);
        }
        var grown := WithField(n, p[i].name, EMPTY_MAPPING);
        ghost var k := |n.content| + 1;
        ghost var put := Put(EMPTY_MAPPING, p[i + 1..], v);
        SetAtTwice(root, at, grown, grown);
        if put.Ok? {
          SetAtDeeper(SetAt(root, at, grown), at, k, put.value);
          SetAtTwice(root, at, grown, WithChild(grown, k, put.value));
          assert WithChild(grown, k, put.value) == WithField(n, p[i].name, put.value);
        }
        SetAtDeeper(SetAt(root, at, grown), at, k, v);
        root := SetAt(root, at, grown);
        at := at + [|n.content| + 1];
      } else if !Acceptable(n, SequenceKind) {
        return Err(NoSuchKind);
      } else {
        return Err(OutOfBound);
      }
    }
    assert p[|p|..] == [];
    return Ok(SetAt(root, at, v));
  }
}
