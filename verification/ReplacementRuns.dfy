/** What a run of replacements writes, in which order, and when it succeeds. */
module ReplacementRuns {
  import opened Wrappers
  import opened YamlNodes
  import opened FieldPaths
  import opened Replacements

  // ----- Sources -----

  ghost predicate OnlyOne(items: seq<Node>, selects: Selector, d: nat) {
    d < |items| && forall e: nat :: e < |items| ==> (selects(items[e]) <==> e == d)
  }

  /** The field of a document, in plain text if it is to be decoded. */
  ghost predicate ReadsAs(codec: Codec, doc: Node, path: Path, decodes: bool, val: Option<Node>) {
    !ReadFails(doc, path) &&
    if decodes then
      exists text :: codec.decode(TextOf(Look(doc, path))) == Some(text) && val == Some(ScalarNode("", text))
    else val == Look(doc, path)
  }

  ghost predicate SourceMeans(codec: Codec, items: seq<Node>, s: Source, val: Option<Node>) {
    match s
    case Literal(text) => val == Some(ScalarNode("", text))
    case FieldOf(selects, path, decodes) =>
      exists d: nat :: OnlyOne(items, selects, d) && ReadsAs(codec, items[d], path, decodes, val)
  }

  lemma {:induction false} SourceExact(codec: Codec, items: seq<Node>, s: Source, val: Option<Node>)
    ensures SourceValue(codec, items, s) == Ok(val) <==> SourceMeans(codec, items, s, val)
    ensures SourceValue(codec, items, s) == Err(SourceNotFound) <==>
            s.FieldOf? && forall d :: 0 <= d < |items| ==> !s.selects(items[d])
    ensures SourceValue(codec, items, s) == Err(MultipleSources) <==>
            s.FieldOf? && exists d, e :: 0 <= d < e < |items| && s.selects(items[d]) && s.selects(items[e])
  {
    if s.FieldOf? {
      SelectedMeans(items, s.selects, 0);
      var found := Selected(items, s.selects, 0);
      hide Selected, ReadFails, Look;
      if |found| == 0 {
        forall d: nat | d < |items| ensures !s.selects(items[d]) { assert d !in found; }
      } else {
        assert found[0] in found;
        if |found| == 1 {
          assert found == [found[0]];
          forall e: nat | e < |items| ensures s.selects(items[e]) <==> e == found[0] {
            assert e in found <==> s.selects(items[e]);
          }
          assert OnlyOne(items, s.selects, found[0]);
        } else {
          assert found[1] in found && found[0] < found[1];
        }
      }
    }
  }

  // ----- Writes of one target -----

  function Encoded(codec: Codec, f: TargetField, val: Option<Node>): Option<Node> {
    if f.encodes then Some(ScalarNode("", codec.encode(TextOf(val)))) else val
  }

  lemma {:induction false} FieldWritesAt(codec: Codec, d: nat, fields: seq<TargetField>, val: Option<Node>)
    ensures |FieldWrites(codec, d, fields, val)| == |fields|
    ensures forall b :: 0 <= b < |fields| ==>
              FieldWrites(codec, d, fields, val)[b] == Write(d, fields[b].path, Encoded(codec, fields[b], val))
  {
    if fields != [] {
      FieldWritesAt(codec, d, fields[1..], val);
    }
  }

  /** Every field of a target is written in every selected document: document by document, field by field. */
  lemma {:induction false} TargetWritesAt(
    codec: Codec, docs: seq<nat>, fields: seq<TargetField>, val: Option<Node>, len: nat, a: nat, b: nat)
    requires (forall k :: 0 <= k < |docs| ==> docs[k] < len) && a < |docs| && b < |fields|
    ensures |TargetWrites(codec, docs, fields, val, len)| == |docs| * |fields|
    ensures a * |fields| + b < |docs| * |fields|
    ensures TargetWrites(codec, docs, fields, val, len)[a * |fields| + b] ==
            Write(docs[a], fields[b].path, Encoded(codec, fields[b], val))
    decreases |docs|
  {
    hide Encoded, FieldWrites;
    var n, docs' := |fields|, docs[1..];
    FieldWritesAt(codec, docs[0], fields, val);
    Rows(|docs|, n, a, b);
    if docs' == [] {
      assert TargetWrites(codec, docs', fields, val, len) == [];
    } else {
      TargetWritesAt(codec, docs', fields, val, len, if a > 0 then a - 1 else 0, b);
    }
  }

  /** Place b of row a, where each of the rows has n places. */
  lemma Rows(rows: nat, n: nat, a: nat, b: nat)
    requires a < rows && b < n
    ensures rows * n == n + (rows - 1) * n && a * n + b < rows * n
    ensures a > 0 ==> a * n + b == n + ((a - 1) * n + b)
  {
  }

  /** The fields of one document, written one after the other. */
  ghost function PutFields(codec: Codec, n: Node, fields: seq<TargetField>, val: Option<Node>): Option<Node>
    decreases |fields|
  {
    if fields == [] then Some(n) else
    var path := fields[0].path;
    var r := Put(n, path, Effective(n, path, Encoded(codec, fields[0], val)));
    if r.Err? then None else PutFields(codec, r.value, fields[1..], val)
  }

  lemma {:induction false} DocWrites(
    codec: Codec, items: seq<Node>, d: nat, fields: seq<TargetField>, val: Option<Node>)
    requires d < |items|
    ensures
      var r := WriteAll(items, FieldWrites(codec, d, fields, val));
      var one := PutFields(codec, items[d], fields, val);
      (r.Ok? <==> one.Some?) && (r.Ok? ==> r.value == items[d := one.value])
    decreases |fields|
  {
    hide Put, Effective, WriteAll;
    if fields == [] {
      NoWrites(items);
    } else {
      var w, rest := Write(d, fields[0].path, Encoded(codec, fields[0], val)), FieldWrites(codec, d, fields[1..], val);
      WriteAllFirst(items, w, rest);
      if WriteOne(items, w).Ok? {
        var next := WriteOne(items, w).value;
        DocWrites(codec, next, d, fields[1..], val);
        var one := PutFields(codec, items[d], fields, val);
        assert one.Some? ==> next[d := one.value] == items[d := one.value];
      }
    }
  }

  lemma {:induction false} SpreadMeans(
    codec: Codec, items: seq<Node>, docs: seq<nat>, fields: seq<TargetField>, val: Option<Node>)
    requires Rising(docs) && forall k :: 0 <= k < |docs| ==> docs[k] < |items|
    ensures
      var r := WriteAll(items, TargetWrites(codec, docs, fields, val, |items|));
      && (r.Ok? <==> forall d: nat :: d in docs ==> PutFields(codec, items[d], fields, val).Some?)
      && (r.Ok? ==> forall d: nat :: d < |items| ==>
            r.value[d] == if d in docs then PutFields(codec, items[d], fields, val).value else items[d])
    decreases |docs|
  {
    hide WriteAll, FieldWrites, PutFields;
    if docs == [] {
      NoWrites(items);
    } else {
      var d, rest := docs[0], docs[1..];
      assert forall e: nat :: e in docs <==> e == d || e in rest;
      assert d !in rest;
      var first, more := FieldWrites(codec, d, fields, val), TargetWrites(codec, rest, fields, val, |items|);
      DocWrites(codec, items, d, fields, val);
      WriteAllAppend(items, first, more);
      if PutFields(codec, items[d], fields, val).Some? {
        SpreadMeans(codec, items[d := PutFields(codec, items[d], fields, val).value], rest, fields, val);
      }
    }
  }

  /** The target selects a document, and all its fields can be written in each that it selects. */
  ghost predicate TargetFits(codec: Codec, items: seq<Node>, t: Target, val: Option<Node>) {
    && (exists d :: 0 <= d < |items| && t.selects(items[d]))
    && forall d :: 0 <= d < |items| && t.selects(items[d]) ==> PutFields(codec, items[d], t.fields, val).Some?
  }

  /** One target: when it succeeds, and what becomes of each document. */
  lemma {:induction false} TargetMeans(codec: Codec, items: seq<Node>, t: Target, val: Option<Node>)
    ensures ReplaceOne(codec, items, t, val).Ok? <==> TargetFits(codec, items, t, val)
    ensures ReplaceOne(codec, items, t, val) == Err(TargetNotFound) <==>
            forall d :: 0 <= d < |items| ==> !t.selects(items[d])
    ensures ReplaceOne(codec, items, t, val).Ok? ==>
              var after := ReplaceOne(codec, items, t, val).value;
              |after| == |items| && forall d :: 0 <= d < |items| ==>
                after[d] == if t.selects(items[d]) then PutFields(codec, items[d], t.fields, val).value else items[d]
  {
    hide ReplaceOne, Selected, PutFields;
    if Selected(items, t.selects, 0) == [] {
      NoneFound(codec, items, t, val);
    } else {
      SomeFound(items, t.selects);
      FoundMeans(codec, items, t, val);
    }
  }

  lemma NoneFound(codec: Codec, items: seq<Node>, t: Target, val: Option<Node>)
    requires Selected(items, t.selects, 0) == []
    ensures forall d :: 0 <= d < |items| ==> !t.selects(items[d])
    ensures ReplaceOne(codec, items, t, val) == Err(TargetNotFound)
  {
    hide Selected;
    forall d | 0 <= d < |items| ensures !t.selects(items[d]) { SelectedMembers(items, t.selects, 0, d); }
  }

  lemma SomeFound(items: seq<Node>, selects: Selector)
    requires Selected(items, selects, 0) != []
    ensures exists d :: 0 <= d < |items| && selects(items[d])
  {
    hide Selected;
    var d := Selected(items, selects, 0)[0];
    SelectedMembers(items, selects, 0, d);
  }

  lemma {:induction false} FoundMeans(codec: Codec, items: seq<Node>, t: Target, val: Option<Node>)
    requires Selected(items, t.selects, 0) != []
    ensures ReplaceOne(codec, items, t, val).Ok? <==>
            forall d :: 0 <= d < |items| && t.selects(items[d]) ==> PutFields(codec, items[d], t.fields, val).Some?
    ensures ReplaceOne(codec, items, t, val) != Err(TargetNotFound)
    ensures ReplaceOne(codec, items, t, val).Ok? ==>
              var after := ReplaceOne(codec, items, t, val).value;
              |after| == |items| && forall d :: 0 <= d < |items| ==>
                after[d] == if t.selects(items[d]) then PutFields(codec, items[d], t.fields, val).value else items[d]
  {
    var docs := Selected(items, t.selects, 0);
    hide Selected, WriteAll, TargetWrites, PutFields, Rising;
    SelectedMeans(items, t.selects, 0);
    SpreadMeans(codec, items, docs, t.fields, val);
    WritesFail(items, TargetWrites(codec, docs, t.fields, val, |items|));
    assert ReplaceOne(codec, items, t, val) == WriteAll(items, TargetWrites(codec, docs, t.fields, val, |items|));
    hide ReplaceOne;
  }

  lemma {:induction false} WritesFail(items: seq<Node>, log: seq<Write>)
    requires forall k :: 0 <= k < |log| ==> log[k].doc < |items|
    ensures WriteAll(items, log) != Err(TargetNotFound)
    decreases |log|
  {
    if log != [] && WriteOne(items, log[0]).Ok? {
      WritesFail(WriteOne(items, log[0]).value, log[1..]);
    }
  }

  // ----- The fields of one document -----

  ghost predicate PairwiseDiverge(fields: seq<TargetField>) {
    forall b, c :: 0 <= b < |fields| && 0 <= c < |fields| && b != c ==> Diverge(fields[b].path, fields[c].path)
  }

  /** What is read at a path once its value was written; without a value the field is only created. */
  function Written(n: Node, path: Path, v: Option<Node>): Option<Node> {
    if v.Some? then v else if Look(n, path).Some? then Look(n, path) else Some(EMPTY_MAPPING)
  }

  /** Fields that part ways can be written exactly if each of them can, and then all read what was written. */
  lemma {:induction false} FieldsMean(codec: Codec, n: Node, fields: seq<TargetField>, val: Option<Node>)
    requires PairwiseDiverge(fields)
    ensures PutFields(codec, n, fields, val).Some? <==> forall f :: f in fields ==> Writable(n, f.path)
    ensures PutFields(codec, n, fields, val).Some? ==> forall f :: f in fields ==>
              Look(PutFields(codec, n, fields, val).value, f.path) == Written(n, f.path, Encoded(codec, f, val))
    decreases |fields|
  {
    if fields != [] {
      hide Put, Look, Overlap, Diverge, Writable, Encoded;
      var p, v := fields[0].path, Effective(n, fields[0].path, Encoded(codec, fields[0], val));
      PutSucceeds(n, p, v);
      assert forall f :: f in fields <==> f == fields[0] || f in fields[1..];
      forall f | f in fields[1..] ensures Diverge(p, f.path) && Diverge(f.path, p) {
        var b :| 0 < b < |fields| && fields[b] == f;
      }
      if Put(n, p, v).Ok? {
        var next := Put(n, p, v).value;
        FieldsMean(codec, next, fields[1..], val);
        PutGet(n, p, v);
        if PutFields(codec, next, fields[1..], val).Some? {
          FieldsKeep(codec, next, fields[1..], val, p);
        }
        forall f | f in fields[1..]
          ensures Look(next, f.path) == Look(n, f.path) && (Writable(next, f.path) <==> Writable(n, f.path))
        {
          OtherField(n, p, v, f.path);
        }
      }
    }
  }

  lemma OtherField(n: Node, p: Path, v: Node, q: Path)
    requires Diverge(p, q) && Put(n, p, v).Ok?
    ensures Look(Put(n, p, v).value, q) == Look(n, q)
    ensures Writable(Put(n, p, v).value, q) <==> Writable(n, q)
  {
    hide Put, Look, Overlap, Diverge, Writable;
    DivergeNoOverlap(n, p, q);
    PutGetOther(n, p, q, v);
    PutOther(n, p, v, q, v);
    PutSucceeds(n, q, v);
    PutSucceeds(Put(n, p, v).value, q, v);
  }

  lemma {:induction false} FieldsKeep(codec: Codec, n: Node, fields: seq<TargetField>, val: Option<Node>, q: Path)
    requires PutFields(codec, n, fields, val).Some? && forall f :: f in fields ==> Diverge(f.path, q)
    ensures Look(PutFields(codec, n, fields, val).value, q) == Look(n, q)
    decreases |fields|
  {
    if fields != [] {
      var p, v := fields[0].path, Effective(n, fields[0].path, Encoded(codec, fields[0], val));
      assert fields[0] in fields;
      DivergeNoOverlap(n, p, q);
      PutGetOther(n, p, q, v);
      FieldsKeep(codec, Put(n, p, v).value, fields[1..], val, q);
    }
  }

  // ----- Whole runs, cut off before one of their targets -----

  /** The replacements before i, and of replacement i the targets before j. */
  function CutAt(rs: seq<Replacement>, i: nat, j: nat): seq<Replacement>
    requires i < |rs| && j <= |rs[i].targets|
  {
    rs[..i] + [Replacement(rs[i].source, rs[i].targets[..j])]
  }

  lemma {:induction false} TargetsAppend(
    codec: Codec, items: seq<Node>, ts: seq<Target>, more: seq<Target>, val: Option<Node>)
    ensures
      var r := ReplaceTargets(codec, items, ts, val);
      && (r.Err? ==> ReplaceTargets(codec, items, ts + more, val) == r)
      && (r.Ok? ==> ReplaceTargets(codec, items, ts + more, val) == ReplaceTargets(codec, r.value, more, val))
      && (r.Ok? ==> TargetsLog(codec, items, ts + more, val) ==
                    TargetsLog(codec, items, ts, val) + TargetsLog(codec, r.value, more, val))
    decreases |ts|
  {
    hide ReplaceOne, TargetWrites, Selected;
    if ts == [] {
      assert ts + more == more;
    } else {
      assert (ts + more)[0] == ts[0] && (ts + more)[1..] == ts[1..] + more;
      var once := ReplaceOne(codec, items, ts[0], val);
      if once.Ok? {
        TargetsAppend(codec, once.value, ts[1..], more, val);
      }
    }
  }

  lemma {:induction false} TransformAppend(
    codec: Codec, items: seq<Node>, rs: seq<Replacement>, more: seq<Replacement>)
    ensures
      var r := Transform(codec, items, rs);
      && (r.Err? ==> Transform(codec, items, rs + more) == r)
      && (r.Ok? ==> Transform(codec, items, rs + more) == Transform(codec, r.value, more))
      && (r.Ok? ==> TransformLog(codec, items, rs + more) ==
                    TransformLog(codec, items, rs) + TransformLog(codec, r.value, more))
    decreases |rs|
  {
    hide SourceValue, ReplaceTargets, TargetsLog, WriteAll;
    if rs == [] {
      assert rs + more == more;
    } else {
      assert (rs + more)[0] == rs[0] && (rs + more)[1..] == rs[1..] + more;
      var val := SourceValue(codec, items, rs[0].source);
      if val.Ok? && ReplaceTargets(codec, items, rs[0].targets, val.value).Ok? {
        TargetsAreWrites(codec, items, rs[0].targets, val.value);
        TransformAppend(codec, ReplaceTargets(codec, items, rs[0].targets, val.value).value, rs[1..], more);
      }
    }
  }

  /** One replacement on its own. */
  lemma OneReplacement(codec: Codec, items: seq<Node>, r: Replacement)
    ensures
      var val := SourceValue(codec, items, r.source);
      && (val.Err? ==> Transform(codec, items, [r]) == Err(val.error))
      && (val.Ok? ==> Transform(codec, items, [r]) == ReplaceTargets(codec, items, r.targets, val.value))
      && (Transform(codec, items, [r]).Ok? ==>
            TransformLog(codec, items, [r]) == TargetsLog(codec, items, r.targets, val.value))
  {
    hide SourceValue, ReplaceTargets, TargetsLog, WriteAll;
    assert [r][1..] == [];
    var val := SourceValue(codec, items, r.source);
    if val.Ok? && ReplaceTargets(codec, items, r.targets, val.value).Ok? {
      TargetsAreWrites(codec, items, r.targets, val.value);
    }
  }

  /** A run that is cut off has replaced the targets before the cut. */
  lemma {:induction false} CutMeans(codec: Codec, items: seq<Node>, rs: seq<Replacement>, i: nat, j: nat)
    requires i < |rs| && j <= |rs[i].targets| && Transform(codec, items, rs[..i]).Ok?
    ensures
      var at := Transform(codec, items, rs[..i]).value;
      var val := SourceValue(codec, at, rs[i].source);
      var cut := Transform(codec, items, CutAt(rs, i, j));
      && (val.Err? ==> cut == Err(val.error))
      && (val.Ok? ==> cut == ReplaceTargets(codec, at, rs[i].targets[..j], val.value))
      && (cut.Ok? ==>
            TransformLog(codec, items, CutAt(rs, i, j)) ==
            TransformLog(codec, items, rs[..i]) + TargetsLog(codec, at, rs[i].targets[..j], val.value))
  {
    hide Transform, TransformLog, SourceValue, ReplaceTargets, TargetsLog;
    var r := Replacement(rs[i].source, rs[i].targets[..j]);
    TransformAppend(codec, items, rs[..i], [r]);
    OneReplacement(codec, Transform(codec, items, rs[..i]).value, r);
  }

  lemma OneTarget(codec: Codec, items: seq<Node>, t: Target, val: Option<Node>)
    ensures ReplaceTargets(codec, items, [t], val) == ReplaceOne(codec, items, t, val)
    ensures ReplaceOne(codec, items, t, val).Ok? ==>
              TargetsLog(codec, items, [t], val) ==
              TargetWrites(codec, Selected(items, t.selects, 0), t.fields, val, |items|)
  {
    hide ReplaceOne, TargetWrites, Selected;
    assert [t][1..] == [];
  }

  /** The next target of a run that got that far. */
  lemma {:induction false} CutNext(codec: Codec, items: seq<Node>, rs: seq<Replacement>, i: nat, j: nat)
    requires i < |rs| && j < |rs[i].targets| && Transform(codec, items, CutAt(rs, i, j)).Ok?
    ensures
      var turn, t := Transform(codec, items, CutAt(rs, i, j)).value, rs[i].targets[j];
      && Transform(codec, items, rs[..i]).Ok?
      && var val := SourceValue(codec, Transform(codec, items, rs[..i]).value, rs[i].source);
      && val.Ok?
      && Transform(codec, items, CutAt(rs, i, j + 1)) == ReplaceOne(codec, turn, t, val.value)
      && (ReplaceOne(codec, turn, t, val.value).Ok? ==>
            TransformLog(codec, items, CutAt(rs, i, j + 1)) ==
            TransformLog(codec, items, CutAt(rs, i, j))
            + TargetWrites(codec, Selected(turn, t.selects, 0), t.fields, val.value, |turn|))
  {
    hide Transform, TransformLog, SourceValue, ReplaceTargets, TargetsLog, ReplaceOne, TargetWrites;
    TransformAppend(codec, items, rs[..i], [Replacement(rs[i].source, rs[i].targets[..j])]);
    CutMeans(codec, items, rs, i, j);
    CutMeans(codec, items, rs, i, j + 1);
    var at := Transform(codec, items, rs[..i]).value;
    var val := SourceValue(codec, at, rs[i].source).value;
    assert rs[i].targets[..j + 1] == rs[i].targets[..j] + [rs[i].targets[j]];
    TargetsAppend(codec, at, rs[i].targets[..j], [rs[i].targets[j]], val);
    OneTarget(codec, Transform(codec, items, CutAt(rs, i, j)).value, rs[i].targets[j], val);
  }

  lemma {:induction false} CutBefore(codec: Codec, items: seq<Node>, rs: seq<Replacement>, i: nat, j: nat)
    requires i < |rs| && j <= |rs[i].targets| && Transform(codec, items, rs).Ok?
    ensures Transform(codec, items, rs[..i]).Ok? && Transform(codec, items, CutAt(rs, i, j)).Ok?
    ensures TransformLog(codec, items, CutAt(rs, i, j)) <= TransformLog(codec, items, rs)
  {
    hide Transform, TransformLog, SourceValue, ReplaceTargets, TargetsLog;
    var ts := rs[i].targets;
    assert rs == rs[..i] + rs[i..] && rs == rs[..i + 1] + rs[i + 1..];
    TransformAppend(codec, items, rs[..i], rs[i..]);
    TransformAppend(codec, items, rs[..i + 1], rs[i + 1..]);
    assert ts[..|ts|] == ts && CutAt(rs, i, |ts|) == rs[..i + 1];
    CutMeans(codec, items, rs, i, |ts|);
    CutMeans(codec, items, rs, i, j);
    var at := Transform(codec, items, rs[..i]).value;
    assert ts == ts[..j] + ts[j..];
    TargetsAppend(codec, at, ts[..j], ts[j..], SourceValue(codec, at, rs[i].source).value);
  }

  /**
   * The writes of a successful run: each target of each replacement adds, in
   * this order, all that it has to write in the documents that it selects when
   * its turn comes, with the value that its source had when the replacement began.
   */
  lemma {:induction false} LogComplete(codec: Codec, items: seq<Node>, rs: seq<Replacement>, i: nat, j: nat)
    requires i < |rs| && j < |rs[i].targets| && Transform(codec, items, rs).Ok?
    ensures
      var at, turn := Transform(codec, items, rs[..i]), Transform(codec, items, CutAt(rs, i, j));
      && at.Ok? && turn.Ok? && SourceValue(codec, at.value, rs[i].source).Ok?
      && var val, docs := SourceValue(codec, at.value, rs[i].source).value,
                          Selected(turn.value, rs[i].targets[j].selects, 0);
      && var here := TargetWrites(codec, docs, rs[i].targets[j].fields, val, |turn.value|);
      && TransformLog(codec, items, CutAt(rs, i, j)) + here <= TransformLog(codec, items, rs)
      && TransformLog(codec, items, CutAt(rs, i, j)) + here == TransformLog(codec, items, CutAt(rs, i, j + 1))
  {
    hide Transform, TransformLog, SourceValue, ReplaceOne, TargetWrites;
    CutBefore(codec, items, rs, i, j);
    CutBefore(codec, items, rs, i, j + 1);
    CutNext(codec, items, rs, i, j);
  }

  // ----- When a run succeeds -----

  /** At replacement i the source has a value, and each of its targets fits at its turn. */
  ghost predicate ReplacementFits(codec: Codec, items: seq<Node>, rs: seq<Replacement>, i: nat)
    requires i < |rs|
  {
    Transform(codec, items, rs[..i]).Ok? ==>
      exists val ::
        SourceMeans(codec, Transform(codec, items, rs[..i]).value, rs[i].source, val)
        && TargetsFit(codec, items, rs, i, val)
  }

  ghost predicate TargetsFit(codec: Codec, items: seq<Node>, rs: seq<Replacement>, i: nat, val: Option<Node>)
    requires i < |rs|
  {
    forall j, turn :: 0 <= j < |rs[i].targets| && Transform(codec, items, CutAt(rs, i, j)) == Ok(turn) ==>
      TargetFits(codec, turn, rs[i].targets[j], val)
  }

  lemma {:induction false} RunSucceeds(codec: Codec, items: seq<Node>, rs: seq<Replacement>)
    ensures Transform(codec, items, rs).Ok? <==>
            forall i :: 0 <= i < |rs| ==> ReplacementFits(codec, items, rs, i)
  {
    hide Transform, ReplacementFits;
    if Transform(codec, items, rs).Ok? {
      forall i | 0 <= i < |rs| ensures ReplacementFits(codec, items, rs, i) { RunFits(codec, items, rs, i); }
    }
    if forall i :: 0 <= i < |rs| ==> ReplacementFits(codec, items, rs, i) {
      FitRuns(codec, items, rs, |rs|);
      assert rs[..|rs|] == rs;
    }
  }

  lemma {:induction false} RunFits(codec: Codec, items: seq<Node>, rs: seq<Replacement>, i: nat)
    requires i < |rs| && Transform(codec, items, rs).Ok?
    ensures ReplacementFits(codec, items, rs, i)
  {
    hide Transform, SourceValue, ReplaceOne, SourceMeans, TargetFits;
    CutBefore(codec, items, rs, i, 0);
    CutMeans(codec, items, rs, i, 0);
    var at := Transform(codec, items, rs[..i]).value;
    var val := SourceValue(codec, at, rs[i].source).value;
    SourceExact(codec, at, rs[i].source, val);
    forall j, turn | 0 <= j < |rs[i].targets| && Transform(codec, items, CutAt(rs, i, j)) == Ok(turn)
      ensures TargetFits(codec, turn, rs[i].targets[j], val)
    {
      CutNext(codec, items, rs, i, j);
      CutBefore(codec, items, rs, i, j + 1);
      TargetMeans(codec, turn, rs[i].targets[j], val);
    }
  }

  lemma {:induction false} FitRuns(codec: Codec, items: seq<Node>, rs: seq<Replacement>, i: nat)
    requires i <= |rs| && forall k :: 0 <= k < |rs| ==> ReplacementFits(codec, items, rs, k)
    ensures Transform(codec, items, rs[..i]).Ok?
  {
    if i > 0 {
      FitRuns(codec, items, rs, i - 1);
      assert ReplacementFits(codec, items, rs, i - 1);
      FitTargets(codec, items, rs, i - 1, |rs[i - 1].targets|);
      assert rs[i - 1].targets[..|rs[i - 1].targets|] == rs[i - 1].targets;
      assert CutAt(rs, i - 1, |rs[i - 1].targets|) == rs[..i];
    }
  }

  lemma {:induction false} FitTargets(codec: Codec, items: seq<Node>, rs: seq<Replacement>, i: nat, j: nat)
    requires i < |rs| && j <= |rs[i].targets| && ReplacementFits(codec, items, rs, i)
    requires Transform(codec, items, rs[..i]).Ok?
    ensures Transform(codec, items, CutAt(rs, i, j)).Ok?
    decreases j
  {
    hide Transform, SourceValue, ReplaceOne, SourceMeans, TargetFits;
    var at := Transform(codec, items, rs[..i]).value;
    var val :| SourceMeans(codec, at, rs[i].source, val) && TargetsFit(codec, items, rs, i, val);
    SourceExact(codec, at, rs[i].source, val);
    if j == 0 {
      CutMeans(codec, items, rs, i, 0);
      assert rs[i].targets[..0] == [];
    } else {
      FitTargets(codec, items, rs, i, j - 1);
      CutNext(codec, items, rs, i, j - 1);
      TargetMeans(codec, Transform(codec, items, CutAt(rs, i, j - 1)).value, rs[i].targets[j - 1], val);
    }
  }

  // ----- What a successful run leaves behind -----

  /** The fields of the targets after target j of replacement i, and of later replacements, part ways with q. */
  ghost predicate LaterDiverge(rs: seq<Replacement>, i: nat, j: nat, q: Path)
    requires i < |rs| && j < |rs[i].targets|
  {
    && (forall k, f :: j < k < |rs[i].targets| && f in rs[i].targets[k].fields ==> Diverge(f.path, q))
    && forall k, t, f :: i < k < |rs| && t in rs[k].targets && f in t.fields ==> Diverge(f.path, q)
  }

  /** The targets and replacements that follow leave such a path as it is. */
  lemma {:induction false} LaterKeep(
    codec: Codec, items: seq<Node>, rs: seq<Replacement>, i: nat, j: nat, d: nat, q: Path)
    requires i < |rs| && j < |rs[i].targets| && Transform(codec, items, rs).Ok?
    requires d < |items| && LaterDiverge(rs, i, j, q)
    ensures Transform(codec, items, CutAt(rs, i, j + 1)).Ok?
    ensures |Transform(codec, items, CutAt(rs, i, j + 1)).value| == |Transform(codec, items, rs).value| == |items|
    ensures Look(Transform(codec, items, rs).value[d], q) ==
            Look(Transform(codec, items, CutAt(rs, i, j + 1)).value[d], q)
  {
    hide Transform, SourceValue, ReplaceTargets, TargetsLog, WriteAll, Look, Diverge;
    var ts := rs[i].targets;
    CutBefore(codec, items, rs, i, j + 1);
    CutBefore(codec, items, rs, i, |ts|);
    TransformFrames(codec, items, CutAt(rs, i, j + 1));
    TransformFrames(codec, items, CutAt(rs, i, |ts|));
    LaterTargets(codec, items, rs, i, j, d, q);
    assert ts[..|ts|] == ts && rs == CutAt(rs, i, |ts|) + rs[i + 1..];
    TransformAppend(codec, items, CutAt(rs, i, |ts|), rs[i + 1..]);
    TransformFrames(codec, Transform(codec, items, CutAt(rs, i, |ts|)).value, rs[i + 1..]);
  }

  lemma {:induction false} LaterTargets(
    codec: Codec, items: seq<Node>, rs: seq<Replacement>, i: nat, j: nat, d: nat, q: Path)
    requires i < |rs| && j < |rs[i].targets| && LaterDiverge(rs, i, j, q)
    requires Transform(codec, items, rs[..i]).Ok?
    requires
      var next := Transform(codec, items, CutAt(rs, i, j + 1));
      var end := Transform(codec, items, CutAt(rs, i, |rs[i].targets|));
      next.Ok? && end.Ok? && d < |next.value| && |next.value| == |end.value|
    ensures Look(Transform(codec, items, CutAt(rs, i, |rs[i].targets|)).value[d], q) ==
            Look(Transform(codec, items, CutAt(rs, i, j + 1)).value[d], q)
  {
    hide Transform, SourceValue, ReplaceTargets, TargetsLog, WriteAll, Look, Diverge;
    var ts := rs[i].targets;
    CutMeans(codec, items, rs, i, j + 1);
    CutMeans(codec, items, rs, i, |ts|);
    var at := Transform(codec, items, rs[..i]).value;
    var val := SourceValue(codec, at, rs[i].source).value;
    assert ts == ts[..j + 1] + ts[j + 1..] && ts[..|ts|] == ts;
    TargetsAppend(codec, at, ts[..j + 1], ts[j + 1..], val);
    TargetsKeep(codec, Transform(codec, items, CutAt(rs, i, j + 1)).value, ts[j + 1..], val, d, q);
  }

  lemma {:induction false} TargetsKeep(
    codec: Codec, items: seq<Node>, ts: seq<Target>, val: Option<Node>, d: nat, q: Path)
    requires d < |items| && ReplaceTargets(codec, items, ts, val).Ok?
    requires forall t, f :: t in ts && f in t.fields ==> Diverge(f.path, q)
    ensures |ReplaceTargets(codec, items, ts, val).value| == |items|
    ensures Look(ReplaceTargets(codec, items, ts, val).value[d], q) == Look(items[d], q)
  {
    hide ReplaceTargets, Look, Diverge;
    var log := TargetsLog(codec, items, ts, val);
    TargetsAreWrites(codec, items, ts, val);
    forall w | w in log ensures Diverge(w.path, q) {
      var t, f :| t in ts && f in t.fields && f.path == w.path;
    }
    DivergingUntouched(items, log, d, q);
    UntouchedStays(items, log, d, q);
  }

  /**
   * After a successful run, every field of a target reads the (encoded) value
   * of the source in every document that the target selected at its turn, if
   * the fields of the target part ways and so do all later fields with it.
   */
  lemma {:induction false} RunSpreads(
    codec: Codec, items: seq<Node>, rs: seq<Replacement>, i: nat, j: nat, val: Option<Node>)
    requires i < |rs| && j < |rs[i].targets| && Transform(codec, items, rs).Ok?
    requires PairwiseDiverge(rs[i].targets[j].fields)
    requires Transform(codec, items, rs[..i]).Ok?
    requires SourceMeans(codec, Transform(codec, items, rs[..i]).value, rs[i].source, val)
    ensures
      var turn, t := Transform(codec, items, CutAt(rs, i, j)), rs[i].targets[j];
      && turn.Ok? && |turn.value| == |Transform(codec, items, rs).value| == |items|
      && (exists d :: 0 <= d < |items| && t.selects(turn.value[d]))
      && forall d, f :: 0 <= d < |items| && t.selects(turn.value[d]) && f in t.fields &&
                        LaterDiverge(rs, i, j, f.path) ==>
           Look(Transform(codec, items, rs).value[d], f.path) ==
           Written(turn.value[d], f.path, Encoded(codec, f, val))
  {
    hide Transform, SourceValue, ReplaceOne, SourceMeans, PutFields, LaterDiverge, PairwiseDiverge, Look, Written;
    hide Encoded;
    SourceExact(codec, Transform(codec, items, rs[..i]).value, rs[i].source, val);
    CutBefore(codec, items, rs, i, j);
    CutNext(codec, items, rs, i, j);
    CutBefore(codec, items, rs, i, j + 1);
    var turn, t := Transform(codec, items, CutAt(rs, i, j)).value, rs[i].targets[j];
    TransformFrames(codec, items, CutAt(rs, i, j));
    TransformFrames(codec, items, rs);
    TargetMeans(codec, turn, t, val);
    forall d, f | 0 <= d < |items| && t.selects(turn[d]) && f in t.fields && LaterDiverge(rs, i, j, f.path)
      ensures Look(Transform(codec, items, rs).value[d], f.path) == Written(turn[d], f.path, Encoded(codec, f, val))
    {
      FieldsMean(codec, turn[d], t.fields, val);
      LaterKeep(codec, items, rs, i, j, d, f.path);
    }
  }

  /** A document that no target selects is left as it is. */
  lemma {:induction false} UnselectedStay(codec: Codec, items: seq<Node>, rs: seq<Replacement>, d: nat)
    requires d < |items| && Transform(codec, items, rs).Ok?
    requires forall r, t :: r in rs && t in r.targets ==> !t.selects(items[d])
    ensures |Transform(codec, items, rs).value| == |items| && Transform(codec, items, rs).value[d] == items[d]
    decreases |rs|
  {
    if rs != [] {
      hide SourceValue, ReplaceTargets;
      var val := SourceValue(codec, items, rs[0].source).value;
      assert rs[0] in rs;
      UnselectedByTargets(codec, items, rs[0].targets, val, d);
      UnselectedStay(codec, ReplaceTargets(codec, items, rs[0].targets, val).value, rs[1..], d);
    }
  }

  lemma {:induction false} UnselectedByTargets(
    codec: Codec, items: seq<Node>, ts: seq<Target>, val: Option<Node>, d: nat)
    requires d < |items| && ReplaceTargets(codec, items, ts, val).Ok?
    requires forall t :: t in ts ==> !t.selects(items[d])
    ensures |ReplaceTargets(codec, items, ts, val).value| == |items|
    ensures ReplaceTargets(codec, items, ts, val).value[d] == items[d]
    decreases |ts|
  {
    if ts != [] {
      hide ReplaceOne;
      TargetMeans(codec, items, ts[0], val);
      UnselectedByTargets(codec, ReplaceOne(codec, items, ts[0], val).value, ts[1..], val, d);
    }
  }
}
