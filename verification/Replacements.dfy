/** The replacement transformer (pkg/document/plugin/replacement/transformer.go). */
module Replacements {
  import opened Wrappers
  import opened YamlNodes
  import opened FieldPaths

  /** Which documents a reference selects: by kind, name, namespace or labels. */
  type Selector = Node -> bool

  /** The base64 conversions, with failure for text that does not decode. */
  datatype Codec = Codec(encode: string -> string, decode: string -> Option<string>)

  datatype Source =
    | Literal(text: string)
    | FieldOf(selects: Selector, path: Path, decodes: bool)  // decodes: data of a Secret

  datatype TargetField = TargetField(path: Path, encodes: bool)

  datatype Target = Target(selects: Selector, fields: seq<TargetField>)

  datatype Replacement = Replacement(source: Source, targets: seq<Target>)

  datatype FilterError =
    | MultipleSources | SourceNotFound | TargetNotFound | SourceQuery | BadBase64 | PutFailed(e: PutError)

  /** The indexes of the selected documents, from i on. */
  function Selected(items: seq<Node>, selects: Selector, i: nat): (r: seq<nat>)
    requires i <= |items|
    ensures forall k :: 0 <= k < |r| ==> r[k] < |items|
    decreases |items| - i
  {
    if i == |items| then []
    else (if selects(items[i]) then [i] else []) + Selected(items, selects, i + 1)
  }

  /** The text of a node, or of no node at all. */
  function TextOf(v: Option<Node>): string {
    if v.Some? then v.value.value else ""
  }

  /** The value of a source; no node when the source field is missing. */
  function SourceValue(codec: Codec, items: seq<Node>, s: Source): Result<Option<Node>, FilterError> {
    match s
    case Literal(text) => Ok(Some(ScalarNode("", text)))
    case FieldOf(selects, path, decodes) =>
      var found := Selected(items, selects, 0);
      if |found| > 1 then Err(MultipleSources)
      else if |found| == 0 then Err(SourceNotFound)
      else if ReadFails(items[found[0]], path) then Err(SourceQuery)
      else if !decodes then Ok(Look(items[found[0]], path))
      else
        var text := codec.decode(TextOf(Look(items[found[0]], path)));
        if text.None? then Err(BadBase64) else Ok(Some(ScalarNode("", text.value)))
  }

  // ----- Writes -----

  datatype Write = Write(doc: nat, path: Path, value: Option<Node>)

  /** A missing value leaves the field as it is, but still creates it. */
  function Effective(n: Node, p: Path, v: Option<Node>): Node {
    if v.Some? then v.value else if Look(n, p).Some? then Look(n, p).value else EMPTY_MAPPING
  }

  function WriteOne(items: seq<Node>, w: Write): (r: Result<seq<Node>, FilterError>)
    requires w.doc < |items|
    ensures r.Ok? ==> |r.value| == |items|
  {
    match Put(items[w.doc], w.path, Effective(items[w.doc], w.path, w.value))
    case Ok(n) => Ok(items[w.doc := n])
    case Err(e) => Err(PutFailed(e))
  }

  function WriteAll(items: seq<Node>, log: seq<Write>): (r: Result<seq<Node>, FilterError>)
    requires forall k :: 0 <= k < |log| ==> log[k].doc < |items|
    ensures r.Ok? ==> |r.value| == |items|
    decreases |log|
  {
    if log == [] then Ok(items) else
    match WriteOne(items, log[0])
    case Err(e) => Err(e)
    case Ok(next) => WriteAll(next, log[1..])
  }

  lemma WriteAllFirst(items: seq<Node>, w: Write, rest: seq<Write>)
    requires w.doc < |items| && forall k :: 0 <= k < |rest| ==> rest[k].doc < |items|
    ensures WriteOne(items, w).Ok? ==> WriteAll(items, [w] + rest) == WriteAll(WriteOne(items, w).value, rest)
    ensures WriteOne(items, w).Err? ==> WriteAll(items, [w] + rest) == Err(WriteOne(items, w).error)
  {
    hide WriteOne;
    assert ([w] + rest)[0] == w && ([w] + rest)[1..] == rest;
  }

  function FieldWrites(codec: Codec, doc: nat, fields: seq<TargetField>, val: Option<Node>): (r: seq<Write>)
    ensures forall k :: 0 <= k < |r| ==> r[k].doc == doc
  {
    if fields == [] then [] else
    var v := if fields[0].encodes then Some(ScalarNode("", codec.encode(TextOf(val)))) else val;
    [Write(doc, fields[0].path, v)] + FieldWrites(codec, doc, fields[1..], val)
  }

  function TargetWrites(
    codec: Codec, docs: seq<nat>, fields: seq<TargetField>, val: Option<Node>, len: nat): (r: seq<Write>)
    requires forall k :: 0 <= k < |docs| ==> docs[k] < len
    ensures forall k :: 0 <= k < |r| ==> r[k].doc < len
  {
    if docs == [] then []
    else FieldWrites(codec, docs[0], fields, val) + TargetWrites(codec, docs[1..], fields, val, len)
  }

  // ----- The transformer -----

  function ReplaceOne(codec: Codec, items: seq<Node>, t: Target, val: Option<Node>): (r: Result<seq<Node>, FilterError>)
    ensures r.Ok? ==> |r.value| == |items|
  {
    var docs := Selected(items, t.selects, 0);
    if docs == [] then Err(TargetNotFound)
    else WriteAll(items, TargetWrites(codec, docs, t.fields, val, |items|))
  }

  function ReplaceTargets(
    codec: Codec, items: seq<Node>, ts: seq<Target>, val: Option<Node>): Result<seq<Node>, FilterError>
    decreases |ts|
  {
    if ts == [] then Ok(items) else
    match ReplaceOne(codec, items, ts[0], val)
    case Err(e) => Err(e)
    case Ok(next) => ReplaceTargets(codec, next, ts[1..], val)
  }

  function Transform(codec: Codec, items: seq<Node>, rs: seq<Replacement>): Result<seq<Node>, FilterError>
    decreases |rs|
  {
    if rs == [] then Ok(items) else
    match SourceValue(codec, items, rs[0].source)
    case Err(e) => Err(e)
    case Ok(val) =>
      match ReplaceTargets(codec, items, rs[0].targets, val)
      case Err(e) => Err(e)
      case Ok(next) => Transform(codec, next, rs[1..])
  }

  class Transformer {
    const codec: Codec
    const replacements: seq<Replacement>
    var items: seq<Node>

    constructor (codec: Codec, replacements: seq<Replacement>, items: seq<Node>)
      ensures this.codec == codec && this.replacements == replacements && this.items == items
    {
      this.codec := codec;
      this.replacements := replacements;
      this.items := items;
    }

    /** Filter overwrites the documents as Transform says; on an error they may be half written. */
    method Filter() returns (err: Option<FilterError>)
      modifies this
      ensures Transform(codec, old(items), replacements) == (if err.Some? then Err(err.value) else Ok(items))
    {
      for i := 0 to |replacements|
        invariant Transform(codec, old(items), replacements) == Transform(codec, items, replacements[i..])
      {
        var r := replacements[i];
        assert replacements[i..][0] == r && replacements[i..][1..] == replacements[i + 1..];
        var val := SourceValue(codec, items, r.source);
        if val.Err? {
          return Some(val.error);
        }
        ghost var before := items;
        for k := 0 to |r.targets|
          invariant ReplaceTargets(codec, before, r.targets, val.value) ==
                    ReplaceTargets(codec, items, r.targets[k..], val.value)
        {
          assert r.targets[k..][0] == r.targets[k] && r.targets[k..][1..] == r.targets[k + 1..];
          err := Replace(r.targets[k], val.value);
          if err.Some? {
            return;
          }
        }
      }
      return None;
    }

    method Replace(t: Target, val: Option<Node>) returns (err: Option<FilterError>)
      modifies this
      ensures ReplaceOne(codec, old(items), t, val) == (if err.Some? then Err(err.value) else Ok(items))
    {
      var docs := Selected(items, t.selects, 0);
      if docs == [] {
        return Some(TargetNotFound);
      }
      ghost var len := |items|;
      for i := 0 to |docs|
        invariant |items| == len
        invariant ReplaceOne(codec, old(items), t, val) ==
                  WriteAll(items, TargetWrites(codec, docs[i..], t.fields, val, len))
      {
        assert docs[i..][0] == docs[i] && docs[i..][1..] == docs[i + 1..];
        err := ReplaceFields(docs[i], t.fields, val, TargetWrites(codec, docs[i + 1..], t.fields, val, len));
        if err.Some? {
          return;
        }
      }
      assert docs[|docs|..] == [];
      return None;
    }

    /** The inner loop of replace, over the fields of one document; later is what is still to be written. */
    method ReplaceFields(d: nat, fields: seq<TargetField>, val: Option<Node>, ghost later: seq<Write>)
      returns (err: Option<FilterError>)
      requires d < |items| && forall k :: 0 <= k < |later| ==> later[k].doc < |items|
      modifies this
      ensures |items| == old(|items|)
      ensures WriteAll(old(items), FieldWrites(codec, d, fields, val) + later) ==
              (if err.Some? then Err(err.value) else WriteAll(items, later))
    {
      hide Put, Look, Effective, TextOf, WriteAll;
      for k := 0 to |fields|
        invariant |items| == old(|items|)
        invariant WriteAll(old(items), FieldWrites(codec, d, fields, val) + later) ==
                  WriteAll(items, FieldWrites(codec, d, fields[k..], val) + later)
      {
        var f := fields[k];
        assert fields[k..][0] == f && fields[k..][1..] == fields[k + 1..];
        var v := if f.encodes then Some(ScalarNode("", codec.encode(TextOf(val)))) else val;
        ghost var w, rest := Write(d, f.path, v), FieldWrites(codec, d, fields[k + 1..], val);
        assert FieldWrites(codec, d, fields[k..], val) + later == [w] + (rest + later);
        WriteAllFirst(items, w, rest + later);
        var r := PutInPlace(items[d], f.path, Effective(items[d], f.path, v));
        if r.Err? {
          return Some(PutFailed(r.error));
        }
        items := items[d := r.value];
      }
      assert FieldWrites(codec, d, fields[|fields|..], val) + later == later;
      return None;
    }
  }

  // ----- Laws over a whole run -----

  /** Nothing the log writes overlaps path q of document d. */
  ghost predicate Untouched(items: seq<Node>, log: seq<Write>, d: nat, q: Path)
    requires d < |items| && forall k :: 0 <= k < |log| ==> log[k].doc < |items|
    decreases |log|
  {
    log == [] ||
    ((log[0].doc == d ==> !Overlap(items[d], log[0].path, q)) &&
     (WriteOne(items, log[0]).Ok? ==> Untouched(WriteOne(items, log[0]).value, log[1..], d, q)))
  }

  /** A path that no write overlaps is left as it was. */
  lemma {:induction false} UntouchedStays(items: seq<Node>, log: seq<Write>, d: nat, q: Path)
    requires d < |items| && forall k :: 0 <= k < |log| ==> log[k].doc < |items|
    requires WriteAll(items, log).Ok? && Untouched(items, log, d, q)
    ensures Look(WriteAll(items, log).value[d], q) == Look(items[d], q)
    decreases |log|
  {
    if log != [] {
      var w := log[0];
      if w.doc == d {
        PutGetOther(items[d], w.path, q, Effective(items[d], w.path, w.value));
      }
      UntouchedStays(WriteOne(items, w).value, log[1..], d, q);
    }
  }

  lemma {:induction false} WriteAllAppend(items: seq<Node>, log: seq<Write>, more: seq<Write>)
    requires forall k :: 0 <= k < |log| ==> log[k].doc < |items|
    requires forall k :: 0 <= k < |more| ==> more[k].doc < |items|
    ensures forall k :: 0 <= k < |log + more| ==> (log + more)[k].doc < |items|
    ensures WriteAll(items, log + more) ==
              match WriteAll(items, log) { case Ok(next) => WriteAll(next, more) case Err(e) => Err(e) }
    decreases |log|
  {
    if log == [] {
      assert log + more == more;
    } else {
      assert (log + more)[1..] == log[1..] + more;
      if WriteOne(items, log[0]).Ok? {
        WriteAllAppend(WriteOne(items, log[0]).value, log[1..], more);
      }
    }
  }

  /** The write comes from a field of one of the replacements' targets. */
  ghost predicate Asked(rs: seq<Replacement>, w: Write) {
    exists r, t, f :: r in rs && t in r.targets && f in t.fields && f.path == w.path
  }

  ghost predicate AskedBy(ts: seq<Target>, w: Write) {
    exists t, f :: t in ts && f in t.fields && f.path == w.path
  }

  lemma {:induction false} FieldWritesAsked(codec: Codec, doc: nat, fields: seq<TargetField>, val: Option<Node>)
    ensures forall w :: w in FieldWrites(codec, doc, fields, val) ==> exists f :: f in fields && f.path == w.path
  {
    if fields != [] {
      FieldWritesAsked(codec, doc, fields[1..], val);
      forall w | w in FieldWrites(codec, doc, fields, val) ensures exists f :: f in fields && f.path == w.path {
        if w.path == fields[0].path {
          assert fields[0] in fields;
        } else {
          assert w in FieldWrites(codec, doc, fields[1..], val);
          var f :| f in fields[1..] && f.path == w.path;
          assert f in fields;
        }
      }
    }
  }

  lemma {:induction false} TargetWritesAsked(codec: Codec, docs: seq<nat>, t: Target, val: Option<Node>, len: nat)
    requires forall k :: 0 <= k < |docs| ==> docs[k] < len
    ensures forall w :: w in TargetWrites(codec, docs, t.fields, val, len) ==> AskedBy([t], w)
  {
    if docs != [] {
      FieldWritesAsked(codec, docs[0], t.fields, val);
      TargetWritesAsked(codec, docs[1..], t, val, len);
      forall w | w in TargetWrites(codec, docs, t.fields, val, len) ensures AskedBy([t], w) {
        if w in FieldWrites(codec, docs[0], t.fields, val) {
          var f :| f in t.fields && f.path == w.path;
          assert t in [t];
        }
      }
    }
  }

  /** The writes of one replacement, each target selecting from the documents as they then are. */
  ghost function TargetsLog(codec: Codec, items: seq<Node>, ts: seq<Target>, val: Option<Node>): (log: seq<Write>)
    ensures forall k :: 0 <= k < |log| ==> log[k].doc < |items|
    decreases |ts|
  {
    if ts == [] then [] else
    TargetWrites(codec, Selected(items, ts[0].selects, 0), ts[0].fields, val, |items|)
    + match ReplaceOne(codec, items, ts[0], val)
      case Ok(next) => TargetsLog(codec, next, ts[1..], val)
      case Err(_) => []
  }

  /** All writes of a run. */
  ghost function TransformLog(codec: Codec, items: seq<Node>, rs: seq<Replacement>): (log: seq<Write>)
    ensures forall k :: 0 <= k < |log| ==> log[k].doc < |items|
    decreases |rs|
  {
    if rs == [] || SourceValue(codec, items, rs[0].source).Err? then [] else
    var log := TargetsLog(codec, items, rs[0].targets, SourceValue(codec, items, rs[0].source).value);
    match WriteAll(items, log)
    case Ok(next) => log + TransformLog(codec, next, rs[1..])
    case Err(_) => log
  }

  lemma {:induction false} TargetsAreWrites(codec: Codec, items: seq<Node>, ts: seq<Target>, val: Option<Node>)
    requires ReplaceTargets(codec, items, ts, val).Ok?
    ensures ReplaceTargets(codec, items, ts, val) == WriteAll(items, TargetsLog(codec, items, ts, val))
    ensures forall w :: w in TargetsLog(codec, items, ts, val) ==> AskedBy(ts, w)
    decreases |ts|
  {
    if ts != [] {
      var docs, next := Selected(items, ts[0].selects, 0), ReplaceOne(codec, items, ts[0], val).value;
      var first := TargetWrites(codec, docs, ts[0].fields, val, |items|);
      TargetWritesAsked(codec, docs, ts[0], val, |items|);
      TargetsAreWrites(codec, next, ts[1..], val);
      WriteAllAppend(items, first, TargetsLog(codec, next, ts[1..], val));
      forall w | w in TargetsLog(codec, items, ts, val) ensures AskedBy(ts, w) {
        if w in first {
          var t, f :| t in [ts[0]] && f in t.fields && f.path == w.path;
          assert t in ts;
        } else {
          var t, f :| t in ts[1..] && f in t.fields && f.path == w.path;
          assert t in ts;
        }
      }
    }
  }

  /** A run that succeeds is the run of its writes, each asked for by a target field. */
  lemma {:induction false} TransformIsWrites(codec: Codec, items: seq<Node>, rs: seq<Replacement>)
    requires Transform(codec, items, rs).Ok?
    ensures Transform(codec, items, rs) == WriteAll(items, TransformLog(codec, items, rs))
    ensures forall w :: w in TransformLog(codec, items, rs) ==> Asked(rs, w)
    decreases |rs|
  {
    if rs != [] {
      var val := SourceValue(codec, items, rs[0].source).value;
      TargetsAreWrites(codec, items, rs[0].targets, val);
      var first := TargetsLog(codec, items, rs[0].targets, val);
      var next := WriteAll(items, first).value;
      TransformIsWrites(codec, next, rs[1..]);
      WriteAllAppend(items, first, TransformLog(codec, next, rs[1..]));
      forall w | w in TransformLog(codec, items, rs) ensures Asked(rs, w) {
        if w in first {
          var t, f :| t in rs[0].targets && f in t.fields && f.path == w.path;
          assert rs[0] in rs;
        } else {
          var r, t, f :| r in rs[1..] && t in r.targets && f in t.fields && f.path == w.path;
          assert r in rs;
        }
      }
    }
  }

  lemma {:induction false} DivergingUntouched(items: seq<Node>, log: seq<Write>, d: nat, q: Path)
    requires d < |items| && forall k :: 0 <= k < |log| ==> log[k].doc < |items|
    requires forall w :: w in log && w.doc == d ==> Diverge(w.path, q)
    ensures Untouched(items, log, d, q)
    decreases |log|
  {
    if log != [] {
      if log[0].doc == d {
        DivergeNoOverlap(items[d], log[0].path, q);
      }
      if WriteOne(items, log[0]).Ok? {
        DivergingUntouched(WriteOne(items, log[0]).value, log[1..], d, q);
      }
    }
  }

  /**
   * A successful run keeps the number and order of the documents, and in every
   * document leaves each path that parts ways with all target paths as it was.
   */
  lemma {:induction false} TransformFrames(codec: Codec, items: seq<Node>, rs: seq<Replacement>)
    requires Transform(codec, items, rs).Ok?
    ensures |Transform(codec, items, rs).value| == |items|
    ensures forall d, q ::
              0 <= d < |items| &&
              (forall r, t, f :: r in rs && t in r.targets && f in t.fields ==> Diverge(f.path, q)) ==>
              Look(Transform(codec, items, rs).value[d], q) == Look(items[d], q)
  {
    var log := TransformLog(codec, items, rs);
    TransformIsWrites(codec, items, rs);
    forall d, q | 0 <= d < |items| &&
                  (forall r, t, f :: r in rs && t in r.targets && f in t.fields ==> Diverge(f.path, q))
      ensures Look(Transform(codec, items, rs).value[d], q) == Look(items[d], q)
    {
      forall w | w in log ensures Diverge(w.path, q) {
        var r, t, f :| r in rs && t in r.targets && f in t.fields && f.path == w.path;
      }
      DivergingUntouched(items, log, d, q);
      UntouchedStays(items, log, d, q);
    }
  }

  /** What a write leaves at its path: its value, or without one what was there, or else an empty mapping. */
  ghost predicate ReadsBack(before: Node, after: Node, w: Write) {
    Look(after, w.path) ==
    if w.value.Some? then w.value else if Look(before, w.path).Some? then Look(before, w.path) else Some(EMPTY_MAPPING)
  }

  /**
   * In a successful run, every write whose path parts ways with all later
   * writes to the same document reads back at the end; before are the
   * documents as they were when its turn came.
   */
  lemma {:induction false} TransformReadsBack(codec: Codec, items: seq<Node>, rs: seq<Replacement>, k: nat)
    returns (before: seq<Node>)
    requires Transform(codec, items, rs).Ok? && k < |TransformLog(codec, items, rs)|
    requires
      var log := TransformLog(codec, items, rs);
      forall m :: k < m < |log| && log[m].doc == log[k].doc ==> Diverge(log[m].path, log[k].path)
    ensures WriteAll(items, TransformLog(codec, items, rs)[..k]) == Ok(before)
    ensures
      var w := TransformLog(codec, items, rs)[k];
      && |before| == |Transform(codec, items, rs).value| == |items|
      && ReadsBack(before[w.doc], Transform(codec, items, rs).value[w.doc], w)
  {
    TransformIsWrites(codec, items, rs);
    before := LogReadsBack(items, TransformLog(codec, items, rs), k);
  }

  lemma {:induction false} LogReadsBack(items: seq<Node>, log: seq<Write>, k: nat) returns (before: seq<Node>)
    requires forall m :: 0 <= m < |log| ==> log[m].doc < |items|
    requires WriteAll(items, log).Ok? && k < |log|
    requires forall m :: k < m < |log| && log[m].doc == log[k].doc ==> Diverge(log[m].path, log[k].path)
    ensures WriteAll(items, log[..k]) == Ok(before) && |before| == |items|
    ensures ReadsBack(before[log[k].doc], WriteAll(items, log).value[log[k].doc], log[k])
    decreases |log|
  {
    var w, next := log[0], WriteOne(items, log[0]).value;
    if k == 0 {
      before := items;
      PutGet(items[w.doc], w.path, Effective(items[w.doc], w.path, w.value));
      DivergingUntouched(next, log[1..], w.doc, w.path);
      UntouchedStays(next, log[1..], w.doc, w.path);
    } else {
      before := LogReadsBack(next, log[1..], k - 1);
      assert log[..k][1..] == log[1..][..k - 1];
    }
  }

  // ----- One replacement, told without its writes -----

  ghost predicate Rising(docs: seq<nat>) { forall i, j :: 0 <= i < j < |docs| ==> docs[i] < docs[j] }

  lemma RisingFront(i: nat, rest: seq<nat>)
    requires Rising(rest) && forall d :: d in rest ==> i < d
    ensures Rising([i] + rest) && forall d :: d in [i] + rest <==> d == i || d in rest
  {
    forall k | 0 <= k < |rest| ensures i < rest[k] { assert rest[k] in rest; }
  }

  lemma SelectedFirst(items: seq<Node>, selects: Selector, i: nat)
    requires i < |items|
    ensures Selected(items, selects, i) ==
            if selects(items[i]) then [i] + Selected(items, selects, i + 1) else Selected(items, selects, i + 1)
  {
  }

  lemma {:induction false} SelectedMembers(items: seq<Node>, selects: Selector, i: nat, d: nat)
    requires i <= |items|
    ensures d in Selected(items, selects, i) <==> i <= d < |items| && selects(items[d])
    decreases |items| - i
  {
    if i < |items| {
      SelectedMembers(items, selects, i + 1, d);
      SelectedFirst(items, selects, i);
    }
  }

  lemma {:induction false} SelectedRising(items: seq<Node>, selects: Selector, i: nat)
    requires i <= |items|
    ensures Rising(Selected(items, selects, i))
    decreases |items| - i
  {
    if i < |items| {
      SelectedRising(items, selects, i + 1);
      SelectedFirst(items, selects, i);
      var rest := Selected(items, selects, i + 1);
      forall d | d in rest ensures i < d { SelectedMembers(items, selects, i + 1, d); }
      hide Selected, Rising;
      if selects(items[i]) {
        RisingFront(i, rest);
      }
    }
  }

  lemma {:induction false} SelectedMeans(items: seq<Node>, selects: Selector, i: nat)
    requires i <= |items|
    ensures Rising(Selected(items, selects, i))
    ensures forall d: nat :: d in Selected(items, selects, i) <==> i <= d < |items| && selects(items[d])
  {
    hide Selected, Rising;
    SelectedRising(items, selects, i);
    forall d: nat ensures d in Selected(items, selects, i) <==> i <= d < |items| && selects(items[d]) {
      SelectedMembers(items, selects, i, d);
    }
  }

  /** A source that reads a field reads it in the only document that it selects. */
  lemma {:induction false} SourceIsUnique(codec: Codec, items: seq<Node>, s: Source) returns (d: nat)
    requires s.FieldOf? && SourceValue(codec, items, s).Ok?
    ensures d < |items| && forall e: nat :: e < |items| ==> (s.selects(items[e]) <==> e == d)
    ensures !ReadFails(items[d], s.path)
    ensures !s.decodes ==> SourceValue(codec, items, s).value == Look(items[d], s.path)
    ensures s.decodes ==>
              codec.decode(TextOf(Look(items[d], s.path))) == Some(TextOf(SourceValue(codec, items, s).value))
  {
    SelectedMeans(items, s.selects, 0);
    var found := Selected(items, s.selects, 0);
    d := found[0];
    assert found == [d];
    forall e: nat | e < |items| ensures s.selects(items[e]) <==> e == d {
      assert e in found <==> s.selects(items[e]);
    }
  }

  lemma NoWrites(items: seq<Node>)
    ensures WriteAll(items, []) == Ok(items)
  {
  }

  /** One field written in several documents: those get the value, the others stay. */
  lemma {:induction false} SpreadWrites(
    codec: Codec, items: seq<Node>, docs: seq<nat>, f: TargetField, val: Option<Node>, w: Node)
    requires Rising(docs) && forall k :: 0 <= k < |docs| ==> docs[k] < |items|
    requires Some(w) == if f.encodes then Some(ScalarNode("", codec.encode(TextOf(val)))) else val
    requires WriteAll(items, TargetWrites(codec, docs, [f], val, |items|)).Ok?
    ensures
      var after := WriteAll(items, TargetWrites(codec, docs, [f], val, |items|)).value;
      forall d :: 0 <= d < |items| ==>
        if d in docs then Put(items[d], f.path, w) == Ok(after[d]) else after[d] == items[d]
    decreases |docs|
  {
    hide Put, Look, TextOf, WriteAll;
    if docs == [] {
      assert WriteAll(items, []) == Ok(items) by { NoWrites(items); }
    } else {
      var first, more := Write(docs[0], f.path, Some(w)), TargetWrites(codec, docs[1..], [f], val, |items|);
      assert [f][1..] == [] && FieldWrites(codec, docs[0], [], val) == [];
      assert TargetWrites(codec, docs, [f], val, |items|) == [first] + more;
      WriteAllFirst(items, first, more);
      SpreadWrites(codec, WriteOne(items, first).value, docs[1..], f, val, w);
      assert forall k :: 0 < k < |docs| ==> docs[k] != docs[0];
    }
  }

  lemma {:induction false} OneTargetIsWrites(codec: Codec, items: seq<Node>, r: Replacement, t: Target, v: Node)
    requires r.targets == [t] && SourceValue(codec, items, r.source) == Ok(Some(v))
    requires Transform(codec, items, [r]).Ok?
    ensures Selected(items, t.selects, 0) != []
    ensures Transform(codec, items, [r]) ==
            WriteAll(items, TargetWrites(codec, Selected(items, t.selects, 0), t.fields, Some(v), |items|))
  {
    hide WriteAll, TargetWrites, Selected;
    assert [r][1..] == [] && [t][1..] == [];
    var once := ReplaceOne(codec, items, t, Some(v));
    assert ReplaceTargets(codec, items, r.targets, Some(v)) == once;
    assert once.Ok? ==> Transform(codec, once.value, []) == once;
  }

  /**
   * A replacement with one target field: every selected document reads the
   * source value there (in base64 if the field asks for it), no other changes.
   */
  lemma {:induction false} OneTargetSpreads(
    codec: Codec, items: seq<Node>, r: Replacement, t: Target, f: TargetField, v: Node)
    requires r.targets == [t] && t.fields == [f]
    requires SourceValue(codec, items, r.source) == Ok(Some(v)) && Transform(codec, items, [r]).Ok?
    ensures
      var after := Transform(codec, items, [r]).value;
      var w := if f.encodes then ScalarNode("", codec.encode(v.value)) else v;
      && |after| == |items|
      && (exists d :: 0 <= d < |items| && t.selects(items[d]))
      && forall d :: 0 <= d < |items| ==>
           if t.selects(items[d]) then Look(after[d], f.path) == Some(w) else after[d] == items[d]
  {
    hide Put, Look;
    var w := if f.encodes then ScalarNode("", codec.encode(v.value)) else v;
    var docs := Selected(items, t.selects, 0);
    SelectedMeans(items, t.selects, 0);
    OneTargetIsWrites(codec, items, r, t, v);
    assert docs[0] in docs;
    hide Transform, WriteAll, TargetWrites, Selected;
    SpreadWrites(codec, items, docs, f, Some(v), w);
    forall d | 0 <= d < |items| && t.selects(items[d])
      ensures Look(Transform(codec, items, [r]).value[d], f.path) == Some(w)
    {
      assert d in docs;
      PutGet(items[d], f.path, w);
    }
  }
}
