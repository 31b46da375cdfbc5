/** Comparing nodes in filters (compare, lt, le, gt, ge, scalarEq, deepEq in jsonpathfilter.go). */
module Comparisons {
  import opened Wrappers
  import opened YamlNodes

  /** A 64-bit float as comparisons see it. */
  datatype Float = NaN | NegInf | PosInf | Finite(r: real)

  /** strconv.ParseFloat */
  type FloatParser = string -> Option<Float>

  datatype CompareError = NotFloat | NotInt | NotScalar | UnknownOperator

  type Answer = Result<bool, CompareError>

  predicate FloatEq(a: Float, b: Float) { a != NaN && a == b }

  predicate FloatLt(a: Float, b: Float) {
    match (a, b)
    case (NaN, _) => false
    case (_, NaN) => false
    case (NegInf, _) => b != NegInf
    case (_, PosInf) => a != PosInf
    case (Finite(x), Finite(y)) => x < y
    case (_, _) => false
  }

  /** Go's string order: by code point, a proper prefix first. */
  predicate StringLt(a: string, b: string) {
    b != "" && (a == "" || a[0] < b[0] || (a[0] == b[0] && StringLt(a[1..], b[1..])))
  }

  predicate HasTag(a: Node, b: Node, tag: string) { a.tag == tag || b.tag == tag }

  function ScalarEq(floats: FloatParser, a: Node, b: Node): Answer {
    if HasTag(a, b, "!!float") then
      if floats(a.value).None? || floats(b.value).None? then Err(NotFloat)
      else Ok(FloatEq(floats(a.value).value, floats(b.value).value))
    else if HasTag(a, b, "!!int") then
      if Atoi(a.value).None? || Atoi(b.value).None? then Err(NotInt)
      else Ok(Atoi(a.value).value == Atoi(b.value).value)
    else Ok(a.value == b.value)
  }

  function Lt(floats: FloatParser, a: Node, b: Node): Answer {
    if HasTag(a, b, "!!float") then
      if floats(a.value).None? || floats(b.value).None? then Err(NotFloat)
      else Ok(FloatLt(floats(a.value).value, floats(b.value).value))
    else if HasTag(a, b, "!!int") then
      if Atoi(a.value).None? || Atoi(b.value).None? then Err(NotInt)
      else Ok(Atoi(a.value).value < Atoi(b.value).value)
    else Ok(StringLt(a.value, b.value))
  }

  function DeepEq(floats: FloatParser, a: Node, b: Node): Answer
    decreases a
  {
    if a.kind == ScalarKind || b.kind == ScalarKind then ScalarEq(floats, a, b)
    else if |a.content| != |b.content| then Ok(false)
    else AllDeepEq(floats, a.content, b.content)
  }

  function AllDeepEq(floats: FloatParser, xs: seq<Node>, ys: seq<Node>): Answer
    requires |xs| == |ys|
    decreases xs
  {
    if xs == [] then Ok(true) else
    var first := DeepEq(floats, xs[0], ys[0]);
    if first == Ok(true) then AllDeepEq(floats, xs[1..], ys[1..]) else first
  }

  function Le(floats: FloatParser, a: Node, b: Node): Answer {
    var less := Lt(floats, a, b);
    if less == Ok(false) then DeepEq(floats, a, b) else less
  }

  function Compare(floats: FloatParser, op: string, a: Node, b: Node): Answer {
    if op != "==" && ((a.kind != ScalarKind && !IsNull(a)) || (b.kind != ScalarKind && !IsNull(b))) then Err(NotScalar)
    else if op == "<" then Lt(floats, a, b)
    else if op == ">" then Lt(floats, b, a)
    else if op == "==" then DeepEq(floats, a, b)
    else if op == "!=" then
      var eq := DeepEq(floats, a, b);
      if eq.Ok? then Ok(!eq.value) else eq
    else if op == "<=" then Le(floats, a, b)
    else if op == ">=" then Le(floats, b, a)
    else Err(UnknownOperator)
  }

  /** deepEq does not depend on the order of its arguments, nor does its failure. */
  lemma {:induction false} DeepEqSymmetric(floats: FloatParser, a: Node, b: Node)
    ensures DeepEq(floats, a, b) == DeepEq(floats, b, a)
    decreases a
  {
    if a.kind != ScalarKind && b.kind != ScalarKind && |a.content| == |b.content| {
      AllDeepEqSymmetric(floats, a.content, b.content);
    }
  }

  lemma {:induction false} AllDeepEqSymmetric(floats: FloatParser, xs: seq<Node>, ys: seq<Node>)
    requires |xs| == |ys|
    ensures AllDeepEq(floats, xs, ys) == AllDeepEq(floats, ys, xs)
    decreases xs
  {
    if xs != [] {
      DeepEqSymmetric(floats, xs[0], ys[0]);
      AllDeepEqSymmetric(floats, xs[1..], ys[1..]);
    }
  }

  lemma {:induction false} StringsOrdered(a: string, b: string)
    ensures StringLt(a, b) ==> a != b && !StringLt(b, a)
    ensures StringLt(a, b) || a == b || StringLt(b, a)
    decreases |a|
  {
    if a != "" && b != "" {
      StringsOrdered(a[1..], b[1..]);
      if a[0] == b[0] && a[1..] == b[1..] {
        assert a == [a[0]] + a[1..] && b == [b[0]] + b[1..];
      }
    }
  }

  /** One of the two compares as a float and reads as NaN. */
  predicate InvolvesNaN(floats: FloatParser, a: Node, b: Node) {
    HasTag(a, b, "!!float") && (floats(a.value) == Some(NaN) || floats(b.value) == Some(NaN))
  }

  /**
   * On scalars the six operators fail together; otherwise the negated and the
   * combined ones agree with '<' and '==', and exactly one of '<', '==', '>'
   * holds unless a NaN is involved, when none of them does.
   */
  lemma {:induction false} ScalarsOrdered(floats: FloatParser, a: Node, b: Node)
    requires a.kind == ScalarKind && b.kind == ScalarKind
    ensures Compare(floats, "<", a, b).Err? ==>
              forall op :: op in {"<", ">", "==", "!=", "<=", ">="} ==> Compare(floats, op, a, b).Err?
    ensures Compare(floats, "<", a, b).Ok? ==>
              forall op :: op in {"<", ">", "==", "!=", "<=", ">="} ==> Compare(floats, op, a, b).Ok?
    ensures Compare(floats, "<", a, b).Ok? ==>
              var lt, eq := Compare(floats, "<", a, b).value, Compare(floats, "==", a, b).value;
              var gt := Compare(floats, ">", a, b).value;
              && Compare(floats, "!=", a, b).value == !eq
              && Compare(floats, "<=", a, b).value == (lt || eq)
              && Compare(floats, ">=", a, b).value == (gt || eq)
              && !(lt && eq) && !(lt && gt) && !(eq && gt)
              && ((lt || eq || gt) <==> !InvolvesNaN(floats, a, b))
  {
    StringsOrdered(a.value, b.value);
    assert HasTag(a, b, "!!float") == HasTag(b, a, "!!float");
    assert HasTag(a, b, "!!int") == HasTag(b, a, "!!int");
  }

  // ----- When a comparison fails, and what it says of values -----

  predicate Operator(op: string) { op in {"<", ">", "==", "!=", "<=", ">="} }

  predicate ScalarOrNull(n: Node) { n.kind == ScalarKind || IsNull(n) }

  /** Both read as floats if one is tagged so, or else both as integers if one is tagged so. */
  predicate Readable(floats: FloatParser, a: Node, b: Node) {
    if HasTag(a, b, "!!float") then floats(a.value).Some? && floats(b.value).Some?
    else HasTag(a, b, "!!int") ==> Atoi(a.value).Some? && Atoi(b.value).Some?
  }

  lemma {:induction false} CompareFails(floats: FloatParser, op: string, a: Node, b: Node)
    ensures Compare(floats, op, a, b) == Err(NotScalar) <==> op != "==" && !(ScalarOrNull(a) && ScalarOrNull(b))
    ensures Compare(floats, op, a, b) == Err(UnknownOperator) <==> !Operator(op) && ScalarOrNull(a) && ScalarOrNull(b)
    ensures a.kind == ScalarKind && b.kind == ScalarKind && Operator(op) ==>
              (Compare(floats, op, a, b).Ok? <==> Readable(floats, a, b))
  {
    OnlyNumbersFail(floats, a, b);
    OnlyNumbersFail(floats, b, a);
    assert HasTag(a, b, "!!float") == HasTag(b, a, "!!float");
    assert HasTag(a, b, "!!int") == HasTag(b, a, "!!int");
  }

  predicate NumberError(r: Answer) { r.Err? && (r.error == NotFloat || r.error == NotInt) }

  lemma {:induction false} OnlyNumbersFail(floats: FloatParser, a: Node, b: Node)
    ensures DeepEq(floats, a, b).Err? ==> NumberError(DeepEq(floats, a, b))
    ensures Lt(floats, a, b).Err? ==> NumberError(Lt(floats, a, b))
    decreases a
  {
    if a.kind != ScalarKind && b.kind != ScalarKind && |a.content| == |b.content| {
      ChildrenFail(floats, a.content, b.content);
    }
  }

  lemma {:induction false} ChildrenFail(floats: FloatParser, xs: seq<Node>, ys: seq<Node>)
    requires |xs| == |ys|
    ensures AllDeepEq(floats, xs, ys).Err? ==> NumberError(AllDeepEq(floats, xs, ys))
    decreases xs
  {
    if xs != [] {
      OnlyNumbersFail(floats, xs[0], ys[0]);
      ChildrenFail(floats, xs[1..], ys[1..]);
    }
  }

  /** Two trees are compared child by child, up to the first pair that is not equal or does not compare. */
  lemma {:induction false} TreesCompare(floats: FloatParser, a: Node, b: Node)
    requires a.kind != ScalarKind && b.kind != ScalarKind
    ensures |a.content| != |b.content| ==> Compare(floats, "==", a, b) == Ok(false)
    ensures |a.content| == |b.content| ==>
              (Compare(floats, "==", a, b) == Ok(true) <==>
               forall i :: 0 <= i < |a.content| ==> Compare(floats, "==", a.content[i], b.content[i]) == Ok(true))
    ensures |a.content| == |b.content| && Compare(floats, "==", a, b) != Ok(true) ==>
              exists i :: 0 <= i < |a.content| &&
                (forall k :: 0 <= k < i ==> Compare(floats, "==", a.content[k], b.content[k]) == Ok(true)) &&
                Compare(floats, "==", a.content[i], b.content[i]) == Compare(floats, "==", a, b)
  {
    if |a.content| == |b.content| {
      var i := FirstUnequal(floats, a.content, b.content);
    }
  }

  lemma {:induction false} FirstUnequal(floats: FloatParser, xs: seq<Node>, ys: seq<Node>) returns (i: nat)
    requires |xs| == |ys|
    ensures i <= |xs| && forall k :: 0 <= k < i ==> DeepEq(floats, xs[k], ys[k]) == Ok(true)
    ensures i == |xs| ==> AllDeepEq(floats, xs, ys) == Ok(true)
    ensures i < |xs| ==>
              DeepEq(floats, xs[i], ys[i]) != Ok(true) && AllDeepEq(floats, xs, ys) == DeepEq(floats, xs[i], ys[i])
    decreases |xs|
  {
    i := 0;
    if xs != [] && DeepEq(floats, xs[0], ys[0]) == Ok(true) {
      i := FirstUnequal(floats, xs[1..], ys[1..]);
      i := i + 1;
    }
  }

  /** Finite floats compare as real numbers, between the two infinities. */
  lemma {:induction false} FloatsCompare(floats: FloatParser, a: Node, b: Node, x: real, y: real)
    requires a.kind == ScalarKind && b.kind == ScalarKind && HasTag(a, b, "!!float")
    requires floats(a.value) == Some(Finite(x)) && floats(b.value) == Some(Finite(y))
    ensures Compare(floats, "<", a, b) == Ok(x < y) && Compare(floats, "<=", a, b) == Ok(x <= y)
    ensures Compare(floats, "==", a, b) == Ok(x == y) && Compare(floats, "!=", a, b) == Ok(x != y)
    ensures Compare(floats, ">", a, b) == Ok(x > y) && Compare(floats, ">=", a, b) == Ok(x >= y)
    ensures FloatLt(NegInf, Finite(x)) && FloatLt(Finite(x), PosInf) && FloatLt(NegInf, PosInf)
    ensures !FloatLt(PosInf, PosInf) && !FloatLt(NegInf, NegInf)
  {
    assert HasTag(b, a, "!!float");
  }

  /** a is a proper prefix of b, or has the lower character at the first difference. */
  ghost predicate Precedes(a: string, b: string) { exists k: nat :: PartsAt(a, b, k) }

  ghost predicate PartsAt(a: string, b: string, k: nat) {
    && k <= |a| && k < |b| && a[..k] == b[..k] && (k == |a| || a[k] < b[k])
  }

  lemma {:induction false} StringLtMeans(a: string, b: string)
    ensures StringLt(a, b) <==> Precedes(a, b)
    decreases |a|
  {
    if b == "" || a == "" {
      assert b != "" ==> PartsAt(a, b, 0);
    } else {
      StringLtMeans(a[1..], b[1..]);
      if a[0] < b[0] {
        assert PartsAt(a, b, 0);
      } else if a[0] == b[0] && StringLt(a[1..], b[1..]) {
        var k: nat :| PartsAt(a[1..], b[1..], k);
        assert a[..k + 1] == [a[0]] + a[1..][..k] && b[..k + 1] == [b[0]] + b[1..][..k];
        assert PartsAt(a, b, k + 1);
      }
      if Precedes(a, b) {
        var k: nat :| PartsAt(a, b, k);
        if k > 0 {
          assert a[..k][0] == a[0] && b[..k][0] == b[0];
          assert a[1..][..k - 1] == a[..k][1..] && b[1..][..k - 1] == b[..k][1..];
          assert PartsAt(a[1..], b[1..], k - 1);
        }
      }
    }
  }

  /** Without a number tag, scalars compare by their text. */
  lemma {:induction false} TextsCompare(floats: FloatParser, a: Node, b: Node)
    requires a.kind == ScalarKind && b.kind == ScalarKind
    requires !HasTag(a, b, "!!float") && !HasTag(a, b, "!!int")
    ensures Compare(floats, "==", a, b) == Ok(a.value == b.value)
    ensures Compare(floats, "<", a, b) == Ok(Precedes(a.value, b.value))
  {
    StringLtMeans(a.value, b.value);
  }
}
