/** Evaluating JSONPath queries over YAML trees (walk and the do* functions of jsonpathfilter.go). */
module JsonPaths {
  import opened Wrappers
  import opened YamlNodes
  import opened Comparisons

  /** One slice parameter, as the JSONPath parser leaves it. */
  datatype Param = Param(value: int, known: bool, derived: bool)

  datatype Segment =
    | Field(name: string)
    | Slice(first: Param, last: Param, step: Param)
    | Filter(left: seq<Segment>, op: string, right: seq<Segment>)
    | Wildcard
    | IntLiteral(i: int)
    | FloatLiteral(text: string)
    | BoolLiteral(b: bool)
    | TextLiteral(text: string)
    | Unsupported

  type Query = seq<Segment>

  datatype QueryError =
    | WrongKind | IndexOutOfBound | BadSlice | BadStep | TooMany | CompareFailed(e: CompareError) | BadQuery

  // ----- Slices -----

  datatype Bounds = Bounds(min: int, max: int, step: int)

  /** defineArrayBoundaries */
  function SliceBounds(s: Segment, len: nat): (r: Result<Bounds, QueryError>)
    requires s.Slice?
    ensures r.Ok? ==> 0 <= r.value.min < len && r.value.min <= r.value.max <= len && r.value.step >= 1
  {
    var min := if s.first.value < 0 then s.first.value + len else if s.first.known then s.first.value else 0;
    var max :=
      if s.last.value < 0 || (s.last.value == 0 && s.last.derived) then s.last.value + len
      else if s.last.known then s.last.value else len;
    if min >= len || min < 0 then Err(IndexOutOfBound)
    else if max > len || max < 0 then Err(IndexOutOfBound)
    else if min > max then Err(BadSlice)
    else if s.step.known then
      if s.step.value <= 0 then Err(BadStep) else Ok(Bounds(min, max, s.step.value))
    else Ok(Bounds(min, max, 1))
  }

  /** The slice that the parser makes of [i]. */
  function Index(i: int): Segment {
    Slice(Param(i, true, false), Param(i + 1, true, true), Param(0, false, false))
  }

  /** An index selects one element, counted from the end when negative, or fails. */
  lemma IndexBounds(i: int, len: nat)
    ensures -(len as int) <= i < len ==>
              SliceBounds(Index(i), len) == Ok(Bounds(FromEnd(i, len), FromEnd(i, len) + 1, 1))
    ensures !(-(len as int) <= i < len) ==> SliceBounds(Index(i), len).Err?
  {
  }

  function ParamOf(p: Option<int>): Param {
    if p.Some? then Param(p.value, true, false) else Param(0, false, false)
  }

  /** The slice that the parser makes of [first:last:step], where each part may be left out. */
  function Written(first: Option<int>, last: Option<int>, step: Option<int>): Segment {
    Slice(ParamOf(first), ParamOf(last), ParamOf(step))
  }

  function FromEnd(i: int, len: nat): int { if i < 0 then i + len else i }

  function Or(p: Option<int>, otherwise: int): int { if p.Some? then p.value else otherwise }

  /** Negative ends count from the end, missing ones mean everything, and nothing is clamped. */
  lemma SliceMeaning(first: Option<int>, last: Option<int>, step: Option<int>, len: nat)
    ensures
      var lo, hi, stride := FromEnd(Or(first, 0), len), FromEnd(Or(last, len), len), Or(step, 1);
      && (SliceBounds(Written(first, last, step), len).Ok? <==> 0 <= lo < len && lo <= hi <= len && stride >= 1)
      && (SliceBounds(Written(first, last, step), len).Ok? ==>
            SliceBounds(Written(first, last, step), len) == Ok(Bounds(lo, hi, stride)))
  {
  }

  /** The positions min, min+step, ... below max. */
  function Steps(min: nat, max: nat, step: nat): seq<nat>
    requires step >= 1
    decreases max - min
  {
    if min >= max then [] else [min] + Steps(min + step, max, step)
  }

  // ----- Evaluation -----

  predicate Literal(s: Segment) {
    s.IntLiteral? || s.FloatLiteral? || s.BoolLiteral? || s.TextLiteral?
  }

  function LiteralNode(s: Segment): Node
    requires Literal(s)
  {
    match s
    case IntLiteral(i) => ScalarNode("!!int", Itoa(i))
    case FloatLiteral(text) => ScalarNode("!!float", text)
    case BoolLiteral(b) => ScalarNode("", if b then "true" else "false")
    case TextLiteral(text) => ScalarNode("", text)
  }

  /** A node that reads as v compares with the integer literal i as v does with i. */
  lemma {:induction false} IntegersCompare(floats: FloatParser, n: Node, v: int, i: int)
    requires n.kind == ScalarKind && n.tag != "!!float" && Atoi(n.value) == Some(v)
    requires MIN_INT <= i <= MAX_INT
    ensures
      var lit := LiteralNode(IntLiteral(i));
      && Compare(floats, "<", n, lit) == Ok(v < i) && Compare(floats, "<=", n, lit) == Ok(v <= i)
      && Compare(floats, "==", n, lit) == Ok(v == i) && Compare(floats, "!=", n, lit) == Ok(v != i)
      && Compare(floats, ">", n, lit) == Ok(v > i) && Compare(floats, ">=", n, lit) == Ok(v >= i)
  {
    AtoiItoa(i);
    hide Atoi, Itoa, StringLt;
  }

  /** The other literals: floats compare as real numbers, texts and truth values by their text. */
  lemma {:induction false} LiteralsCompare(floats: FloatParser, n: Node, s: Segment)
    requires n.kind == ScalarKind && Literal(s)
    ensures s.FloatLiteral? ==> forall x, y ::
              floats(n.value) == Some(Finite(x)) && floats(s.text) == Some(Finite(y)) ==>
                && Compare(floats, "<", n, LiteralNode(s)) == Ok(x < y)
                && Compare(floats, "==", n, LiteralNode(s)) == Ok(x == y)
    ensures (s.TextLiteral? || s.BoolLiteral?) && n.tag != "!!float" && n.tag != "!!int" ==>
              var text := if s.TextLiteral? then s.text else if s.b then "true" else "false";
              && Compare(floats, "==", n, LiteralNode(s)) == Ok(n.value == text)
              && Compare(floats, "<", n, LiteralNode(s)) == Ok(Precedes(n.value, text))
  {
    var lit := LiteralNode(s);
    if s.FloatLiteral? {
      forall x, y | floats(n.value) == Some(Finite(x)) && floats(s.text) == Some(Finite(y))
        ensures Compare(floats, "<", n, lit) == Ok(x < y) && Compare(floats, "==", n, lit) == Ok(x == y)
      {
        FloatsCompare(floats, n, lit, x, y);
      }
    } else if !s.IntLiteral? && n.tag != "!!float" && n.tag != "!!int" {
      TextsCompare(floats, n, lit);
    }
  }

  predicate Within(places: seq<nat>, len: nat) {
    forall k :: 0 <= k < |places| ==> places[k] < len
  }

  /** The place of the first value whose key is name, from position i on. */
  function FindField(content: seq<Node>, name: string, i: nat): (r: seq<nat>)
    requires i <= |content| && |content| % 2 == 0 && i % 2 == 0
    ensures |r| <= 1 && Within(r, |content|)
    decreases |content| - i
  {
    if i == |content| then []
    else if content[i].value == name then [i + 1]
    else FindField(content, name, i + 2)
  }

  /** The value of each key of a mapping, from position i on. */
  function FieldValues(content: seq<Node>, i: nat): (r: seq<nat>)
    requires i <= |content| && |content| % 2 == 0 && i % 2 == 0
    ensures Within(r, |content|)
    decreases |content| - i
  {
    if i == |content| then []
    else
      var here := FindField(content, content[i].value, 0);
      here + FieldValues(content, i + 2)
  }

  function Children(n: Node, places: seq<nat>): seq<Node>
    requires Within(places, |n.content|)
  {
    if places == [] then [] else [n.content[places[0]]] + Children(n, places[1..])
  }

  lemma {:induction false} StepsBelow(min: nat, max: nat, step: nat)
    requires step >= 1
    ensures Within(Steps(min, max, step), max)
    decreases max - min
  {
    if min < max {
      StepsBelow(min + step, max, step);
    }
  }

  /** Which children of one node a segment selects, in order. */
  function Select(floats: FloatParser, n: Node, s: Segment): (r: Result<seq<nat>, QueryError>)
    ensures r.Ok? ==> Within(r.value, |n.content|)
    decreases s, 2, 0
  {
    match s
    case Field(name) =>
      if IsNull(n) then Ok([])
      else if !Acceptable(n, MappingKind) then Err(WrongKind)
      else Ok(FindField(n.content, name, 0))
    case Slice(_, _, _) =>
      if !Acceptable(n, SequenceKind) then Err(WrongKind) else
      var b := SliceBounds(s, |n.content|);
      if b.Err? then Err(b.error) else
      StepsBelow(b.value.min, b.value.max, b.value.step);
      Ok(Steps(b.value.min, b.value.max, b.value.step))
    case Filter(_, _, _) =>
      if !Acceptable(n, SequenceKind) then Err(WrongKind)
      else Passing(floats, n.content, s, 0)
    case Wildcard =>
      if n.kind == SequenceKind then Ok(seq(|n.content|, i => i))
      else if n.kind != MappingKind then Ok([])
      else if |n.content| % 2 != 0 then Err(WrongKind)
      else Ok(FieldValues(n.content, 0))
    case _ => Err(BadQuery)
  }

  /** The items that pass a filter, from item i on. */
  function Passing(floats: FloatParser, items: seq<Node>, s: Segment, i: nat): (r: Result<seq<nat>, QueryError>)
    requires s.Filter? && i <= |items|
    ensures r.Ok? ==> Within(r.value, |items|)
    decreases s, 1, |items| - i
  {
    if i == |items| then Ok([]) else
    match Passes(floats, items[i], s)
    case Err(e) => Err(e)
    case Ok(pass) =>
      match Passing(floats, items, s, i + 1)
      case Err(e) => Err(e)
      case Ok(rest) => Ok(if pass then [i] + rest else rest)
  }

  /** Whether one item passes: each side must give one node, and none means no. */
  function Passes(floats: FloatParser, item: Node, s: Segment): Result<bool, QueryError>
    requires s.Filter?
    decreases s, 0, 0
  {
    match Walk(floats, [item], s.left)
    case Err(e) => Err(e)
    case Ok(left) =>
      if left == [] then Ok(false)
      else if |left| > 1 then Err(TooMany)
      else
        match Walk(floats, [item], s.right)
        case Err(e) => Err(e)
        case Ok(right) =>
          if right == [] then Ok(false)
          else if |right| > 1 then Err(TooMany)
          else
            match Compare(floats, s.op, left[0], right[0])
            case Err(e) => Err(CompareFailed(e))
            case Ok(pass) => Ok(pass)
  }

  /** The children selected at every node, one node after the other. */
  function Gather(floats: FloatParser, rns: seq<Node>, s: Segment): Result<seq<Node>, QueryError>
    decreases s, 3, |rns|
  {
    if rns == [] then Ok([]) else
    match Select(floats, rns[0], s)
    case Err(e) => Err(e)
    case Ok(places) =>
      if StopsAt(rns[0], s) then Ok([]) else
      match Gather(floats, rns[1..], s)
      case Err(e) => Err(e)
      case Ok(rest) => Ok(Children(rns[0], places) + rest)
  }

  /** A slice that is empty at a node ends the loop over the nodes there. */
  predicate StopsAt(n: Node, s: Segment) {
    && s.Slice? && Acceptable(n, SequenceKind)
    && SliceBounds(s, |n.content|).Ok?
    && SliceBounds(s, |n.content|).value.min == SliceBounds(s, |n.content|).value.max
  }

  /** getByField with Create off. */
  function Apply(floats: FloatParser, rns: seq<Node>, s: Segment): Result<seq<Node>, QueryError>
    decreases s, 4, 0
  {
    if Literal(s) then Ok([LiteralNode(s)])
    else if s.Unsupported? then Err(BadQuery)
    else if s == Field("") then Ok(rns)
    else Gather(floats, rns, s)
  }

  function Walk(floats: FloatParser, rns: seq<Node>, q: Query): Result<seq<Node>, QueryError>
    decreases q, 0, 0
  {
    if q == [] then Ok(rns) else
    match Apply(floats, rns, q[0])
    case Err(e) => Err(e)
    case Ok(res) => Walk(floats, res, q[1..])
  }
}
