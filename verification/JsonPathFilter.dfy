/** The evaluation loops of the filter, as written in jsonpathfilter.go. */
module JsonPathFilter {
  import opened Wrappers
  import opened YamlNodes
  import opened Comparisons
  import opened JsonPaths

  /** Results collected so far, put before those of the rest. */
  function Prefixed(front: seq<Node>, rest: Result<seq<Node>, QueryError>): Result<seq<Node>, QueryError> {
    if rest.Ok? then Ok(front + rest.value) else rest
  }

  lemma PrefixedEnds(r: Result<seq<Node>, QueryError>, front: seq<Node>)
    ensures Prefixed([], r) == r && Prefixed(front, Ok([])) == Ok(front)
  {
    if r.Ok? {
      assert [] + r.value == r.value;
    }
    assert front + [] == front;
  }

  lemma PrefixedTwice(a: seq<Node>, b: seq<Node>, r: Result<seq<Node>, QueryError>)
    ensures Prefixed(a, Prefixed(b, r)) == Prefixed(a + b, r)
  {
    if r.Ok? {
      assert a + (b + r.value) == a + b + r.value;
    }
  }

  /** One turn of the loop over the nodes. */
  lemma GatherTurn(floats: FloatParser, rns: seq<Node>, s: Segment, i: nat, result: seq<Node>)
    requires i < |rns|
    ensures Select(floats, rns[i], s).Err? ==> Gather(floats, rns[i..], s) == Err(Select(floats, rns[i], s).error)
    ensures Select(floats, rns[i], s).Ok? && StopsAt(rns[i], s) ==> Gather(floats, rns[i..], s) == Ok([])
    ensures Select(floats, rns[i], s).Ok? && !StopsAt(rns[i], s) ==>
              Prefixed(result, Gather(floats, rns[i..], s)) ==
              Prefixed(result + Children(rns[i], Select(floats, rns[i], s).value), Gather(floats, rns[i + 1..], s))
  {
    assert rns[i..][0] == rns[i] && rns[i..][1..] == rns[i + 1..];
    if Select(floats, rns[i], s).Ok? {
      PrefixedTwice(result, Children(rns[i], Select(floats, rns[i], s).value), Gather(floats, rns[i + 1..], s));
    }
  }

  method WalkNodes(floats: FloatParser, nodes: seq<Node>, q: Query) returns (r: Result<seq<Node>, QueryError>)
    ensures r == Walk(floats, nodes, q)
    decreases q, 0
  {
    var res := nodes;
    for i := 0 to |q|
      invariant Walk(floats, nodes, q) == Walk(floats, res, q[i..])
    {
      assert q[i..][0] == q[i] && q[i..][1..] == q[i + 1..];
      var next := GetByField(floats, res, q[i]);
      if next.Err? {
        return Err(next.error);
      }
      res := next.value;
    }
    return Ok(res);
  }

  method GetByField(floats: FloatParser, rns: seq<Node>, s: Segment) returns (r: Result<seq<Node>, QueryError>)
    ensures r == Apply(floats, rns, s)
    decreases s, 4
  {
    match s
    case Field(name) => r := DoField(floats, rns, name);
    case Slice(_, _, _) => r := DoArray(floats, rns, s);
    case Filter(_, _, _) => r := DoFilter(floats, rns, s);
    case Wildcard => r := DoWildcard(floats, rns);
    case Unsupported => r := Err(BadQuery);
    case _ => r := Ok([LiteralNode(s)]);
  }

  method DoField(floats: FloatParser, rns: seq<Node>, name: string) returns (r: Result<seq<Node>, QueryError>)
    ensures r == Apply(floats, rns, Field(name))
  {
    if name == "" {
      return Ok(rns);
    }
    var result: seq<Node> := [];
    PrefixedEnds(Gather(floats, rns, Field(name)), []);
    assert rns[0..] == rns;
    for i := 0 to |rns|
      invariant Gather(floats, rns, Field(name)) == Prefixed(result, Gather(floats, rns[i..], Field(name)))
    {
      var rn := rns[i];
      GatherTurn(floats, rns, Field(name), i, result);
      if !IsNull(rn) {
        if !Acceptable(rn, MappingKind) {
          return Err(WrongKind);
        }
        var place := FindField(rn.content, name, 0);
        result := result + Children(rn, place);
      } else {
        assert result + [] == result;
      }
    }
    PrefixedEnds(Ok([]), result);
    return Ok(result);
  }

  method DoArray(floats: FloatParser, rns: seq<Node>, s: Segment) returns (r: Result<seq<Node>, QueryError>)
    requires s.Slice?
    ensures r == Gather(floats, rns, s)
  {
    var result: seq<Node> := [];
    PrefixedEnds(Gather(floats, rns, s), []);
    assert rns[0..] == rns;
    for i := 0 to |rns|
      invariant Gather(floats, rns, s) == Prefixed(result, Gather(floats, rns[i..], s))
    {
      var rn := rns[i];
      GatherTurn(floats, rns, s, i, result);
      if !Acceptable(rn, SequenceKind) {
        return Err(WrongKind);
      }
      var b := SliceBounds(s, |rn.content|);
      if b.Err? {
        return Err(b.error);
      }
      if b.value.min == b.value.max {
        PrefixedEnds(Ok([]), result);
        return Ok(result);
      }
      StepsBelow(b.value.min, b.value.max, b.value.step);
      var items := TakeSteps(rn, b.value.min, b.value.max, b.value.step);
      result := result + items;
    }
    PrefixedEnds(Ok([]), result);
    return Ok(result);
  }

  /** The inner loop of doArray: every step-th item from min to below max. */
  method TakeSteps(rn: Node, min: nat, max: nat, step: nat) returns (items: seq<Node>)
    requires step >= 1 && max <= |rn.content|
    ensures Within(Steps(min, max, step), |rn.content|) && items == Children(rn, Steps(min, max, step))
  {
    items := [];
    var k := min;
    StepsBelow(min, max, step);
    ghost var all := Children(rn, Steps(min, max, step));
    while k < max
      invariant Within(Steps(k, max, step), |rn.content|)
      invariant all == items + Children(rn, Steps(k, max, step))
      decreases max - k
    {
      StepsBelow(k + step, max, step);
      assert items + ([rn.content[k]] + Children(rn, Steps(k + step, max, step))) ==
             (items + [rn.content[k]]) + Children(rn, Steps(k + step, max, step));
      items := items + [rn.content[k]];
      k := k + step;
    }
  }

  method DoFilter(floats: FloatParser, rns: seq<Node>, s: Segment) returns (r: Result<seq<Node>, QueryError>)
    requires s.Filter?
    ensures r == Gather(floats, rns, s)
    decreases s, 3
  {
    var result: seq<Node> := [];
    PrefixedEnds(Gather(floats, rns, s), []);
    assert rns[0..] == rns;
    for i := 0 to |rns|
      invariant Gather(floats, rns, s) == Prefixed(result, Gather(floats, rns[i..], s))
    {
      var rn := rns[i];
      GatherTurn(floats, rns, s, i, result);
      if !Acceptable(rn, SequenceKind) {
        return Err(WrongKind);
      }
      var passing := FilterItems(floats, rn, s);
      if passing.Err? {
        return Err(passing.error);
      }
      result := result + passing.value;
    }
    PrefixedEnds(Ok([]), result);
    return Ok(result);
  }

  /** The nodes of the passing items, from item k on. */
  function PassingNodes(floats: FloatParser, rn: Node, s: Segment, k: nat): Result<seq<Node>, QueryError>
    requires s.Filter? && k <= |rn.content|
  {
    match Passing(floats, rn.content, s, k)
    case Ok(places) => Ok(Children(rn, places))
    case Err(e) => Err(e)
  }

  lemma PassingTurn(floats: FloatParser, rn: Node, s: Segment, k: nat, result: seq<Node>)
    requires s.Filter? && k < |rn.content|
    ensures
      var pass := Passes(floats, rn.content[k], s);
      Prefixed(result, PassingNodes(floats, rn, s, k)) ==
      if pass.Err? then Err(pass.error)
      else Prefixed(if pass.value then result + [rn.content[k]] else result, PassingNodes(floats, rn, s, k + 1))
  {
    var rest := Passing(floats, rn.content, s, k + 1);
    if rest.Ok? {
      assert ([k] + rest.value)[1..] == rest.value;
      PrefixedTwice(result, [rn.content[k]], PassingNodes(floats, rn, s, k + 1));
    }
  }

  /** The inner loop of doFilter, over the items of one node. */
  method FilterItems(floats: FloatParser, rn: Node, s: Segment) returns (r: Result<seq<Node>, QueryError>)
    requires s.Filter?
    ensures r == PassingNodes(floats, rn, s, 0)
    decreases s, 2
  {
    var result: seq<Node> := [];
    PrefixedEnds(PassingNodes(floats, rn, s, 0), []);
    for k := 0 to |rn.content|
      invariant PassingNodes(floats, rn, s, 0) == Prefixed(result, PassingNodes(floats, rn, s, k))
    {
      PassingTurn(floats, rn, s, k, result);
      var pass := ItemPasses(floats, rn.content[k], s);
      if pass.Err? {
        return Err(pass.error);
      }
      if pass.value {
        result := result + [rn.content[k]];
      }
    }
    PrefixedEnds(Ok([]), result);
    return Ok(result);
  }

  method ItemPasses(floats: FloatParser, item: Node, s: Segment) returns (r: Result<bool, QueryError>)
    requires s.Filter?
    ensures r == Passes(floats, item, s)
    decreases s, 1
  {
    var left := WalkNodes(floats, [item], s.left);
    if left.Err? {
      return Err(left.error);
    }
    if |left.value| == 0 {
      return Ok(false);
    }
    if |left.value| > 1 {
      return Err(TooMany);
    }
    var right := WalkNodes(floats, [item], s.right);
    if right.Err? {
      return Err(right.error);
    }
    if |right.value| == 0 {
      return Ok(false);
    }
    if |right.value| > 1 {
      return Err(TooMany);
    }
    var pass := Compare(floats, s.op, left.value[0], right.value[0]);
    r := if pass.Err? then Err(CompareFailed(pass.error)) else Ok(pass.value);
  }

  method DoWildcard(floats: FloatParser, rns: seq<Node>) returns (r: Result<seq<Node>, QueryError>)
    ensures r == Gather(floats, rns, Wildcard)
  {
    var result: seq<Node> := [];
    PrefixedEnds(Gather(floats, rns, Wildcard), []);
    assert rns[0..] == rns;
    for i := 0 to |rns|
      invariant Gather(floats, rns, Wildcard) == Prefixed(result, Gather(floats, rns[i..], Wildcard))
    {
      var rn := rns[i];
      GatherTurn(floats, rns, Wildcard, i, result);
      match rn.kind {
        case SequenceKind =>
          AllChildren(rn, 0);
          result := result + rn.content;
        case MappingKind =>
          if |rn.content| % 2 != 0 {
            return Err(WrongKind);
          }
          result := result + Children(rn, FieldValues(rn.content, 0));
        case _ =>
          assert result + [] == result;
      }
    }
    PrefixedEnds(Ok([]), result);
    return Ok(result);
  }

  lemma {:induction false} AllChildren(n: Node, k: nat)
    requires k <= |n.content|
    ensures Children(n, seq(|n.content|, i => i)[k..]) == n.content[k..]
    decreases |n.content| - k
  {
    var all := seq(|n.content|, i => i);
    if k < |n.content| {
      AllChildren(n, k + 1);
      assert all[k..][1..] == all[k + 1..] && all[k..][0] == k;
    }
  }
}
