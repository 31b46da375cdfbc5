/**
 * The distinguished-name parser (pkg/document/plugin/templater/extlib/crypto.go).
 *
 * Its grammar is a slash-separated subset of RFC 2253: a '+' separates like a
 * '/', and only the eight special characters may follow a backslash.
 */
module DistinguishedNames {
  import opened Wrappers
  import opened GoStrings

  /** The integer states 0 to 3 of the parser. */
  datatype Phase = Param | Value | ParamEscape | ValueEscape

  datatype DnError =
    | NoValue | ExtraEquals | NotEscaped | BadEscape | Unterminated

  datatype Scanner = Scanner(phase: Phase, cur: string, dn: seq<string>)

  const SPECIALS := ['=', '+', '/', '\"', ',', '<', '>', ';']
  const UNSAFE := ['\"', ',', '<', '>', ';']

  predicate Separator(r: char) { r == '+' || r == '/' }

  /** One character: parseParam, parseValue and the two escape states. */
  function Advance(p: Scanner, r: char): Result<Scanner, DnError> {
    match p.phase
    case Param =>
      if r == '\\' then Ok(p.(phase := ParamEscape))
      else if Separator(r) then Err(NoValue)
      else if r == '=' then Ok(p.(phase := Value, cur := p.cur + [r]))
      else if r in UNSAFE then Err(NotEscaped)
      else Ok(p.(cur := p.cur + [r]))
    case Value =>
      if r == '\\' then Ok(p.(phase := ValueEscape))
      else if Separator(r) then Ok(Scanner(Param, "", p.dn + [p.cur]))
      else if r == '=' then Err(ExtraEquals)
      else if r in UNSAFE then Err(NotEscaped)
      else Ok(p.(cur := p.cur + [r]))
    case ParamEscape =>
      if r in SPECIALS then Ok(p.(phase := Param, cur := p.cur + [r])) else Err(BadEscape)
    case ValueEscape =>
      if r in SPECIALS then Ok(p.(phase := Value, cur := p.cur + [r])) else Err(BadEscape)
  }

  /** What is parsed from the characters still to come. */
  function Scan(p: Scanner, s: string): Result<seq<string>, DnError>
    decreases |s|
  {
    if s == "" then
      if p.phase == Value then Ok(p.dn + [p.cur]) else Err(Unterminated)
    else
      match Advance(p, s[0])
      case Ok(next) => Scan(next, s[1..])
      case Err(e) => Err(e)
  }

  function ParseDn(s: string): Result<seq<string>, DnError> {
    Scan(Scanner(Param, "", []), s)
  }

  // ----- The parser object -----

  class DnParser {
    var input: string
    var i: nat
    var cur: string
    var phase: Phase
    var dn: seq<string>

    constructor () {
      input, i, cur, phase, dn := "", 0, "", Param, [];
    }

    function Now(): Scanner
      reads this
    {
      Scanner(phase, cur, dn)
    }

    method StartOver()
      modifies this`dn, this`cur, this`phase
      ensures Now() == Scanner(Param, "", old(dn) + [old(cur)])
    {
      dn := dn + [cur];
      cur := "";
      phase := Param;
    }

    method ParseParam(r: char) returns (err: Option<DnError>)
      requires phase == Param
      modifies this`cur, this`phase
      ensures Advance(old(Now()), r) == if err.Some? then Err(err.value) else Ok(Now())
    {
      if r == '\\' {
        phase := ParamEscape;
      } else if Separator(r) {
        return Some(NoValue);
      } else if r == '=' {
        phase := Value;
        cur := cur + [r];
      } else if r in UNSAFE {
        return Some(NotEscaped);
      } else {
        cur := cur + [r];
      }
      return None;
    }

    method ParseValue(r: char) returns (err: Option<DnError>)
      requires phase == Value
      modifies this`cur, this`phase, this`dn
      ensures Advance(old(Now()), r) == if err.Some? then Err(err.value) else Ok(Now())
    {
      if r == '\\' {
        phase := ValueEscape;
      } else if Separator(r) {
        StartOver();
      } else if r == '=' {
        return Some(ExtraEquals);
      } else if r in UNSAFE {
        return Some(NotEscaped);
      } else {
        cur := cur + [r];
      }
      return None;
    }

    method ParseEscape(r: char, back: Phase) returns (err: Option<DnError>)
      requires (phase == ParamEscape && back == Param) || (phase == ValueEscape && back == Value)
      modifies this`cur, this`phase
      ensures Advance(old(Now()), r) == if err.Some? then Err(err.value) else Ok(Now())
    {
      if r !in SPECIALS {
        return Some(BadEscape);
      }
      cur := cur + [r];
      phase := back;
      return None;
    }

    /**
     * Parse accepts exactly the printed lists of backslash-free pairs, and
     * leaves their key=value texts in dn.
     */
    method Parse(s: string) returns (err: Option<DnError>)
      modifies this
      ensures ParseDn(s) == if err.Some? then Err(err.value) else Ok(dn)
      ensures err.None? <==> exists first, items :: Printable(first, items) && s == PrintDn(first, items)
      ensures forall first, items :: Printable(first, items) && s == PrintDn(first, items) ==>
                dn == [Text(first)] + Texts(items)
    {
      ParseAccepts(s);
      hide PrintDn, Printable, Texts;
      cur, phase, dn, input, i := "", Param, [], s, 0;
      while i < |input|
        invariant i <= |input| && input == s
        invariant ParseDn(s) == Scan(Now(), s[i..])
      {
        var r := input[i];
        assert s[i..][0] == r && s[i..][1..] == s[i + 1..];
        match phase {
          case Param => err := ParseParam(r);
          case Value => err := ParseValue(r);
          case ParamEscape => err := ParseEscape(r, Param);
          case ValueEscape => err := ParseEscape(r, Value);
        }
        if err.Some? {
          return;
        }
        i := i + 1;
      }
      if phase != Value {
        return Some(Unterminated);
      }
      StartOver();
      return None;
    }
  }

  // ----- Printing -----

  datatype Pair = Pair(key: string, value: string)
  datatype Item = Item(separator: char, pair: Pair)

  /** One character as the printer writes it. */
  function EscapeChar(c: char): string { if c in SPECIALS then ['\\', c] else [c] }

  function Escape(s: string): string {
    if s == "" then ""
    else EscapeChar(s[0]) + Escape(s[1..])
  }

  function PrintPair(p: Pair): string { Escape(p.key) + "=" + Escape(p.value) }

  function PrintItems(items: seq<Item>): string {
    if items == [] then ""
    else [items[0].separator] + PrintPair(items[0].pair) + PrintItems(items[1..])
  }

  function PrintDn(first: Pair, items: seq<Item>): string {
    PrintPair(first) + PrintItems(items)
  }

  predicate Plain(p: Pair) { '\\' !in p.key && '\\' !in p.value }

  predicate Printable(first: Pair, items: seq<Item>) {
    Plain(first) && forall x :: x in items ==> Plain(x.pair) && Separator(x.separator)
  }

  function Text(p: Pair): string { p.key + "=" + p.value }

  function Texts(items: seq<Item>): seq<string> {
    if items == [] then [] else [Text(items[0].pair)] + Texts(items[1..])
  }

  // ----- Printed text parses back -----

  lemma {:induction false} ScanChar(p: Scanner, c: char, rest: string)
    requires (p.phase == Param || p.phase == Value) && c != '\\'
    ensures Scan(p, EscapeChar(c) + rest) == Scan(p.(cur := p.cur + [c]), rest)
  {
  }

  /** Escaped text is read as itself, in a key or in a value. */
  lemma {:induction false} ScanEscaped(p: Scanner, t: string, rest: string)
    requires (p.phase == Param || p.phase == Value) && '\\' !in t
    ensures Scan(p, Escape(t) + rest) == Scan(p.(cur := p.cur + t), rest)
    decreases |t|
  {
    if t == "" {
      assert Escape(t) + rest == rest && p.cur + t == p.cur;
    } else {
      hide Scan, EscapeChar;
      var q := p.(cur := p.cur + [t[0]]);
      assert p.cur + t == q.cur + t[1..];
      assert Escape(t) + rest == EscapeChar(t[0]) + (Escape(t[1..]) + rest);
      ScanChar(p, t[0], Escape(t[1..]) + rest);
      ScanEscaped(q, t[1..], rest);
    }
  }

  lemma {:induction false} ScanPair(dn: seq<string>, pair: Pair, rest: string)
    requires Plain(pair)
    ensures Scan(Scanner(Param, "", dn), PrintPair(pair) + rest) == Scan(Scanner(Value, Text(pair), dn), rest)
  {
    var k, v := Escape(pair.key), Escape(pair.value);
    var after := "=" + (v + rest);
    Assoc(k + "=", v, rest);
    Assoc(k, "=", v + rest);
    ScanEscaped(Scanner(Param, "", dn), pair.key, after);
    assert "" + pair.key == pair.key && after[1..] == v + rest;
    var q := Scanner(Value, pair.key + "=", dn);
    ScanStep(Scanner(Param, pair.key, dn), after, q);
    ScanEscaped(q, pair.value, rest);
    hide Escape, Scan;
  }

  lemma {:induction false} ScanItems(dn: seq<string>, cur: string, items: seq<Item>)
    requires forall x :: x in items ==> Plain(x.pair) && Separator(x.separator)
    ensures Scan(Scanner(Value, cur, dn), PrintItems(items)) == Ok(dn + [cur] + Texts(items))
    decreases |items|
  {
    if items == [] {
      assert dn + [cur] + Texts(items) == dn + [cur];
    } else {
      var s := PrintItems(items);
      var pair, more := items[0].pair, items[1..];
      assert s[1..] == PrintPair(pair) + PrintItems(more);
      ScanPair(dn + [cur], pair, PrintItems(more));
      ScanItems(dn + [cur], Text(pair), more);
      assert dn + [cur] + [Text(pair)] + Texts(more) == dn + [cur] + Texts(items);
    }
  }

  lemma {:induction false} ParsePrinted(first: Pair, items: seq<Item>)
    requires Printable(first, items)
    ensures ParseDn(PrintDn(first, items)) == Ok([Text(first)] + Texts(items))
  {
    ScanPair([], first, PrintItems(items));
    ScanItems([], Text(first), items);
    assert [] + [Text(first)] + Texts(items) == [Text(first)] + Texts(items);
  }

  // ----- Whatever parses was printed -----

  /** In a key, s reads as the rest of pair p and then as the items. */
  ghost predicate ReadsKey(cur: string, dn: seq<string>, s: string, p: Pair, items: seq<Item>) {
    && Printable(p, items) && s == PrintDn(p, items)
    && Scan(Scanner(Param, cur, dn), s) == Ok(dn + [cur + Text(p)] + Texts(items))
  }

  /** In a value, s reads as the rest of the value and then as the items. */
  ghost predicate ReadsValue(cur: string, dn: seq<string>, s: string, value: string, items: seq<Item>) {
    && Printable(Pair("", value), items) && s == Escape(value) + PrintItems(items)
    && Scan(Scanner(Value, cur, dn), s) == Ok(dn + [cur + value] + Texts(items))
  }

  lemma {:induction false} RecoverKey(cur: string, dn: seq<string>, s: string)
    returns (p: Pair, items: seq<Item>)
    requires Scan(Scanner(Param, cur, dn), s).Ok?
    ensures ReadsKey(cur, dn, s, p, items)
    decreases |s|
  {
    hide ReadsKey, ReadsValue;
    if s[0] == '=' {
      var value;
      value, items := RecoverValue(cur + "=", dn, s[1..]);
      KeyEnds(cur, dn, s, value, items);
      p := Pair("", value);
    } else {
      var c, rest := TakeChar(Scanner(Param, cur, dn), s);
      p, items := RecoverKey(cur + [c], dn, rest);
      KeyGrows(cur, dn, s, c, rest, p, items);
      p := Pair([c] + p.key, p.value);
    }
  }

  lemma {:induction false} RecoverValue(cur: string, dn: seq<string>, s: string)
    returns (value: string, items: seq<Item>)
    requires Scan(Scanner(Value, cur, dn), s).Ok?
    ensures ReadsValue(cur, dn, s, value, items)
    decreases |s|
  {
    hide ReadsKey, ReadsValue;
    if s == "" {
      ValueEnds(cur, dn);
      value, items := "", [];
    } else if Separator(s[0]) {
      var p, more := RecoverKey("", dn + [cur], s[1..]);
      PairEnds(cur, dn, s, p, more);
      value, items := "", [Item(s[0], p)] + more;
    } else {
      var c, rest := TakeChar(Scanner(Value, cur, dn), s);
      value, items := RecoverValue(cur + [c], dn, rest);
      ValueGrows(cur, dn, s, c, rest, value, items);
      value := [c] + value;
    }
  }

  /** One plain or escaped character of a key or value. */
  lemma {:induction false} TakeChar(p: Scanner, s: string) returns (c: char, rest: string)
    requires (p.phase == Param || p.phase == Value) && s != "" && Scan(p, s).Ok?
    requires s[0] != '=' && (p.phase == Value ==> !Separator(s[0]))
    ensures c != '\\' && |rest| < |s|
    ensures s == EscapeChar(c) + rest
    ensures Scan(p, s) == Scan(p.(cur := p.cur + [c]), rest)
  {
    if s[0] == '\\' {
      c, rest := s[1], s[2..];
      assert s[1..][0] == c && s[1..][1..] == rest;
    } else {
      c, rest := s[0], s[1..];
    }
  }

  lemma EscapeCons(c: char, t: string)
    ensures Escape([c] + t) == EscapeChar(c) + Escape(t)
  {
  }

  lemma Regroup(a: string, b: string, c: string, d: string)
    ensures ((a + b) + "=" + c) + d == a + ((b + "=" + c) + d)
  {
  }

  lemma ScanStep(p: Scanner, s: string, next: Scanner)
    requires s != "" && Advance(p, s[0]) == Ok(next)
    ensures Scan(p, s) == Scan(next, s[1..])
  {
  }

  lemma KeyEnds(cur: string, dn: seq<string>, s: string, value: string, items: seq<Item>)
    requires s != "" && s[0] == '=' && ReadsValue(cur + "=", dn, s[1..], value, items)
    ensures ReadsKey(cur, dn, s, Pair("", value), items)
  {
    assert Escape("") == "";
    ScanStep(Scanner(Param, cur, dn), s, Scanner(Value, cur + "=", dn));
    hide Escape, PrintItems, Texts, SPECIALS, UNSAFE, Scan, Advance;
    Assoc(cur, "=", value);
    assert Text(Pair("", value)) == "=" + value;
    assert s == [s[0]] + s[1..];
    Assoc("=", Escape(value), PrintItems(items));
    assert PrintPair(Pair("", value)) == "=" + Escape(value);
  }

  lemma KeyGrows(cur: string, dn: seq<string>, s: string, c: char, rest: string, p: Pair, items: seq<Item>)
    requires s == EscapeChar(c) + rest && c != '\\'
    requires Scan(Scanner(Param, cur, dn), s) == Scan(Scanner(Param, cur + [c], dn), rest)
    requires ReadsKey(cur + [c], dn, rest, p, items)
    ensures ReadsKey(cur, dn, s, Pair([c] + p.key, p.value), items)
  {
    hide Escape, EscapeChar, PrintItems, Scan, Texts;
    EscapeCons(c, p.key);
    Regroup(EscapeChar(c), Escape(p.key), Escape(p.value), PrintItems(items));
    assert cur + [c] + (p.key + "=" + p.value) == cur + ([c] + p.key + "=" + p.value);
  }

  lemma ValueEnds(cur: string, dn: seq<string>)
    ensures ReadsValue(cur, dn, "", "", [])
  {
    assert cur + "" == cur && dn + [cur] + Texts([]) == dn + [cur];
  }

  lemma PairEnds(cur: string, dn: seq<string>, s: string, p: Pair, more: seq<Item>)
    requires s != "" && Separator(s[0]) && ReadsKey("", dn + [cur], s[1..], p, more)
    ensures ReadsValue(cur, dn, s, "", [Item(s[0], p)] + more)
  {
    var items := [Item(s[0], p)] + more;
    assert items[1..] == more && s == [s[0]] + s[1..] && Escape("") == "";
    ScanStep(Scanner(Value, cur, dn), s, Scanner(Param, "", dn + [cur]));
    hide Escape, PrintPair, SPECIALS, UNSAFE, Scan, Advance;
    assert cur + "" == cur && "" + Text(p) == Text(p);
    assert Texts(items) == [Text(p)] + Texts(more);
    hide Texts;
    assert dn + [cur] + [Text(p)] + Texts(more) == dn + [cur] + ([Text(p)] + Texts(more));
    Assoc([s[0]], PrintPair(p), PrintItems(more));
    assert s == "" + PrintItems(items);
  }

  lemma ValueGrows(cur: string, dn: seq<string>, s: string, c: char, rest: string, value: string, items: seq<Item>)
    requires s == EscapeChar(c) + rest && c != '\\'
    requires Scan(Scanner(Value, cur, dn), s) == Scan(Scanner(Value, cur + [c], dn), rest)
    requires ReadsValue(cur + [c], dn, rest, value, items)
    ensures ReadsValue(cur, dn, s, [c] + value, items)
  {
    hide Escape, EscapeChar, PrintItems, Scan, Texts;
    EscapeCons(c, value);
    assert EscapeChar(c) + (Escape(value) + PrintItems(items)) == EscapeChar(c) + Escape(value) + PrintItems(items);
    assert cur + [c] + value == cur + ([c] + value);
  }

  /** The parser accepts exactly what the printer prints, and gives back its pairs. */
  lemma {:induction false} ParseAccepts(s: string)
    ensures ParseDn(s).Ok? <==> exists first, items :: Printable(first, items) && s == PrintDn(first, items)
    ensures forall first, items :: Printable(first, items) && s == PrintDn(first, items) ==>
              ParseDn(s) == Ok([Text(first)] + Texts(items))
  {
    forall first, items | Printable(first, items) && s == PrintDn(first, items)
      ensures ParseDn(s) == Ok([Text(first)] + Texts(items))
    {
      ParsePrinted(first, items);
    }
    if ParseDn(s).Ok? {
      var first, items := RecoverKey("", [], s);
      assert Printable(first, items) && s == PrintDn(first, items);
    }
  }
}
