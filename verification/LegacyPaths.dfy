/** Translating legacy paths to JSONPath text (convertFromLegacyQuery and its helpers). */
module LegacyPaths {
  import opened Wrappers
  import opened GoStrings
  import opened YamlNodes

  /** Crash stands for the index out of range on an empty result. */
  datatype LegacyError = NestedBrackets | StrayBracket | Crash

  // ----- String helpers of the Go library -----

  predicate IsSpace(c: char) {
    var n := c as int;
    9 <= n <= 13 || n == 32 || n == 0x85 || n == 0xA0 || n == 0x1680 || 0x2000 <= n <= 0x200a
    || n == 0x2028 || n == 0x2029 || n == 0x202f || n == 0x205f || n == 0x3000
  }

  function TrimSpace(s: string): string {
    if s == "" then ""
    else if IsSpace(s[0]) then TrimSpace(s[1..])
    else if IsSpace(s[|s| - 1]) then TrimSpace(s[..|s| - 1])
    else s
  }

  /** strings.Trim with a single character to cut. */
  function TrimChar(s: string, c: char): string {
    if s == "" then ""
    else if s[0] == c then TrimChar(s[1..], c)
    else if s[|s| - 1] == c then TrimChar(s[..|s| - 1], c)
    else s
  }

  /** ReplaceAll(s, ".", "\\.") */
  function EscapeDots(s: string): string {
    if s == "" then "" else (if s[0] == '.' then "\\." else [s[0]]) + EscapeDots(s[1..])
  }

  /** The text before the first '=', or all of it. */
  function BeforeEquals(s: string): string {
    if s == "" || s[0] == '=' then "" else [s[0]] + BeforeEquals(s[1..])
  }

  /** The text after the first '='. */
  function AfterEquals(s: string): string {
    if s == "" then "" else if s[0] == '=' then s[1..] else AfterEquals(s[1..])
  }

  // ----- The translation -----

  predicate IsInteger(s: string) { Atoi(s).Some? }

  function AppendToLast(result: seq<string>, text: string): seq<string>
    requires result != []
  {
    result[|result| - 1 := result[|result| - 1] + text]
  }

  function ConvertField(query: string, result: seq<string>): seq<string> {
    if query == "" then result
    else if !IsInteger(query) then result + [query]
    else if result == [] then ["[" + query + "]"]
    else AppendToLast(result, "[" + query + "]")
  }

  function FilterText(key: string, value: string): string {
    "[?(." + EscapeDots(key) + " == '" + value + "')]"
  }

  function Unquote(s: string): string { TrimChar(TrimChar(s, '\''), '\"') }

  function ConvertFiltering(query: string, result: seq<string>): Result<seq<string>, LegacyError> {
    if IsInteger(query) then
      if result == [] then Err(Crash) else Ok(AppendToLast(result, "[" + query + "]"))
    else if '=' in query then
      if result == [] then Err(Crash)
      else Ok(AppendToLast(result, FilterText(BeforeEquals(query), BeforeEquals(AfterEquals(query)))))
    else Ok(result + [EscapeDots(Unquote(query))])
  }

  /** cur is the text since start; inside tells whether a bracket is open. */
  datatype Scanner = Scanner(cur: string, inside: bool, result: seq<string>)

  function Advance(st: Scanner, c: char): Result<Scanner, LegacyError> {
    if c == '.' && !st.inside then Ok(Scanner("", false, ConvertField(st.cur, st.result)))
    else if c == '[' then
      if st.inside then Err(NestedBrackets)
      else Ok(Scanner("", true, if st.cur != "" then st.result + [st.cur] else st.result))
    else if c == ']' then
      if !st.inside then Err(StrayBracket) else
      match ConvertFiltering(st.cur, st.result)
      case Ok(result) => Ok(Scanner("", false, result))
      case Err(e) => Err(e)
    else Ok(st.(cur := st.cur + [c]))
  }

  function Scan(st: Scanner, s: string): Result<seq<string>, LegacyError>
    decreases |s|
  {
    if s == "" then Ok(ConvertField(st.cur, st.result)) else
    match Advance(st, s[0])
    case Ok(next) => Scan(next, s[1..])
    case Err(e) => Err(e)
  }

  function ConvertPath(path: string): Result<string, LegacyError> {
    match Scan(Scanner("", false, []), path)
    case Ok(result) => Ok("{." + Join(result, '.') + "}")
    case Err(e) => Err(e)
  }

  function Convert(query: string): Result<string, LegacyError> {
    if query != "" && query[0] == '{' then Ok(TrimSpace(query)) else ConvertPath(TrimSpace(query))
  }

  predicate AllSpace(s: string) { forall c :: c in s ==> IsSpace(c) }

  /** t is s without the white space around it. */
  ghost predicate Trimmed(s: string, t: string) {
    && (exists front, back :: AllSpace(front) && AllSpace(back) && s == front + t + back)
    && (t != "" ==> !IsSpace(t[0]) && !IsSpace(t[|t| - 1]))
  }

  lemma {:induction false} TrimParts(s: string) returns (front: string, back: string)
    ensures AllSpace(front) && AllSpace(back) && s == front + TrimSpace(s) + back
    ensures TrimSpace(s) != "" ==> !IsSpace(TrimSpace(s)[0]) && !IsSpace(TrimSpace(s)[|TrimSpace(s)| - 1])
    decreases |s|
  {
    hide IsSpace;
    if s != "" && IsSpace(s[0]) {
      var f;
      f, back := TrimParts(s[1..]);
      front := SpaceBefore(s, f, TrimSpace(s), back);
    } else if s != "" && IsSpace(s[|s| - 1]) {
      var b;
      front, b := TrimParts(s[..|s| - 1]);
      back := SpaceAfter(s, front, TrimSpace(s), b);
    } else {
      front, back := "", "";
      assert s == "" + s + "";
    }
  }

  lemma SpaceBefore(s: string, f: string, t: string, back: string) returns (front: string)
    requires s != "" && IsSpace(s[0]) && AllSpace(f) && s[1..] == f + t + back
    ensures AllSpace(front) && s == front + t + back
  {
    hide IsSpace;
    front := [s[0]] + f;
    assert s == [s[0]] + s[1..];
    Assoc([s[0]], f, t);
    Assoc([s[0]], f + t, back);
  }

  lemma SpaceAfter(s: string, front: string, t: string, b: string) returns (back: string)
    requires s != "" && IsSpace(s[|s| - 1]) && AllSpace(b) && s[..|s| - 1] == front + t + b
    ensures AllSpace(back) && s == front + t + back
  {
    hide IsSpace;
    back := b + [s[|s| - 1]];
    assert s == s[..|s| - 1] + [s[|s| - 1]];
    Assoc(front + t, b, [s[|s| - 1]]);
  }

  lemma {:induction false} TrimMeans(s: string)
    ensures Trimmed(s, TrimSpace(s))
  {
    var front, back := TrimParts(s);
  }

  /** A query in braces is JSONPath already, and any other one a legacy path: both without white space around them. */
  lemma {:induction false} QueryKinds(query: string)
    ensures query != "" && query[0] == '{' ==> Convert(query).Ok? && Trimmed(query, Convert(query).value)
    ensures query == "" || query[0] != '{' ==>
              exists path :: Trimmed(query, path) && Convert(query) == ConvertPath(path)
  {
    TrimMeans(query);
  }

  method ConvertFromLegacyQuery(query: string) returns (r: Result<string, LegacyError>)
    ensures r == Convert(query)
    ensures query != "" && query[0] == '{' ==> r.Ok? && Trimmed(query, r.value)
    ensures query == "" || query[0] != '{' ==> exists path :: Trimmed(query, path) && r == ConvertPath(path)
  {
    QueryKinds(query);
    hide TrimSpace, ConvertFiltering, Join, Trimmed;
    var path := TrimSpace(query);
    if query != "" && query[0] == '{' {
      return Ok(path);
    }
    var result: seq<string> := [];
    var start, inside := 0, false;
    ghost var st := Scanner("", false, []);
    for i := 0 to |path|
      invariant start <= i && st == Scanner(path[start..i], inside, result)
      invariant Scan(Scanner("", false, []), path) == Scan(st, path[i..])
    {
      var c := path[i];
      assert path[i..][0] == c && path[i..][1..] == path[i + 1..];
      assert path[start..i] + [c] == path[start..i + 1];
      st := match Advance(st, c) { case Ok(next) => next case Err(_) => st };
      if c == '.' {
        if !inside {
          result := ConvertField(path[start..i], result);
          start := i + 1;
        }
      } else if c == '[' {
        if inside {
          return Err(NestedBrackets);
        }
        if path[start..i] != "" {
          result := result + [path[start..i]];
        }
        start := i + 1;
        inside := true;
      } else if c == ']' {
        if !inside {
          return Err(StrayBracket);
        }
        var next := ConvertFiltering(path[start..i], result);
        if next.Err? {
          return Err(next.error);
        }
        result := next.value;
        start := i + 1;
        inside := false;
      }
    }
    assert path[|path|..] == "" && path[start..|path|] == path[start..];
    if start < |path| {
      result := ConvertField(path[start..], result);
    }
    return Ok("{." + Join(result, '.') + "}");
  }

  // ----- Which paths fail -----

  /** The first bracket that is out of place. */
  function FirstFault(s: string, inside: bool): Option<LegacyError> {
    if s == "" then None
    else if s[0] == '[' then if inside then Some(NestedBrackets) else FirstFault(s[1..], true)
    else if s[0] == ']' then if inside then FirstFault(s[1..], false) else Some(StrayBracket)
    else FirstFault(s[1..], inside)
  }

  predicate NoBrackets(s: string) { '[' !in s && ']' !in s }

  /** An index or a filter, as opposed to a key. */
  predicate Selector(s: string) { IsInteger(s) || '=' in s }

  /** How many characters come before the first bracket. */
  function Run(s: string): (n: nat)
    ensures n <= |s| && NoBrackets(s[..n]) && (n < |s| ==> s[n] == '[' || s[n] == ']')
  {
    if s == "" || s[0] == '[' || s[0] == ']' then 0
    else
      var n := Run(s[1..]);
      assert s[..n + 1] == [s[0]] + s[1..][..n];
      n + 1
  }

  /** s closes the bracket around a selector whose text so far is content. */
  predicate ClosesSelector(content: string, s: string) {
    Run(s) < |s| && s[Run(s)] == ']' && Selector(content + s[..Run(s)])
  }

  /** After leading dots, the path starts with an index or a filter in brackets. */
  predicate LeadingSelector(s: string) {
    s != "" && (if s[0] == '.' then LeadingSelector(s[1..]) else s[0] == '[' && ClosesSelector("", s[1..]))
  }

  lemma {:induction false} WithField(st: Scanner, s: string)
    requires st.result != [] || (st.cur != "" && !st.inside)
    ensures
      match Scan(st, s)
      case Ok(_) => FirstFault(s, st.inside) == None
      case Err(e) => FirstFault(s, st.inside) == Some(e)
    decreases |s|
  {
    if s != "" && Advance(st, s[0]).Ok? {
      WithField(Advance(st, s[0]).value, s[1..]);
    }
  }

  lemma {:induction false} ClosesStep(content: string, s: string)
    requires s != "" && s[0] != ']'
    ensures ClosesSelector(content, s) <==> s[0] != '[' && ClosesSelector(content + [s[0]], s[1..])
  {
    if s[0] != '[' {
      var n := Run(s[1..]);
      assert content + s[..n + 1] == content + [s[0]] + s[1..][..n];
    }
  }

  lemma {:induction false} ClosesNow(content: string, s: string)
    requires s != "" && s[0] == ']'
    ensures ClosesSelector(content, s) <==> Selector(content)
  {
    assert content + s[..0] == content;
  }

  /** Inside the first bracket, with no field before it. */
  lemma {:induction false} FirstBracket(st: Scanner, s: string)
    requires st.inside && st.result == []
    ensures Scan(st, s) == Err(Crash) <==> ClosesSelector(st.cur, s)
    ensures !ClosesSelector(st.cur, s) ==>
              match Scan(st, s)
              case Ok(_) => FirstFault(s, true) == None
              case Err(e) => FirstFault(s, true) == Some(e)
    decreases |s|
  {
    if s != "" {
      if s[0] == ']' {
        ClosesNow(st.cur, s);
        if Advance(st, s[0]).Ok? {
          WithField(Advance(st, s[0]).value, s[1..]);
          FaultsOnly(s[1..], false);
        }
      } else {
        ClosesStep(st.cur, s);
        if s[0] != '[' {
          FirstBracket(Advance(st, s[0]).value, s[1..]);
        }
      }
    }
  }

  lemma {:induction false} FaultsOnly(s: string, inside: bool)
    ensures FirstFault(s, inside) != Some(Crash)
  {
    if s != "" {
      FaultsOnly(s[1..], if s[0] == '[' then true else if s[0] == ']' then false else inside);
    }
  }

  /**
   * The translation crashes exactly on paths that start with an index or a
   * filter bracket; any other path fails exactly at a '[' inside brackets or
   * a ']' outside them.
   */
  lemma {:induction false} ConversionFailures(path: string)
    ensures ConvertPath(path) == Err(Crash) <==> LeadingSelector(path)
    ensures !LeadingSelector(path) ==>
              match ConvertPath(path)
              case Ok(_) => FirstFault(path, false) == None
              case Err(e) => FirstFault(path, false) == Some(e)
    decreases |path|
  {
    var st := Scanner("", false, []);
    if path != "" {
      FaultsOnly(path, false);
      if path[0] == '.' {
        ConversionFailures(path[1..]);
        assert Advance(st, path[0]) == Ok(st);
      } else if path[0] == '[' {
        FirstBracket(Advance(st, path[0]).value, path[1..]);
      } else if path[0] != ']' {
        WithField(Advance(st, path[0]).value, path[1..]);
      }
    }
  }

  // ----- What well-formed paths become -----

  datatype Part =
    | Name(text: string)                 // .spec
    | DottedIndex(text: string)          // .0
    | BracketIndex(text: string)         // [0]
    | KeyValue(key: string, value: string)  // [name=x]
    | Quoted(quote: char, key: string)   // ['a.b']

  predicate PlainText(s: string) { NoBrackets(s) && '=' !in s }

  predicate WellFormed(p: Part) {
    match p
    case Name(text) => text != "" && NoBrackets(text) && '.' !in text && !IsInteger(text)
    case DottedIndex(text) => IsInteger(text)
    case BracketIndex(text) => IsInteger(text)
    case KeyValue(key, value) => PlainText(key) && PlainText(value)
    case Quoted(quote, key) =>
      && (quote == '\'' || quote == '\"') && PlainText(key)
      && (key != "" ==> key[0] != '\'' && key[0] != '\"' && key[|key| - 1] != '\'' && key[|key| - 1] != '\"')
  }

  function LegacyPart(p: Part, first: bool): string {
    match p
    case Name(text) => (if first then "" else ".") + text
    case DottedIndex(text) => "." + text
    case BracketIndex(text) => "[" + text + "]"
    case KeyValue(key, value) => "[" + (key + "=" + value) + "]"
    case Quoted(quote, key) => "[" + ([quote] + key + [quote]) + "]"
  }

  function LegacyText(ps: seq<Part>, first: bool): string {
    if ps == [] then "" else LegacyPart(ps[0], first) + LegacyText(ps[1..], false)
  }

  /** What the translation makes of one part. */
  function PartText(p: Part): string {
    match p
    case Name(text) => "." + text
    case DottedIndex(text) => "[" + text + "]"
    case BracketIndex(text) => "[" + text + "]"
    case KeyValue(key, value) => FilterText(key, value)
    case Quoted(_, key) => "." + EscapeDots(key)
  }

  predicate InBrackets(p: Part) { p.BracketIndex? || p.KeyValue? || p.Quoted? }

  /** A dotted index right before a bracket is taken for a field name. */
  predicate Misread(ps: seq<Part>) {
    |ps| > 1 && ps[0].DottedIndex? && InBrackets(ps[1])
  }

  /** What the translation makes of the first part, in front of the others. */
  function RenderedPart(ps: seq<Part>): string
    requires ps != []
  {
    if Misread(ps) then "." + ps[0].text else PartText(ps[0])
  }

  /** What the translation makes of the parts. */
  function Rendered(ps: seq<Part>): string {
    if ps == [] then "" else RenderedPart(ps) + Rendered(ps[1..])
  }

  predicate PathParts(ps: seq<Part>) {
    ps != [] && (ps[0].Name? || ps[0].Quoted?) && forall p :: p in ps ==> WellFormed(p)
  }

  /** All result parts, each after a dot. */
  function Dotted(result: seq<string>): string {
    if result == [] then "" else Dotted(result[..|result| - 1]) + "." + result[|result| - 1]
  }

  lemma {:induction false} DottedIsJoin(result: seq<string>)
    requires result != []
    ensures Dotted(result) == "." + Join(result, '.')
  {
    var front, last := result[..|result| - 1], result[|result| - 1];
    assert result == front + [last];
    if front == [] {
      assert Dotted(front) == "";
    } else {
      DottedIsJoin(front);
      JoinSnoc(front, last, '.');
    }
  }

  lemma DottedAppend(result: seq<string>, x: string)
    ensures Dotted(result + [x]) == Dotted(result) + "." + x
    ensures result != [] ==> Dotted(AppendToLast(result, x)) == Dotted(result) + x
  {
    assert (result + [x])[..|result|] == result;
    if result != [] {
      var front, last := result[..|result| - 1], result[|result| - 1];
      assert AppendToLast(result, x)[..|result| - 1] == front && result == front + [last];
      Assoc(Dotted(front) + ".", last, x);
    }
  }

  lemma IntegerText(s: string)
    requires IsInteger(s)
    ensures s != "" && PlainText(s) && '.' !in s && '\'' !in s && '\"' !in s
  {
    IntegerNumerals(s);
  }

  lemma IntegerNumerals(s: string)
    requires IsInteger(s)
    ensures s != "" && forall c :: c in s ==> IsDigit(c) || c == '-' || c == '+'
  {
    var signed := s[0] == '-' || s[0] == '+';
    var digits := if signed then s[1..] else s;
    assert AllDigits(digits);
    assert s == (if signed then [s[0]] else "") + digits;
  }

  /** Text without special characters is gathered as it is. */
  lemma {:induction false} ScanText(st: Scanner, t: string, rest: string)
    requires NoBrackets(t) && (st.inside || '.' !in t)
    ensures Scan(st, t + rest) == Scan(st.(cur := st.cur + t), rest)
    decreases |t|
  {
    if t == "" {
      assert t + rest == rest && st.cur + t == st.cur;
    } else {
      assert (t + rest)[0] == t[0] && (t + rest)[1..] == t[1..] + rest;
      var next := st.(cur := st.cur + [t[0]]);
      assert next.cur + t[1..] == st.cur + t;
      ScanText(next, t[1..], rest);
    }
  }

  lemma {:induction false} SplitAtEquals(key: string, value: string)
    requires '=' !in key
    ensures BeforeEquals(key + "=" + value) == key && AfterEquals(key + "=" + value) == value
  {
    if key == "" {
      assert (key + "=" + value)[1..] == value;
    } else {
      assert (key + "=" + value)[1..] == key[1..] + "=" + value;
      SplitAtEquals(key[1..], value);
      assert [key[0]] + key[1..] == key;
    }
  }

  lemma {:induction false} NoEquals(s: string)
    requires '=' !in s
    ensures BeforeEquals(s) == s
  {
    if s != "" {
      NoEquals(s[1..]);
      assert [s[0]] + s[1..] == s;
    }
  }

  lemma {:induction false} TrimQuotes(quote: char, key: string)
    requires WellFormed(Quoted(quote, key))
    ensures Unquote([quote] + key + [quote]) == key
  {
    var s, tail := [quote] + key + [quote], key + [quote];
    assert s[1..] == tail && tail[..|tail| - 1] == key && tail[|tail| - 1] == quote;
    assert key == "" ==> tail[1..] == "";
    assert TrimChar(key, quote) == key;
    assert TrimChar(tail, quote) == key;
    assert TrimChar(s, quote) == TrimChar(tail, quote);
    var other := if quote == '\'' then '\"' else '\'';
    assert TrimChar(key, other) == key && TrimChar(s, other) == s;
  }

  /** Text between brackets, as part p prints it. */
  function Content(p: Part): string
    requires InBrackets(p)
  {
    match p
    case BracketIndex(text) => text
    case KeyValue(key, value) => key + "=" + value
    case Quoted(quote, key) => [quote] + key + [quote]
  }

  /** One part put after the result, read back as text. */
  ghost predicate Converts(content: string, result: seq<string>, json: string) {
    && ConvertFiltering(content, result).Ok?
    && ConvertFiltering(content, result).value != []
    && Dotted(ConvertFiltering(content, result).value) == Dotted(result) + json
  }

  lemma {:induction false} KeyValueConverts(key: string, value: string, result: seq<string>)
    requires PlainText(key) && PlainText(value) && result != []
    ensures NoBrackets(key + "=" + value)
    ensures Converts(key + "=" + value, result, FilterText(key, value))
  {
    var content := key + "=" + value;
    assert content[|key|] == '=';
    NotInteger(content);
    SplitAtEquals(key, value);
    NoEquals(value);
    DottedAppend(result, FilterText(key, value));
  }

  lemma NotInteger(s: string)
    requires '=' in s || '\'' in s || '\"' in s
    ensures !IsInteger(s)
  {
    if IsInteger(s) {
      IntegerText(s);
    }
  }

  lemma {:induction false} QuotedConverts(quote: char, key: string, result: seq<string>)
    requires WellFormed(Quoted(quote, key))
    ensures NoBrackets([quote] + key + [quote])
    ensures Converts([quote] + key + [quote], result, "." + EscapeDots(key))
  {
    hide TrimChar, EscapeDots, Dotted, IsInteger;
    var content := [quote] + key + [quote];
    assert content[0] == quote && '=' !in content;
    NotInteger(content);
    TrimQuotes(quote, key);
    DottedAppend(result, EscapeDots(key));
    assert Dotted(result) + "." + EscapeDots(key) == Dotted(result) + ("." + EscapeDots(key));
  }

  lemma {:induction false} ContentConverts(p: Part, result: seq<string>)
    requires InBrackets(p) && WellFormed(p) && (result != [] || p.Quoted?)
    ensures NoBrackets(Content(p)) && Converts(Content(p), result, PartText(p))
  {
    match p
    case BracketIndex(text) =>
      IntegerText(text);
      DottedAppend(result, "[" + text + "]");
    case KeyValue(key, value) => KeyValueConverts(key, value, result);
    case Quoted(quote, key) => QuotedConverts(quote, key, result);
  }

  /** The parts collected once the pending text has been taken up. */
  function Flush(cur: string, result: seq<string>, ps: seq<Part>): seq<string> {
    if ps != [] && InBrackets(ps[0]) then (if cur == "" then result else result + [cur])
    else ConvertField(cur, result)
  }

  ghost predicate Ready(cur: string, result: seq<string>, ps: seq<Part>) {
    && (cur == "" ==> result != [] || (ps != [] && ps[0].Quoted?))
    && (IsInteger(cur) ==> result != [])
  }

  /** Scanning s succeeds, and its parts read back as the text json. */
  ghost predicate Yields(st: Scanner, s: string, json: string) {
    Scan(st, s).Ok? && Scan(st, s).value != [] && Dotted(Scan(st, s).value) == json
  }

  lemma {:induction false} BracketText(cur: string, result: seq<string>, content: string, rest: string)
    requires NoBrackets(content)
    requires ConvertFiltering(content, if cur == "" then result else result + [cur]).Ok?
    ensures
      var flushed := if cur == "" then result else result + [cur];
      Scan(Scanner(cur, false, result), "[" + content + "]" + rest) ==
      Scan(Scanner("", false, ConvertFiltering(content, flushed).value), rest)
  {
    var flushed := if cur == "" then result else result + [cur];
    var s, tail := "[" + content + "]" + rest, "]" + rest;
    var open := Scanner("", true, flushed);
    hide ConvertFiltering, NoBrackets;
    Assoc("[" + content, "]", rest);
    Assoc("[", content, tail);
    assert s[0] == '[' && s[1..] == content + tail && tail[1..] == rest && "" + content == content;
    ScanText(open, content, tail);
    assert Advance(Scanner(cur, false, result), s[0]) == Ok(open);
    assert Scan(Scanner(content, true, flushed), tail) ==
           Scan(Scanner("", false, ConvertFiltering(content, flushed).value), rest);
  }

  lemma {:induction false} FieldText(cur: string, result: seq<string>, text: string, rest: string)
    requires NoBrackets(text) && '.' !in text
    ensures Scan(Scanner(cur, false, result), "." + text + rest) ==
            Scan(Scanner(text, false, ConvertField(cur, result)), rest)
  {
    var s, next := "." + text + rest, Scanner("", false, ConvertField(cur, result));
    hide ConvertField;
    Assoc(".", text, rest);
    assert s[0] == '.' && s[1..] == text + rest && "" + text == text;
    assert Advance(Scanner(cur, false, result), s[0]) == Ok(next);
    ScanText(next, text, rest);
  }

  lemma {:induction false} ScanParts(cur: string, result: seq<string>, ps: seq<Part>)
    requires Ready(cur, result, ps) && forall p :: p in ps ==> WellFormed(p)
    ensures Yields(Scanner(cur, false, result), LegacyText(ps, false), Dotted(Flush(cur, result, ps)) + Rendered(ps))
    decreases |ps|
  {
    hide Scan, IsInteger, ConvertFiltering, Dotted, WellFormed, EscapeDots, Yields, Rendered, LegacyText;
    if ps == [] {
      ScanEnd(cur, result);
    } else {
      assert ps[0] in ps && WellFormed(ps[0]);
      var flushed := Flush(cur, result, ps);
      if InBrackets(ps[0]) {
        ContentConverts(ps[0], flushed);
        ScanParts("", ConvertFiltering(Content(ps[0]), flushed).value, ps[1..]);
        BracketStep(cur, result, ps);
      } else {
        FieldPlain(ps[0]);
        ScanParts(ps[0].text, flushed, ps[1..]);
        FieldStep(cur, result, ps);
      }
    }
  }

  lemma {:induction false} BracketStep(cur: string, result: seq<string>, ps: seq<Part>)
    requires ps != [] && InBrackets(ps[0]) && NoBrackets(Content(ps[0]))
    requires Converts(Content(ps[0]), Flush(cur, result, ps), PartText(ps[0]))
    requires
      var next := ConvertFiltering(Content(ps[0]), Flush(cur, result, ps)).value;
      Yields(Scanner("", false, next), LegacyText(ps[1..], false), Dotted(Flush("", next, ps[1..])) + Rendered(ps[1..]))
    ensures Yields(Scanner(cur, false, result), LegacyText(ps, false), Dotted(Flush(cur, result, ps)) + Rendered(ps))
  {
    BracketPrints(ps);
    RenderedStep(ps);
    hide Scan, IsInteger, ConvertFiltering, Dotted, LegacyText, Rendered, Content, PartText;
    var flushed := Flush(cur, result, ps);
    BracketText(cur, result, Content(ps[0]), LegacyText(ps[1..], false));
    Assoc(Dotted(flushed), PartText(ps[0]), Rendered(ps[1..]));
    assert Flush("", ConvertFiltering(Content(ps[0]), flushed).value, ps[1..]) ==
           ConvertFiltering(Content(ps[0]), flushed).value;
  }

  lemma {:induction false} FieldStep(cur: string, result: seq<string>, ps: seq<Part>)
    requires ps != [] && !InBrackets(ps[0]) && WellFormed(ps[0]) && ConvertField(cur, result) != []
    requires Yields(Scanner(ps[0].text, false, ConvertField(cur, result)), LegacyText(ps[1..], false),
                    Dotted(Flush(ps[0].text, ConvertField(cur, result), ps[1..])) + Rendered(ps[1..]))
    ensures Yields(Scanner(cur, false, result), LegacyText(ps, false), Dotted(Flush(cur, result, ps)) + Rendered(ps))
  {
    FieldPrints(ps);
    RenderedStep(ps);
    FieldPlain(ps[0]);
    FieldFlush(ConvertField(cur, result), ps);
    hide Scan, IsInteger, Dotted, LegacyText, Rendered, PartText, WellFormed, ConvertField;
    var flushed := ConvertField(cur, result);
    var first := if Misread(ps) then "." + ps[0].text else PartText(ps[0]);
    FieldText(cur, result, ps[0].text, LegacyText(ps[1..], false));
    Assoc(Dotted(flushed), first, Rendered(ps[1..]));
    assert Flush(cur, result, ps) == flushed;
  }

  lemma ScanEnd(cur: string, result: seq<string>)
    requires Ready(cur, result, [])
    ensures LegacyText([], false) == "" && Rendered([]) == ""
    ensures Yields(Scanner(cur, false, result), "", Dotted(Flush(cur, result, [])) + "")
  {
  }

  lemma RenderedStep(ps: seq<Part>)
    requires ps != []
    ensures Rendered(ps) == RenderedPart(ps) + Rendered(ps[1..])
    ensures InBrackets(ps[0]) ==> !Misread(ps)
  {
  }

  lemma BracketPrints(ps: seq<Part>)
    requires ps != [] && InBrackets(ps[0])
    ensures LegacyText(ps, false) == "[" + Content(ps[0]) + "]" + LegacyText(ps[1..], false)
  {
  }

  lemma FieldPrints(ps: seq<Part>)
    requires ps != [] && !InBrackets(ps[0])
    ensures LegacyText(ps, false) == "." + ps[0].text + LegacyText(ps[1..], false)
  {
  }

  lemma FieldPlain(p: Part)
    requires !InBrackets(p) && WellFormed(p)
    ensures p.text != "" && NoBrackets(p.text) && '.' !in p.text && (IsInteger(p.text) <==> p.DottedIndex?)
  {
  }

  lemma FieldFlush(result: seq<string>, ps: seq<Part>)
    requires ps != [] && !InBrackets(ps[0]) && WellFormed(ps[0]) && result != []
    ensures Dotted(Flush(ps[0].text, result, ps[1..])) ==
            Dotted(result) + RenderedPart(ps)
  {
    var t := ps[0].text;
    FieldPlain(ps[0]);
    DottedAppend(result, t);
    DottedAppend(result, "[" + t + "]");
    hide Dotted;
    Assoc(Dotted(result), ".", t);
  }

  /** Every well-formed path that starts with a field is translated part by part. */
  lemma {:induction false} ConversionRenders(ps: seq<Part>)
    requires PathParts(ps)
    ensures ConvertPath(LegacyText(ps, true)) == Ok("{" + Rendered(ps) + "}")
  {
    var path, start := LegacyText(ps, true), Scanner("", false, []);
    assert ps[0] in ps && WellFormed(ps[0]);
    if ps[0].Name? {
      FirstName(ps);
    } else {
      assert LegacyText(ps, true) == LegacyText(ps, false);
      ScanParts("", [], ps);
      assert Dotted([]) + Rendered(ps) == Rendered(ps);
    }
    assert Yields(start, path, Rendered(ps));
    hide Scan, Dotted, Join, LegacyText, Rendered;
    var result := Scan(start, path).value;
    DottedIsJoin(result);
    Assoc("{", ".", Join(result, '.'));
    assert "{" + "." == "{.";
  }

  lemma DottedOne(t: string)
    ensures Dotted([t]) == "." + t
  {
  }

  lemma {:induction false} FirstName(ps: seq<Part>)
    requires PathParts(ps) && ps[0].Name?
    ensures Yields(Scanner("", false, []), LegacyText(ps, true), Rendered(ps))
  {
    hide Scan, Dotted;
    var t, rest := ps[0].text, LegacyText(ps[1..], false);
    assert ps[0] in ps && WellFormed(ps[0]);
    assert LegacyText(ps, true) == t + rest by { assert "" + t == t; }
    ScanText(Scanner("", false, []), t, rest);
    assert "" + t == t && [] + [t] == [t];
    ScanParts(t, [], ps[1..]);
    assert Flush(t, [], ps[1..]) == [t];
    DottedOne(t);
  }
}
