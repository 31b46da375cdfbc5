/** Which legacy paths become a JSONPath text that reads as the same segments. */
module LegacyQueries {
  import opened Wrappers
  import opened GoStrings
  import opened YamlNodes
  import opened JsonPaths
  import opened LegacyPaths

  // ----- What a path stands for -----

  function SegmentOf(p: Part): Segment
    requires WellFormed(p)
  {
    match p
    case Name(text) => Field(text)
    case DottedIndex(text) => Index(Atoi(text).value)
    case BracketIndex(text) => Index(Atoi(text).value)
    case KeyValue(key, value) => Filter([Field(key)], "==", [TextLiteral(value)])
    case Quoted(_, key) => Field(key)
  }

  /** The query that a legacy path stands for. */
  function SegmentsOf(ps: seq<Part>): Query
    requires AllWellFormed(ps)
  {
    if ps == [] then [] else [SegmentOf(ps[0])] + SegmentsOf(ps[1..])
  }

  predicate AllWellFormed(ps: seq<Part>) { forall p :: p in ps ==> WellFormed(p) }

  // ----- How JSONPath text reads: names, indexes, and filters that compare a field with a text -----

  /** The characters that end a field name, unless a backslash precedes them. */
  const NAME_STOPS := {' ', '\t', '\n', '\r', '.', ',', '[', ']', '$', '@', '{', '}'}

  /** Operators, quotes and the closing parenthesis of a filter: no backslash takes their meaning. */
  const FILTER_MARKS := {'<', '>', '=', '!', ')', '\'', '\"'}

  /** A name as it is written, and what follows it. */
  function ReadRaw(s: string): (string, string) {
    if s == "" || s[0] in NAME_STOPS then ("", s)
    else if s[0] == '\\' && |s| > 1 then
      var (t, rest) := ReadRaw(s[2..]); (s[..2] + t, rest)
    else
      var (t, rest) := ReadRaw(s[1..]); ([s[0]] + t, rest)
  }

  function DropBackslashes(s: string): string {
    if s == "" then "" else (if s[0] == '\\' then "" else [s[0]]) + DropBackslashes(s[1..])
  }

  function NameSegment(raw: string): Segment {
    if raw == "*" then Wildcard else Field(DropBackslashes(raw))
  }

  /** The text before the first character of stops. */
  function Until(s: string, stops: set<char>): (t: string)
    ensures |t| <= |s|
  {
    if s == "" || s[0] in stops then "" else [s[0]] + Until(s[1..], stops)
  }

  /** The text before an apostrophe that no backslash precedes; prev is the character before s. */
  function ReadText(s: string, prev: char): (t: string)
    ensures |t| <= |s|
  {
    if s == "" || s[0] == '\n' || (s[0] == '\'' && prev != '\\') then "" else [s[0]] + ReadText(s[1..], s[0])
  }

  /** A quoted text without its escapes; others than these two are refused. */
  function Unescape(t: string): Option<string> {
    if t == "" then Some("")
    else if t[0] == '\'' then None
    else if t[0] == '\\' then
      if |t| == 1 || (t[1] != '\\' && t[1] != '\'') then None else Prepend(t[1], Unescape(t[2..]))
    else Prepend(t[0], Unescape(t[1..]))
  }

  function Prepend(c: char, t: Option<string>): Option<string> {
    if t.None? then None else Some([c] + t.value)
  }

  predicate StartsWith(s: string, prefix: string) { |prefix| <= |s| && s[..|prefix|] == prefix }

  /** An index, after its bracket: Atoi would take a plus sign, but the index may not have one. */
  function ReadIndex(s: string): Option<(Segment, string)> {
    var text := Until(s, {']', '\n'});
    if !StartsWith(s[|text|..], "]") || !IsInteger(text) || StartsWith(text, "+") then None
    else Some((Index(Atoi(text).value), s[|text| + 1..]))
  }

  /** A filter, after the dot of its field. */
  function ReadFilter(s: string): Option<(Segment, string)> {
    var key := Until(s, FILTER_MARKS);
    var (raw, gap) := ReadRaw(key);
    if gap != " " || !StartsWith(s[|key|..], "== '") then None else
    ReadValue(raw, s[|key| + 4..])
  }

  function ReadValue(raw: string, s: string): Option<(Segment, string)> {
    var text := ReadText(s, '\'');
    if Unescape(text).None? || !StartsWith(s[|text|..], "')]") then None
    else Some((Filter([NameSegment(raw)], "==", [TextLiteral(Unescape(text).value)]), s[|text| + 3..]))
  }

  function ReadSegment(s: string): Option<(Segment, string)> {
    if s == "" then None
    else if s[0] == '.' then
      if |s| > 1 && s[1] == '.' then None else
      var (raw, rest) := ReadRaw(s[1..]); Some((NameSegment(raw), rest))
    else if s[0] == '[' then
      if StartsWith(s[1..], "?(.") then ReadFilter(s[4..]) else ReadIndex(s[1..])
    else None
  }

  function ReadSegments(s: string): Option<Query>
    decreases |s|
  {
    if s == "}" then Some([]) else
    match ReadSegment(s)
    case None => None
    case Some((first, rest)) =>
      if |rest| >= |s| then None else
      match ReadSegments(rest)
      case None => None
      case Some(more) => Some([first] + more)
  }

  /** What a JSONPath text means, if it has only such segments. */
  function ReadQuery(text: string): Option<Query> {
    if StartsWith(text, "{") then ReadSegments(text[1..]) else None
  }

  // ----- The condition -----

  /** Nothing in the name has a meaning of its own but dots, which the translation quotes. */
  predicate PlainName(name: string) { name != "*" && Unmarked(name) }

  predicate Unmarked(name: string) { forall c :: c in name ==> c != '\\' && (c in NAME_STOPS ==> c == '.') }

  predicate PlainKey(key: string) { PlainName(key) && NoMarks(key) }

  predicate NoMarks(s: string) { forall c :: c in s ==> c !in FILTER_MARKS }

  predicate PlainValue(value: string) { '\'' !in value && '\\' !in value && '\n' !in value }

  predicate PlainPart(p: Part) {
    match p
    case Name(text) => PlainName(text)
    case DottedIndex(text) => !StartsWith(text, "+")
    case BracketIndex(text) => !StartsWith(text, "+")
    case KeyValue(key, value) => PlainKey(key) && PlainValue(value)
    case Quoted(_, key) => PlainName(key)
  }

  /** An empty quoted key in front of another name reads as two dots. */
  predicate EmptyBeforeName(ps: seq<Part>) {
    |ps| > 1 && ps[0].Quoted? && ps[0].key == "" && (ps[1].Name? || ps[1].Quoted? || Misread(ps[1..]))
  }

  predicate Faithful(ps: seq<Part>)
    requires ps != []
  {
    PlainPart(ps[0]) && !Misread(ps) && !EmptyBeforeName(ps)
  }

  /** Every part is translated as it is meant. */
  predicate AllFaithful(ps: seq<Part>) { ps == [] || (Faithful(ps) && AllFaithful(ps[1..])) }

  // ----- Names -----

  lemma {:induction false} DropsAll(s: string)
    ensures '\\' !in DropBackslashes(s)
    ensures forall c :: c in DropBackslashes(s) ==> c in s
  {
    if s != "" {
      DropsAll(s[1..]);
    }
  }

  lemma {:induction false} DropEscaped(name: string)
    requires '\\' !in name
    ensures DropBackslashes(EscapeDots(name)) == name
  {
    if name != "" {
      DropEscaped(name[1..]);
      var s := EscapeDots(name);
      assert name == [name[0]] + name[1..];
      if name[0] == '.' {
        assert s[1..] == "." + EscapeDots(name[1..]) && s[1..][1..] == EscapeDots(name[1..]);
      } else {
        assert s[1..] == EscapeDots(name[1..]);
      }
    }
  }

  lemma RawPair(c: char, tail: string)
    ensures ReadRaw(['\\', c] + tail) == (['\\', c] + ReadRaw(tail).0, ReadRaw(tail).1)
    ensures c != '\\' ==> DropBackslashes(['\\', c] + ReadRaw(tail).0) == [c] + DropBackslashes(ReadRaw(tail).0)
  {
    var s, t := ['\\', c] + tail, ['\\', c] + ReadRaw(tail).0;
    assert s[2..] == tail && s[..2] == ['\\', c];
    assert t[1..] == [c] + ReadRaw(tail).0 && t[1..][1..] == ReadRaw(tail).0;
  }

  lemma RawOne(c: char, tail: string)
    requires c != '\\'
    ensures ReadRaw([c] + tail) ==
            if c in NAME_STOPS then ("", [c] + tail) else ([c] + ReadRaw(tail).0, ReadRaw(tail).1)
    ensures DropBackslashes([c] + ReadRaw(tail).0) == [c] + DropBackslashes(ReadRaw(tail).0)
  {
    assert ([c] + tail)[1..] == tail && ([c] + ReadRaw(tail).0)[1..] == ReadRaw(tail).0;
  }

  /** A translated name is read to its end if it is unmarked; otherwise something else is read. */
  lemma {:induction false} RawOfName(name: string, rest: string)
    requires rest != "" && rest[0] in NAME_STOPS
    ensures Unmarked(name) ==> ReadRaw(EscapeDots(name) + rest) == (EscapeDots(name), rest)
    ensures DropBackslashes(ReadRaw(EscapeDots(name) + rest).0) == name ==> Unmarked(name)
  {
    if name == "" {
      assert EscapeDots(name) + rest == rest;
    } else {
      RawOfName(name[1..], rest);
      UnmarkedFirst(name);
      hide Unmarked, DropBackslashes;
      if name[0] == '\\' {
        DropsAll(ReadRaw(EscapeDots(name) + rest).0);
      } else {
        RawFirst(name, rest);
        hide ReadRaw, EscapeDots;
        assert name == [name[0]] + name[1..];
      }
    }
  }

  /** The first character of a translated name, with the backslash that the translation puts before a dot. */
  lemma RawFirst(name: string, rest: string)
    requires name != "" && name[0] != '\\'
    ensures
      var front := if name[0] == '.' then "\\." else [name[0]];
      var raw, tail := ReadRaw(EscapeDots(name) + rest), ReadRaw(EscapeDots(name[1..]) + rest);
      && EscapeDots(name) == front + EscapeDots(name[1..])
      && (name[0] in NAME_STOPS && name[0] != '.' ==> raw.0 == "" && DropBackslashes(raw.0) == "")
      && (name[0] !in NAME_STOPS || name[0] == '.' ==>
            raw == (front + tail.0, tail.1) && DropBackslashes(raw.0) == [name[0]] + DropBackslashes(tail.0))
  {
    assert DropBackslashes("") == "";
    EscapeFirst(name, rest);
    hide ReadRaw, DropBackslashes, EscapeDots;
    var tail := EscapeDots(name[1..]) + rest;
    if name[0] == '.' {
      RawPair('.', tail);
      assert "\\." == ['\\', '.'];
    } else {
      RawOne(name[0], tail);
    }
  }

  lemma EscapeFirst(name: string, rest: string)
    requires name != ""
    ensures
      var front := if name[0] == '.' then "\\." else [name[0]];
      && EscapeDots(name) == front + EscapeDots(name[1..])
      && EscapeDots(name) + rest == front + (EscapeDots(name[1..]) + rest)
  {
    var front, tail := if name[0] == '.' then "\\." else [name[0]], EscapeDots(name[1..]);
    assert EscapeDots(name) == front + tail;
    hide EscapeDots;
    Assoc(front, tail, rest);
  }

  lemma UnmarkedFirst(name: string)
    requires name != ""
    ensures Unmarked(name) <==> name[0] != '\\' && (name[0] in NAME_STOPS ==> name[0] == '.') && Unmarked(name[1..])
  {
    assert name[0] in name;
    assert forall c :: c in name <==> c == name[0] || c in name[1..];
  }

  lemma {:induction false} NameReads(name: string, rest: string)
    requires rest != "" && rest[0] in NAME_STOPS
    ensures PlainName(name) ==> NameSegment(EscapeDots(name)) == Field(name)
    ensures PlainName(name) ==> ReadRaw(EscapeDots(name) + rest) == (EscapeDots(name), rest)
    ensures !PlainName(name) ==> NameSegment(ReadRaw(EscapeDots(name) + rest).0) != Field(name)
  {
    RawOfName(name, rest);
    if '\\' !in name {
      DropEscaped(name);
    }
    assert EscapeDots("*") == "*" && DropBackslashes("*") == "*";
  }

  // ----- Texts in filters -----

  function Apostrophes(s: string): nat {
    if s == "" then 0 else (if s[0] == '\'' then 1 else 0) + Apostrophes(s[1..])
  }

  lemma {:induction false} ApostrophesAppend(s: string, t: string)
    ensures Apostrophes(s + t) == Apostrophes(s) + Apostrophes(t)
  {
    if s == "" {
      assert s + t == t;
    } else {
      assert (s + t)[1..] == s[1..] + t;
      ApostrophesAppend(s[1..], t);
    }
  }

  /** Escapes make a text longer, and neither add nor hide an apostrophe. */
  lemma {:induction false} UnescapeFacts(t: string)
    requires Unescape(t).Some?
    ensures |Unescape(t).value| <= |t| && Apostrophes(Unescape(t).value) == Apostrophes(t)
    ensures |Unescape(t).value| == |t| ==> '\'' !in t && '\\' !in t
  {
    if t != "" {
      var n := if t[0] == '\\' then 2 else 1;
      UnescapeFacts(t[n..]);
      var u := Unescape(t[n..]).value;
      assert t == t[..n] + t[n..] && Unescape(t).value == [t[n - 1]] + u;
      ApostrophesAppend(t[..n], t[n..]);
      ApostrophesAppend([t[n - 1]], u);
      if n == 2 {
        assert t[..n] == [t[0]] + [t[1]];
        ApostrophesAppend([t[0]], [t[1]]);
        assert Apostrophes([t[0]]) == 0;
      } else {
        assert t[..n] == [t[0]];
      }
    }
  }

  lemma {:induction false} PlainUnescapes(t: string)
    requires '\'' !in t && '\\' !in t
    ensures Unescape(t) == Some(t)
  {
    if t != "" {
      PlainUnescapes(t[1..]);
      assert t == [t[0]] + t[1..];
    }
  }

  lemma {:induction false} ReadTextIsPrefix(s: string, prev: char)
    ensures ReadText(s, prev) == s[..|ReadText(s, prev)|] && '\n' !in ReadText(s, prev)
  {
    if s != "" && ReadText(s, prev) != "" {
      ReadTextIsPrefix(s[1..], s[0]);
      var n := |ReadText(s[1..], s[0])|;
      assert s[..n + 1] == [s[0]] + s[1..][..n];
    }
  }

  lemma {:induction false} PlainReads(value: string, prev: char, more: string)
    requires PlainValue(value) && prev != '\\' && more != "" && more[0] == '\''
    ensures ReadText(value + more, prev) == value
  {
    if value == "" {
      assert value + more == more;
    } else {
      assert (value + more)[1..] == value[1..] + more && value == [value[0]] + value[1..];
      PlainReads(value[1..], value[0], more);
    }
  }

  /** Only a plain value is read as itself: otherwise its text ends elsewhere or has escapes. */
  lemma {:induction false} ValueReads(value: string, more: string)
    requires more != "" && more[0] == '\''
    ensures PlainValue(value) ==> ReadText(value + more, '\'') == value && Unescape(value) == Some(value)
    ensures Unescape(ReadText(value + more, '\'')) == Some(value) ==> PlainValue(value)
  {
    var t := ReadText(value + more, '\'');
    if PlainValue(value) {
      PlainReads(value, '\'', more);
      PlainUnescapes(value);
    }
    if Unescape(t) == Some(value) {
      UnescapeFacts(t);
      ReadTextIsPrefix(value + more, '\'');
      var rest := t[|value|..];
      assert t == value + rest;
      assert rest != "" ==> rest[0] == (value + more)[|value|];
      assert rest != "" ==> Apostrophes(rest) > 0;
      ApostrophesAppend(value, rest);
    }
  }

  // ----- One part -----

  /** What may follow a segment. */
  predicate Follows(rest: string) { rest != "" && rest[0] in {'.', '[', '}'} }

  /** The text s reads as the segment, then rest, if that is meant to hold; otherwise as anything else. */
  predicate Reads(s: string, segment: Segment, rest: string, meant: bool) {
    if meant then ReadSegment(s) == Some((segment, rest))
    else ReadSegment(s).None? || ReadSegment(s).value.0 != segment
  }

  lemma {:induction false} ReadName(name: string, rest: string)
    requires Follows(rest)
    ensures Reads("." + EscapeDots(name) + rest, Field(name), rest, PlainName(name) && !(name == "" && rest[0] == '.'))
  {
    var s, tail := "." + EscapeDots(name) + rest, EscapeDots(name) + rest;
    NameReads(name, rest);
    assert s[0] == '.' && s[1..] == tail && s[1] == tail[0];
    if name != "" {
      EscapeFirst(name, rest);
      assert tail[0] != '.';
    } else {
      assert tail == rest;
    }
    hide ReadRaw, NameSegment, PlainName, EscapeDots;
  }

  lemma {:induction false} UntilStop(t: string, stops: set<char>, rest: string)
    requires rest != "" && rest[0] in stops
    ensures (forall c :: c in t ==> c !in stops) ==> Until(t + rest, stops) == t
    ensures !(forall c :: c in t ==> c !in stops) ==> Until(t + rest, stops) == Until(t, stops)
  {
    if t == "" {
      assert t + rest == rest;
    } else {
      assert (t + rest)[1..] == t[1..] + rest && t == [t[0]] + t[1..];
      UntilStop(t[1..], stops, rest);
      assert t[0] in t && forall c :: c in t <==> c == t[0] || c in t[1..];
    }
  }

  lemma {:induction false} UntilClean(t: string, stops: set<char>)
    ensures forall c :: c in Until(t, stops) ==> c !in stops
  {
    if t != "" {
      UntilClean(t[1..], stops);
    }
  }

  lemma {:induction false} IndexReads(text: string, rest: string)
    requires IsInteger(text)
    ensures ReadIndex(text + "]" + rest) ==
            if StartsWith(text, "+") then None else Some((Index(Atoi(text).value), rest))
  {
    IntegerNumerals(text);
    hide Atoi, Until, IsInteger;
    var s, tail := text + "]" + rest, "]" + rest;
    assert s == text + tail;
    UntilStop(text, {']', '\n'}, tail);
    assert s[|text|..] == tail && tail[..1] == "]" && s[|text| + 1..] == rest;
  }

  lemma {:induction false} ReadBracket(text: string, rest: string)
    requires IsInteger(text)
    ensures Reads("[" + text + "]" + rest, Index(Atoi(text).value), rest, !StartsWith(text, "+"))
  {
    IntegerNumerals(text);
    IndexReads(text, rest);
    hide Atoi, IsInteger, ReadIndex;
    var s := "[" + text + "]" + rest;
    assert s[0] == '[' && s[1..] == text + "]" + rest && s[1..][0] == text[0] && text[0] in text;
    assert !StartsWith(s[1..], "?(.") by { assert "?(."[0] == '?'; assert |s[1..]| >= 3 ==> s[1..][..3][0] == s[1]; }
  }

  /** No reading of a name has a character that its text has not. */
  lemma {:induction false} RawWithin(s: string)
    ensures forall c :: c in ReadRaw(s).0 ==> c in s
  {
    if s != "" && s[0] !in NAME_STOPS {
      var n := if s[0] == '\\' && |s| > 1 then 2 else 1;
      RawWithin(s[n..]);
      assert s == s[..n] + s[n..];
      assert n == 1 ==> s[..n] == [s[0]];
    }
  }

  lemma {:induction false} EscapeKeeps(name: string)
    ensures forall c :: c in EscapeDots(name) <==> c in name || (c == '\\' && '.' in name)
  {
    if name != "" {
      EscapeKeeps(name[1..]);
      EscapeFirst(name, "");
      assert forall c :: c in name <==> c == name[0] || c in name[1..];
    }
  }

  /** The field of a filter: one with a mark in it ends early, and reads as another. */
  lemma {:induction false} KeyReads(key: string, more: string)
    ensures
      var text := Until(EscapeDots(key) + " " + ("== '" + more), FILTER_MARKS);
      && (PlainKey(key) ==> text == EscapeDots(key) + " " && ReadRaw(text) == (EscapeDots(key), " "))
      && (PlainKey(key) ==> NameSegment(EscapeDots(key)) == Field(key))
      && (!PlainKey(key) ==> NameSegment(ReadRaw(text).0) != Field(key))
  {
    var k, tail := EscapeDots(key) + " ", "== '" + more;
    var text := Until(k + tail, FILTER_MARKS);
    hide Until, ReadRaw, NameSegment, PlainName, EscapeDots;
    UntilStop(k, FILTER_MARKS, tail);
    KeyMarks(key);
    hide NoMarks;
    if NoMarks(key) {
      NameReads(key, " ");
    } else {
      MarkedKey(key, k);
    }
  }

  lemma KeyMarks(key: string)
    ensures NoMarks(key) <==> NoMarks(EscapeDots(key) + " ")
  {
    hide EscapeDots;
    EscapeKeeps(key);
    if !NoMarks(key) {
      var c :| c in key && c in FILTER_MARKS;
      assert c in EscapeDots(key) + " ";
    }
  }

  lemma MarkedKey(key: string, k: string)
    requires !NoMarks(key)
    ensures NameSegment(ReadRaw(Until(k, FILTER_MARKS)).0) != Field(key)
  {
    hide Until, ReadRaw, DropBackslashes;
    var text := Until(k, FILTER_MARKS);
    UntilClean(k, FILTER_MARKS);
    RawWithin(text);
    DropsAll(ReadRaw(text).0);
    var c :| c in key && c in FILTER_MARKS;
    assert c !in DropBackslashes(ReadRaw(text).0);
  }

  lemma {:induction false} ValuePart(raw: string, value: string, rest: string)
    ensures
      var r := ReadValue(raw, value + "')]" + rest);
      && (PlainValue(value) ==> r == Some((Filter([NameSegment(raw)], "==", [TextLiteral(value)]), rest)))
      && (!PlainValue(value) ==> r.None? || r.value.0.right != [TextLiteral(value)])
  {
    var more := "')]" + rest;
    ValueReads(value, more);
    hide ReadText, Unescape, PlainValue;
    assert value + "')]" + rest == value + more;
    assert (value + more)[|value|..] == more && more[..3] == "')]" && (value + more)[|value| + 3..] == rest;
  }

  lemma {:induction false} ReadKeyValue(key: string, value: string, rest: string)
    ensures Reads(FilterText(key, value) + rest, Filter([Field(key)], "==", [TextLiteral(value)]), rest,
                  PlainKey(key) && PlainValue(value))
  {
    var more := value + "')]" + rest;
    var s, tail := FilterText(key, value) + rest, EscapeDots(key) + " " + ("== '" + more);
    assert s == "[?(." + tail by { hide Until; }
    hide FilterText, ReadIndex, ReadRaw, Until;
    assert s[0] == '[' && s[1..][..3] == "?(." && s[4..] == tail;
    FilterReads(key, value, rest);
    hide ReadFilter;
  }

  lemma {:induction false} FilterReads(key: string, value: string, rest: string)
    ensures
      var r := ReadFilter(EscapeDots(key) + " " + ("== '" + (value + "')]" + rest)));
      if PlainKey(key) && PlainValue(value) then
        r == Some((Filter([Field(key)], "==", [TextLiteral(value)]), rest))
      else
        r.None? || r.value.0 != Filter([Field(key)], "==", [TextLiteral(value)])
  {
    var more := value + "')]" + rest;
    var k, tail := EscapeDots(key) + " ", "== '" + more;
    var text := Until(k + tail, FILTER_MARKS);
    var raw := ReadRaw(text).0;
    KeyReads(key, more);
    hide ReadRaw, Until, PlainKey, PlainValue, ReadValue, NameSegment, EscapeDots;
    if PlainKey(key) {
      ValuePart(raw, value, rest);
      assert (k + tail)[|k|..] == tail && tail[..4] == "== '" && (k + tail)[|k| + 4..] == more;
    } else {
      ValueLeft(raw, (k + tail)[|text|..]);
      assert [NameSegment(raw)][0] != [Field(key)][0];
    }
  }

  lemma ValueLeft(raw: string, s: string)
    ensures
      |s| >= 4 ==>
        var r := ReadValue(raw, s[4..]);
        r.Some? ==> r.value.0.Filter? && r.value.0.left == [NameSegment(raw)]
  {
  }

  /** A part that is translated on its own, in front of the text of the others. */
  lemma {:induction false} TextReads(p: Part, rest: string)
    requires WellFormed(p) && Follows(rest)
    ensures Reads(PartText(p) + rest, SegmentOf(p), rest,
                  PlainPart(p) && !(p.Quoted? && p.key == "" && rest[0] == '.'))
  {
    hide Reads, Atoi, EscapeDots, PlainName, PlainKey, PlainValue, IsInteger;
    match p
    case Name(text) =>
      NoDots(text);
      ReadName(text, rest);
    case Quoted(_, key) => ReadName(key, rest);
    case KeyValue(key, value) => ReadKeyValue(key, value, rest);
    case BracketIndex(text) => ReadBracket(text, rest);
    case DottedIndex(text) => ReadBracket(text, rest);
  }

  /** One part in front of the others reads as it is meant exactly when it is faithful. */
  lemma {:induction false} PartReads(ps: seq<Part>)
    requires ps != [] && AllWellFormed(ps) && Follows(Rendered(ps[1..]) + "}")
    ensures Follows(RenderedPart(ps)) && WellFormed(ps[0])
    ensures Reads(RenderedPart(ps) + (Rendered(ps[1..]) + "}"), SegmentOf(ps[0]), Rendered(ps[1..]) + "}", Faithful(ps))
  {
    assert ps[0] in ps;
    var rest := Rendered(ps[1..]) + "}";
    PartStarts(ps);
    if Misread(ps) {
      DotReads(ps[0].text + rest);
      hide ReadSegment, Rendered, Follows, PartText;
      Assoc(".", ps[0].text, rest);
    } else {
      NextDot(ps);
      TextReads(ps[0], rest);
      hide Reads, PlainPart, Rendered, Follows, PartText;
    }
  }

  lemma PartStarts(ps: seq<Part>)
    requires ps != []
    ensures Follows(RenderedPart(ps))
  {
    hide EscapeDots;
  }

  /** After a dot comes a name. */
  lemma DotReads(s: string)
    ensures ReadSegment("." + s).None? || !ReadSegment("." + s).value.0.Slice?
  {
  }

  /** The text of the other parts starts with a dot exactly if a name comes first. */
  lemma NextDot(ps: seq<Part>)
    requires ps != [] && AllWellFormed(ps)
    ensures (Rendered(ps[1..]) + "}")[0] == '.' <==> |ps| > 1 && (ps[1].Name? || ps[1].Quoted? || Misread(ps[1..]))
  {
  }

  lemma {:induction false} NoDots(t: string)
    requires '.' !in t
    ensures EscapeDots(t) == t
  {
    if t != "" {
      NoDots(t[1..]);
      assert [t[0]] + t[1..] == t;
    }
  }

  lemma {:induction false} PartsRead(ps: seq<Part>)
    requires AllWellFormed(ps)
    ensures Follows(Rendered(ps) + "}")
    ensures ReadSegments(Rendered(ps) + "}") == Some(SegmentsOf(ps)) <==> AllFaithful(ps)
    decreases |ps|
  {
    if ps == [] {
      assert Rendered(ps) + "}" == "}";
    } else {
      assert forall p :: p in ps[1..] ==> p in ps;
      assert ps[0] in ps;
      PartsRead(ps[1..]);
      PartReads(ps);
      RenderedStep(ps);
      hide RenderedPart, Rendered, Faithful, WellFormed, SegmentOf, Reads, ReadSegments;
      var front, rest := RenderedPart(ps), Rendered(ps[1..]) + "}";
      Assoc(front, Rendered(ps[1..]), "}");
      ReadFirst(front + rest, SegmentOf(ps[0]), rest, Faithful(ps), SegmentsOf(ps[1..]));
      assert (front + rest)[0] == front[0];
    }
  }

  lemma {:induction false} ReadFirst(s: string, segment: Segment, rest: string, meant: bool, more: Query)
    requires Reads(s, segment, rest, meant) && 1 <= |rest| < |s|
    ensures ReadSegments(s) == Some([segment] + more) <==> meant && ReadSegments(rest) == Some(more)
  {
    hide ReadSegment;
    if ReadSegments(s).Some? {
      var r := ReadSegment(s).value;
      assert ReadSegments(s).value[0] == r.0;
      assert ([segment] + more)[0] == segment && ([segment] + more)[1..] == more;
      assert ReadSegments(s).value[1..] == ReadSegments(r.1).value;
    }
  }

  /**
   * A path that starts with a field becomes a text that reads as the segments
   * the path stands for, exactly when no dotted index stands right before a
   * bracket, no empty key before a name, no index has a plus sign, and
   * nothing but dots needs quoting.
   */
  lemma {:induction false} ConversionFaithful(ps: seq<Part>)
    requires PathParts(ps)
    ensures AllWellFormed(ps) && ConvertPath(LegacyText(ps, true)).Ok?
    ensures ReadQuery(ConvertPath(LegacyText(ps, true)).value) == Some(SegmentsOf(ps)) <==> AllFaithful(ps)
  {
    hide AllFaithful, LegacyText, ConvertPath, Rendered, ReadSegments;
    ConversionRenders(ps);
    PartsRead(ps);
    var text := "{" + Rendered(ps) + "}";
    assert text[..1] == "{" && text[1..] == Rendered(ps) + "}";
  }

  /** The same for a query, which may carry white space around the path. */
  lemma {:induction false} LegacyQueryConverts(query: string, ps: seq<Part>)
    requires PathParts(ps) && TrimSpace(query) == LegacyText(ps, true)
    requires query != "" && query[0] != '{'
    ensures AllWellFormed(ps) && Convert(query).Ok?
    ensures ReadQuery(Convert(query).value) == Some(SegmentsOf(ps)) <==> AllFaithful(ps)
  {
    hide AllFaithful, LegacyText, ConvertPath, PathParts, ReadQuery;
    ConversionFaithful(ps);
  }

  // ----- Paths that are not translated as they are meant -----

  /** A name and one other part after it, typed and translated. */
  lemma {:induction false} TwoTexts(text: string, p: Part)
    ensures LegacyText([Name(text), p], true) == text + LegacyPart(p, false)
    ensures Rendered([Name(text), p]) == "." + text + PartText(p)
  {
    hide LegacyPart, PartText;
    var ps := [Name(text), p];
    assert ps[1..] == [p];
    OnePart(p);
    assert LegacyText(ps, true) == LegacyPart(ps[0], true) + LegacyText(ps[1..], false);
    assert Rendered(ps) == RenderedPart(ps) + Rendered(ps[1..]);
    NameText(text);
  }

  lemma NameText(text: string)
    ensures LegacyPart(Name(text), true) == text && PartText(Name(text)) == "." + text
  {
    assert "" + text == text;
  }

  lemma {:induction false} TwoFaithful(text: string, p: Part)
    ensures AllFaithful([Name(text), p]) <==> PlainPart(Name(text)) && PlainPart(p)
  {
    hide PlainPart;
    var ps := [Name(text), p];
    assert ps[1..] == [p] && [p][1..] == [];
    assert AllFaithful([p]) <==> Faithful([p]);
    assert AllFaithful(ps) <==> Faithful(ps) && AllFaithful(ps[1..]);
  }

  /** What becomes of a name and of one other part after it. */
  lemma {:induction false} TwoParts(text: string, p: Part)
    requires WellFormed(Name(text)) && WellFormed(p)
    ensures PathParts([Name(text), p])
    ensures ConvertPath(text + LegacyPart(p, false)) == Ok("{" + ("." + text + PartText(p)) + "}")
  {
    hide ConvertPath, WellFormed, LegacyText, Rendered, LegacyPart, PartText;
    TwoTexts(text, p);
    assert PathParts([Name(text), p]);
    ConversionRenders([Name(text), p]);
  }

  lemma OnePart(p: Part)
    ensures LegacyText([p], false) == LegacyPart(p, false) && Rendered([p]) == PartText(p)
  {
    var ps := [p];
    assert ps[1..] == [];
    assert LegacyPart(p, false) + LegacyText([], false) == LegacyPart(p, false);
    assert RenderedPart(ps) + Rendered([]) == PartText(p);
  }

  lemma Letter(t: string)
    requires t != "" && 'a' <= t[0] <= 'z'
    ensures !IsInteger(t)
  {
    assert t[0] in t && !IsDigit(t[0]);
  }

  /** An apostrophe in a value ends the text of the filter early. */
  lemma {:induction false} ApostropheFails()
    ensures PathParts([Name("a"), KeyValue("b", "'")])
    ensures !AllFaithful([Name("a"), KeyValue("b", "'")])
    ensures ConvertPath("a[b=']") == Ok("{.a[?(.b == ''')]}")
  {
    hide AllFaithful, ConvertPath, EscapeDots, IsInteger, PathParts, PlainPart, LegacyPart, PartText, WellFormed;
    var p := KeyValue("b", "'");
    ApostrophePart();
    TwoParts("a", p);
    TwoFaithful("a", p);
    assert "a" + "[b=']" == "a[b=']";
    assert "{" + ("." + "a" + "[?(.b == ''')]") + "}" == "{.a[?(.b == ''')]}";
  }

  lemma ApostrophePart()
    ensures WellFormed(Name("a")) && WellFormed(KeyValue("b", "'"))
    ensures !PlainPart(KeyValue("b", "'"))
    ensures LegacyPart(KeyValue("b", "'"), false) == "[b=']"
    ensures PartText(KeyValue("b", "'")) == "[?(.b == ''')]"
  {
    hide EscapeDots, IsInteger, PlainName;
    Letter("a");
    NoDots("b");
    assert "'"[0] == '\'' && '\'' in "'";
    assert "[" + ("b" + "=" + "'") + "]" == "[b=']";
    assert "[?(." + "b" + " == '" + "'" + "')]" == "[?(.b == ''')]";
  }

  const MISREAD := [Name("a"), DottedIndex("0"), BracketIndex("1")]

  /** A dotted index right before a bracket is taken for a name. */
  lemma {:induction false} DottedIndexFails()
    ensures PathParts(MISREAD) && !AllFaithful(MISREAD)
    ensures PlainPart(Name("a")) && PlainPart(DottedIndex("0")) && PlainPart(BracketIndex("1"))
    ensures ConvertPath("a.0[1]") == Ok("{.a.0[1]}")
  {
    MisreadWellFormed();
    MisreadTexts();
    hide ConvertPath, PathParts, LegacyText, Rendered, PlainPart;
    assert Misread(MISREAD[1..]) && !Faithful(MISREAD[1..]);
    ConversionRenders(MISREAD);
    assert "{" + ".a.0[1]" + "}" == "{.a.0[1]}";
  }

  lemma MisreadWellFormed()
    ensures PathParts(MISREAD)
    ensures PlainPart(Name("a")) && PlainPart(DottedIndex("0")) && PlainPart(BracketIndex("1"))
  {
    Letter("a");
    OneDigit('0');
    OneDigit('1');
    hide IsInteger, StartsWith;
    assert WellFormed(Name("a")) && PlainPart(Name("a"));
    assert "0" == ['0'] && "1" == ['1'];
    hide WellFormed, PlainName;
  }

  lemma MisreadTexts()
    ensures LegacyText(MISREAD, true) == "a.0[1]" && Rendered(MISREAD) == ".a.0[1]"
  {
    var tail := [DottedIndex("0"), BracketIndex("1")];
    assert MISREAD[1..] == tail && tail[1..] == [BracketIndex("1")];
    OnePart(BracketIndex("1"));
    assert "[" + "1" + "]" == "[1]" && "." + "0" + "[1]" == ".0[1]";
    assert LegacyText(tail, false) == ".0[1]" && Rendered(tail) == ".0[1]";
    assert "" + "a" + ".0[1]" == "a.0[1]" && "." + "a" + ".0[1]" == ".a.0[1]";
  }

  lemma OneDigit(c: char)
    requires IsDigit(c)
    ensures WellFormed(DottedIndex([c])) && WellFormed(BracketIndex([c])) && !StartsWith([c], "+")
  {
    assert DigitsValue([c]) == c as int - '0' as int by { assert [c][..0] == ""; }
    assert |[c]| >= 1 ==> [c][..1][0] == c;
    assert "+"[0] == '+';
  }
}
