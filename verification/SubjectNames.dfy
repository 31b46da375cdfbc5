/** Subject names and their textual form (nameFromString and nameFromDn in crypto.go). */
module SubjectNames {
  import opened Wrappers
  import opened GoStrings
  import opened DistinguishedNames

  datatype Attribute = CN | SERIALNUMBER | C | O | OU | L | ST | STREET | POSTALCODE

  datatype Name = Name(
    commonName: string, serialNumber: string,
    country: seq<string>, organization: seq<string>, organizationalUnit: seq<string>,
    locality: seq<string>, province: seq<string>, streetAddress: seq<string>, postalCode: seq<string>)

  const NO_NAME := Name("", "", [], [], [], [], [], [], [])

  /** Crash stands for the slice out of range on the empty string. */
  datatype NameError = ParseFailed(e: DnError) | NotKeyValue | AlreadySet | Unsupported | Crash

  function KeyText(a: Attribute): string {
    match a
    case CN => "CN" case SERIALNUMBER => "SERIALNUMBER" case C => "C" case O => "O" case OU => "OU"
    case L => "L" case ST => "ST" case STREET => "STREET" case POSTALCODE => "POSTALCODE"
  }

  function AttributeOf(key: string): Option<Attribute> {
    if key == "CN" then Some(CN) else if key == "SERIALNUMBER" then Some(SERIALNUMBER)
    else if key == "C" then Some(C) else if key == "O" then Some(O) else if key == "OU" then Some(OU)
    else if key == "L" then Some(L) else if key == "ST" then Some(ST) else if key == "STREET" then Some(STREET)
    else if key == "POSTALCODE" then Some(POSTALCODE) else None
  }

  function Add(n: Name, a: Attribute, v: string): Result<Name, NameError> {
    match a
    case CN => if n.commonName != "" then Err(AlreadySet) else Ok(n.(commonName := v))
    case SERIALNUMBER => if n.serialNumber != "" then Err(AlreadySet) else Ok(n.(serialNumber := v))
    case C => Ok(n.(country := n.country + [v]))
    case O => Ok(n.(organization := n.organization + [v]))
    case OU => Ok(n.(organizationalUnit := n.organizationalUnit + [v]))
    case L => Ok(n.(locality := n.locality + [v]))
    case ST => Ok(n.(province := n.province + [v]))
    case STREET => Ok(n.(streetAddress := n.streetAddress + [v]))
    case POSTALCODE => Ok(n.(postalCode := n.postalCode + [v]))
  }

  function AddText(n: Name, text: string): Result<Name, NameError> {
    var sv := Split(text, '=');
    if |sv| != 2 then Err(NotKeyValue)
    else if AttributeOf(sv[0]).None? then Err(Unsupported)
    else Add(n, AttributeOf(sv[0]).value, sv[1])
  }

  function AddTexts(n: Name, dn: seq<string>): Result<Name, NameError>
    decreases |dn|
  {
    if dn == [] then Ok(n) else
    match AddText(n, dn[0])
    case Ok(next) => AddTexts(next, dn[1..])
    case Err(e) => Err(e)
  }

  method NameFromDn(dn: seq<string>) returns (r: Result<Name, NameError>)
    ensures r == AddTexts(NO_NAME, dn)
  {
    var name := NO_NAME;
    for i := 0 to |dn|
      invariant AddTexts(NO_NAME, dn) == AddTexts(name, dn[i..])
    {
      assert dn[i..][0] == dn[i] && dn[i..][1..] == dn[i + 1..];
      var sv := Split(dn[i], '=');
      if |sv| != 2 {
        return Err(NotKeyValue);
      }
      if AttributeOf(sv[0]).None? {
        return Err(Unsupported);
      }
      var next := Add(name, AttributeOf(sv[0]).value, sv[1]);
      if next.Err? {
        return next;
      }
      name := next.value;
    }
    return Ok(name);
  }

  function NameOf(s: string): Result<Name, NameError> {
    if s == "" then Err(Crash)
    else if s[0] != '/' then Ok(NO_NAME.(commonName := s))
    else if s[1..] == "" then Ok(NO_NAME)
    else
      match ParseDn(s[1..])
      case Ok(dn) => AddTexts(NO_NAME, dn)
      case Err(e) => Err(ParseFailed(e))
  }

  lemma {:induction false} AddTextsNeverCrash(n: Name, dn: seq<string>)
    ensures AddTexts(n, dn) != Err(Crash)
    decreases |dn|
  {
    if dn != [] && AddText(n, dn[0]).Ok? {
      AddTextsNeverCrash(AddText(n, dn[0]).value, dn[1..]);
    }
  }

  /** Only the empty string crashes. */
  lemma {:induction false} CrashIffEmpty(s: string)
    ensures NameOf(s) == Err(Crash) <==> s == ""
  {
    if s != "" && ParseDn(s[1..]).Ok? {
      AddTextsNeverCrash(NO_NAME, ParseDn(s[1..]).value);
    }
  }

  method NameFromString(s: string) returns (r: Result<Name, NameError>)
    ensures r == NameOf(s)
    ensures r == Err(Crash) <==> s == ""
  {
    CrashIffEmpty(s);
    if s == "" {
      return Err(Crash);
    }
    if s[0] != '/' {
      return Ok(NO_NAME.(commonName := s));
    }
    if |s[1..]| == 0 {
      return Ok(NO_NAME.(commonName := s[1..]));
    }
    var p := new DnParser();
    var err := p.Parse(s[1..]);
    if err.Some? {
      return Err(ParseFailed(err.value));
    }
    r := NameFromDn(p.dn);
  }

  // ----- Printing a name -----

  datatype Entry = Entry(attribute: Attribute, value: string)

  function ListEntries(a: Attribute, values: seq<string>): seq<Entry> {
    if values == [] then [] else [Entry(a, values[0])] + ListEntries(a, values[1..])
  }

  function Entries(n: Name): seq<Entry> {
    (if n.commonName == "" then [] else [Entry(CN, n.commonName)])
    + (if n.serialNumber == "" then [] else [Entry(SERIALNUMBER, n.serialNumber)])
    + ListEntries(C, n.country) + ListEntries(O, n.organization) + ListEntries(OU, n.organizationalUnit)
    + ListEntries(L, n.locality) + ListEntries(ST, n.province) + ListEntries(STREET, n.streetAddress)
    + ListEntries(POSTALCODE, n.postalCode)
  }

  function PairOf(e: Entry): Pair { Pair(KeyText(e.attribute), e.value) }

  function ItemsOf(es: seq<Entry>): seq<Item> {
    if es == [] then [] else [Item('/', PairOf(es[0]))] + ItemsOf(es[1..])
  }

  /** The form "/K=v/K=v..." of a list of entries. */
  function PrintEntries(es: seq<Entry>): string {
    if es == [] then "/" else PrintItems(ItemsOf(es))
  }

  function PrintName(n: Name): string { PrintEntries(Entries(n)) }

  /** No value holds a backslash or an equals sign. */
  predicate PlainEntries(es: seq<Entry>) {
    forall e :: e in es ==> '\\' !in e.value && '=' !in e.value
  }

  // ----- Plain names survive the round trip -----

  function AddEntries(n: Name, es: seq<Entry>): Result<Name, NameError>
    decreases |es|
  {
    if es == [] then Ok(n) else
    match Add(n, es[0].attribute, es[0].value)
    case Ok(next) => AddEntries(next, es[1..])
    case Err(e) => Err(e)
  }

  lemma {:induction false} AddEntriesAppend(n: Name, es: seq<Entry>, fs: seq<Entry>)
    ensures AddEntries(n, es + fs) ==
              match AddEntries(n, es) { case Ok(m) => AddEntries(m, fs) case Err(e) => Err(e) }
    decreases |es|
  {
    if es == [] {
      assert es + fs == fs;
    } else {
      assert (es + fs)[1..] == es[1..] + fs;
      var next := Add(n, es[0].attribute, es[0].value);
      if next.Ok? {
        AddEntriesAppend(next.value, es[1..], fs);
      }
    }
  }

  function Values(n: Name, a: Attribute): seq<string>
    requires a != CN && a != SERIALNUMBER
  {
    match a
    case C => n.country case O => n.organization case OU => n.organizationalUnit case L => n.locality
    case ST => n.province case STREET => n.streetAddress case POSTALCODE => n.postalCode
  }

  function WithValues(n: Name, a: Attribute, vs: seq<string>): Name
    requires a != CN && a != SERIALNUMBER
  {
    match a
    case C => n.(country := vs) case O => n.(organization := vs) case OU => n.(organizationalUnit := vs)
    case L => n.(locality := vs) case ST => n.(province := vs) case STREET => n.(streetAddress := vs)
    case POSTALCODE => n.(postalCode := vs)
  }

  lemma {:induction false} AddList(n: Name, a: Attribute, vs: seq<string>)
    requires a != CN && a != SERIALNUMBER
    ensures AddEntries(n, ListEntries(a, vs)) == Ok(WithValues(n, a, Values(n, a) + vs))
    decreases |vs|
  {
    if vs == [] {
      assert Values(n, a) + vs == Values(n, a);
    } else {
      var m := Add(n, a, vs[0]).value;
      assert Values(m, a) + vs[1..] == Values(n, a) + vs;
      AddList(m, a, vs[1..]);
    }
  }

  /** Appending the list of one more attribute. */
  lemma {:induction false} AddListAfter(es: seq<Entry>, n: Name, a: Attribute, vs: seq<string>)
    requires a != CN && a != SERIALNUMBER
    requires AddEntries(NO_NAME, es) == Ok(n) && Values(n, a) == []
    ensures AddEntries(NO_NAME, es + ListEntries(a, vs)) == Ok(WithValues(n, a, vs))
  {
    AddEntriesAppend(NO_NAME, es, ListEntries(a, vs));
    AddList(n, a, vs);
    assert [] + vs == vs;
  }

  lemma {:induction false} EntriesRebuild(n: Name)
    ensures AddEntries(NO_NAME, Entries(n)) == Ok(n)
  {
    var e0 := if n.commonName == "" then [] else [Entry(CN, n.commonName)];
    var e1 := if n.serialNumber == "" then [] else [Entry(SERIALNUMBER, n.serialNumber)];
    AddEntriesAppend(NO_NAME, e0, e1);
    var n1 := NO_NAME.(commonName := n.commonName);
    assert AddEntries(NO_NAME, e0) == Ok(n1);
    var n2 := n1.(serialNumber := n.serialNumber);
    assert AddEntries(n1, e1) == Ok(n2);
    var es := e0 + e1;
    AddListAfter(es, n2, C, n.country);
    var n3 := n2.(country := n.country);
    var es3 := es + ListEntries(C, n.country);
    AddListAfter(es3, n3, O, n.organization);
    var n4 := n3.(organization := n.organization);
    var es4 := es3 + ListEntries(O, n.organization);
    AddListAfter(es4, n4, OU, n.organizationalUnit);
    var n5 := n4.(organizationalUnit := n.organizationalUnit);
    var es5 := es4 + ListEntries(OU, n.organizationalUnit);
    AddListAfter(es5, n5, L, n.locality);
    var n6 := n5.(locality := n.locality);
    var es6 := es5 + ListEntries(L, n.locality);
    AddListAfter(es6, n6, ST, n.province);
    var n7 := n6.(province := n.province);
    var es7 := es6 + ListEntries(ST, n.province);
    AddListAfter(es7, n7, STREET, n.streetAddress);
    var n8 := n7.(streetAddress := n.streetAddress);
    var es8 := es7 + ListEntries(STREET, n.streetAddress);
    AddListAfter(es8, n8, POSTALCODE, n.postalCode);
  }

  lemma KeysReadBack(a: Attribute)
    ensures AttributeOf(KeyText(a)) == Some(a)
    ensures KeyText(a) != "" && forall r :: r in KeyText(a) ==> 'A' <= r <= 'Z'
  {
  }

  lemma {:induction false} AddTextOfEntry(n: Name, e: Entry)
    ensures '=' !in e.value ==> AddText(n, Text(PairOf(e))) == Add(n, e.attribute, e.value)
    ensures '=' in e.value ==> AddText(n, Text(PairOf(e))).Err?
  {
    KeysReadBack(e.attribute);
    SplitAt(KeyText(e.attribute), e.value, '=');
    SplitWhole(e.value, '=');
  }

  lemma {:induction false} AddTextsOfEntries(n: Name, es: seq<Entry>)
    ensures (forall e :: e in es ==> '=' !in e.value) ==> AddTexts(n, Texts(ItemsOf(es))) == AddEntries(n, es)
    ensures (exists e :: e in es && '=' in e.value) ==> AddTexts(n, Texts(ItemsOf(es))).Err?
    decreases |es|
  {
    if es != [] {
      var texts := Texts(ItemsOf(es));
      assert ItemsOf(es)[1..] == ItemsOf(es[1..]);
      assert texts[0] == Text(PairOf(es[0])) && texts[1..] == Texts(ItemsOf(es[1..]));
      assert forall e :: e in es <==> e == es[0] || e in es[1..];
      AddTextOfEntry(n, es[0]);
      var next := Add(n, es[0].attribute, es[0].value);
      if next.Ok? {
        AddTextsOfEntries(next.value, es[1..]);
      }
    }
  }

  lemma {:induction false} ItemsPlain(es: seq<Entry>)
    requires forall e :: e in es ==> '\\' !in e.value
    ensures forall x :: x in ItemsOf(es) ==> Plain(x.pair) && x.separator == '/'
    decreases |es|
  {
    if es != [] {
      KeysReadBack(es[0].attribute);
      ItemsPlain(es[1..]);
    }
  }

  /** Entries without backslashes are parsed back as they are. */
  lemma {:induction false} ParseEntries(es: seq<Entry>)
    requires es != [] && forall e :: e in es ==> '\\' !in e.value
    ensures ParseDn(PrintEntries(es)[1..]) == Ok(Texts(ItemsOf(es)))
  {
    hide Escape, PrintPair, KeyText, ParseDn;
    ItemsPlain(es);
    var items := ItemsOf(es);
    assert items[0] in items && items[1..] == ItemsOf(es[1..]);
    assert PrintItems(items)[1..] == PrintDn(items[0].pair, items[1..]);
    ParsePrinted(items[0].pair, items[1..]);
  }

  // ----- A backslash in a value always makes parsing fail -----

  /** What may follow a value: nothing, or the next entry. */
  ghost predicate Follows(rest: string) {
    rest == "" || exists k: string, more ::
      rest == "/" + (Escape(k) + ("=" + more)) && '\\' !in k
  }

  lemma {:induction false} BackslashFails(p: Scanner, v: string, rest: string)
    requires p.phase == Value && '\\' in v && Follows(rest)
    ensures Scan(p, Escape(v) + rest).Err?
    decreases |v|
  {
    if v[0] != '\\' {
      hide EscapeChar, Scan, Follows, SPECIALS;
      assert Escape(v) + rest == EscapeChar(v[0]) + (Escape(v[1..]) + rest);
      ScanChar(p, v[0], Escape(v[1..]) + rest);
      assert '\\' in v[1..];
      BackslashFails(p.(cur := p.cur + [v[0]]), v[1..], rest);
    } else if v[1..] != "" {
      BadEscapeFails(p, v, rest);
    } else if rest == "" {
      assert (Escape(v) + rest)[1..] == "";
      assert Advance(p, '\\') == Ok(p.(phase := ValueEscape));
    } else {
      SwallowedSlashFails(p, v, rest);
    }
  }

  lemma {:induction false} BadEscapeFails(p: Scanner, v: string, rest: string)
    requires p.phase == Value && |v| > 1 && v[0] == '\\'
    ensures Scan(p, Escape(v) + rest).Err?
  {
  }

  lemma {:induction false} SwallowedSlashFails(p: Scanner, v: string, rest: string)
    requires p.phase == Value && v == "\\" && Follows(rest) && rest != ""
    ensures Scan(p, Escape(v) + rest).Err?
  {
    var k: string, more :| rest == "/" + (Escape(k) + ("=" + more)) && '\\' !in k;
    var s := Escape(v) + rest;
    EscapeCons('\\', "");
    assert "\\" + "" == "\\" && s == "\\" + rest && s[1..] == rest && rest[1..] == Escape(k) + ("=" + more);
    var q := p.(phase := ValueEscape);
    var q' := p.(cur := p.cur + ['/']);
    assert Advance(p, s[0]) == Ok(q) && Advance(q, rest[0]) == Ok(q');
    assert Scan(p, s) == Scan(q, rest) == Scan(q', rest[1..]);
    ScanEscaped(q', k, "=" + more);
    assert Advance(q'.(cur := q'.cur + k), '=') == Err(ExtraEquals);
  }

  lemma {:induction false} ItemsFollow(es: seq<Entry>)
    ensures Follows(PrintItems(ItemsOf(es)))
  {
    if es != [] {
      KeysReadBack(es[0].attribute);
      var k, v := KeyText(es[0].attribute), es[0].value;
      var more := Escape(v) + PrintItems(ItemsOf(es[1..]));
      assert ItemsOf(es)[1..] == ItemsOf(es[1..]);
      AfterSlash(Escape(k), Escape(v), PrintItems(ItemsOf(es[1..])));
    }
  }

  lemma AfterSlash(k: string, v: string, rest: string)
    ensures ['/'] + (k + "=" + v) + rest == "/" + (k + ("=" + (v + rest)))
  {
  }

  lemma {:induction false} ParseBackslash(cur: string, dn: seq<string>, es: seq<Entry>)
    requires exists e :: e in es && '\\' in e.value
    ensures Scan(Scanner(Value, cur, dn), PrintItems(ItemsOf(es))).Err?
    ensures Scan(Scanner(Param, "", dn), PrintItems(ItemsOf(es))[1..]).Err?
    decreases |es|
  {
    hide PrintItems, ItemsOf, PrintPair;
    var s, pair := PrintItems(ItemsOf(es)), PrintPair(PairOf(es[0]));
    EntriesText(es);
    assert s[0] == '/' && s[1..] == pair + PrintItems(ItemsOf(es[1..]));
    ParseBackslashAfter(dn, es);
    ParseBackslashAfter(dn + [cur], es);
    assert Advance(Scanner(Value, cur, dn), s[0]) == Ok(Scanner(Param, "", dn + [cur]));
    assert Scan(Scanner(Value, cur, dn), s) == Scan(Scanner(Param, "", dn + [cur]), s[1..]);
  }

  lemma EntriesText(es: seq<Entry>)
    requires es != []
    ensures PrintItems(ItemsOf(es)) == ['/'] + (PrintPair(PairOf(es[0])) + PrintItems(ItemsOf(es[1..])))
  {
    var items := ItemsOf(es);
    assert items[0] == Item('/', PairOf(es[0])) && items[1..] == ItemsOf(es[1..]);
    hide ItemsOf, PrintPair;
    Assoc(['/'], PrintPair(PairOf(es[0])), PrintItems(items[1..]));
  }

  lemma {:induction false} ParseBackslashAfter(dn: seq<string>, es: seq<Entry>)
    requires exists e :: e in es && '\\' in e.value
    ensures Scan(Scanner(Param, "", dn), PrintPair(PairOf(es[0])) + PrintItems(ItemsOf(es[1..]))).Err?
    decreases |es|, 0
  {
    hide Scan, PrintPair, PrintItems, ItemsOf, Follows, KeyText;
    var e, rest := es[0], PrintItems(ItemsOf(es[1..]));
    KeysReadBack(e.attribute);
    if '\\' !in e.value {
      ScanPair(dn, PairOf(e), rest);
      assert exists f :: f in es[1..] && '\\' in f.value by {
        var f :| f in es && '\\' in f.value;
        assert f in es[1..];
      }
      ParseBackslash(Text(PairOf(e)), dn, es[1..]);
    } else {
      ItemsFollow(es[1..]);
      EntryFails(dn, e, rest);
    }
  }

  lemma {:induction false} EntryFails(dn: seq<string>, e: Entry, rest: string)
    requires '\\' in e.value && Follows(rest)
    ensures Scan(Scanner(Param, "", dn), PrintPair(PairOf(e)) + rest).Err?
  {
    hide Escape, Follows, KeyText, SPECIALS;
    var k, v := KeyText(e.attribute), Escape(e.value);
    KeysReadBack(e.attribute);
    var after := "=" + (v + rest);
    Assoc(Escape(k) + "=", v, rest);
    Assoc(Escape(k), "=", v + rest);
    ScanEscaped(Scanner(Param, "", dn), k, after);
    assert "" + k == k && after[1..] == v + rest;
    ScanStep(Scanner(Param, k, dn), after, Scanner(Value, k + "=", dn));
    hide Scan;
    BackslashFails(Scanner(Value, k + "=", dn), e.value, rest);
  }

  /**
   * Printing a name and reading it back gives the same name exactly when no
   * value holds a backslash or an equals sign; any other name is refused.
   */
  lemma {:induction false} NameRoundTrip(n: Name)
    ensures PlainEntries(Entries(n)) ==> NameOf(PrintName(n)) == Ok(n)
    ensures !PlainEntries(Entries(n)) ==> NameOf(PrintName(n)).Err?
  {
    var es := Entries(n);
    EntriesRebuild(n);
    if es != [] {
      assert PrintName(n)[0] == '/';
      assert PrintName(n)[1..] != "" by {
        assert ItemsOf(es)[1..] == ItemsOf(es[1..]);
        assert PrintPair(PairOf(es[0])) != "";
      }
      if exists e :: e in es && '\\' in e.value {
        ParseBackslash("", [], es);
      } else {
        ParseEntries(es);
        AddTextsOfEntries(NO_NAME, es);
      }
    }
  }
}
