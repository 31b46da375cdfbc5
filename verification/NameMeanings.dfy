/** Which strings name a subject, and what they say of it (nameFromString in crypto.go). */
module NameMeanings {
  import opened Wrappers
  import opened GoStrings
  import opened DistinguishedNames
  import opened SubjectNames

  // ----- Entries -----

  /** The values that the entries give for attribute a, in order. */
  function ValuesOf(es: seq<Entry>, a: Attribute): seq<string> {
    if es == [] then []
    else (if es[0].attribute == a then [es[0].value] else []) + ValuesOf(es[1..], a)
  }

  /** A value once set stays: only the last one may be other than empty. */
  predicate SetOnce(vs: seq<string>) { forall i :: 0 <= i < |vs| - 1 ==> vs[i] == "" }

  function LastOf(vs: seq<string>): string { if vs == [] then "" else vs[|vs| - 1] }

  /** n holds what the entries say, and they set each single value once. */
  ghost predicate Says(es: seq<Entry>, n: Name) {
    && SetOnce(ValuesOf(es, CN)) && SetOnce(ValuesOf(es, SERIALNUMBER))
    && n == Name(LastOf(ValuesOf(es, CN)), LastOf(ValuesOf(es, SERIALNUMBER)), ValuesOf(es, C), ValuesOf(es, O),
                 ValuesOf(es, OU), ValuesOf(es, L), ValuesOf(es, ST), ValuesOf(es, STREET), ValuesOf(es, POSTALCODE))
  }

  /** The same, for entries added to a name that has values already. */
  ghost predicate SaysAfter(before: Name, es: seq<Entry>, n: Name) {
    && SetOnce([before.commonName] + ValuesOf(es, CN)) && SetOnce([before.serialNumber] + ValuesOf(es, SERIALNUMBER))
    && n == Name(
         LastOf([before.commonName] + ValuesOf(es, CN)), LastOf([before.serialNumber] + ValuesOf(es, SERIALNUMBER)),
         before.country + ValuesOf(es, C), before.organization + ValuesOf(es, O),
         before.organizationalUnit + ValuesOf(es, OU), before.locality + ValuesOf(es, L),
         before.province + ValuesOf(es, ST), before.streetAddress + ValuesOf(es, STREET),
         before.postalCode + ValuesOf(es, POSTALCODE))
  }

  lemma {:induction false} AddEntriesMeans(before: Name, es: seq<Entry>, n: Name)
    ensures AddEntries(before, es) == Ok(n) <==> SaysAfter(before, es, n)
    decreases |es|
  {
    if es == [] {
      NothingSaid(before);
    } else {
      var next := Add(before, es[0].attribute, es[0].value);
      if next.Ok? {
        AddEntriesMeans(next.value, es[1..], n);
        NextSaid(before, es, n);
      } else {
        SetTwice(before, es, n);
      }
    }
  }

  lemma NothingSaid(before: Name)
    ensures forall n :: SaysAfter(before, [], n) <==> n == before
  {
    var v := before;
    assert v.country + [] == v.country && v.organization + [] == v.organization;
    assert v.organizationalUnit + [] == v.organizationalUnit && v.locality + [] == v.locality;
    assert v.province + [] == v.province && v.streetAddress + [] == v.streetAddress;
    assert v.postalCode + [] == v.postalCode;
  }

  lemma FirstValue(es: seq<Entry>, a: Attribute, vs: seq<string>)
    requires es != []
    ensures es[0].attribute == a ==> ValuesOf(es, a) == [es[0].value] + ValuesOf(es[1..], a)
    ensures es[0].attribute == a ==> vs + ValuesOf(es, a) == vs + [es[0].value] + ValuesOf(es[1..], a)
    ensures es[0].attribute != a ==> ValuesOf(es, a) == ValuesOf(es[1..], a)
  {
    var v, rest := es[0].value, ValuesOf(es[1..], a);
    var front: seq<string> := if es[0].attribute == a then [v] else [];
    assert ValuesOf(es, a) == front + rest;
    assert vs + (front + rest) == vs + front + rest;
    assert front == [] ==> front + rest == rest;
  }

  /** A single value that is empty may be set; one that is not keeps out any other. */
  lemma SetOnceStep(first: string, second: string, rest: seq<string>)
    ensures SetOnce([first] + ([second] + rest)) <==> first == "" && SetOnce([second] + rest)
    ensures LastOf([first] + ([second] + rest)) == LastOf([second] + rest)
  {
    var vs, ws := [first] + ([second] + rest), [second] + rest;
    assert vs[0] == first && vs[|vs| - 1] == ws[|ws| - 1];
    assert forall i :: 0 <= i < |ws| ==> vs[i + 1] == ws[i];
    assert forall i :: 0 < i < |vs| ==> vs[i] == ws[i - 1];
    hide LastOf;
  }

  lemma NextSaid(before: Name, es: seq<Entry>, n: Name)
    requires es != [] && Add(before, es[0].attribute, es[0].value).Ok?
    ensures SaysAfter(before, es, n) <==> SaysAfter(Add(before, es[0].attribute, es[0].value).value, es[1..], n)
  {
    var v := es[0].value;
    FirstValue(es, CN, []);
    FirstValue(es, SERIALNUMBER, []);
    SetOnceStep(before.commonName, v, ValuesOf(es[1..], CN));
    SetOnceStep(before.serialNumber, v, ValuesOf(es[1..], SERIALNUMBER));
    FirstValue(es, C, before.country);
    FirstValue(es, O, before.organization);
    FirstValue(es, OU, before.organizationalUnit);
    FirstValue(es, L, before.locality);
    FirstValue(es, ST, before.province);
    FirstValue(es, STREET, before.streetAddress);
    FirstValue(es, POSTALCODE, before.postalCode);
    hide ValuesOf, SetOnce, LastOf;
  }

  lemma SetTwice(before: Name, es: seq<Entry>, n: Name)
    requires es != [] && Add(before, es[0].attribute, es[0].value).Err?
    ensures !SaysAfter(before, es, n)
  {
    hide ValuesOf, SetOnce, LastOf;
    FirstValue(es, es[0].attribute, []);
    SetOnceStep(before.commonName, es[0].value, ValuesOf(es[1..], CN));
    SetOnceStep(before.serialNumber, es[0].value, ValuesOf(es[1..], SERIALNUMBER));
  }

  lemma {:induction false} EntriesMean(es: seq<Entry>, n: Name)
    ensures AddEntries(NO_NAME, es) == Ok(n) <==> Says(es, n)
  {
    AddEntriesMeans(NO_NAME, es, n);
    FromNothing(ValuesOf(es, CN));
    FromNothing(ValuesOf(es, SERIALNUMBER));
    assert [] + ValuesOf(es, C) == ValuesOf(es, C) && [] + ValuesOf(es, O) == ValuesOf(es, O);
    assert [] + ValuesOf(es, OU) == ValuesOf(es, OU) && [] + ValuesOf(es, L) == ValuesOf(es, L);
    assert [] + ValuesOf(es, ST) == ValuesOf(es, ST) && [] + ValuesOf(es, STREET) == ValuesOf(es, STREET);
    assert [] + ValuesOf(es, POSTALCODE) == ValuesOf(es, POSTALCODE);
  }

  lemma FromNothing(vs: seq<string>)
    ensures SetOnce([""] + vs) <==> SetOnce(vs)
    ensures LastOf([""] + vs) == LastOf(vs)
  {
    assert forall i :: 0 <= i < |vs| ==> ([""] + vs)[i + 1] == vs[i];
    assert forall i :: 0 < i <= |vs| ==> ([""] + vs)[i] == vs[i - 1];
  }

  // ----- Pairs -----

  /** The pairs are those of the entries, and no value holds an equals sign. */
  ghost predicate Spells(pairs: seq<Pair>, es: seq<Entry>) {
    |pairs| == |es| && forall i :: 0 <= i < |es| ==> pairs[i] == PairOf(es[i]) && '=' !in es[i].value
  }

  function PairTexts(pairs: seq<Pair>): seq<string> {
    if pairs == [] then [] else [Text(pairs[0])] + PairTexts(pairs[1..])
  }

  lemma KeyMeans(key: string, a: Attribute)
    ensures AttributeOf(key) == Some(a) <==> key == KeyText(a)
  {
  }

  /** One pair is taken if its key is that of an attribute and its value holds no equals sign. */
  lemma {:induction false} PairTaken(n: Name, p: Pair)
    ensures AddText(n, Text(p)).Ok? ==> AttributeOf(p.key).Some? && '=' !in p.value
    ensures AttributeOf(p.key).Some? && '=' !in p.value ==>
              AddText(n, Text(p)) == Add(n, AttributeOf(p.key).value, p.value)
  {
    if '=' !in p.key {
      SplitAt(p.key, p.value, '=');
      SplitWhole(p.value, '=');
    } else {
      TwoEquals(p.key, p.value);
    }
    if AttributeOf(p.key).Some? {
      KeyMeans(p.key, AttributeOf(p.key).value);
      KeysReadBack(AttributeOf(p.key).value);
    }
  }

  /** Why one pair is refused. */
  lemma {:induction false} PairFails(n: Name, p: Pair)
    ensures AddText(n, Text(p)) == Err(NotKeyValue) <==> '=' in p.key || '=' in p.value
    ensures AddText(n, Text(p)) == Err(Unsupported) <==>
            '=' !in p.key && '=' !in p.value && forall a :: KeyText(a) != p.key
    ensures AddText(n, Text(p)) == Err(AlreadySet) <==>
            '=' !in p.value &&
            ((p.key == "CN" && n.commonName != "") || (p.key == "SERIALNUMBER" && n.serialNumber != ""))
  {
    if '=' !in p.key {
      SplitAt(p.key, p.value, '=');
      SplitWhole(p.value, '=');
    } else {
      TwoEquals(p.key, p.value);
    }
    KnownKey(p.key);
    hide Split, AttributeOf, KeyText;
  }

  lemma KnownKey(key: string)
    ensures AttributeOf(key).None? <==> forall a :: KeyText(a) != key
    ensures AttributeOf(key).Some? ==> '=' !in key
    ensures AttributeOf(key) == Some(CN) <==> key == "CN"
    ensures AttributeOf(key) == Some(SERIALNUMBER) <==> key == "SERIALNUMBER"
  {
    forall a ensures AttributeOf(key) == Some(a) <==> key == KeyText(a) { KeyMeans(key, a); }
    if AttributeOf(key).Some? {
      KeysReadBack(AttributeOf(key).value);
    }
    KeysReadBack(CN);
    hide AttributeOf;
  }

  lemma {:induction false} TwoEquals(k: string, v: string)
    requires '=' in k
    ensures |Split(k + "=" + v, '=')| > 2
    decreases |k|
  {
    var s := k + "=" + v;
    assert s[1..] == k[1..] + "=" + v;
    if k[0] == '=' {
      if '=' in k[1..] {
        TwoEquals(k[1..], v);
      } else {
        SplitAt(k[1..], v, '=');
      }
    } else {
      TwoEquals(k[1..], v);
    }
  }

  lemma {:induction false} PairsMean(before: Name, pairs: seq<Pair>, n: Name)
    ensures AddTexts(before, PairTexts(pairs)) == Ok(n) <==>
            exists es :: Spells(pairs, es) && AddEntries(before, es) == Ok(n)
    decreases |pairs|
  {
    hide AttributeOf, Add, AddText, Text, KeyText;
    if pairs == [] {
      assert Spells(pairs, []);
    } else {
      var p := pairs[0];
      PairTaken(before, p);
      if AttributeOf(p.key).Some? && '=' !in p.value {
        var a := AttributeOf(p.key).value;
        KeyMeans(p.key, a);
        var next := Add(before, a, p.value);
        if next.Ok? {
          PairsMean(next.value, pairs[1..], n);
          FirstEntry(before, pairs, n, a);
        } else {
          forall es | Spells(pairs, es) ensures AddEntries(before, es).Err? { KeyOfFirst(pairs, es); }
        }
      } else {
        forall es ensures !Spells(pairs, es) { KeyOfFirst(pairs, es); }
      }
    }
  }

  lemma KeyOfFirst(pairs: seq<Pair>, es: seq<Entry>)
    requires pairs != []
    ensures Spells(pairs, es) ==> AttributeOf(pairs[0].key) == Some(es[0].attribute) && '=' !in pairs[0].value
    ensures Spells(pairs, es) ==> es[0].value == pairs[0].value && Spells(pairs[1..], es[1..])
  {
    if es != [] {
      KeyMeans(pairs[0].key, es[0].attribute);
    }
  }

  lemma FirstEntry(before: Name, pairs: seq<Pair>, n: Name, a: Attribute)
    requires pairs != [] && pairs[0].key == KeyText(a) && '=' !in pairs[0].value
    requires Add(before, a, pairs[0].value).Ok?
    ensures (exists es :: Spells(pairs, es) && AddEntries(before, es) == Ok(n)) <==>
            exists es :: Spells(pairs[1..], es) && AddEntries(Add(before, a, pairs[0].value).value, es) == Ok(n)
  {
    hide AttributeOf, Add, KeyText;
    var e := Entry(a, pairs[0].value);
    KeyMeans(pairs[0].key, a);
    forall es | Spells(pairs, es) && AddEntries(before, es) == Ok(n)
      ensures Spells(pairs[1..], es[1..]) && AddEntries(Add(before, a, pairs[0].value).value, es[1..]) == Ok(n)
    {
      KeyOfFirst(pairs, es);
    }
    forall es | Spells(pairs[1..], es) && AddEntries(Add(before, a, pairs[0].value).value, es) == Ok(n)
      ensures Spells(pairs, [e] + es) && AddEntries(before, [e] + es) == Ok(n)
    {
      assert ([e] + es)[1..] == es;
    }
  }

  // ----- Strings -----

  function PairsOf(items: seq<Item>): seq<Pair> {
    if items == [] then [] else [items[0].pair] + PairsOf(items[1..])
  }

  lemma {:induction false} TextsOfPairs(items: seq<Item>)
    ensures PairTexts(PairsOf(items)) == Texts(items)
  {
    if items != [] {
      TextsOfPairs(items[1..]);
      assert PairsOf(items)[1..] == PairsOf(items[1..]);
    }
  }

  /** s is a slash and a printed list of pairs that spell entries which say n. */
  ghost predicate Denoted(s: string, n: Name) {
    exists first, items, es ::
      && Printable(first, items) && s == "/" + PrintDn(first, items)
      && Spells([first] + PairsOf(items), es) && Says(es, n)
  }

  /** Which strings are accepted, and as which name. */
  lemma {:induction false} NameAccepts(s: string, n: Name)
    ensures NameOf(s) == Ok(n) <==>
            || (s != "" && s[0] != '/' && n == NO_NAME.(commonName := s))
            || (s == "/" && n == NO_NAME)
            || Denoted(s, n)
  {
    StartsWithSlash(s, n);
    if s != "" && s[0] == '/' {
      assert s == "/" + s[1..];
      SlashAccepts(s, n);
    }
  }

  lemma StartsWithSlash(s: string, n: Name)
    ensures Denoted(s, n) ==> s != "" && s[0] == '/'
  {
  }

  lemma {:induction false} SlashAccepts(s: string, n: Name)
    requires s != "" && s[0] == '/' && s == "/" + s[1..]
    ensures NameOf(s) == Ok(n) <==> (s == "/" && n == NO_NAME) || Denoted(s, n)
  {
    hide ParseDn, Printable, PrintDn, Says, Spells, AddTexts, AddEntries;
    var dn := s[1..];
    ParseAccepts(dn);
    forall first, items | Printable(first, items) && s == "/" + PrintDn(first, items)
      ensures dn != "" && ParseDn(dn).Ok? && dn == PrintDn(first, items)
      ensures AddTexts(NO_NAME, ParseDn(dn).value) == Ok(n) <==>
              exists es :: Spells([first] + PairsOf(items), es) && Says(es, n)
    {
      assert ("/" + PrintDn(first, items))[1..] == PrintDn(first, items);
      PrintsSomething(first, items);
      ListAccepts(first, items, n);
    }
    if dn != "" && ParseDn(dn).Ok? {
      var first, items :| Printable(first, items) && dn == PrintDn(first, items);
      assert s == "/" + PrintDn(first, items);
    }
  }

  lemma PrintsSomething(first: Pair, items: seq<Item>)
    ensures PrintDn(first, items) != ""
  {
  }

  lemma {:induction false} ListAccepts(first: Pair, items: seq<Item>, n: Name)
    ensures AddTexts(NO_NAME, [Text(first)] + Texts(items)) == Ok(n) <==>
            exists es :: Spells([first] + PairsOf(items), es) && Says(es, n)
  {
    hide Says, Spells, AddTexts, AddEntries;
    var pairs := [first] + PairsOf(items);
    TextsOfPairs(items);
    assert pairs[1..] == PairsOf(items) && PairTexts(pairs) == [Text(first)] + Texts(items);
    PairsMean(NO_NAME, pairs, n);
    forall es ensures AddEntries(NO_NAME, es) == Ok(n) <==> Says(es, n) { EntriesMean(es, n); }
  }
}
