/** YAML trees, as the JSONPath filter sees them: a mapping holds key, value, key, value... */
module YamlNodes {
  import opened Wrappers

  datatype Kind = ScalarKind | MappingKind | SequenceKind | OtherKind

  datatype Node = Node(kind: Kind, tag: string, value: string, content: seq<Node>)

  predicate IsNull(n: Node) { n.tag == "!!null" }

  function ScalarNode(tag: string, value: string): Node { Node(ScalarKind, tag, value, []) }

  const EMPTY_MAPPING := Node(MappingKind, "", "", [])

  /** A kind check lets null nodes pass. */
  predicate Acceptable(n: Node, kind: Kind) {
    IsNull(n) || (n.kind == kind && (kind == MappingKind ==> |n.content| % 2 == 0))
  }

  // ----- Numbers as text -----

  const MAX_INT := 0x7fff_ffff_ffff_ffff
  const MIN_INT := -0x8000_0000_0000_0000

  predicate IsDigit(c: char) { '0' <= c <= '9' }

  predicate AllDigits(s: string) { forall c :: c in s ==> IsDigit(c) }

  function DigitsValue(s: string): nat
    requires AllDigits(s)
  {
    if s == "" then 0
    else
      assert IsDigit(s[|s| - 1]);
      DigitsValue(s[..|s| - 1]) * 10 + (s[|s| - 1] as int - '0' as int)
  }

  /** strconv.Atoi: an optional sign, digits, within 64 bits. */
  function Atoi(s: string): Option<int> {
    var digits := if s != "" && (s[0] == '-' || s[0] == '+') then s[1..] else s;
    if digits == "" || !AllDigits(digits) then None else
    var v: int := if s[0] == '-' then -(DigitsValue(digits) as int) else DigitsValue(digits);
    if MIN_INT <= v <= MAX_INT then Some(v) else None
  }

  function DigitsOf(n: nat): string {
    (if n < 10 then "" else DigitsOf(n / 10)) + [('0' as int + n % 10) as char]
  }

  /** strconv.Itoa */
  function Itoa(i: int): string {
    if i < 0 then "-" + DigitsOf(-i) else DigitsOf(i)
  }

  lemma {:induction false} DigitsReadBack(n: nat)
    ensures DigitsOf(n) != "" && AllDigits(DigitsOf(n)) && DigitsValue(DigitsOf(n)) == n
  {
    var s := DigitsOf(n);
    var last := ('0' as int + n % 10) as char;
    assert IsDigit(last);
    if n >= 10 {
      DigitsReadBack(n / 10);
      assert s[..|s| - 1] == DigitsOf(n / 10);
    } else {
      assert s == [last] && s[..0] == "";
    }
  }

  lemma AtoiSigned(digits: string)
    requires digits != "" && AllDigits(digits)
    ensures
      var v: int := DigitsValue(digits);
      && Atoi(digits) == (if v <= MAX_INT then Some(v) else None)
      && Atoi("-" + digits) == if MIN_INT <= -v then Some(-v) else None
  {
    hide DigitsValue;
    assert IsDigit(digits[0]);
    assert ("-" + digits)[1..] == digits;
  }

  /** Printed integers read back as themselves, as long as they have 64 bits. */
  lemma {:induction false} AtoiItoa(i: int)
    ensures Atoi(Itoa(i)) == if MIN_INT <= i <= MAX_INT then Some(i) else None
  {
    hide Atoi, DigitsOf, DigitsValue, AllDigits;
    var n := if i < 0 then -i else i;
    DigitsReadBack(n);
    AtoiSigned(DigitsOf(n));
  }

  /** s is an optional sign and the digits of n. */
  ghost predicate SignedDigits(s: string, negative: bool, digits: string) {
    && digits != "" && AllDigits(digits)
    && if negative then s == "-" + digits else s == digits || s == "+" + digits
  }

  /** Which texts are integers: leading zeros and a plus sign are taken, more than 64 bits are not. */
  lemma {:induction false} AtoiMeans(s: string, i: int)
    ensures Atoi(s) == Some(i) <==>
            MIN_INT <= i <= MAX_INT &&
            exists negative, digits ::
              SignedDigits(s, negative, digits) && i == (if negative then -1 else 1) * DigitsValue(digits)
  {
    hide DigitsValue;
    if s != "" {
      var signed := s[0] == '-' || s[0] == '+';
      var digits := if signed then s[1..] else s;
      assert s == (if signed then [s[0]] else "") + digits;
      if digits != "" && AllDigits(digits) {
        assert SignedDigits(s, s[0] == '-', digits);
      }
      forall negative, d | SignedDigits(s, negative, d) ensures d == digits && negative == (s[0] == '-') {
        assert d[0] in d && IsDigit(d[0]);
        assert negative ==> ("-" + d)[1..] == d;
        assert s == "+" + d ==> ("+" + d)[1..] == d;
      }
    }
  }
}
