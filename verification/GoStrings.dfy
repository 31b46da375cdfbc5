/** String functions of the Go library that several modules use. */
module GoStrings {

  /** strings.Split at every c. */
  function Split(s: string, c: char): (parts: seq<string>)
    ensures parts != []
  {
    if s == "" then [""]
    else if s[0] == c then [""] + Split(s[1..], c)
    else var rest := Split(s[1..], c); [[s[0]] + rest[0]] + rest[1..]
  }

  /** strings.Join */
  function Join(parts: seq<string>, c: char): string {
    if parts == [] then "" else if |parts| == 1 then parts[0] else parts[0] + [c] + Join(parts[1..], c)
  }

  lemma Assoc(a: string, b: string, c: string)
    ensures a + b + c == a + (b + c)
  {
  }

  lemma {:induction false} JoinSnoc(parts: seq<string>, x: string, c: char)
    requires parts != []
    ensures Join(parts + [x], c) == Join(parts, c) + [c] + x
  {
    if |parts| == 1 {
      assert (parts + [x])[1..] == [x];
    } else {
      assert (parts + [x])[1..] == parts[1..] + [x];
      JoinSnoc(parts[1..], x, c);
    }
  }

  lemma {:induction false} SplitWhole(t: string, c: char)
    ensures |Split(t, c)| == 1 <==> c !in t
    ensures c !in t ==> Split(t, c) == [t]
  {
    if t != "" {
      SplitWhole(t[1..], c);
      assert [t[0]] + t[1..] == t;
    }
  }

  lemma {:induction false} SplitAt(k: string, v: string, c: char)
    requires c !in k
    ensures Split(k + [c] + v, c) == [k] + Split(v, c)
  {
    if k == "" {
      assert (k + [c] + v)[1..] == v;
    } else {
      assert (k + [c] + v)[1..] == k[1..] + [c] + v;
      SplitAt(k[1..], v, c);
      assert [k[0]] + k[1..] == k;
    }
  }

  /** Parts without the separator are split as they were joined. */
  lemma {:induction false} SplitJoin(parts: seq<string>, c: char)
    requires parts != [] && forall p :: p in parts ==> c !in p
    ensures Split(Join(parts, c), c) == parts
    decreases |parts|
  {
    if |parts| == 1 {
      SplitWhole(parts[0], c);
    } else {
      SplitJoin(parts[1..], c);
      SplitAt(parts[0], Join(parts[1..], c), c);
      assert parts[0] + [c] + Join(parts[1..], c) == Join(parts, c);
    }
  }
}
