/**
 * Edge tags: the `"a,b"` strings the game uses to name an edge by the ids of its
 * two dots (Edge.tag, EdgeKey.ToString, the keys built by Draggable.Drop), and the
 * string helpers that read them back (String.Split(',') and Cell.ReverseTag).
 */
module Tags {

  /** The decimal digit character for `d`. */
  function DigitChar(d: nat): (c: char)
    requires d < 10
    ensures '0' <= c <= '9'
  {
    ('0' as int + d) as char
  }

  function DigitValue(c: char): int
  {
    c as int - '0' as int
  }

  predicate AllDigits(s: string)
  {
    forall i :: 0 <= i < |s| ==> '0' <= s[i] <= '9'
  }

  /** Decimal form of a natural number, most significant digit first, no leading zeros. */
  function NatToString(n: nat): (s: string)
    ensures |s| >= 1 && AllDigits(s)
  {
    if n < 10 then [DigitChar(n)] else NatToString(n / 10) + [DigitChar(n % 10)]
  }

  /** What C# produces for `n.ToString()` (and string interpolation of an int). */
  function IntToString(n: int): (s: string)
    ensures ',' !in s
    ensures |s| >= 1
  {
    if n < 0 then "-" + NatToString(-n) else NatToString(n)
  }

  /** Reads back a string of decimal digits. */
  function ParseNat(s: string): nat
    requires AllDigits(s)
  {
    if s == [] then 0 else ParseNat(s[..|s| - 1]) * 10 + DigitValue(s[|s| - 1])
  }

  function ParseInt(s: string): int
    requires |s| >= 1
    requires s[0] == '-' ==> AllDigits(s[1..])
    requires s[0] != '-' ==> AllDigits(s)
  {
    if s[0] == '-' then -(ParseNat(s[1..]) as int) else ParseNat(s)
  }

  lemma {:induction false} ParseNatToString(n: nat)
    ensures ParseNat(NatToString(n)) == n
  {
    if n >= 10 {
      var s := NatToString(n);
      assert s[..|s| - 1] == NatToString(n / 10);
      ParseNatToString(n / 10);
    }
  }

  /** The decimal form of an int can be read back, so it identifies the int. */
  lemma ParseIntToString(n: int)
    ensures var s := IntToString(n); (s[0] == '-' ==> AllDigits(s[1..])) && (s[0] != '-' ==> AllDigits(s))
    ensures ParseInt(IntToString(n)) == n
  {
    var s := IntToString(n);
    if n < 0 {
      var digits := NatToString(-n);
      assert s[0] == '-' && s[1..] == digits;
      ParseNatToString(-n);
      assert ParseInt(s) == -(ParseNat(digits) as int);
    } else {
      assert s == NatToString(n) && s[0] != '-';
      ParseNatToString(n);
    }
  }

  lemma IntToStringInjective(a: int, b: int)
    ensures IntToString(a) == IntToString(b) <==> a == b
  {
    ParseIntToString(a);
    ParseIntToString(b);
  }

  /** The tag of the edge from dot id `a` to dot id `b`: `$"{a},{b}"`. */
  function Tag(a: int, b: int): string
  {
    IntToString(a) + "," + IntToString(b)
  }

  /** C#'s `s.Split(',')`: every comma separates, empty parts are kept. */
  function Split(s: string): (parts: seq<string>)
    ensures |parts| >= 1
    ensures forall k :: 0 <= k < |parts| ==> ',' !in parts[k]
    ensures Join(parts) == s
  {
    if s == [] then [""]
    else if s[0] == ',' then [""] + Split(s[1..])
    else
      var rest := Split(s[1..]);
      [[s[0]] + rest[0]] + rest[1..]
  }

  /** The inverse of Split: the parts with a comma between each two. */
  function Join(parts: seq<string>): string
    requires |parts| >= 1
  {
    if |parts| == 1 then parts[0] else parts[0] + "," + Join(parts[1..])
  }

  lemma {:induction false} SplitPrefix(p: string, s: string)
    requires ',' !in p
    ensures Split(p + s) == [p + Split(s)[0]] + Split(s)[1..]
  {
    if p != [] {
      assert (p + s)[1..] == p[1..] + s;
      SplitPrefix(p[1..], s);
      assert [p[0]] + (p[1..] + Split(s)[0]) == p + Split(s)[0];
    } else {
      assert p + s == s;
      assert p + Split(s)[0] == Split(s)[0];
      assert Split(s) == [Split(s)[0]] + Split(s)[1..];
    }
  }

  /** Splitting a join of comma-free parts gives the parts back. */
  lemma {:induction false} SplitJoin(parts: seq<string>)
    requires |parts| >= 1
    requires forall k :: 0 <= k < |parts| ==> ',' !in parts[k]
    ensures Split(Join(parts)) == parts
  {
    if |parts| == 1 {
      SplitPrefix(parts[0], "");
      assert parts[0] + "" == parts[0];
    } else {
      var rest := Join(parts[1..]);
      SplitJoin(parts[1..]);
      assert parts[0] + "," + rest == parts[0] + ("," + rest);
      SplitPrefix(parts[0], "," + rest);
      assert ("," + rest)[1..] == rest;
      assert parts[0] + "" == parts[0];
    }
  }

  /**
   * Cell.ReverseTag: `"a,b"` becomes `"b,a"`; a tag that does not split into
   * exactly two parts is returned unchanged (after an error log).
   */
  function ReverseTag(t: string): (r: string)
    ensures |Split(t)| != 2 ==> r == t
    ensures |Split(t)| == 2 ==> Split(r) == [Split(t)[1], Split(t)[0]]
  {
    var parts := Split(t);
    if |parts| != 2 then t
    else
      SplitJoin([parts[1], parts[0]]);
      parts[1] + "," + parts[0]
  }

  lemma SplitTag(a: int, b: int)
    ensures Split(Tag(a, b)) == [IntToString(a), IntToString(b)]
  {
    SplitJoin([IntToString(a), IntToString(b)]);
  }

  /** Reversing the tag of a -> b gives the tag of b -> a. */
  lemma ReverseTagOfTag(a: int, b: int)
    ensures ReverseTag(Tag(a, b)) == Tag(b, a)
  {
    SplitTag(a, b);
  }

  /** On two-part tags ReverseTag is an involution. */
  lemma ReverseTagInvolution(t: string)
    requires |Split(t)| == 2
    ensures ReverseTag(ReverseTag(t)) == t
  {
    var parts := Split(t);
    var r := ReverseTag(t);
    assert Split(r) == [parts[1], parts[0]];
    assert Split(ReverseTag(r)) == parts;
    calc {
      ReverseTag(r);
      Join(Split(ReverseTag(r)));
      Join(parts);
      t;
    }
  }

  /** A tag names its ordered id pair: equal tags have equal ids. */
  lemma TagInjective(a: int, b: int, c: int, d: int)
    ensures Tag(a, b) == Tag(c, d) <==> a == c && b == d
  {
    if Tag(a, b) == Tag(c, d) {
      SplitTag(a, b);
      SplitTag(c, d);
      IntToStringInjective(a, c);
      IntToStringInjective(b, d);
    }
  }
}
