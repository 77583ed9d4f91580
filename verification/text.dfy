/** String helpers the source gets from the .NET base library:
    ordinal case-insensitive comparison (as `Enum.TryParse(..., ignoreCase: true)` uses it),
    `string.Join`, and the decimal rendering `int.ToString()` together with the parse
    that reads it back (the identity library parses user ids it is handed as strings).
 */
module Text {
  import opened Wrappers

  // ---------------------------------------------------------------------------
  // Ordinal case-insensitive comparison (ASCII letters only)
  // ---------------------------------------------------------------------------

  /** Upper-case mapping of one character; letters outside a..z are left alone. */
  function UpperAscii(c: char): (u: char)
    ensures 'a' <= c <= 'z' ==> 'A' <= u <= 'Z' && u as int + 32 == c as int
    ensures !('a' <= c <= 'z') ==> u == c
  {
    if 'a' <= c <= 'z' then (c as int - 32) as char else c
  }

  function Upper(s: string): (u: string)
    ensures |u| == |s|
    ensures forall i :: 0 <= i < |s| ==> u[i] == UpperAscii(s[i])
  {
    seq(|s|, i requires 0 <= i < |s| => UpperAscii(s[i]))
  }

  /** Two strings are equal up to the case of their ASCII letters. */
  predicate EqualsIgnoreCase(a: string, b: string) {
    Upper(a) == Upper(b)
  }

  /** Case folding is idempotent, so a folded string matches its original. */
  lemma UpperIdempotent(s: string)
    ensures Upper(Upper(s)) == Upper(s)
    ensures EqualsIgnoreCase(s, Upper(s))
  {
    assert forall i :: 0 <= i < |s| ==> UpperAscii(UpperAscii(s[i])) == UpperAscii(s[i]);
  }

  /** Strings equal up to case have the same length. */
  lemma EqualsIgnoreCaseLength(a: string, b: string)
    ensures EqualsIgnoreCase(a, b) ==> |a| == |b|
  {
    assert |Upper(a)| == |a| && |Upper(b)| == |b|;
  }

  // ---------------------------------------------------------------------------
  // string.Join
  // ---------------------------------------------------------------------------

  /** `string.Join(sep, xs)`: the pieces in order with `sep` between neighbours. */
  function Join(sep: string, xs: seq<string>): (r: string)
    ensures |xs| == 0 ==> r == ""
    ensures |xs| >= 1 ==> xs[0] <= r
    ensures |xs| >= 1 ==> IsSuffix(xs[|xs| - 1], r)
    decreases |xs|
  {
    if |xs| == 0 then ""
    else if |xs| == 1 then xs[0]
    else
      var rest := Join(sep, xs[1..]);
      assert xs[1..][|xs| - 2] == xs[|xs| - 1];
      SuffixOfAppend(xs[|xs| - 1], rest, xs[0] + sep);
      xs[0] + sep + rest
  }

  predicate IsSuffix(a: string, b: string) {
    |a| <= |b| && b[|b| - |a|..] == a
  }

  lemma SuffixOfAppend(a: string, b: string, front: string)
    requires IsSuffix(a, b)
    ensures IsSuffix(a, front + b)
  {
    var c := front + b;
    assert c[|c| - |a|..] == b[|b| - |a|..];
  }

  lemma PrefixOfAppend(a: string, b: string, front: string)
    requires a <= b
    ensures front + a <= front + b
  {
    assert front + b == (front + a) + b[|a|..];
  }

  // ---------------------------------------------------------------------------
  // Decimal rendering of integers and its parse
  // ---------------------------------------------------------------------------

  predicate IsDigit(c: char) {
    '0' <= c <= '9'
  }

  predicate AllDigits(s: string) {
    forall i :: 0 <= i < |s| ==> IsDigit(s[i])
  }

  function DigitChar(d: nat): (c: char)
    requires d < 10
    ensures IsDigit(c)
    ensures c as int - '0' as int == d
  {
    ('0' as int + d) as char
  }

  function DigitValue(c: char): nat
    requires IsDigit(c)
  {
    c as int - '0' as int
  }

  /** `n.ToString()` for a non-negative number: decimal digits, most significant first. */
  function NatToString(n: nat): (s: string)
    ensures |s| >= 1
    ensures AllDigits(s)
    ensures n < 10 <==> |s| == 1
    decreases n
  {
    if n < 10 then [DigitChar(n)] else NatToString(n / 10) + [DigitChar(n % 10)]
  }

  function ParseNat(s: string): nat
    requires AllDigits(s)
    decreases |s|
  {
    if |s| == 0 then 0 else ParseNat(s[..|s| - 1]) * 10 + DigitValue(s[|s| - 1])
  }

  /** `n.ToString()` for any integer: a leading '-' for negatives. */
  function IntToString(n: int): (s: string)
    ensures |s| >= 1
    ensures n < 0 <==> s[0] == '-'
  {
    if n < 0 then "-" + NatToString(-n) else NatToString(n)
  }

  /** Reads back a decimal integer; anything else is rejected. */
  function ParseInt(s: string): Option<int> {
    if |s| == 0 then None
    else if s[0] == '-' then
      if |s| > 1 && AllDigits(s[1..]) then Some(0 - ParseNat(s[1..]) as int) else None
    else if AllDigits(s) then Some(ParseNat(s))
    else None
  }

  lemma {:induction false} ParseNatToString(n: nat)
    ensures ParseNat(NatToString(n)) == n
    decreases n
  {
    var s := NatToString(n);
    if n >= 10 {
      var prefix := NatToString(n / 10);
      assert s == prefix + [DigitChar(n % 10)];
      assert s[..|s| - 1] == prefix;
      ParseNatToString(n / 10);
    }
  }

  /** Parsing the rendering of an id gives the id back. */
  lemma ParseIntToString(n: int)
    ensures ParseInt(IntToString(n)) == Some(n)
  {
    if n < 0 {
      var t := NatToString(-n);
      assert IntToString(n) == "-" + t;
      ParseNatToString(-n);
      ParseNegative(t);
    } else {
      var t := NatToString(n);
      assert IntToString(n) == t;
      ParseNatToString(n);
      ParseDigits(t);
    }
  }

  lemma ParseDigits(t: string)
    requires |t| >= 1 && AllDigits(t)
    ensures ParseInt(t) == Some(ParseNat(t) as int)
  {
    assert IsDigit(t[0]);
  }

  lemma ParseNegative(t: string)
    requires |t| >= 1 && AllDigits(t)
    ensures ParseInt("-" + t) == Some(0 - ParseNat(t) as int)
  {
    assert ("-" + t)[1..] == t;
  }
}
