/** Text operations of JavaScript that several models use. */
module JsText {
  import opened Sequences

  // ----- white space -----

  /** `\s`, and what `trim` removes. */
  predicate IsSpace(c: char) {
    || '\t' <= c <= '\r' || c == ' ' || c == '\U{00A0}' || c == '\U{1680}'
    || '\U{2000}' <= c <= '\U{200A}' || c == '\U{2028}' || c == '\U{2029}'
    || c == '\U{202F}' || c == '\U{205F}' || c == '\U{3000}' || c == '\U{FEFF}'
  }

  predicate AllSpace(s: string) { forall c | c in s :: IsSpace(c) }

  function SpaceLen(s: string): (n: nat)
    ensures n <= |s|
  {
    if s == "" || !IsSpace(s[0]) then 0 else 1 + SpaceLen(s[1..])
  }

  function SkipSpace(s: string): string { s[SpaceLen(s)..] }

  function TrimEnd(s: string): string {
    if s == "" || !IsSpace(Last(s)) then s else TrimEnd(Front(s))
  }

  /** `s.trim()`. */
  function Trim(s: string): string { TrimEnd(SkipSpace(s)) }

  lemma {:induction false} SpaceLenOf(a: string, rest: string)
    requires AllSpace(a) && (rest == "" || !IsSpace(rest[0]))
    ensures SpaceLen(a + rest) == |a| && SkipSpace(a + rest) == rest
  {
    if a == "" {
      assert a + rest == rest;
    } else {
      assert a[0] in a && (a + rest)[1..] == a[1..] + rest;
      SpaceLenOf(a[1..], rest);
    }
  }

  lemma {:induction false} SpaceLenSplits(s: string)
    ensures AllSpace(s[..SpaceLen(s)])
    ensures SkipSpace(s) == "" || !IsSpace(SkipSpace(s)[0])
  {
    if s != "" && IsSpace(s[0]) {
      SpaceLenSplits(s[1..]);
      var n := SpaceLen(s);
      assert s[..n] == [s[0]] + s[1..][..n - 1];
      assert s[n..] == s[1..][n - 1..];
    }
  }

  lemma TrimNothing(s: string)
    requires s != "" ==> !IsSpace(s[0]) && !IsSpace(Last(s))
    ensures Trim(s) == s
  {
    assert "" + s == s;
    SpaceLenOf("", s);
  }

  lemma {:induction false} TrimEndEnds(s: string)
    ensures var t := TrimEnd(s); t != "" ==> !IsSpace(Last(t)) && t[0] == s[0]
    ensures s != "" && !IsSpace(s[0]) ==> TrimEnd(s) != ""
  {
    if s != "" && IsSpace(Last(s)) {
      TrimEndEnds(Front(s));
    }
  }

  lemma TrimTwice(s: string)
    ensures Trim(Trim(s)) == Trim(s)
  {
    SpaceLenSplits(s);
    TrimEndEnds(SkipSpace(s));
    TrimNothing(Trim(s));
  }

  /** `s.length`: characters beyond U+FFFF take two units. */
  function Utf16Length(s: string): nat {
    if s == "" then 0 else Utf16Length(s[1..]) + if s[0] > '\U{FFFF}' then 2 else 1
  }

  // ----- decimal numbers -----

  predicate IsDigit(c: char) { '0' <= c <= '9' }

  /** `/^\d+$/`. */
  predicate IsDigits(s: string) { s != "" && forall c | c in s :: IsDigit(c) }

  function DigitValue(c: char): nat
    requires IsDigit(c)
  {
    (c as int) - ('0' as int)
  }

  /** The number that a string of digits denotes, leading zeros allowed. */
  function NumberValue(s: string): nat
    requires forall c | c in s :: IsDigit(c)
  {
    if s == "" then 0
    else
      assert Last(s) in s;
      NumberValue(Front(s)) * 10 + DigitValue(Last(s))
  }

  function DigitOf(d: nat): char
    requires d < 10
  {
    (d + '0' as int) as char
  }

  /** `n.toString()` of a non-negative integer. */
  function Decimal(n: nat): (s: string)
    ensures IsDigits(s)
  {
    if n < 10 then [DigitOf(n)] else Decimal(n / 10) + [DigitOf(n % 10)]
  }

  /** `b.toString()` of a bigint. */
  function BigText(b: int): string { if b < 0 then "-" + Decimal(-b) else Decimal(b) }

  lemma {:induction false} DecimalValue(n: nat)
    ensures NumberValue(Decimal(n)) == n
  {
    if n >= 10 {
      DecimalValue(n / 10);
      assert Front(Decimal(n)) == Decimal(n / 10);
    } else {
      assert Front(Decimal(n)) == "";
    }
  }
}
