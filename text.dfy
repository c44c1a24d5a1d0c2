/**
 * Text helpers the source takes from the Java library: String.toLowerCase
 * (restricted to ASCII letters) and the decimal rendering of an int that
 * String.format("%d") and string concatenation use, with its inverse.
 */
module Text {
  import opened Wrappers

  predicate IsUpper(c: char) { 'A' <= c <= 'Z' }

  function LowerChar(c: char): (r: char)
    ensures !IsUpper(r)
    ensures IsUpper(c) ==> r as int == c as int + 32
    ensures !IsUpper(c) ==> r == c
  {
    if IsUpper(c) then (c as int + 32) as char else c
  }

  /** String.toLowerCase, for ASCII letters. */
  function Lower(s: string): (r: string)
    ensures |r| == |s|
    ensures forall i :: 0 <= i < |r| ==> r[i] == LowerChar(s[i])
    ensures forall i :: 0 <= i < |r| ==> !IsUpper(r[i])
  {
    seq(|s|, i requires 0 <= i < |s| => LowerChar(s[i]))
  }

  lemma LowerIdempotent(s: string)
    ensures Lower(Lower(s)) == Lower(s)
  {
  }

  predicate IsDigit(c: char) { '0' <= c <= '9' }

  predicate AllDigits(s: string) { forall i :: 0 <= i < |s| ==> IsDigit(s[i]) }

  function DigitChar(d: nat): (c: char)
    requires d < 10
    ensures IsDigit(c)
  {
    ('0' as int + d) as char
  }

  function DigitValue(c: char): (d: nat)
    requires IsDigit(c)
    ensures d < 10
  {
    c as int - '0' as int
  }

  /** Decimal digits of n, most significant first, without leading zeros. */
  function NatToString(n: nat): (s: string)
    ensures |s| > 0 && AllDigits(s)
    ensures |s| > 1 ==> s[0] != '0'
  {
    if n < 10 then [DigitChar(n)] else NatToString(n / 10) + [DigitChar(n % 10)]
  }

  /** Integer.toString / "%d": a minus sign, then the digits of the magnitude. */
  function IntToString(i: int): (s: string)
    ensures |s| > 0
    ensures ':' !in s && '/' !in s
  {
    if i < 0 then "-" + NatToString(-i) else NatToString(i)
  }

  function ParseNat(s: string): nat
    requires AllDigits(s)
  {
    if |s| == 0 then 0 else 10 * ParseNat(s[..|s| - 1]) + DigitValue(s[|s| - 1])
  }

  function ParseInt(s: string): int
    requires |s| > 0
    requires s[0] == '-' ==> AllDigits(s[1..])
    requires s[0] != '-' ==> AllDigits(s)
  {
    if s[0] == '-' then -(ParseNat(s[1..]) as int) else ParseNat(s)
  }

  predicate IsIntText(s: string) {
    |s| > 0 && (s[0] == '-' ==> |s| > 1 && AllDigits(s[1..])) && (s[0] != '-' ==> AllDigits(s))
  }

  lemma {:induction false} NatRoundTrip(n: nat)
    ensures ParseNat(NatToString(n)) == n
  {
    var s := NatToString(n);
    if n >= 10 {
      NatRoundTrip(n / 10);
      assert s[..|s| - 1] == NatToString(n / 10);
    }
  }

  /** The decimal text of an int reads back as that int. */
  lemma IntRoundTrip(i: int)
    ensures IsIntText(IntToString(i))
    ensures ParseInt(IntToString(i)) == i
  {
    var s := IntToString(i);
    if i < 0 {
      assert s[1..] == NatToString(-i);
      NatRoundTrip(-i);
    } else {
      NatRoundTrip(i);
    }
  }

  /** The first position of c in s (String.indexOf). */
  function FirstIndexOf(s: string, c: char): (r: Option<nat>)
    ensures r.None? ==> c !in s
    ensures r.Some? ==> r.value < |s| && s[r.value] == c
    ensures r.Some? ==> forall m :: 0 <= m < r.value ==> s[m] != c
  {
    if |s| == 0 then None
    else if s[0] == c then Some(0)
    else
      var rest := FirstIndexOf(s[1..], c);
      if rest.None? then None else Some(rest.value + 1)
  }

  /** The last position of c in s (String.lastIndexOf). */
  function LastIndexOf(s: string, c: char): (r: Option<nat>)
    ensures r.None? ==> c !in s
    ensures r.Some? ==> r.value < |s| && s[r.value] == c
    ensures r.Some? ==> forall m :: r.value < m < |s| ==> s[m] != c
  {
    if |s| == 0 then None
    else if s[|s| - 1] == c then Some(|s| - 1)
    else
      var rest := LastIndexOf(s[..|s| - 1], c);
      if rest.None? then None else Some(rest.value)
  }

  /** The first c of a + [c] + b is the one after a when a has none; a and b are what lie around it. */
  lemma FirstIndexAfter(a: string, c: char, b: string)
    requires c !in a
    ensures FirstIndexOf(a + [c] + b, c) == Some(|a|)
    ensures (a + [c] + b)[..|a|] == a && (a + [c] + b)[|a| + 1..] == b
  {
    var s := a + [c] + b;
    assert s[|a|] == c;
    assert forall m :: 0 <= m < |a| ==> s[m] == a[m];
  }

  /** The last c of a + [c] + b is the one before b when b has none; a and b are what lie around it. */
  lemma {:induction false} LastIndexBefore(a: string, c: char, b: string)
    requires c !in b
    ensures LastIndexOf(a + [c] + b, c) == Some(|a|)
    ensures (a + [c] + b)[..|a|] == a && (a + [c] + b)[|a| + 1..] == b
    decreases |b|
  {
    var s := a + [c] + b;
    if b != [] {
      var init := b[..|b| - 1];
      assert s[..|s| - 1] == a + [c] + init;
      assert s[|s| - 1] == b[|b| - 1];
      LastIndexBefore(a, c, init);
    }
    assert s[..|a|] == a;
    assert s[|a| + 1..] == b;
  }
}
