/** What several modules share. */
module Options {

  datatype Option<+T> = None | Some(value: T)
}

/** Decimal numerals. */
module Numerals {
  import opened Options

  predicate IsDigit(c: char) { '0' <= c <= '9' }

  function DigitChar(d: nat): (c: char)
    requires d < 10
    ensures IsDigit(c)
  {
    '0' + d as char
  }

  function DigitValue(c: char): nat
    requires IsDigit(c)
  {
    (c - '0') as nat
  }

  function NatText(n: nat): (s: string)
    ensures s != [] && forall k :: 0 <= k < |s| ==> IsDigit(s[k])
  {
    if n < 10 then [DigitChar(n)] else NatText(n / 10) + [DigitChar(n % 10)]
  }

  // fmt's %d, and String of a big integer.
  function Decimal(n: int): string {
    if n < 0 then "-" + NatText(-n) else NatText(n)
  }

  predicate AllDigits(s: string) {
    s != [] && forall k :: 0 <= k < |s| ==> IsDigit(s[k])
  }

  function NatValue(s: string): nat
    requires AllDigits(s)
  {
    var last := DigitValue(s[|s| - 1]);
    if |s| == 1 then last else 10 * NatValue(s[..|s| - 1]) + last
  }

  // Base ten, with an optional sign: what ParseInt and SetString accept.
  function ParseInt(s: string): Option<int> {
    var negative := s != [] && s[0] == '-';
    var digits := if s != [] && (s[0] == '-' || s[0] == '+') then s[1..] else s;
    if !AllDigits(digits) then None
    else Some(if negative then -(NatValue(digits) as int) else NatValue(digits))
  }

  const MAX_INT64: int := 0x7FFF_FFFF_FFFF_FFFF

  // strconv.ParseInt with 64 bits.
  function ParseInt64(s: string): Option<int> {
    var n := ParseInt(s);
    if n.Some? && -MAX_INT64 - 1 <= n.value <= MAX_INT64 then n else None
  }

  lemma {:induction false} NatRoundTrip(n: nat)
    ensures NatValue(NatText(n)) == n
  {
    if n >= 10 {
      NatRoundTrip(n / 10);
      var s := NatText(n);
      assert s[..|s| - 1] == NatText(n / 10);
    }
  }

  lemma DecimalRoundTrip(n: int)
    ensures ParseInt(Decimal(n)) == Some(n)
  {
    var m: nat := if n < 0 then -n else n;
    NatRoundTrip(m);
    if n < 0 {
      assert Decimal(n)[1..] == NatText(m);
    }
  }
}
