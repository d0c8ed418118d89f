/**
 * Java's `int`: 32-bit two's-complement arithmetic, and the decimal conversions
 * Integer.toString and Integer.parseInt used by the protocol and the save file.
 */
module Numbers {
  import opened Wrappers

  newtype int32 = x: int | -0x8000_0000 <= x < 0x8000_0000

  const MAX_INT: int32 := 0x7fff_ffff
  const MIN_INT: int32 := -0x8000_0000

  /** The int that Java's arithmetic leaves for the mathematical value `v` (wrap-around modulo 2^32). */
  function Wrap(v: int): (r: int32)
    ensures (r as int - v) % 0x1_0000_0000 == 0
    ensures MIN_INT as int <= v <= MAX_INT as int ==> r as int == v
  {
    ((v + 0x8000_0000) % 0x1_0000_0000 - 0x8000_0000) as int32
  }

  /** Java's `x + 1` on an int. */
  function Inc(x: int32): (r: int32)
    ensures (r as int - x as int - 1) % 0x1_0000_0000 == 0
    ensures x < MAX_INT ==> r as int == x as int + 1
  {
    if x == MAX_INT then MIN_INT else x + 1
  }

  predicate IsDigit(c: char) { '0' <= c <= '9' }

  predicate AllDigits(s: string) { forall i :: 0 <= i < |s| ==> IsDigit(s[i]) }

  /** The number a string of decimal digits denotes. */
  function DigitsValue(s: string): nat
    requires AllDigits(s)
  {
    if s == [] then 0
    else DigitsValue(s[..|s| - 1]) * 10 + (s[|s| - 1] as int - '0' as int)
  }

  /** The decimal digits of `n`, without leading zeros. */
  function NatToString(n: nat): (s: string)
    ensures |s| > 0 && AllDigits(s)
    ensures |s| > 1 ==> s[0] != '0'
  {
    if n < 10 then [('0' as int + n) as char]
    else NatToString(n / 10) + [('0' as int + n % 10) as char]
  }

  lemma {:induction false} NatToStringValue(n: nat)
    ensures DigitsValue(NatToString(n)) == n
  {
    if n >= 10 {
      NatToStringValue(n / 10);
      var s := NatToString(n);
      assert s[..|s| - 1] == NatToString(n / 10);
    }
  }

  /** Integer.toString: an optional minus sign, then the digits of the magnitude. */
  function IntToString(x: int32): string {
    if x < 0 then "-" + NatToString(-(x as int)) else NatToString(x as int)
  }

  /**
   * Integer.parseInt: an optional sign, at least one ASCII digit and nothing else,
   * denoting a value in the range of int; anything else is a NumberFormatException (None).
   */
  function ParseInt(s: string): (r: Option<int32>)
    ensures r.Some? ==> |s| > 0
    ensures r.Some? && AllDigits(s) ==> r.value as int == DigitsValue(s)
  {
    if s == [] then None
    else
      var negative := s[0] == '-';
      var digits := if s[0] == '-' || s[0] == '+' then s[1..] else s;
      if digits == [] || !AllDigits(digits) then None
      else
        var magnitude: int := DigitsValue(digits);
        var v := if negative then -magnitude else magnitude;
        if MIN_INT as int <= v <= MAX_INT as int then Some(v as int32) else None
  }

  /** What Integer.toString writes, Integer.parseInt reads back. */
  lemma IntRoundTrip(x: int32)
    ensures ParseInt(IntToString(x)) == Some(x)
  {
    if x < 0 {
      NatToStringValue(-(x as int));
      assert IntToString(x)[1..] == NatToString(-(x as int));
    } else {
      NatToStringValue(x as int);
    }
  }
}
