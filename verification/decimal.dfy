/** Decimal numbers as the cable prints them and as parse_u32 reads them back. */
module Decimal {
  import opened Bytes

  predicate IsDigit(c: byte) { '0' as int <= c <= '9' as int }

  predicate AllDigits(s: seq<byte>) { forall i | 0 <= i < |s| :: IsDigit(s[i]) }

  /** The number a digit string denotes, however long it is. */
  function Value(ds: seq<byte>): nat
    requires AllDigits(ds)
  {
    if ds == [] then 0 else 10 * Value(ds[..|ds| - 1]) + (ds[|ds| - 1] - '0' as int)
  }

  /** `printf("%u")`. */
  function Dec(n: nat): seq<byte>
  {
    if n < 10 then ['0' as int + n] else Dec(n / 10) + ['0' as int + n % 10]
  }

  lemma {:induction false} DecDenotes(n: nat)
    ensures |Dec(n)| > 0 && AllDigits(Dec(n)) && Value(Dec(n)) == n
  {
    if n >= 10 {
      DecDenotes(n / 10);
      assert Dec(n)[..|Dec(n)| - 1] == Dec(n / 10);
    }
  }

  /** A 32-bit number takes at most ten digits. */
  lemma DecLength(n: u32)
    ensures |Dec(n)| <= 10
  {
    DecLengthBound(n, 10, 10_000_000_000);
  }

  lemma {:induction false} DecLengthBound(n: nat, digits: nat, limit: nat)
    requires digits >= 1 && n < limit && limit == Power10(digits)
    ensures |Dec(n)| <= digits
  {
    if n >= 10 {
      DecLengthBound(n / 10, digits - 1, limit / 10);
    }
  }

  function Power10(n: nat): nat { if n == 0 then 1 else 10 * Power10(n - 1) }

  /** How many leading bytes of `s` are digits. */
  function DigitRun(s: seq<byte>): (n: nat)
    ensures n <= |s| && AllDigits(s[..n]) && (n < |s| ==> !IsDigit(s[n]))
  {
    if s == [] || !IsDigit(s[0]) then 0
    else
      var n := 1 + DigitRun(s[1..]);
      assert forall i | 0 < i < n :: s[i] == s[1..][i - 1];
      n
  }

  lemma {:induction false} DigitRunIs(ds: seq<byte>, rest: seq<byte>)
    requires AllDigits(ds) && (rest == [] || !IsDigit(rest[0]))
    ensures DigitRun(ds + rest) == |ds|
  {
    if ds == [] {
      assert ds + rest == rest;
    } else {
      DigitRunIs(ds[1..], rest);
      assert (ds + rest)[1..] == ds[1..] + rest;
    }
  }

  /** The value parse_u32 stores for the digits at the front of `s`. */
  function Saturated(s: seq<byte>): u32
  {
    Min(Value(s[..DigitRun(s)]), U32_MAX)
  }

  /** parse_u32: the loop saturates digit by digit, in a 64-bit accumulator. */
  method ParseU32(s: seq<byte>) returns (used: nat, value: u32)
    ensures used == DigitRun(s)
    ensures used > 0 ==> value == Saturated(s)
  {
    var i, v := 0, 0;
    while i < |s| && IsDigit(s[i])
      invariant i <= |s| && AllDigits(s[..i])
      invariant v == Min(Value(s[..i]), U32_MAX)
    {
      assert s[..i + 1][..i] == s[..i];
      v := v * 10 + (s[i] - '0' as int);
      assert v < 0x1_0000_0000_0000_0000;  // no wrap in uint64_t
      if v > U32_MAX { v := U32_MAX; }
      i := i + 1;
    }
    assert s == s[..i] + s[i..];
    DigitRunIs(s[..i], s[i..]);
    used, value := i, v;
  }

  /** A printed 32-bit number is read back exactly, whatever follows it. */
  lemma PrintedNumber(n: nat, rest: seq<byte>)
    requires rest == [] || !IsDigit(rest[0])
    ensures DigitRun(Dec(n) + rest) == |Dec(n)| > 0
    ensures Saturated(Dec(n) + rest) == Min(n, U32_MAX)
    ensures (Dec(n) + rest)[|Dec(n)|..] == rest
  {
    DecDenotes(n);
    DigitRunIs(Dec(n), rest);
    assert (Dec(n) + rest)[..|Dec(n)|] == Dec(n);
  }

  /** How many leading bytes of `s` are spaces. */
  function SpaceRun(s: seq<byte>): (n: nat)
    ensures n <= |s| && (forall i | 0 <= i < n :: s[i] == SP) && (n < |s| ==> s[n] != SP)
  {
    if s == [] || s[0] != SP then 0 else 1 + SpaceRun(s[1..])
  }

  /** skip_spaces. */
  method SkipSpaces(s: seq<byte>) returns (n: nat)
    ensures n == SpaceRun(s)
  {
    n := 0;
    while n < |s| && s[n] == SP
      invariant n <= |s| && SpaceRun(s) == n + SpaceRun(s[n..])
    {
      n := n + 1;
    }
  }
}
