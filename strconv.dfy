/**
 * The parts of Go's `strconv` and `reflect` packages that the environment
 * overlay relies on for integer fields: `strconv.ParseInt(s, 10, 64)` and
 * `reflect.Value.OverflowInt`. Only success or failure of a parse matters to
 * the loader, so an error is `None` whatever its kind (syntax or range).
 */
module Strconv {
  import opened Wrappers

  function Pow2(n: nat): (r: nat)
    ensures r >= 1
  {
    if n == 0 then 1 else 2 * Pow2(n - 1)
  }

  /** The bounds of Go's `int64`. */
  const MinInt64: int := -0x8000_0000_0000_0000
  const MaxInt64: int := 0x7FFF_FFFF_FFFF_FFFF

  predicate IsDigit(c: char) {
    '0' <= c <= '9'
  }

  predicate AllDigits(s: string) {
    forall k :: 0 <= k < |s| ==> IsDigit(s[k])
  }

  function DigitValue(c: char): (d: nat)
    requires IsDigit(c)
    ensures d < 10
  {
    (c as int) - ('0' as int)
  }

  function DigitChar(d: nat): (c: char)
    requires d < 10
    ensures IsDigit(c) && DigitValue(c) == d
  {
    (('0' as int) + d) as char
  }

  /** The value of a string of decimal digits, most significant first. */
  function DigitsValue(s: string): nat
    requires AllDigits(s)
  {
    if s == [] then 0 else DigitsValue(s[..|s| - 1]) * 10 + DigitValue(s[|s| - 1])
  }

  /**
   * `strconv.ParseUint(s, 10, 64)`: one or more decimal digits (no sign, no
   * underscore, no base prefix when the base is 10) whose value fits in 64
   * unsigned bits.
   */
  function ParseUint(s: string): (r: Option<nat>)
    ensures r.Some? ==> s != [] && AllDigits(s) && r.value == DigitsValue(s)
    ensures r.Some? ==> r.value < 0x1_0000_0000_0000_0000
  {
    if s != [] && AllDigits(s) && DigitsValue(s) < 0x1_0000_0000_0000_0000 then
      Some(DigitsValue(s))
    else
      None
  }

  /**
   * `strconv.ParseInt(s, 10, 64)`: an optional leading `+` or `-`, then what
   * `ParseUint` accepts, within the range of `int64`. A nil error is `Some`.
   */
  function ParseInt(s: string): (r: Option<int>)
    ensures r.Some? ==> MinInt64 <= r.value <= MaxInt64
  {
    if s == [] then None
    else
      var neg := s[0] == '-';
      var digits := if s[0] == '+' || s[0] == '-' then s[1..] else s;
      match ParseUint(digits)
      case None => None
      case Some(un) =>
        if !neg && un >= 0x8000_0000_0000_0000 then None
        else if neg && un > 0x8000_0000_0000_0000 then None
        else Some(if neg then -(un as int) else un as int)
  }

  /** `strconv.FormatUint(n, 10)`: the shortest decimal rendering of `n`. */
  function FormatUint(n: nat): (s: string)
    ensures s != [] && AllDigits(s)
  {
    if n < 10 then [DigitChar(n)] else FormatUint(n / 10) + [DigitChar(n % 10)]
  }

  /** `strconv.FormatInt(v, 10)`: a `-` for negative values, never a `+`. */
  function FormatInt(v: int): string {
    if v < 0 then "-" + FormatUint(-v) else FormatUint(v)
  }

  lemma {:induction false} FormatUintValue(n: nat)
    ensures DigitsValue(FormatUint(n)) == n
  {
    if n >= 10 {
      var s := FormatUint(n);
      assert s[..|s| - 1] == FormatUint(n / 10);
      FormatUintValue(n / 10);
    }
  }

  /** Every `int64` survives a round trip through its decimal rendering. */
  lemma ParseFormatInt(v: int)
    requires MinInt64 <= v <= MaxInt64
    ensures ParseInt(FormatInt(v)) == Some(v)
  {
    var s := FormatInt(v);
    if v < 0 {
      FormatUintValue(-v);
      assert s[0] == '-' && s[1..] == FormatUint(-v);
    } else {
      FormatUintValue(v);
      assert IsDigit(s[0]);
    }
  }

  /**
   * A character that is neither a digit nor a leading sign makes the parse
   * fail: "42.42" and "hello" are not integers.
   */
  lemma ParseIntRejectsNonDigit(s: string, k: nat)
    requires k < |s| && !IsDigit(s[k])
    requires k == 0 ==> s[k] != '+' && s[k] != '-'
    ensures ParseInt(s) == None
  {
  }

  /** A sign with no digits after it is rejected. */
  lemma ParseIntRejectsBareSign(s: string)
    requires s == "+" || s == "-"
    ensures ParseInt(s) == None
  {
  }

  /**
   * Two's-complement sign extension of the low `bits` bits of `x`: what
   * `(x << (64 - bits)) >> (64 - bits)` computes on an `int64`.
   */
  function SignExtend(x: int, bits: nat): int
    requires 1 <= bits
  {
    var m := x % Pow2(bits);
    if m >= Pow2(bits - 1) then m - Pow2(bits) else m
  }

  /** `reflect.Value.OverflowInt` for a signed integer kind of `bits` bits. */
  predicate OverflowInt(x: int, bits: nat)
    requires 1 <= bits <= 64
  {
    x != SignExtend(x, bits)
  }

  /** The range of a signed integer of `bits` bits. */
  predicate FitsInt(x: int, bits: nat)
    requires 1 <= bits
  {
    -(Pow2(bits - 1) as int) <= x < Pow2(bits - 1)
  }

  /** The truncation test of `OverflowInt` is exactly the range check. */
  lemma {:induction false} OverflowIntIff(x: int, bits: nat)
    requires 1 <= bits <= 64
    ensures !OverflowInt(x, bits) <==> FitsInt(x, bits)
  {
    var p, h := Pow2(bits), Pow2(bits - 1);
    assert p == 2 * h;
    var m := x % p;
    assert 0 <= m < p;
    if FitsInt(x, bits) {
      if x >= 0 {
        ModOfSmall(x, p);
      } else {
        ModOfNegativeSmall(x, p);
      }
    }
  }

  lemma ModOfSmall(x: int, p: int)
    requires 0 <= x < p
    ensures x % p == x
  {
  }

  lemma ModOfNegativeSmall(x: int, p: int)
    requires -p <= x < 0
    ensures x % p == x + p
  {
  }

  /** Every value `ParseInt` returns fits in 64 bits, so `OverflowInt(v, 64)` never fires. */
  lemma ParsedFits64(s: string)
    requires ParseInt(s).Some?
    ensures FitsInt(ParseInt(s).value, 64)
  {
    Pow2Value63();
  }

  lemma {:induction false} Pow2Add(a: nat, b: nat)
    ensures Pow2(a + b) == Pow2(a) * Pow2(b)
  {
    if a > 0 {
      Pow2Add(a - 1, b);
    }
  }

  lemma Pow2Value63()
    ensures Pow2(63) == 0x8000_0000_0000_0000
  {
    assert Pow2(3) == 8;
    Pow2Add(3, 3);
    assert Pow2(6) == 64;
    Pow2Add(6, 6);
    assert Pow2(12) == 4096;
    Pow2Add(12, 12);
    assert Pow2(24) == 0x100_0000;
    Pow2Add(24, 24);
    assert Pow2(48) == 0x1_0000_0000_0000;
    Pow2Add(48, 12);
    assert Pow2(60) == 0x1000_0000_0000_0000;
    Pow2Add(60, 3);
  }
}
