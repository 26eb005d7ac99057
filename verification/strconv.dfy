/**
 * The integer text forms of Go's `strconv`: `FormatInt`/`AppendInt` (lower-case
 * digits, a leading '-' for negatives) and `ParseInt` with a fixed base and
 * 64 bits (an optional sign, at least one digit of the base in either case,
 * and the value inside the int64 range), including the order in which
 * `ParseUint`'s loop reports a bad byte and an overflow.
 */
module Strconv {
  import opened GoTypes
  import Digits

  /** The digit `d` as `strconv` writes it: '0'-'9', then 'a'-'z'. */
  function DigitChar(d: nat): (c: Byte)
    requires d < 36
  {
    if d < 10 then ('0' as int + d) as char else ('a' as int + d - 10) as char
  }

  /** The value of a digit character, upper case read like lower case. */
  function DigitValue(c: Byte): (r: Option<nat>)
    ensures r.Some? ==> r.value < 36
  {
    if '0' <= c <= '9' then Some(c as int - '0' as int)
    else if 'a' <= c <= 'z' then Some(c as int - 'a' as int + 10)
    else if 'A' <= c <= 'Z' then Some(c as int - 'A' as int + 10)
    else None
  }

  lemma DigitCharValue(d: nat)
    requires d < 36
    ensures DigitValue(DigitChar(d)) == Some(d)
  {
  }

  /** How many digits `n` has in base `b` (zero has one). */
  function NumDigits(n: nat, b: nat): (k: nat)
    requires b >= 2
    ensures k >= 1 && n < Digits.Pow(b, k)
    decreases n
  {
    if n < b then 1
    else
      Digits.DivDecreases(n, b);
      var k := NumDigits(n / b, b);
      Digits.BelowMul(n, b, Digits.Pow(b, k));
      assert Digits.Pow(b, k + 1) == b * Digits.Pow(b, k);
      k + 1
  }

  /** `FormatUint(n, base)`: the digits of `n`, no leading zeros. */
  function FormatUint(n: nat, base: nat): (s: GoString)
    requires 2 <= base <= 36
    ensures |s| >= 1
    ensures AllDigits(s, base)
  {
    var ds := Digits.ToDigits(n, base, NumDigits(n, base));
    var s := seq(|ds|, i requires 0 <= i < |ds| => DigitChar(ds[i]));
    assert forall i :: 0 <= i < |s| ==> DigitValue(s[i]) == Some(ds[i]) by {
      forall i | 0 <= i < |s| ensures DigitValue(s[i]) == Some(ds[i]) {
        DigitCharValue(ds[i]);
      }
    }
    s
  }

  /** `FormatInt(x, base)` (and `AppendInt` to an empty buffer). */
  function FormatInt(x: int, base: nat): (s: GoString)
    requires 2 <= base <= 36
    ensures |s| >= 1 && s[0] != '+'
    ensures x < 0 <==> s[0] == '-'
  {
    if x < 0 then "-" + FormatUint(-x, base) else FormatUint(x, base)
  }

  /** Every byte is a digit of the base. */
  predicate AllDigits(s: GoString, base: nat) {
    forall i :: 0 <= i < |s| ==> DigitValue(s[i]).Some? && DigitValue(s[i]).value < base
  }

  /** The digit values of a string of digits, most significant first. */
  function Values(s: GoString, base: nat): (vs: seq<nat>)
    requires AllDigits(s, base)
    ensures |vs| == |s| && forall i :: 0 <= i < |s| ==> vs[i] == DigitValue(s[i]).value
  {
    seq(|s|, i requires 0 <= i < |s| && DigitValue(s[i]).Some? => DigitValue(s[i]).value)
  }

  /** The number a string of digits spells in the base. */
  function ValueOf(s: GoString, base: nat): nat
    requires AllDigits(s, base)
  {
    Digits.FromDigits(Values(s, base), base)
  }

  /** The value of a string of digits is the value of all but its last digit, shifted, plus the last. */
  lemma ValueOfLast(s: GoString, base: nat)
    requires |s| >= 1 && AllDigits(s, base)
    ensures AllDigits(s[..|s| - 1], base)
    ensures ValueOf(s, base) == ValueOf(s[..|s| - 1], base) * base + DigitValue(s[|s| - 1]).value
  {
    assert Values(s, base)[..|s| - 1] == Values(s[..|s| - 1], base);
  }

  const MaxUint64: int := 0xffff_ffff_ffff_ffff

  /** Where `ParseUint`'s scan of some bytes stands: the value so far, or the error it has returned. */
  datatype Scan = Scanned(n: nat) | BadDigit | Overflow

  /**
   * The loop of `ParseUint(s, base, 64)` over the bytes `s`: each byte must be
   * a digit of the base, and after each digit the value is checked against
   * the uint64 range (the loop's two overflow tests together say
   * `n * base + d > MaxUint64`). The first failing test ends the scan, so an
   * overflow is reported before any later bad byte.
   */
  function ScanUint(s: GoString, base: nat): Scan
    requires 2 <= base <= 36
    decreases |s|
  {
    if |s| == 0 then Scanned(0)
    else
      match ScanUint(s[..|s| - 1], base)
      case Scanned(n) =>
        var d := DigitValue(s[|s| - 1]);
        if d.None? || d.value >= base then BadDigit
        else
          var next := Shift(n, base, d.value);
          if next > MaxUint64 then Overflow else Scanned(next)
      case stopped => stopped
  }

  /** The value after one more digit. */
  function Shift(n: nat, base: nat, d: nat): nat {
    n * base + d
  }

  /** On a string of digits the scan ends with their value, or with an overflow when that value exceeds uint64. */
  lemma {:induction false} ScanDigits(s: GoString, base: nat)
    requires 2 <= base <= 36 && AllDigits(s, base)
    ensures ScanUint(s, base) == if ValueOf(s, base) <= MaxUint64 then Scanned(ValueOf(s, base)) else Overflow
    decreases |s|
  {
    if |s| > 0 {
      var init := s[..|s| - 1];
      ValueOfLast(s, base);
      ScanDigits(init, base);
      Digits.MulLeftMono(1, base, ValueOf(init, base));
    }
  }

  /** The scan succeeds only on digits. */
  lemma {:induction false} ScannedOnlyDigits(s: GoString, base: nat)
    requires 2 <= base <= 36 && ScanUint(s, base).Scanned?
    ensures AllDigits(s, base)
    decreases |s|
  {
    if |s| > 0 {
      ScannedOnlyDigits(s[..|s| - 1], base);
    }
  }

  /** Once the scan has stopped with an error, the bytes after that point do not matter. */
  lemma {:induction false} StoppedScanStays(s: GoString, base: nat, k: nat)
    requires 2 <= base <= 36 && k <= |s| && !ScanUint(s[..k], base).Scanned?
    ensures ScanUint(s, base) == ScanUint(s[..k], base)
    decreases |s| - k
  {
    if k < |s| {
      var init := s[..|s| - 1];
      assert init[..k] == s[..k];
      StoppedScanStays(init, base, k);
    } else {
      assert s[..k] == s;
    }
  }

  /** The scan succeeds exactly on digits spelling a value within uint64, and yields that value. */
  lemma ScanMeaning(s: GoString, base: nat)
    requires 2 <= base <= 36
    ensures ScanUint(s, base).Scanned? <==> AllDigits(s, base) && ValueOf(s, base) <= MaxUint64
    ensures ScanUint(s, base).Scanned? ==> ScanUint(s, base).n == ValueOf(s, base)
    ensures AllDigits(s, base) && ValueOf(s, base) > MaxUint64 ==> ScanUint(s, base).Overflow?
  {
    if ScanUint(s, base).Scanned? {
      ScannedOnlyDigits(s, base);
    }
    if AllDigits(s, base) {
      ScanDigits(s, base);
    }
  }

  /** The error texts of `strconv.ErrSyntax` and `strconv.ErrRange`. */
  const ErrSyntax: string := "invalid syntax"
  const ErrRange: string := "value out of range"

  /** The text after an optional leading '+' or '-'. */
  function Unsigned(s: GoString): GoString {
    if |s| > 0 && (s[0] == '+' || s[0] == '-') then s[1..] else s
  }

  /** The text starts with '-'. */
  predicate Negative(s: GoString) {
    |s| > 0 && s[0] == '-'
  }

  /** A magnitude with its sign fits int64: up to 2^63 - 1, or 2^63 when negative. */
  predicate FitsInt64(neg: bool, u: nat) {
    if neg then u <= -MinInt64 else u <= MaxInt64
  }

  /**
   * `ParseInt(s, base, 64)`: an optional '+' or '-', then `ParseUint` of the
   * rest (no digits at all is a syntax error), then the int64 range check
   * on the magnitude.
   */
  function ParseInt(s: GoString, base: nat): (r: Result<Int64>)
    requires 2 <= base <= 36
    ensures r.Ok? <==>
      |Unsigned(s)| >= 1 && AllDigits(Unsigned(s), base) && FitsInt64(Negative(s), ValueOf(Unsigned(s), base))
    ensures r.Ok? ==> r.value as int == if Negative(s) then -(ValueOf(Unsigned(s), base) as int) else ValueOf(Unsigned(s), base) as int
    ensures |Unsigned(s)| == 0 ==> r == Err(ErrSyntax)
    ensures |Unsigned(s)| >= 1 && AllDigits(Unsigned(s), base) && !FitsInt64(Negative(s), ValueOf(Unsigned(s), base)) ==>
      r == Err(ErrRange)
    ensures r.Err? ==> r.msg in {ErrSyntax, ErrRange}
  {
    var digits := Unsigned(s);
    ScanMeaning(digits, base);
    if |digits| == 0 then Err(ErrSyntax)
    else
      match ScanUint(digits, base)
      case BadDigit => Err(ErrSyntax)
      case Overflow => Err(ErrRange)
      case Scanned(u) =>
        var neg := Negative(s);
        if !neg && u > MaxInt64 then Err(ErrRange)
        else if neg && u > -MinInt64 then Err(ErrRange)
        else
          var v: Int64 := if neg then -(u as int) else u as int;
          Ok(v)
  }

  /**
   * Go's order of errors: once the digits read so far spell a value beyond
   * uint64, the result is a range error whatever bytes follow.
   */
  lemma OverflowBeforeBadByte(s: GoString, base: nat, k: nat)
    requires 2 <= base <= 36 && 1 <= k <= |Unsigned(s)|
    requires AllDigits(Unsigned(s)[..k], base) && ValueOf(Unsigned(s)[..k], base) > MaxUint64
    ensures ParseInt(s, base) == Err(ErrRange)
  {
    ScanMeaning(Unsigned(s)[..k], base);
    StoppedScanStays(Unsigned(s), base, k);
  }

  /** A bad byte met while the value read so far still fits uint64 is a syntax error. */
  lemma BadByteBeforeOverflow(s: GoString, base: nat, k: nat)
    requires 2 <= base <= 36 && k < |Unsigned(s)|
    requires AllDigits(Unsigned(s)[..k], base) && ValueOf(Unsigned(s)[..k], base) <= MaxUint64
    requires !(DigitValue(Unsigned(s)[k]).Some? && DigitValue(Unsigned(s)[k]).value < base)
    ensures ParseInt(s, base) == Err(ErrSyntax)
  {
    var u := Unsigned(s);
    var pre := u[..k + 1];
    assert pre[..k] == u[..k];
    ScanMeaning(u[..k], base);
    assert ScanUint(pre, base) == BadDigit;
    StoppedScanStays(u, base, k + 1);
  }

  /** Digits written by `FormatUint` read back as the number. */
  lemma ParseFormatUint(n: nat, base: nat)
    requires 2 <= base <= 36
    ensures AllDigits(FormatUint(n, base), base) && ValueOf(FormatUint(n, base), base) == n
  {
    var ds := Digits.ToDigits(n, base, NumDigits(n, base));
    var s := FormatUint(n, base);
    assert Values(s, base) == ds by {
      forall i | 0 <= i < |s| ensures Values(s, base)[i] == ds[i] {
        DigitCharValue(ds[i]);
      }
    }
    Digits.ToFromDigits(n, base, NumDigits(n, base));
  }

  /** `ParseInt(FormatInt(x, b), b, 64)` gives back every int64, negatives included. */
  lemma ParseFormatInt(x: Int64, base: nat)
    requires 2 <= base <= 36
    ensures ParseInt(FormatInt(x, base), base) == Ok(x)
  {
    var s := FormatInt(x, base);
    if x < 0 {
      var m: nat := -(x as int);
      ParseFormatUint(m, base);
      assert Unsigned(s) == FormatUint(m, base);
    } else {
      ParseFormatUint(x, base);
      assert DigitValue(s[0]).Some?;
      assert Unsigned(s) == s;
    }
  }
}
