/**
 * Positional notation: a natural number as a fixed-length, most significant
 * first sequence of digits in some base. The base-36 text of `strconv` and
 * the 5-bit groups of base32 are both read and written through it.
 */
module Digits {

  function Pow(b: nat, e: nat): (r: nat)
    ensures b >= 1 ==> r >= 1
  {
    if e == 0 then 1 else b * Pow(b, e - 1)
  }

  lemma {:induction false} PowAdd(b: nat, m: nat, n: nat)
    ensures Pow(b, m + n) == Pow(b, m) * Pow(b, n)
    decreases n
  {
    if n > 0 {
      PowAdd(b, m, n - 1);
      var x, y, z := Pow(b, m), Pow(b, n - 1), Pow(b, m + (n - 1));
      assert z == x * y;
      assert Pow(b, m + n) == b * z;
      assert Pow(b, n) == b * y;
      MulSwap(b, x, y);
    }
  }

  /** Multiplying by `b` inside or outside a product is the same. */
  lemma MulSwap(b: int, x: int, y: int)
    ensures b * (x * y) == x * (b * y)
  {
  }

  lemma {:induction false} PowMul(b: nat, m: nat, n: nat)
    ensures Pow(Pow(b, m), n) == Pow(b, m * n)
    decreases n
  {
    if n > 0 {
      var x, k := Pow(b, m), m * (n - 1);
      assert k + m == m * n;
      PowMul(b, m, n - 1);
      PowAdd(b, k, m);
      assert Pow(x, n) == x * Pow(x, n - 1);
    }
  }

  /** Every digit is below the base. */
  predicate AllBelow(ds: seq<nat>, b: nat) {
    forall i :: 0 <= i < |ds| ==> ds[i] < b
  }

  /** The number the digits spell, most significant first. */
  function FromDigits(ds: seq<nat>, b: nat): nat
    decreases |ds|
  {
    if |ds| == 0 then 0 else FromDigits(ds[..|ds| - 1], b) * b + ds[|ds| - 1]
  }

  /** The last `n` digits of `w` in base `b`, most significant first. */
  function ToDigits(w: nat, b: nat, n: nat): (ds: seq<nat>)
    requires b >= 2
    ensures |ds| == n && AllBelow(ds, b)
    decreases n
  {
    if n == 0 then [] else ToDigits(w / b, b, n - 1) + [w % b]
  }

  /** `n` digits spell a number below `b^n`. */
  lemma {:induction false} FromDigitsBound(ds: seq<nat>, b: nat)
    requires b >= 1 && AllBelow(ds, b)
    ensures FromDigits(ds, b) < Pow(b, |ds|)
    decreases |ds|
  {
    if |ds| > 0 {
      var init := ds[..|ds| - 1];
      FromDigitsBound(init, b);
      assert ds[|ds| - 1] < b;
      StepBound(FromDigits(init, b), ds[|ds| - 1], Pow(b, |init|), b);
      assert Pow(b, |ds|) == b * Pow(b, |init|);
    }
  }

  /** One more digit below the base keeps a number below `p` below `p * b`. */
  lemma StepBound(x: nat, d: nat, p: nat, b: nat)
    requires x < p && d < b
    ensures x * b + d < b * p
  {
    MulLeftMono(x + 1, p, b);
    assert (x + 1) * b == x * b + b;
  }

  lemma MulStrict(x: nat, y: nat, c: nat)
    requires x < y && c >= 1
    ensures x * c < y * c
  {
  }

  lemma MulLeftMono(x: nat, y: nat, c: nat)
    requires x <= y
    ensures x * c <= y * c
  {
  }

  /** Writing a number below `b^n` in `n` digits and reading it back gives the number. */
  lemma {:induction false} ToFromDigits(w: nat, b: nat, n: nat)
    requires b >= 2 && w < Pow(b, n)
    ensures FromDigits(ToDigits(w, b, n), b) == w
    decreases n
  {
    if n > 0 {
      var ds := ToDigits(w, b, n);
      assert ds[..n - 1] == ToDigits(w / b, b, n - 1);
      DivBelow(w, b, Pow(b, n - 1));
      ToFromDigits(w / b, b, n - 1);
      DivMod(w, b);
    }
  }

  lemma DivMod(w: nat, b: nat)
    requires b >= 1
    ensures (w / b) * b + w % b == w
  {
  }

  lemma BelowMul(w: nat, b: nat, p: nat)
    requires b >= 1 && w / b < p
    ensures w < b * p
  {
    DivMod(w, b);
    MulLeftMono(w / b + 1, p, b);
  }

  lemma DivDecreases(w: nat, b: nat)
    requires b >= 2 && w >= 1
    ensures w / b < w
  {
  }

  lemma DivBelow(w: nat, b: nat, p: nat)
    requires b >= 1 && w < b * p
    ensures w / b < p
  {
  }

  /** Reading digits below the base and writing them back in as many digits gives the digits. */
  lemma {:induction false} FromToDigits(ds: seq<nat>, b: nat)
    requires b >= 2 && AllBelow(ds, b)
    ensures ToDigits(FromDigits(ds, b), b, |ds|) == ds
    decreases |ds|
  {
    if |ds| > 0 {
      var init := ds[..|ds| - 1];
      var w := FromDigits(ds, b);
      DivModDigit(FromDigits(init, b), ds[|ds| - 1], b);
      FromToDigits(init, b);
      assert init + [ds[|ds| - 1]] == ds;
    }
  }

  lemma DivModDigit(x: nat, d: nat, b: nat)
    requires d < b
    ensures (x * b + d) / b == x && (x * b + d) % b == d
  {
    var n := x * b + d;
    assert n == (n / b) * b + n % b;
    assert (x - n / b) * b == n % b - d;
    ZeroFactor(x - n / b, b);
  }

  lemma ZeroFactor(k: int, b: int)
    requires b > 0 && -b < k * b < b
    ensures k == 0
  {
  }
}
