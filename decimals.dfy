/**
 * Finite decimal numbers as Python's `decimal` module represents them: a sign,
 * a non-negative integer coefficient and a base-ten exponent.  The sign is kept
 * apart from the coefficient, so negative zero exists, exactly as in Python.
 * Values are exact `real`s; nothing here rounds.
 */
module Decimals {

  /** The triple `Decimal.as_tuple()` returns for a finite number. */
  datatype Decimal = Decimal(negative: bool, coefficient: nat, exponent: int)

  /** Ten to the power `n`. */
  function Pow10(n: nat): (r: nat)
    ensures r >= 1
  {
    if n == 0 then 1 else 10 * Pow10(n - 1)
  }

  lemma {:induction false} Pow10Add(a: nat, b: nat)
    ensures Pow10(a + b) == Pow10(a) * Pow10(b)
  {
    if a > 0 {
      Pow10Add(a - 1, b);
      assert Pow10(a + b) == 10 * Pow10(a - 1 + b);
    }
  }

  /** The magnitude `coefficient * 10^exponent`, exactly. */
  function Magnitude(d: Decimal): real
  {
    if d.exponent >= 0 then (d.coefficient * Pow10(d.exponent)) as real
    else d.coefficient as real / Pow10(-d.exponent) as real
  }

  /** The number a decimal denotes. */
  function Value(d: Decimal): real
  {
    if d.negative then -Magnitude(d) else Magnitude(d)
  }

  /** The sign of the value is read off the representation: a zero
      coefficient is zero whatever the sign bit and the exponent say. */
  lemma SignOfValue(d: Decimal)
    ensures Value(d) < 0.0 <==> d.negative && d.coefficient > 0
    ensures Value(d) == 0.0 <==> d.coefficient == 0
    ensures Value(d) > 0.0 <==> !d.negative && d.coefficient > 0
  {
  }

  /** The value in hundredths, for a decimal with at most two fractional digits. */
  function Cents(d: Decimal): int
    requires d.exponent >= -2
  {
    var c := d.coefficient * Pow10(d.exponent + 2);
    if d.negative then -c else c
  }

  lemma ValueInCents(d: Decimal)
    requires d.exponent >= -2
    ensures Value(d) == Cents(d) as real / 100.0
  {
    if d.exponent >= 0 {
      Pow10Add(d.exponent, 2);
      assert Pow10(2) == 100;
    } else if d.exponent == -1 {
      assert Pow10(1) == 10;
    } else {
      assert Pow10(2) == 100;
    }
  }

  /** The same number written with `k` more trailing zeros: `1.5` becomes `1.500` for `k == 2`. */
  function WithTrailingZeros(d: Decimal, k: nat): Decimal
  {
    Decimal(d.negative, d.coefficient * Pow10(k), d.exponent - k)
  }

  /** Case 1: both exponents are non-negative; the value is an integer. */
  lemma ShiftWhole(c: nat, k: nat, e: nat)
    ensures ((c * Pow10(k)) * Pow10(e)) as real == (c * Pow10(k + e)) as real
  {
    Pow10Add(k, e);
  }

  /** A common power of ten cancels: `a * p / (p * q) == a / q`. */
  lemma CancelFactor(a: nat, p: nat, q: nat)
    requires p >= 1 && q >= 1
    ensures (a * p) as real / (p * q) as real == a as real / q as real
  {
  }

  /** Case 2: `c * 10^(e + j) / 10^j` is `c * 10^e`. */
  lemma ShiftAcross(c: nat, e: nat, j: nat)
    ensures (c * Pow10(e + j)) as real / Pow10(j) as real == (c * Pow10(e)) as real
  {
    var p, q := Pow10(e), Pow10(j);
    Pow10Add(e, j);
    assert c * Pow10(e + j) == (c * p) * q;
    CancelFactor(c * p, q, 1);
  }

  /** Case 3: `c * 10^k / 10^(k + f)` is `c / 10^f`. */
  lemma ShiftFraction(c: nat, k: nat, f: nat)
    ensures (c * Pow10(k)) as real / Pow10(k + f) as real == c as real / Pow10(f) as real
  {
    Pow10Add(k, f);
    CancelFactor(c, Pow10(k), Pow10(f));
  }

  /** Trailing zeros change the representation, never the value. */
  lemma TrailingZerosKeepValue(d: Decimal, k: nat)
    ensures Value(WithTrailingZeros(d, k)) == Value(d)
  {
    var e := WithTrailingZeros(d, k);
    if e.exponent >= 0 {
      ShiftWhole(d.coefficient, k, e.exponent);
    } else if d.exponent >= 0 {
      ShiftAcross(d.coefficient, d.exponent, k - d.exponent);
    } else {
      ShiftFraction(d.coefficient, k, -d.exponent);
    }
  }
}
