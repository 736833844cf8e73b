/** Arithmetic of the option map language on finite numbers.  A result that is not zero is rounded by
    `round`, about which nothing is assumed; the signs of zeros follow IEEE 754. */
module CelNumbers {
  import opened JsonValues

  type Rounding = real -> Number

  predicate IsFinite(n: Number) { n.NegativeZero? || n.Finite? }

  type FiniteNumber = n: Number | IsFinite(n) witness NegativeZero

  function ValueOf(n: FiniteNumber): real {
    if n.NegativeZero? then 0.0 else n.value
  }

  predicate IsNegative(n: FiniteNumber) { n.NegativeZero? || n.value < 0.0 }

  function ZeroOf(negative: bool): Number {
    if negative then NegativeZero else Finite(0.0)
  }

  function Negated(n: FiniteNumber): FiniteNumber {
    if n.NegativeZero? then Finite(0.0) else if n.value == 0.0 then NegativeZero else Finite(-n.value)
  }

  function Sum(round: Rounding, a: FiniteNumber, b: FiniteNumber): Number {
    var exact := ValueOf(a) + ValueOf(b);
    if exact != 0.0 then round(exact) else ZeroOf(a.NegativeZero? && b.NegativeZero?)
  }

  function Difference(round: Rounding, a: FiniteNumber, b: FiniteNumber): Number {
    Sum(round, a, Negated(b))
  }

  function Product(round: Rounding, a: FiniteNumber, b: FiniteNumber): Number {
    var exact := ValueOf(a) * ValueOf(b);
    if exact != 0.0 then round(exact) else ZeroOf(IsNegative(a) != IsNegative(b))
  }

  function Quotient(round: Rounding, a: FiniteNumber, b: FiniteNumber): Number {
    var negative := IsNegative(a) != IsNegative(b);
    if ValueOf(b) == 0.0 then if ValueOf(a) == 0.0 then NaN else Infinity(negative)
    else if ValueOf(a) == 0.0 then ZeroOf(negative)
    else round(ValueOf(a) / ValueOf(b))
  }

  function Truncated(r: real): int {
    if r >= 0.0 then r.Floor else -((-r).Floor)
  }

  /** The multiple of y that the truncated quotient picks. */
  function Multiple(x: real, y: real): real
    requires y != 0.0
  {
    y * Truncated(x / y) as real
  }

  /** Exact, with the sign of the dividend. */
  function Remainder(a: FiniteNumber, b: FiniteNumber): Number {
    if ValueOf(b) == 0.0 then NaN
    else
      var exact := ValueOf(a) - Multiple(ValueOf(a), ValueOf(b));
      if exact != 0.0 then Finite(exact) else ZeroOf(IsNegative(a))
  }

  lemma ProductSigns(k: real, d: real)
    requires k > 0.0
    ensures d >= 0.0 ==> k * d >= 0.0
    ensures d > 0.0 ==> k * d > 0.0
  {
  }

  lemma Distributes(k: real, a: real, b: real)
    ensures k * (a - b) == k * a - k * b
  {
  }

  lemma Complement(k: real, d: real)
    ensures k * (1.0 - d) == k - k * d
  {
  }

  lemma Between(x: real, y: real, multiple: real, below: real, above: real)
    requires below >= 0.0 && above > 0.0 && below == x - multiple && above == y - below
    ensures multiple <= x < multiple + y
  {
  }

  /** Between two neighbouring multiples. */
  lemma Neighbours(x: real, y: real, q: real, t: real)
    requires y > 0.0 && t <= q < t + 1.0 && y * q == x
    ensures y * t <= x < y * t + y
  {
    var d := q - t;
    ProductSigns(y, d);
    ProductSigns(y, 1.0 - d);
    Distributes(y, q, t);
    Complement(y, d);
    Between(x, y, y * t, y * d, y * (1.0 - d));
  }

  lemma Divided(x: real, y: real)
    requires y != 0.0
    ensures y * (x / y) == x
  {
  }

  lemma FloorIsBelow(q: real)
    ensures q.Floor as real <= q < q.Floor as real + 1.0
  {
  }

  /** For non-negative dividend and positive divisor. */
  lemma FloorBounds(x: real, y: real)
    requires x >= 0.0 && y > 0.0
    ensures var m := y * (x / y).Floor as real; m <= x < m + y
  {
    Divided(x, y);
    FloorIsBelow(x / y);
    Neighbours(x, y, x / y, (x / y).Floor as real);
  }

  function Magnitude(r: real): real { if r < 0.0 then -r else r }

  lemma Opposite(k: real, a: real)
    ensures k * -a == -(k * a) && -k * a == -(k * a)
  {
  }

  lemma Cancels(k: real, a: real, b: real)
    requires k != 0.0 && k * a == k * b
    ensures a == b
  {
    Distributes(k, a, b);
    if a > b {
      if k > 0.0 { ProductSigns(k, a - b); } else { ProductSigns(-k, a - b); Opposite(k, a - b); }
    } else if a < b {
      if k > 0.0 { ProductSigns(k, b - a); } else { ProductSigns(-k, b - a); Opposite(k, b - a); }
      Opposite(k, a - b);
    }
  }

  /** The quotient is that of the magnitudes, with the sign of both. */
  lemma SignedQuotient(x: real, y: real)
    requires y != 0.0
    ensures
      var p := Magnitude(x) / Magnitude(y);
      p >= 0.0 && x / y == if (x >= 0.0) == (y > 0.0) then p else -p
  {
    var p := Magnitude(x) / Magnitude(y);
    Divided(x, y);
    Divided(Magnitude(x), Magnitude(y));
    Opposite(y, p);
    if p < 0.0 { ProductSigns(Magnitude(y), -p); Opposite(Magnitude(y), p); }
    Cancels(y, x / y, if (x >= 0.0) == (y > 0.0) then p else -p);
  }

  /** Truncation works on the magnitudes and then takes the sign of the quotient. */
  lemma TruncatedMultiple(x: real, y: real)
    requires y != 0.0
    ensures
      var m := Magnitude(y) * (Magnitude(x) / Magnitude(y)).Floor as real;
      Multiple(x, y) == if x >= 0.0 then m else -m
  {
    var t := (Magnitude(x) / Magnitude(y)).Floor;
    SignedQuotient(x, y);
    assert Truncated(x / y) == if (x >= 0.0) == (y > 0.0) then t else -t;
    Opposite(y, t as real);
  }

  lemma MultipleBounds(x: real, y: real)
    requires y != 0.0
    ensures x >= 0.0 ==> 0.0 <= x - Multiple(x, y) < Magnitude(y)
    ensures x <= 0.0 ==> -Magnitude(y) < x - Multiple(x, y) <= 0.0
  {
    TruncatedMultiple(x, y);
    FloorBounds(Magnitude(x), Magnitude(y));
  }

  /** The remainder differs from the dividend by a whole multiple of the divisor, is smaller than the
      divisor, and has the dividend's sign, also when it is zero. */
  lemma RemainderLaw(a: FiniteNumber, b: FiniteNumber)
    requires ValueOf(b) != 0.0
    ensures
      var r := Remainder(a, b);
      && IsFinite(r) && IsNegative(r) == IsNegative(a)
      && ValueOf(a) == Multiple(ValueOf(a), ValueOf(b)) + ValueOf(r)
      && Magnitude(ValueOf(r)) < Magnitude(ValueOf(b))
  {
    MultipleBounds(ValueOf(a), ValueOf(b));
  }
}
