/**
 Rounding to nearest, ties to even, into a binary format with gradual underflow
 (IEEE 754-1985, section 4.1).  A format is its precision and the exponent of its
 smallest quantum; exponents are unbounded above, so overflow is not modelled.
 */
module Rounding {
  import opened Powers

  datatype Format = Format(precision: nat, minExponent: int)

  const BINARY32 := Format(24, -149)
  const BINARY64 := Format(53, -1074)

  /** The formats of the standard: e exponent bits have the bias 2^(e - 1) - 1; the fraction follows an implied 1. */
  lemma FormatsOfTheStandard()
    ensures BINARY32 == Format(23 + 1, 1 - (Pow2(8 - 1) - 1) - 23)
    ensures BINARY64 == Format(52 + 1, 1 - (Pow2(11 - 1) - 1) - 52)
  {
    assert Pow2(7) == 128;
    assert Pow2(10) == 8 * Pow2(7);
  }

  function Abs(x: real): real { if x < 0.0 then -x else x }

  /** The integer nearest to q; the even one of two equally near. */
  function NearestEven(q: real): int {
    var f := q.Floor;
    var d := q - f as real;
    if d < 0.5 then f
    else if d > 0.5 then f + 1
    else if f % 2 == 0 then f else f + 1
  }

  lemma NearestEvenHalf(q: real)
    ensures Abs(NearestEven(q) as real - q) <= 0.5
    ensures Abs(NearestEven(q) as real - q) == 0.5 ==> NearestEven(q) % 2 == 0
  {
  }

  lemma NearestEvenIsNearest(q: real, n: int)
    ensures Abs(NearestEven(q) as real - q) <= Abs(n as real - q)
  {
    var f := q.Floor;
    if n <= f {
      assert n as real <= f as real;
    } else {
      assert n as real >= f as real + 1.0;
    }
  }

  lemma NearestEvenMonotone(q: real, r: real)
    requires q <= r
    ensures NearestEven(q) <= NearestEven(r)
  {
  }

  lemma Halves(f: Format, a: real, e: int)
    requires f.precision > 0 && a >= TwoTo(e + f.precision)
    ensures 0 <= Scale(a, -(e + 1)).Floor < Scale(a, -e).Floor
  {
    TwoToMonotone(e + 1, e + f.precision);
    ScaleMonotone(a, TwoTo(e + 1), -e);
    ScaleComposes(1.0, e + 1, -e);
    ScaleStep(a, -(e + 1));
  }

  /** The least exponent e >= from with a < 2^(e + precision). */
  function ExponentFrom(f: Format, a: real, from: int): (e: int)
    requires f.precision > 0 && a >= 0.0
    ensures e >= from && a < TwoTo(e + f.precision)
    ensures e > from ==> a >= TwoTo(e + f.precision - 1)
    decreases Scale(a, -from).Floor
  {
    if a < TwoTo(from + f.precision) then from
    else
      Halves(f, a, from);
      ExponentFrom(f, a, from + 1)
  }

  /** The exponent of the quantum (unit in the last place) that x is rounded to. */
  function Exponent(f: Format, x: real): int
    requires f.precision > 0
  {
    ExponentFrom(f, Abs(x), f.minExponent)
  }

  /** The multiple of 2^e nearest to x, the even multiple in a tie. */
  function RoundTo(x: real, e: int): real {
    Scale(NearestEven(Scale(x, -e)) as real, e)
  }

  function Round(f: Format, x: real): real
    requires f.precision > 0
  {
    RoundTo(x, Exponent(f, x))
  }

  ghost predicate IsValue(f: Format, x: real, m: int, e: int) {
    && e >= f.minExponent
    && Abs(m as real) < TwoTo(f.precision)
    && x == Scale(m as real, e)
  }

  /** x is a value of the format: an integer of at most `precision` bits, scaled. */
  ghost predicate Representable(f: Format, x: real) {
    exists m: int, e: int :: IsValue(f, x, m, e)
  }

  /** Any exponent that brackets |x| is the exponent of its quantum. */
  lemma ExponentUnique(f: Format, x: real, e: int)
    requires f.precision > 0
    requires e >= f.minExponent && Abs(x) < TwoTo(e + f.precision)
    requires e > f.minExponent ==> Abs(x) >= TwoTo(e + f.precision - 1)
    ensures Exponent(f, x) == e
  {
    var r := Exponent(f, x);
    if r < e {
      TwoToMonotone(r + f.precision, e + f.precision - 1);
    } else if r > e {
      TwoToMonotone(e + f.precision, r + f.precision - 1);
    }
  }

  /** |x| below 2^(e + precision) is rounded to a quantum of at most 2^e. */
  lemma ExponentBounded(f: Format, x: real, e: int)
    requires f.precision > 0 && e >= f.minExponent && Abs(x) < TwoTo(e + f.precision)
    ensures Exponent(f, x) <= e
  {
    var r := Exponent(f, x);
    if r > e {
      TwoToMonotone(e + f.precision, r + f.precision - 1);
    }
  }

  lemma ScaleAbs(a: real, b: real, e: int)
    ensures Abs(Scale(a, e) - Scale(b, e)) == Scale(Abs(a - b), e)
    ensures Abs(Scale(a, e)) == Scale(Abs(a), e)
  {
    ScaleAdds(a, b, e);
    ScaleAdds(b, a, e);
    ScaleMonotone(a, b, e);
    ScaleMonotone(a, 0.0, e);
    ScaleZero(e);
  }

  /** Among the multiples of 2^e, the rounded value is nearest, and no further than half of 2^e. */
  lemma NearestOnGrid(x: real, e: int, n: int)
    ensures Abs(RoundTo(x, e) - x) <= Abs(Scale(n as real, e) - x)
    ensures Abs(RoundTo(x, e) - x) <= TwoTo(e) / 2.0
  {
    var q := Scale(x, -e);
    var k := NearestEven(q);
    ScaleComposes(x, -e, e);
    NearestEvenHalf(q);
    NearestEvenIsNearest(q, n);
    ScaleAbs(k as real, q, e);
    ScaleAbs(n as real, q, e);
    ScaleMonotone(Abs(n as real - q), Abs(k as real - q), e);
    ScaleMonotone(0.5, Abs(k as real - q), e);
    ScaleAdds(1.0, 0.0, e);
  }

  /** Half-ulp error bound, for everything below 2^(e + precision). */
  lemma HalfUlp(f: Format, x: real, e: int)
    requires f.precision > 0 && e >= f.minExponent && Abs(x) < TwoTo(e + f.precision)
    ensures Abs(Round(f, x) - x) <= TwoTo(e) / 2.0
  {
    NearestOnGrid(x, Exponent(f, x), 0);
    ExponentBounded(f, x, e);
    TwoToMonotone(Exponent(f, x), e);
  }

  /** A tie is broken towards the even significand. */
  lemma TiesToEven(f: Format, x: real)
    requires f.precision > 0 && Abs(Round(f, x) - x) == TwoTo(Exponent(f, x)) / 2.0
    ensures exists n: int :: n % 2 == 0 && Round(f, x) == Scale(n as real, Exponent(f, x))
  {
    var e := Exponent(f, x);
    var q := Scale(x, -e);
    var k := NearestEven(q);
    ScaleComposes(x, -e, e);
    ScaleAbs(k as real, q, e);
    ScaleAdds(1.0, 0.0, e);
    ScaleMonotone(Abs(k as real - q), 0.5, e);
    NearestEvenHalf(q);
  }

  /** A value with an exponent below r is below 2^(r + precision - 1). */
  lemma ValueBelow(f: Format, y: real, m: int, e: int, r: int)
    requires f.precision > 0 && IsValue(f, y, m, e) && e < r
    ensures Abs(y) <= TwoTo(r + f.precision - 1)
  {
    ScaleAbs(m as real, 0.0, e);
    ScaleZero(e);
    ScaleMonotone(Abs(m as real), TwoTo(f.precision), e);
    ScaleComposes(1.0, f.precision, e);
    TwoToMonotone(e + f.precision, r + f.precision - 1);
  }

  /** That power of two is on the grid and, above the smallest quantum, at most |x|; so x is rounded no further away. */
  lemma NearestToPower(f: Format, x: real)
    requires f.precision > 0 && Exponent(f, x) > f.minExponent
    ensures var top := TwoTo(Exponent(f, x) + f.precision - 1);
            Abs(x) >= top && Abs(Round(f, x) - x) <= Abs(x) - top
  {
    var r := Exponent(f, x);
    var top := ScaleInteger(1, f.precision - 1);
    ScaleComposes(1.0, f.precision - 1, r);
    ScaleAdds(top as real, 0.0, r);
    TwoToMonotone(r, r + f.precision - 1);
    assert (-top) as real == -(top as real);
    NearestOnGrid(x, r, if x >= 0.0 then top else -top);
  }

  /** A value of the format is never nearer to x than its rounding. */
  lemma RoundIsNearest(f: Format, x: real, y: real)
    requires f.precision > 0 && Representable(f, y)
    ensures Abs(Round(f, x) - x) <= Abs(y - x)
  {
    var m, e :| IsValue(f, y, m, e);
    var r := Exponent(f, x);
    if e >= r {
      var n := ScaleInteger(m, e - r);
      ScaleComposes(m as real, e - r, r);
      NearestOnGrid(x, r, n);
    } else {
      ValueBelow(f, y, m, e, r);
      NearestToPower(f, x);
    }
  }

  /** The significand of a rounded value has at most `precision` bits, or is the next power of two. */
  lemma SignificandBounded(f: Format, x: real, top: int)
    requires f.precision > 0 && top as real == TwoTo(f.precision)
    ensures -top <= NearestEven(Scale(x, -Exponent(f, x))) <= top
  {
    var e := Exponent(f, x);
    ScaleAbs(x, 0.0, -e);
    ScaleMonotone(Abs(x), TwoTo(e + f.precision), -e);
    ScaleComposes(1.0, e + f.precision, -e);
    NearestEvenMonotone(Scale(x, -e), top as real);
    NearestEvenMonotone((-top) as real, Scale(x, -e));
  }

  lemma RoundIsRepresentable(f: Format, x: real)
    requires f.precision > 0
    ensures Representable(f, Round(f, x))
  {
    var e := Exponent(f, x);
    var n := NearestEven(Scale(x, -e));
    var half := ScaleInteger(1, f.precision - 1);
    var top := 2 * half;
    ScaleStep(1.0, f.precision - 1);
    TwoToMonotone(f.precision - 1, f.precision);
    SignificandBounded(f, x, top);
    if n == top || n == -top {
      var h := if n == top then half else -half;
      assert n as real == Scale(h as real, 1);
      ScaleComposes(h as real, 1, e);
      assert IsValue(f, Round(f, x), h, e + 1);
    } else {
      assert IsValue(f, Round(f, x), n, e);
    }
  }

  /** Values of the format are left alone. */
  lemma RoundExact(f: Format, x: real)
    requires f.precision > 0 && Representable(f, x)
    ensures Round(f, x) == x
  {
    RoundIsNearest(f, x, x);
  }

  lemma RoundMonotone(f: Format, x: real, y: real)
    requires f.precision > 0 && x <= y
    ensures Round(f, x) <= Round(f, y)
  {
    var a, b := Round(f, x), Round(f, y);
    if a > b {
      RoundIsRepresentable(f, x);
      RoundIsRepresentable(f, y);
      RoundIsNearest(f, x, b);
      RoundIsNearest(f, y, a);
    }
  }

  /** Every integer of at most `precision` bits is a value of the format. */
  lemma IntegerExact(f: Format, n: int)
    requires f.precision > 0 && f.minExponent <= 0
    requires Abs(n as real) < TwoTo(f.precision)
    ensures Round(f, n as real) == n as real
  {
    assert IsValue(f, n as real, n, 0);
    RoundExact(f, n as real);
  }
}
