/**
  Decimal arithmetic as the evidence check uses it: Python's default context,
  28 significant digits, halves to even. A decimal is a whole coefficient and a
  power of ten; its value is a real.
*/
module Decimals {

  const LIMIT := 10_000_000_000_000_000_000_000_000_000

  datatype Dec = Dec(coeff: int, exp: int)

  function Pow10(n: nat): (r: nat)
    ensures r > 0
  {
    if n == 0 then 1 else 10 * Pow10(n - 1)
  }

  function Scale(e: int): (r: real)
    ensures r > 0.0
  {
    if e >= 0 then Pow10(e) as real else 1.0 / Pow10(-e) as real
  }

  function Value(d: Dec): real {
    d.coeff as real * Scale(d.exp)
  }

  function Abs(x: int): nat {
    if x < 0 then -x else x
  }

  function AbsReal(x: real): (r: real)
    ensures r >= 0.0
  {
    if x < 0.0 then -x else x
  }

  /** `n` divided by `d`, to the nearest whole number, halves to even. */
  function HalfEven(n: int, d: nat): int
    requires d > 0
  {
    var q, r := n / d, n % d;
    if 2 * r < d then q else if 2 * r > d then q + 1 else if q % 2 == 0 then q else q + 1
  }

  /** What rounding means: no whole number is nearer, and a tie goes to the even one. */
  ghost predicate IsNearest(q: int, n: int, d: nat) {
    var off := Abs(q * d - n);
    2 * off <= d && (2 * off == d ==> q % 2 == 0)
  }

  lemma HalfEvenIsNearest(n: int, d: nat, q: int)
    requires d > 0
    ensures HalfEven(n, d) == q <==> IsNearest(q, n, d)
  {
    var m, r := q - n / d, n % d;
    Offset(n, d, q);
    if m < 0 {
      Multiple(-m, d);
      assert m * d == -(-m * d);
    } else if m > 1 {
      Multiple(m - 1, d);
      assert m * d == (m - 1) * d + d;
    }
  }

  lemma Offset(n: int, d: nat, q: int)
    requires d > 0
    ensures q * d - n == (q - n / d) * d - n % d
    ensures 0 <= n % d < d
  {
    assert n == (n / d) * d + n % d;
    assert q * d == (q - n / d) * d + (n / d) * d;
  }

  lemma Multiple(k: nat, d: nat)
    requires k > 0
    ensures k * d >= d
  {
  }

  /** How many digits of `n` are beyond the precision. */
  function Excess(n: nat): nat {
    if n < LIMIT then 0 else 1 + Excess(n / 10)
  }

  function Dropped(d: Dec): nat {
    Excess(Abs(d.coeff))
  }

  function Kept(d: Dec): int {
    HalfEven(d.coeff, Pow10(Dropped(d)))
  }

  function Carry(q: int, e: int): Dec {
    if Abs(q) == LIMIT then Dec(q / 10, e + 1) else Dec(q, e)
  }

  /** What the context makes of an arithmetic result: its first 28 digits, rounded. */
  function InContext(d: Dec): Dec {
    Carry(Kept(d), d.exp + Dropped(d))
  }

  /** `value.quantize(Decimal(1).scaleb(-places))`: the coefficient at that many places, or no answer. */
  function Quantize(d: Dec, places: nat): (r: int)
  {
    if d.exp + places >= 0 then d.coeff * Pow10(d.exp + places)
    else HalfEven(d.coeff, Pow10(-(d.exp + places)))
  }

  predicate Fits(coeff: int) {
    Abs(coeff) < LIMIT
  }

  predicate AtMostOne(d: Dec) {
    if d.exp >= 0 then d.coeff * Pow10(d.exp) <= 1 else d.coeff <= Pow10(-d.exp)
  }

  // ---- what it means in reals ---------------------------------------------

  /** One unit of the last of `places` decimals. */
  function Unit(places: nat): (r: real)
    ensures r > 0.0
  {
    var p: int := places;
    Scale(-p)
  }

  /** `q` units are `x` to the nearest unit, halves to even. */
  ghost predicate Rounds(x: real, unit: real, q: int) {
    var off := AbsReal(q as real * unit - x);
    2.0 * off <= unit && (2.0 * off == unit ==> q % 2 == 0)
  }

  lemma {:induction false} PowAdds(a: nat, b: nat)
    ensures Pow10(a + b) == Pow10(a) * Pow10(b)
  {
    if a > 0 {
      PowAdds(a - 1, b);
      assert Pow10(a + b) == 10 * Pow10((a - 1) + b);
      assert 10 * (Pow10(a - 1) * Pow10(b)) == (10 * Pow10(a - 1)) * Pow10(b);
    }
  }

  lemma RealProduct(a: nat, b: nat)
    ensures (a * b) as real == a as real * b as real
  {
    if a == 0 {
    } else {
      RealProduct(a - 1, b);
      assert a * b == (a - 1) * b + b;
    }
  }

  lemma ScaleStep(e: int)
    ensures Scale(e) * 10.0 == Scale(e + 1)
  {
    if e < -1 {
      var y := Pow10(-e - 1) as real;
      assert Pow10(-e) as real == 10.0 * y by {
        RealProduct(10, Pow10(-e - 1));
      }
      Reciprocal(y);
    } else if e == -1 {
      assert Pow10(1) == 10;
    }
  }

  lemma Reciprocal(y: real)
    requires y > 0.0
    ensures 10.0 * y > 0.0 && 1.0 / (10.0 * y) * 10.0 == 1.0 / y
  {
    var z := 1.0 / (10.0 * y);
    assert z * (10.0 * y) == 1.0;
    assert (z * 10.0) * y == 1.0;
    assert 1.0 / y == ((z * 10.0) * y) / y == z * 10.0;
  }

  lemma {:induction false} ScaleShifts(e: int, n: nat)
    ensures Scale(e) * Pow10(n) as real == Scale(e + n)
    decreases n
  {
    hide Scale, Pow10;
    PowStep(n);
    if n != 0 {
      ScaleStep(e);
      ScaleShifts(e + 1, n - 1);
      Chain(Scale(e), Pow10(n) as real, Scale(e + 1), Pow10(n - 1) as real);
    }
  }

  lemma PowStep(n: nat)
    ensures Pow10(n) as real == if n == 0 then 1.0 else 10.0 * Pow10(n - 1) as real
  {
    if n != 0 {
      RealProduct(10, Pow10(n - 1));
    }
  }

  lemma Chain(a: real, p: real, b: real, q: real)
    requires p == 10.0 * q && a * 10.0 == b
    ensures a * p == b * q
  {
  }

  lemma Associate(a: real, b: real, c: real)
    ensures a * (b * c) == (a * b) * c
  {
  }

  lemma ScaleUp(a: real, b: real, k: real)
    requires k > 0.0
    ensures a <= b <==> a * k <= b * k
    ensures a == b <==> a * k == b * k
  {
  }

  /** Rounding a decimal to so many places is rounding its value there. */
  lemma QuantizeRounds(d: Dec, places: nat, q: int)
    ensures Quantize(d, places) == q <==> Rounds(Value(d), Unit(places), q)
  {
    hide Unit, Rounds, IsNearest, HalfEven, Scale, Pow10;
    var shift := d.exp + places;
    if shift >= 0 {
      WholeValue(d, places, shift);
      WholeRounds(Value(d), d.coeff * Pow10(shift), Unit(places), q);
    } else {
      HalfEvenIsNearest(d.coeff, Pow10(-shift), q);
      UnitOf(d.exp, places, -shift);
      ScaledNearest(Value(d), Unit(places), q, d.coeff, Pow10(-shift), Scale(d.exp));
    }
  }

  lemma UnitOf(e: int, places: nat, n: nat)
    requires e + n == -(places as int)
    ensures Scale(e) * Pow10(n) as real == Unit(places)
  {
    ScaleShifts(e, n);
  }

  lemma WholeValue(d: Dec, places: nat, shift: nat)
    requires shift == d.exp + places
    ensures Value(d) == (d.coeff * Pow10(shift)) as real * Unit(places)
  {
    var p: int := places;
    ScaleShifts(-p, shift);
    Product(d.coeff, Pow10(shift));
    hide Scale;
    Associate(d.coeff as real, Pow10(shift) as real, Unit(places));
  }

  lemma Product(a: int, b: nat)
    ensures (a * b) as real == a as real * b as real
  {
    if a >= 0 {
      RealProduct(a, b);
    } else {
      RealProduct(-a, b);
      assert a * b == -((-a) * b);
    }
  }

  lemma WholeRounds(x: real, n: int, unit: real, q: int)
    requires unit > 0.0 && x == n as real * unit
    ensures q == n <==> Rounds(x, unit, q)
  {
    assert q == n ==> q as real * unit == x;
    if q != n {
      var k := (q - n) as real;
      assert q as real * unit - x == k * unit;
      if q > n {
        ScaleUp(1.0, k, unit);
      } else {
        ScaleUp(1.0, -k, unit);
        assert (-k) * unit == -(k * unit);
      }
      assert AbsReal(q as real * unit - x) >= unit;
    }
  }

  lemma ScaledNearest(x: real, unit: real, q: int, n: int, d: nat, k: real)
    requires k > 0.0 && d > 0 && x == n as real * k && unit == k * d as real
    ensures IsNearest(q, n, d) <==> Rounds(x, unit, q)
  {
    var off := Abs(q * d - n) as real;
    GapScales(q, n, d, k);
    ScaleUp(2.0 * off, d as real, k);
    Associate(2.0, off, k);
  }

  lemma GapScales(q: int, n: int, d: nat, k: real)
    requires k > 0.0
    ensures AbsReal(q as real * (k * d as real) - n as real * k) == Abs(q * d - n) as real * k
  {
    Product(q, d);
    var a, b, c := q as real, d as real, n as real;
    assert a * (k * b) == (a * b) * k;
    assert (a * b) * k - c * k == (a * b - c) * k;
    AbsScales(a * b - c, k);
  }

  lemma AbsScales(x: real, k: real)
    requires k > 0.0
    ensures AbsReal(x * k) == AbsReal(x) * k
  {
    if x < 0.0 {
      assert (-x) * k > 0.0;
    } else {
      assert x * k >= 0.0;
    }
  }

  // ---- the context --------------------------------------------------------

  lemma OnesPlace()
    ensures Pow10(0) == 1 && Pow10(1) == 10 && Pow10(2) == 100
    ensures forall n :: HalfEven(n, 1) == n
  {
    assert Pow10(2) == 10 * Pow10(1);
  }

  /** Carrying into one more digit does not change the value. */
  lemma CarryValue(q: int, e: int)
    ensures Value(Carry(q, e)) == q as real * Scale(e)
  {
    if Abs(q) == LIMIT {
      ScaleStep(e);
      hide Scale;
      var tenth := (q / 10) as real;
      assert q as real == 10.0 * tenth;
      Chain(Scale(e), q as real, Scale(e + 1), tenth);
    }
  }

  /** An arithmetic result is its exact value rounded to 28 digits; short results are exact. */
  lemma ContextRounds(d: Dec)
    ensures Value(InContext(d)) == Kept(d) as real * Scale(d.exp + Dropped(d))
    ensures Rounds(Value(d), Scale(d.exp + Dropped(d)), Kept(d))
    ensures Fits(d.coeff) ==> InContext(d) == d
  {
    hide IsNearest, Scale, Rounds;
    var k, q := Dropped(d), Kept(d);
    OnesPlace();
    assert Fits(d.coeff) ==> InContext(d) == d;
    CarryValue(q, d.exp + k);
    HalfEvenIsNearest(d.coeff, Pow10(k), q);
    ScaleShifts(d.exp, k);
    hide HalfEven, Pow10, Dropped, Kept, Carry;
    ScaledNearest(Value(d), Scale(d.exp + k), q, d.coeff, Pow10(k), Scale(d.exp));
  }

  lemma ExcessOfHundredfold(n: nat)
    requires n < LIMIT
    ensures Excess(100 * n) <= 2
  {
    assert (100 * n) / 10 == 10 * n && (10 * n) / 10 == n;
    assert Excess(n) == 0;
    assert Excess(10 * n) <= 1;
  }

  /** A hundred times a number of at most 28 digits is exact: only zeros are dropped. */
  lemma HundredfoldIsExact(d: Dec)
    requires Fits(d.coeff)
    ensures Value(InContext(Dec(100 * d.coeff, d.exp))) == 100.0 * Value(d)
  {
    hide Scale, Pow10, Kept, Dropped, Value, InContext, Fits, Rounds;
    var h := Dec(100 * d.coeff, d.exp);
    DroppedZeros(d, h);
    ContextRounds(h);
    ScaleShifts(d.exp, Dropped(h));
    ProductIs(Kept(h), Pow10(Dropped(h)), 100 * d.coeff);
    ValueIs(d);
    Regroup(Kept(h) as real, Pow10(Dropped(h)) as real, Scale(d.exp), Scale(h.exp + Dropped(h)), d.coeff as real,
      Value(InContext(h)), Value(d));
  }

  lemma ValueIs(d: Dec)
    ensures Value(d) == d.coeff as real * Scale(d.exp)
  {
  }

  lemma ProductIs(a: int, b: nat, c: int)
    requires a * b == c
    ensures a as real * b as real == c as real
  {
    Product(a, b);
  }

  lemma DroppedZeros(d: Dec, h: Dec)
    requires Fits(d.coeff) && h == Dec(100 * d.coeff, d.exp)
    ensures Kept(h) * Pow10(Dropped(h)) == 100 * d.coeff
  {
    ExcessOfHundredfold(Abs(d.coeff));
    OnesPlace();
    assert Abs(100 * d.coeff) == 100 * Abs(d.coeff);
    hide Excess, Pow10, HalfEven;
    match Dropped(h) {
      case 0 => Divides(d.coeff, 100, 1);
      case 1 => Divides(d.coeff, 10, 10);
      case _ => Divides(d.coeff, 1, 100);
    }
  }

  lemma Divides(c: int, m: nat, p: nat)
    requires p > 0 && m * p == 100
    ensures HalfEven(100 * c, p) == m * c
  {
    HalfEvenIsNearest(100 * c, p, m * c);
    hide HalfEven;
    assert m * c * p == (m * p) * c;
  }

  lemma Regroup(q: real, p: real, s: real, t: real, c: real, v: real, w: real)
    requires s * p == t && q * p == 100.0 * c && v == q * t && w == c * s
    ensures v == 100.0 * w
  {
    assert q * (s * p) == (q * p) * s;
  }

  lemma AtMostOneMeans(d: Dec)
    ensures AtMostOne(d) <==> Value(d) <= 1.0
  {
    if d.exp >= 0 {
      WholeAtMostOne(d.coeff, Pow10(d.exp));
    } else {
      ReciprocalPower(d.exp);
      hide Scale, Pow10;
      ScaleUp(d.coeff as real, Pow10(-d.exp) as real, Scale(d.exp));
    }
  }

  lemma WholeAtMostOne(a: int, b: nat)
    ensures a * b <= 1 <==> a as real * b as real <= 1.0
  {
    Product(a, b);
  }

  lemma ReciprocalPower(e: int)
    requires e < 0
    ensures Pow10(-e) as real * Scale(e) == 1.0
  {
  }

  lemma AbsValue(d: Dec)
    ensures Value(Dec(Abs(d.coeff), d.exp)) == AbsReal(Value(d))
  {
    AbsScales(d.coeff as real, Scale(d.exp));
  }

  // ---- numbers of any length ----------------------------------------------

  lemma {:induction false} ExcessIsBelow(n: nat)
    ensures Excess(n) > 0 ==> n >= Pow10(Excess(n))
  {
    if n >= LIMIT {
      ExcessIsBelow(n / 10);
      OnesPlace();
    }
  }

  /** The context never drops a number to nothing. */
  lemma KeptIsSomething(d: Dec)
    ensures Kept(d) == 0 ==> d.coeff == 0
  {
    ExcessIsBelow(Abs(d.coeff));
    OnesPlace();
    HalfEvenIsNearest(d.coeff, Pow10(Dropped(d)), Kept(d));
    hide HalfEven, Pow10, Excess;
  }

  /** What the context makes of a number is at most half of itself away from it. */
  lemma ContextIsClose(d: Dec)
    ensures 2.0 * AbsReal(Value(InContext(d)) - Value(d)) <= AbsReal(Value(InContext(d)))
  {
    ContextRounds(d);
    KeptIsSomething(d);
    ValueIs(d);
    var unit := Scale(d.exp + Dropped(d));
    hide Scale, Kept, Dropped, InContext, Value;
    assert Kept(d) == 0 ==> Value(d) == 0.0;
    NearUnits(Value(d), Kept(d), unit);
  }

  lemma NearUnits(x: real, q: int, unit: real)
    requires unit > 0.0 && Rounds(x, unit, q) && (q == 0 ==> x == 0.0)
    ensures 2.0 * AbsReal(q as real * unit - x) <= AbsReal(q as real * unit)
  {
    if q == 0 {
      assert q as real * unit == 0.0;
    } else {
      AtLeastOneUnit(q, unit);
    }
  }

  lemma AtLeastOneUnit(q: int, unit: real)
    requires unit > 0.0
    ensures q != 0 ==> AbsReal(q as real * unit) >= unit
  {
    AbsScales(q as real, unit);
    if q != 0 {
      assert AbsReal(q as real) >= 1.0;
      assert (AbsReal(q as real) - 1.0) * unit >= 0.0;
    }
  }

  lemma NearAbs(x: real, a: real, off: real)
    requires 2.0 * AbsReal(a - x) <= off
    ensures AbsReal(x) <= AbsReal(a) + off / 2.0 && AbsReal(a) <= AbsReal(x) + off / 2.0
  {
  }

  lemma OneInUnits(e: int)
    ensures e <= 0 ==> Pow10(-e) as real * Scale(e) == 1.0
    ensures e > 0 ==> Scale(e) >= 10.0
  {
    if e < 0 {
      ReciprocalPower(e);
    } else if e > 0 {
      assert Pow10(e) == 10 * Pow10(e - 1);
    }
  }

  /** Rounding to units that go into one does not carry a number past one. */
  lemma StaysBelowOne(x: real, q: int, m: nat, unit: real)
    requires unit > 0.0 && m as real * unit == 1.0 && x <= 1.0 && Rounds(x, unit, q)
    ensures q as real * unit <= 1.0
  {
    RoundsOff(x, unit, q);
    hide Rounds;
    NotTwoUnits(x, q as real * unit, unit);
    hide AbsReal;
    WholeGap(q, m);
    Capped(q as real * unit, q as real, m as real, unit);
  }

  lemma RoundsOff(x: real, unit: real, q: int)
    requires Rounds(x, unit, q)
    ensures 2.0 * AbsReal(q as real * unit - x) <= unit
  {
  }

  lemma WholeGap(q: int, m: int)
    ensures q as real <= m as real || q as real >= m as real + 1.0
  {
    if q > m {
      assert q >= m + 1;
    }
  }

  lemma Capped(product: real, q: real, m: real, unit: real)
    requires unit > 0.0 && m * unit == 1.0 && product == q * unit && product < 1.0 + unit && (q <= m || q >= m + 1.0)
    ensures product <= 1.0
  {
    OneMoreOf(m, unit);
    if q <= m {
      ScaleUp(q, m, unit);
    } else {
      ScaleUp(m + 1.0, q, unit);
    }
  }

  lemma OneMoreOf(m: real, unit: real)
    ensures (m + 1.0) * unit == m * unit + unit
  {
  }

  lemma NotTwoUnits(x: real, product: real, unit: real)
    requires unit > 0.0 && x <= 1.0 && 2.0 * AbsReal(product - x) <= unit
    ensures product < 1.0 + unit
  {
  }

  lemma LargeUnits(x: real, q: int, unit: real)
    requires unit >= 10.0 && x <= 1.0 && Rounds(x, unit, q)
    ensures q as real * unit <= 1.0
  {
    if q > 0 {
      ScaleUp(1.0, q as real, unit);
      assert false;
    }
    ScaleUp(q as real, 0.0, unit);
  }

  /** The context does not carry a number past one. */
  lemma OneStaysAbove(d: Dec)
    requires Value(d) <= 1.0
    ensures Value(InContext(d)) <= 1.0
  {
    ContextRounds(d);
    var e := d.exp + Dropped(d);
    OneInUnits(e);
    hide Value, InContext, Kept, Dropped, Scale, Pow10, Rounds;
    if e > 0 {
      LargeUnits(Value(d), Kept(d), Scale(e));
    } else {
      StaysBelowOne(Value(d), Kept(d), Pow10(-e), Scale(e));
    }
  }
}
