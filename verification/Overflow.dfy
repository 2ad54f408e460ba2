/**
 Deciding overflow of a floating-point sum in a wider format without computing the
 sum. Magnitudes are integers: multiples of the wide format's smallest positive
 value, so every finite number is exact and a wide number is an integer with at
 most `wide` significant bits.
 */
module Overflow {

  // ---- Powers of two ----

  /** m times 2 to the k. */
  function Scale(m: nat, k: nat): (r: nat)
    ensures r >= m
  {
    if k == 0 then m else 2 * Scale(m, k - 1)
  }

  lemma {:induction false} ScaleAdd(a: nat, b: nat, k: nat)
    ensures Scale(a + b, k) == Scale(a, k) + Scale(b, k)
  {
    if k > 0 {
      ScaleAdd(a, b, k - 1);
    }
  }

  lemma {:induction false} ScaleMono(a: nat, b: nat, k: nat)
    ensures a <= b <==> Scale(a, k) <= Scale(b, k)
  {
    if k > 0 {
      ScaleMono(a, b, k - 1);
    }
  }

  lemma {:induction false} ScaleShift(m: nat, j: nat, k: nat)
    requires k <= j
    ensures Scale(m, j) == Scale(Scale(m, j - k), k)
  {
    if k > 0 {
      ScaleShift(m, j - 1, k - 1);
    }
  }

  lemma {:induction false} ScaleGrows(m: nat, j: nat, k: nat)
    requires j <= k
    ensures Scale(m, j) <= Scale(m, k)
    decreases k
  {
    if j < k {
      ScaleGrows(m, j, k - 1);
    }
  }

  /** x divided by 2 to the k. */
  function Floor(x: nat, k: nat): (q: nat)
    ensures Scale(q, k) <= x < Scale(q + 1, k)
  {
    if k == 0 then x else Floor(x / 2, k - 1)
  }

  /** The number of bits of x. */
  function Bits(x: nat): (n: nat)
    ensures x < Scale(1, n) && (x > 0 ==> n > 0 && Scale(1, n - 1) <= x) && (x == 0 ==> n == 0)
  {
    if x == 0 then 0 else 1 + Bits(x / 2)
  }

  // ---- Rounding to p bits with an unbounded exponent ----

  datatype Mode = NearestEven | NearestAway | TowardZero | TowardPositive | TowardNegative

  /** Whether q + r/d is rounded up to q + 1. */
  predicate RoundsUp(mode: Mode, negative: bool, q: nat, r: nat, d: nat) {
    match mode
    case NearestEven => 2 * r > d || (2 * r == d && q % 2 == 1)
    case NearestAway => 2 * r >= d
    case TowardZero => false
    case TowardPositive => r > 0 && !negative
    case TowardNegative => r > 0 && negative
  }

  /** x rounded to a multiple of 2 to the k. */
  function RoundedAt(x: nat, k: nat, mode: Mode, negative: bool): nat {
    var q := Floor(x, k);
    Scale(if RoundsUp(mode, negative, q, x - Scale(q, k), Scale(1, k)) then q + 1 else q, k)
  }

  /** x rounded to p significant bits; `negative` is the sign of the number x is the magnitude of. */
  function Rounded(x: nat, p: nat, mode: Mode, negative: bool): nat {
    if Bits(x) <= p then x else RoundedAt(x, Bits(x) - p, mode, negative)
  }

  predicate RepAs(p: nat, x: nat, m: nat, k: nat) {
    x == Scale(m, k) && m < Scale(1, p)
  }

  /** x has at most p significant bits. */
  ghost predicate Rep(p: nat, x: nat) {
    exists m: nat, k: nat :: RepAs(p, x, m, k)
  }

  /** The quotient kept by rounding has exactly p bits. */
  lemma Kept(x: nat, p: nat)
    requires 0 < p < Bits(x)
    ensures Scale(1, p - 1) <= Floor(x, Bits(x) - p) < Scale(1, p)
  {
    hide Scale, Floor, Bits;
    var n := Bits(x);
    var k := n - p;
    var q := Floor(x, k);
    ScaleShift(1, n, k);
    ScaleShift(1, n - 1, k);
    ScaleMono(Scale(1, p), q, k);
    ScaleMono(q + 1, Scale(1, p - 1), k);
  }

  ghost predicate Multiple(y: nat, k: nat) {
    exists n: nat :: y == Scale(n, k)
  }

  /** A number of at most p bits is a multiple of 2 to the k, or below p bits at that place. */
  lemma OnGrid(p: nat, y: nat, k: nat)
    requires Rep(p, y) && p > 0
    ensures y < Scale(Scale(1, p - 1), k) || Multiple(y, k)
  {
    hide Scale;
    var m: nat, j: nat :| RepAs(p, y, m, j);
    if j >= k {
      ScaleShift(m, j, k);
    } else {
      ScaleMono(Scale(1, p), m, j);
      ScaleShift(1, p + j, j);
      ScaleShift(1, p - 1 + k, k);
      ScaleGrows(1, p + j, p - 1 + k);
    }
  }

  /** Rounding to a grid never crosses a point of the grid. */
  lemma GridKeepsOrder(x: nat, n: nat, k: nat, mode: Mode, negative: bool)
    ensures Scale(n, k) <= x ==> Scale(n, k) <= RoundedAt(x, k, mode, negative)
    ensures x <= Scale(n, k) ==> RoundedAt(x, k, mode, negative) <= Scale(n, k)
  {
    hide Scale, Floor;
    var q := Floor(x, k);
    ScaleMono(n, q, k);
    ScaleMono(q + 1, n, k);
    ScaleMono(q, n, k);
    ScaleMono(n, q + 1, k);
    ScaleMono(q, q + 1, k);
    ScaleZero(1);
    ScaleGrows(1, 0, k);
  }

  /** Rounding never crosses a number that needs no rounding. */
  lemma RoundingKeepsOrder(x: nat, y: nat, p: nat, mode: Mode, negative: bool)
    requires Rep(p, y) && p > 0
    ensures y <= x ==> y <= Rounded(x, p, mode, negative)
    ensures x <= y ==> Rounded(x, p, mode, negative) <= y
  {
    hide Scale, Floor, Bits, RoundedAt, Rep;
    if Bits(x) > p {
      var k := Bits(x) - p;
      Kept(x, p);
      OnGrid(p, y, k);
      var top := Scale(1, p - 1);
      ScaleMono(top, Floor(x, k), k);
      if Multiple(y, k) {
        var n: nat :| y == Scale(n, k);
        GridKeepsOrder(x, n, k, mode, negative);
      } else {
        GridKeepsOrder(x, top, k, mode, negative);
      }
    }
  }

  lemma RoundingIsExact(x: nat, p: nat, mode: Mode, negative: bool)
    requires Rep(p, x) && p > 0
    ensures Rounded(x, p, mode, negative) == x
  {
    hide Rounded;
    RoundingKeepsOrder(x, x, p, mode, negative);
  }

  // ---- Subtractions that are exact ----

  /** Numbers within a factor of two differ by a number that needs no rounding. */
  lemma CloseDifference(p: nat, x: nat, y: nat)
    requires Rep(p, x) && Rep(p, y) && x <= y <= 2 * x
    ensures Rep(p, y - x)
  {
    hide Scale;
    var m: nat, j: nat :| RepAs(p, x, m, j);
    var n: nat, k: nat :| RepAs(p, y, n, k);
    var low := if j < k then j else k;
    ScaleShift(m, j, low);
    ScaleShift(n, k, low);
    var a, b := Scale(m, j - low), Scale(n, k - low);
    ScaleMono(a, b, low);
    ScaleAdd(a, b - a, low);
    ScaleAdd(a, a, low);
    ScaleMono(b, a + a, low);
    assert b - a <= a && b - a <= b;
    assert a == m || b == n by { ScaleZero(m); ScaleZero(n); }
    assert RepAs(p, y - x, b - a, low);
  }

  lemma ScaleZero(m: nat)
    ensures Scale(m, 0) == m
  {
  }

  // ---- The decision ----

  /** A wide number. */
  datatype Wide = NaN | Infinite(negative: bool) | Finite(negative: bool, mag: nat)

  /** Precisions of the two formats, and the exponent of 2^emax on the integer scale. */
  datatype Format = Format(p: nat, wide: nat, top: nat)
  {
    /** The largest finite number, the midpoint above it, and 2^emax. */
    function Max(): nat
      requires p <= top
    {
      Scale(Scale(1, p) - 1, top - p)
    }

    function Midpoint(): nat
      requires p < top
    {
      Scale(Scale(1, p + 1) - 1, top - p - 1)
    }

    function OnePast(): nat {
      Scale(1, top)
    }

    predicate Usual() {
      0 < p && p + 1 < wide && wide < top
    }
  }

  /** Whether the exact sum of two numbers exceeds (or reaches) `limit` in magnitude. */
  predicate ExactSumReaches(f: Format, a: Wide, b: Wide, limit: nat, inclusive: bool) {
    if !a.Finite? || !b.Finite? then false else
      var aNegative, bNegative := a.negative && a.mag != 0, b.negative && b.mag != 0;
      var larger, smaller := if a.mag >= b.mag then a.mag else b.mag, if a.mag >= b.mag then b.mag else a.mag;
      if aNegative == bNegative then
        if larger > limit then true
        else if larger == limit then inclusive || smaller != 0
        else
          var gap := Rounded(limit - larger, f.wide, NearestEven, false);
          smaller > gap || (inclusive && smaller == gap)
      else
        if larger < limit then false
        else if larger == limit then inclusive && smaller == 0
        else
          var excess := Rounded(larger - limit, f.wide, NearestEven, false);
          excess > smaller || (inclusive && excess == smaller)
  }

  /** Overflow is decided after rounding, so the boundary depends on the mode. */
  predicate RoundedSumOverflows(f: Format, a: Wide, b: Wide, mode: Mode)
    requires f.Usual()
  {
    if !a.Finite? || !b.Finite? then false else
    var aNegative, bNegative := a.negative && a.mag != 0, b.negative && b.mag != 0;
    var negative := if aNegative == bNegative || a.mag >= b.mag then aNegative else bNegative;
    match mode
    case TowardPositive =>
      if !negative then ExactSumReaches(f, a, b, f.Max(), false) else ExactSumReaches(f, a, b, f.OnePast(), true)
    case TowardNegative =>
      if negative then ExactSumReaches(f, a, b, f.Max(), false) else ExactSumReaches(f, a, b, f.OnePast(), true)
    case NearestEven => ExactSumReaches(f, a, b, f.Midpoint(), true)
    case NearestAway => ExactSumReaches(f, a, b, f.Midpoint(), true)
    case TowardZero => ExactSumReaches(f, a, b, f.OnePast(), true)
  }

  // ---- The exact sum ----

  function Value(a: Wide): int
    requires a.Finite?
  {
    if a.negative then -(a.mag as int) else a.mag
  }

  function Magnitude(x: int): nat {
    if x < 0 then -x else x
  }

  predicate Reaches(x: nat, limit: nat, inclusive: bool) {
    x > limit || (inclusive && x == limit)
  }

  /** Same signs: the gap is exact when it matters and out of reach otherwise. */
  lemma GapDecides(f: Format, limit: nat, half: nat, larger: nat, smaller: nat, inclusive: bool)
    requires f.wide > 0 && Rep(f.wide, limit) && Rep(f.wide, half) && limit == 2 * half
    requires Rep(f.wide, larger) && smaller <= larger < limit
    ensures Reaches(larger + smaller, limit, inclusive)
       <==> Reaches(smaller, Rounded(limit - larger, f.wide, NearestEven, false), inclusive)
  {
    hide Rounded, Rep;
    if larger >= half {
      CloseDifference(f.wide, larger, limit);
      RoundingIsExact(limit - larger, f.wide, NearestEven, false);
    } else {
      RoundingKeepsOrder(limit - larger, half, f.wide, NearestEven, false);
    }
  }

  /** Opposite signs: the excess is exact, or beyond any narrow number. `next` is the number after `limit`. */
  lemma ExcessDecides(f: Format, limit: nat, next: nat, larger: nat, smaller: nat, inclusive: bool)
    requires f.wide > 0 && Rep(f.wide, limit) && Rep(f.wide, larger) && limit < larger && smaller <= limit
    requires Rep(f.wide, next) && limit < next && (larger > 2 * limit ==> next <= larger - limit)
    ensures Reaches(Magnitude(larger - smaller), limit, inclusive)
       <==> Reaches(Rounded(larger - limit, f.wide, NearestEven, false), smaller, inclusive)
  {
    hide Rounded, Rep;
    if larger <= 2 * limit {
      CloseDifference(f.wide, limit, larger);
      RoundingIsExact(larger - limit, f.wide, NearestEven, false);
    } else {
      RoundingKeepsOrder(larger - limit, next, f.wide, NearestEven, false);
    }
  }

  // ---- The three limits ----

  /** `limit` is m at place k, with m of exactly q bits. */
  predicate Normal(limit: nat, m: nat, q: nat, k: nat) {
    q > 0 && limit == Scale(m, k) && Scale(1, q - 1) <= m < Scale(1, q)
  }

  /** The wide number after such a limit, and that nothing lies between their doubles. */
  lemma NextAfter(wide: nat, limit: nat, m: nat, q: nat, k: nat, larger: nat)
    requires Normal(limit, m, q, k) && q < wide < q + k
    requires Rep(wide, larger)
    ensures Rep(wide, limit + Scale(1, q + k - wide))
    ensures larger > 2 * limit ==> limit + Scale(1, q + k - wide) <= larger - limit
  {
    hide Scale, Rep;
    var t := q + k - wide;
    var unit := Scale(m, k - t);
    ScaleShift(m, k, t);
    ScaleAdd(unit, 1, t);
    UnitFits(m, q, k - t);
    assert RepAs(wide, limit + Scale(1, t), unit + 1, t);
    assert Rep(wide, limit + Scale(1, t)) by { RepIs(wide, limit + Scale(1, t), unit + 1, t); }
    if larger > 2 * limit {
      Spaced(wide, limit, unit, t, larger, m, q, k);
    }
  }

  lemma RepIs(p: nat, x: nat, m: nat, k: nat)
    requires RepAs(p, x, m, k)
    ensures Rep(p, x)
  {
  }

  /** m of q bits, moved up by at least one place, leaves room for one more. */
  lemma UnitFits(m: nat, q: nat, j: nat)
    requires m < Scale(1, q) && j > 0
    ensures Scale(m, j) + 1 < Scale(1, q + j)
  {
    hide Scale;
    ScaleMono(m + 1, Scale(1, q), j);
    ScaleShift(1, q + j, j);
    ScaleAdd(m, 1, j);
    ScaleGrows(1, 1, j);
    assert Scale(1, 1) == 2 by { ScaleOne(); }
  }

  lemma ScaleOne()
    ensures Scale(1, 1) == 2
  {
    assert Scale(1, 0) == 1;
  }

  lemma Spaced(wide: nat, limit: nat, unit: nat, t: nat, larger: nat, m: nat, q: nat, k: nat)
    requires Normal(limit, m, q, k) && q < wide < q + k && t == q + k - wide && limit == Scale(unit, t)
    requires Rep(wide, larger) && larger > 2 * limit
    ensures limit + Scale(1, t) <= larger - limit
  {
    hide Scale;
    OnGrid(wide, larger, t);
    ScaleShift(1, wide - 1 + t, t);
    ScaleShift(1, q - 1 + k, k);
    ScaleMono(Scale(1, q - 1), m, k);
    var n: nat :| larger == Scale(n, t);
    ScaleAdd(unit, unit, t);
    ScaleMono(n, unit + unit, t);
    ScaleMono(unit + unit + 1, n, t);
    ScaleAdd(unit + unit, 1, t);
  }

  /** The decision agrees with the exact sum at any limit of this form. */
  lemma SumDecision(f: Format, a: Wide, b: Wide, limit: nat, m: nat, q: nat, k: nat, inclusive: bool)
    requires Normal(limit, m, q, k) && q < f.wide < q + k
    requires a.Finite? && b.Finite? && Rep(f.wide, a.mag) && Rep(f.wide, b.mag)
    requires a.mag <= limit || b.mag <= limit
    ensures ExactSumReaches(f, a, b, limit, inclusive)
       <==> Reaches(Magnitude(Value(a) + Value(b)), limit, inclusive)
  {
    hide Scale, Rep, Rounded;
    var larger, smaller := if a.mag >= b.mag then a.mag else b.mag, if a.mag >= b.mag then b.mag else a.mag;
    NextAfter(f.wide, limit, m, q, k, larger);
    var half := Scale(m, k - 1);
    assert limit == 2 * half by { ScaleDouble(m, k); }
    ScaleShift(1, f.wide, f.wide - q);
    assert Scale(1, q) <= Scale(1, f.wide) by { ScaleGrows(1, q, f.wide); }
    RepIs(f.wide, limit, m, k);
    RepIs(f.wide, half, m, k - 1);
    if larger < limit {
      GapDecides(f, limit, half, larger, smaller, inclusive);
    }
    if larger > limit && smaller <= limit {
      assert Scale(1, q + k - f.wide) >= 1;
      ExcessDecides(f, limit, limit + Scale(1, q + k - f.wide), larger, smaller, inclusive);
    }
  }

  lemma ScaleDouble(m: nat, k: nat)
    requires k > 0
    ensures Scale(m, k) == 2 * Scale(m, k - 1)
  {
  }

  lemma MaxIsNormal(f: Format)
    requires f.Usual()
    ensures Normal(f.Max(), Scale(1, f.p) - 1, f.p, f.top - f.p)
    ensures Scale(1, f.top - 1) <= f.Max() < f.OnePast()
    ensures f.Max() + Scale(1, f.top - f.p) == f.OnePast()
  {
    hide Scale;
    var k := f.top - f.p;
    ScaleDouble(1, f.p);
    ScaleShift(1, f.top, k);
    ScaleAdd(Scale(1, f.p) - 1, 1, k);
    ScaleShift(1, f.top - 1, k);
    ScaleMono(Scale(1, f.p - 1), Scale(1, f.p) - 1, k);
  }

  lemma MidpointIsNormal(f: Format)
    requires f.Usual()
    ensures Normal(f.Midpoint(), Scale(1, f.p + 1) - 1, f.p + 1, f.top - f.p - 1)
    ensures f.Midpoint() == f.Max() + Scale(1, f.top - f.p - 1)
    ensures f.Max() < f.Midpoint() < f.OnePast()
  {
    hide Scale;
    var k := f.top - f.p - 1;
    var m := Scale(1, f.p) - 1;
    ScaleDouble(1, f.p + 1);
    ScaleAdd(m + m, 1, k);
    ScaleAdd(m, m, k);
    ScaleDouble(m, k + 1);
    MaxIsNormal(f);
    ScaleDouble(1, k + 1);
  }

  lemma OnePastIsNormal(f: Format)
    requires f.Usual()
    ensures Normal(f.OnePast(), 1, 1, f.top)
  {
    ScaleOne();
  }

  // ---- What rounding makes of the sum ----

  /** The limit a magnitude has to reach to round to 2^emax, by mode and sign. */
  predicate RoundsBeyond(f: Format, x: nat, mode: Mode, negative: bool)
    requires f.Usual()
  {
    match mode
    case TowardPositive => if negative then x >= f.OnePast() else x > f.Max()
    case TowardNegative => if negative then x > f.Max() else x >= f.OnePast()
    case TowardZero => x >= f.OnePast()
    case _ => x >= f.Midpoint()
  }

  /** Just below 2^emax: only the last step of the grid can be rounded up to it. */
  lemma LastStep(f: Format, x: nat, mode: Mode, negative: bool)
    requires f.Usual() && Scale(1, f.top - 1) <= x < f.OnePast()
    ensures RoundedAt(x, f.top - f.p, mode, negative) >= f.OnePast() <==> RoundsBeyond(f, x, mode, negative)
  {
    hide Scale, Floor;
    var k := f.top - f.p;
    var q, last := Floor(x, k), Scale(1, f.p) - 1;
    MaxIsNormal(f);
    MidpointIsNormal(f);
    ScaleShift(1, f.top, k);
    ScaleMono(Scale(1, f.p), q, k);
    ScaleMono(Scale(1, f.p), q + 1, k);
    ScaleMono(q + 1, last, k);
    ScaleDouble(1, k);
    ScaleDouble(1, f.p);
  }

  lemma Threshold(f: Format, x: nat, mode: Mode, negative: bool)
    requires f.Usual()
    ensures Rounded(x, f.p, mode, negative) >= f.OnePast() <==> RoundsBeyond(f, x, mode, negative)
  {
    hide Scale, Bits, RoundedAt;
    MaxIsNormal(f);
    MidpointIsNormal(f);
    var n := Bits(x);
    PowerIsRep(f.p, f.top);
    PowerIsRep(f.p, f.top - 1);
    if x >= f.OnePast() {
      RoundingKeepsOrder(x, f.OnePast(), f.p, mode, negative);
    } else if x < Scale(1, f.top - 1) {
      RoundingKeepsOrder(x, Scale(1, f.top - 1), f.p, mode, negative);
    } else {
      BitsAre(x, f.top);
      LastStep(f, x, mode, negative);
    }
  }

  lemma PowerIsRep(p: nat, k: nat)
    requires p > 0
    ensures Rep(p, Scale(1, k))
  {
    hide Scale;
    ScaleOne();
    ScaleGrows(1, 1, p);
    assert RepAs(p, Scale(1, k), 1, k);
  }

  lemma BitsAre(x: nat, n: nat)
    requires n > 0 && Scale(1, n - 1) <= x < Scale(1, n)
    ensures Bits(x) == n
  {
    hide Scale, Bits;
    var b := Bits(x);
    if b < n {
      ScaleGrows(1, b, n - 1);
    } else if b > n {
      ScaleGrows(1, n, b - 1);
    }
  }

  /**
   The decision is exact: it says whether the real sum, rounded in the given mode
   with an unbounded exponent, is at least 2^emax in magnitude. One operand is a
   number of the narrow format; the other may be any finite wide number.
   */
  lemma OverflowIsExact(f: Format, a: Wide, b: Wide, mode: Mode)
    requires f.Usual() && a.Finite? && b.Finite? && Rep(f.wide, a.mag) && Rep(f.wide, b.mag)
    requires a.mag <= f.Max() || b.mag <= f.Max()
    ensures var sum := Value(a) + Value(b);
            RoundedSumOverflows(f, a, b, mode)
            <==> Rounded(Magnitude(sum), f.p, mode, sum < 0) >= f.OnePast()
  {
    hide Scale, Rep, Rounded, ExactSumReaches;
    var sum := Value(a) + Value(b);
    MaxIsNormal(f);
    MidpointIsNormal(f);
    OnePastIsNormal(f);
    Threshold(f, Magnitude(sum), mode, sum < 0);
    SumDecision(f, a, b, f.Max(), Scale(1, f.p) - 1, f.p, f.top - f.p, false);
    SumDecision(f, a, b, f.Midpoint(), Scale(1, f.p + 1) - 1, f.p + 1, f.top - f.p - 1, true);
    SumDecision(f, a, b, f.OnePast(), 1, 1, f.top, true);
  }

  // ---- The two instances ----

  /** Single precision decided in double precision, double decided in quad. */
  const SINGLE := Format(24, 53, 128 + 1074)
  const DOUBLE := Format(53, 113, 1024 + 16494)

  /** Both fit, with the exponents of the source's encoded limits. */
  lemma InstancesAreUsual()
    ensures SINGLE.Usual() && 0x47e + 52 == SINGLE.top && SINGLE.p < 52
    ensures DOUBLE.Usual() && 0x43fe + 112 == DOUBLE.top && DOUBLE.p < 112
  {
  }

  /** The magnitude of an IEEE interchange encoding with `fraction` fraction bits, normal and positive. */
  function Decoded(exponent: nat, bits: nat, fraction: nat): nat
    requires exponent > 0
  {
    Scale(Scale(1, fraction) + bits, exponent - 1)
  }

  /** An all-ones fraction cut off after p bits encodes the midpoint; a zero fraction, 2^emax. */
  lemma LimitEncodings(f: Format, fraction: nat, exponent: nat)
    requires f.Usual() && f.p < fraction && 1 < exponent && exponent - 1 + fraction + 1 == f.top
    ensures Scale(1, fraction - f.p) <= Scale(1, fraction)
    ensures Decoded(exponent, Scale(1, fraction) - Scale(1, fraction - f.p), fraction) == f.Midpoint()
    ensures Decoded(exponent + 1, 0, fraction) == f.OnePast()
  {
    hide Scale;
    var low := fraction - f.p;
    var ones := Scale(1, f.p + 1) - 1;
    ScaleGrows(1, low, fraction);
    ScaleDouble(1, fraction + 1);
    ScaleShift(1, fraction + 1, low);
    ScaleAdd(ones, 1, low);
    ScaleShift(ones, f.top - f.p - 1, exponent - 1);
    ScaleShift(1, f.top, exponent);
  }
}
