/** The memory-growth slope of the soak report (benchmarks/benchmark_operational_soak.py:433-447): a
    least-squares line through (hours, megabytes), with negative slopes reported as 0.
 */
module Regression {
  import opened Util

  datatype Point = Point(x: real, y: real)

  function Times(x: real, y: real): real {
    x * y
  }

  function Square(x: real): real {
    x * x
  }

  function Line(a: real, b: real, x: real): real {
    a + b * x
  }

  function SumX(ps: seq<Point>): real {
    if ps == [] then 0.0 else SumX(ps[..|ps| - 1]) + ps[|ps| - 1].x
  }

  function SumY(ps: seq<Point>): real {
    if ps == [] then 0.0 else SumY(ps[..|ps| - 1]) + ps[|ps| - 1].y
  }

  function SumXX(ps: seq<Point>): real {
    if ps == [] then 0.0 else SumXX(ps[..|ps| - 1]) + Times(ps[|ps| - 1].x, ps[|ps| - 1].x)
  }

  function SumXY(ps: seq<Point>): real {
    if ps == [] then 0.0 else SumXY(ps[..|ps| - 1]) + Times(ps[|ps| - 1].x, ps[|ps| - 1].y)
  }

  /** n * sum(x^2) - (sum x)^2 */
  function Denominator(ps: seq<Point>): real {
    DenominatorForm(|ps| as real, SumX(ps), SumXX(ps))
  }

  function Numerator(ps: seq<Point>): real {
    NumeratorForm(|ps| as real, SumX(ps), SumY(ps), SumXY(ps))
  }

  /** Squared error of the line y = a + b * x. */
  function Error(ps: seq<Point>, a: real, b: real): real {
    if ps == [] then 0.0
    else
      var p := ps[|ps| - 1];
      Error(ps[..|ps| - 1], a, b) + Square(p.y - Line(a, b, p.x))
  }

  function SumYY(ps: seq<Point>): real {
    if ps == [] then 0.0 else SumYY(ps[..|ps| - 1]) + Times(ps[|ps| - 1].y, ps[|ps| - 1].y)
  }

  /** Sum of (c - x)^2. */
  function Spread(ps: seq<Point>, c: real): real {
    if ps == [] then 0.0
    else
      var p := ps[|ps| - 1];
      Spread(ps[..|ps| - 1], c) + Square(c - p.x)
  }

  ghost predicate AllAt(ps: seq<Point>, c: real) {
    forall i :: 0 <= i < |ps| ==> ps[i].x == c
  }

  // ---- the denominator ----

  /** A positive factor keeps the sign. */
  lemma SignOfProduct(d: real, x: real)
    requires d > 0.0
    ensures d * x > 0.0 <==> x > 0.0
    ensures d * x == 0.0 <==> x == 0.0
  {
  }

  lemma SquareSign(x: real)
    ensures Square(x) >= 0.0
    ensures Square(x) == 0.0 <==> x == 0.0
    ensures Square(-x) == Square(x)
  {
    if x > 0.0 {
      SignOfProduct(x, x);
    } else if x < 0.0 {
      SignOfProduct(-x, -x);
    }
  }

  lemma {:induction false} SpreadNonneg(ps: seq<Point>, c: real)
    ensures Spread(ps, c) >= 0.0
    ensures Spread(ps, c) == 0.0 <==> AllAt(ps, c)
  {
    if ps != [] {
      var rest, d := ps[..|ps| - 1], c - ps[|ps| - 1].x;
      SpreadNonneg(rest, c);
      hide Square;
      SquareSign(d);
      if AllAt(ps, c) {
        assert AllAt(rest, c) && d == 0.0;
      }
    }
  }

  function SpreadForm(n: real, sx: real, sxx: real, c: real): real {
    n * (c * c) - 2.0 * c * sx + sxx
  }

  lemma SpreadStep(n: real, sx: real, sxx: real, c: real, x: real)
    ensures SpreadForm(n, sx, sxx, c) + Square(c - x) == SpreadForm(n + 1.0, sx + x, sxx + Times(x, x), c)
    ensures SpreadForm(0.0, 0.0, 0.0, c) == 0.0
  {
  }

  lemma {:induction false} SpreadSums(ps: seq<Point>, c: real)
    ensures Spread(ps, c) == SpreadForm(|ps| as real, SumX(ps), SumXX(ps), c)
  {
    hide SpreadForm, Square, Times;
    if ps == [] {
      SpreadStep(0.0, 0.0, 0.0, c, 0.0);
    } else {
      var rest := ps[..|ps| - 1];
      SpreadSums(rest, c);
      SpreadStep(|rest| as real, SumX(rest), SumXX(rest), c, ps[|ps| - 1].x);
    }
  }

  function NumeratorForm(n: real, sx: real, sy: real, sxy: real): real {
    n * sxy - sx * sy
  }

  function DenominatorForm(n: real, sx: real, sxx: real): real {
    n * sxx - sx * sx
  }

  lemma DenominatorStep(n: real, sx: real, sxx: real, x: real)
    ensures DenominatorForm(n + 1.0, sx + x, sxx + Times(x, x))
         == DenominatorForm(n, sx, sxx) + SpreadForm(n, sx, sxx, x)
  {
  }

  /** Adding a point adds its squared distances from the others. */
  lemma DenominatorGrows(ps: seq<Point>)
    requires ps != []
    ensures var rest := ps[..|ps| - 1];
      Denominator(ps) == Denominator(rest) + Spread(rest, ps[|ps| - 1].x)
  {
    hide SpreadForm, DenominatorForm, Times;
    var rest, x := ps[..|ps| - 1], ps[|ps| - 1].x;
    SpreadSums(rest, x);
    DenominatorStep(|rest| as real, SumX(rest), SumXX(rest), x);
  }

  /** n * sum(x^2) - (sum x)^2 is never negative, and it is zero exactly when all x agree. */
  lemma {:induction false} DenominatorSign(ps: seq<Point>)
    ensures Denominator(ps) >= 0.0
    ensures Denominator(ps) == 0.0 <==> forall i, j :: 0 <= i < j < |ps| ==> ps[i].x == ps[j].x
  {
    if ps != [] {
      hide Denominator, Spread;
      var n, rest := |ps| - 1, ps[..|ps| - 1];
      DenominatorSign(rest);
      DenominatorGrows(ps);
      SpreadNonneg(rest, ps[n].x);
      assert forall i :: 0 <= i < n ==> rest[i] == ps[i];
    }
  }

  /** The squared distances between the x of every two points. */
  function PairSpread(ps: seq<Point>): real {
    if ps == [] then 0.0 else PairSpread(ps[..|ps| - 1]) + Spread(ps[..|ps| - 1], ps[|ps| - 1].x)
  }

  /** What the denominator measures. */
  lemma {:induction false} DenominatorIsPairSpread(ps: seq<Point>)
    ensures Denominator(ps) == PairSpread(ps)
  {
    if ps != [] {
      hide Denominator, Spread;
      DenominatorIsPairSpread(ps[..|ps| - 1]);
      DenominatorGrows(ps);
    }
  }

  // ---- the best line ----

  function ErrorForm(n: real, sx: real, sy: real, sxx: real, sxy: real, syy: real, a: real, b: real): real {
    syy - 2.0 * a * sy - 2.0 * b * sxy + n * (a * a) + 2.0 * (a * b) * sx + b * b * sxx
  }

  lemma ErrorStep(n: real, sx: real, sy: real, sxx: real, sxy: real, syy: real, a: real, b: real, x: real, y: real)
    ensures ErrorForm(n, sx, sy, sxx, sxy, syy, a, b) + Square(y - Line(a, b, x))
         == ErrorForm(n + 1.0, sx + x, sy + y, sxx + Times(x, x), sxy + Times(x, y), syy + Times(y, y), a, b)
    ensures ErrorForm(0.0, 0.0, 0.0, 0.0, 0.0, 0.0, a, b) == 0.0
  {
    var e := y - a - b * x;
    assert e * e == y * y - 2.0 * a * y - 2.0 * b * (x * y) + a * a + 2.0 * (a * b) * x + b * b * (x * x);
  }

  lemma {:induction false} ErrorSums(ps: seq<Point>, a: real, b: real)
    ensures Error(ps, a, b)
         == ErrorForm(|ps| as real, SumX(ps), SumY(ps), SumXX(ps), SumXY(ps), SumYY(ps), a, b)
  {
    hide ErrorForm, Square, Times, Line;
    if ps == [] {
      ErrorStep(0.0, 0.0, 0.0, 0.0, 0.0, 0.0, a, b, 0.0, 0.0);
    } else {
      var rest, p := ps[..|ps| - 1], ps[|ps| - 1];
      ErrorSums(rest, a, b);
      ErrorStep(|rest| as real, SumX(rest), SumY(rest), SumXX(rest), SumXY(rest), SumYY(rest), a, b, p.x, p.y);
    }
  }

  /** The part of n times the error that depends on the slope alone. */
  function ParabolaForm(d: real, num: real, b: real): real {
    d * (b * b) - 2.0 * b * num
  }

  function OffsetForm(n: real, sx: real, sy: real, a: real, b: real): real {
    n * a + b * sx - sy
  }

  /** Completing the square: n times the error is a square in the intercept, plus a parabola in the
      slope, plus a constant. */
  lemma CompleteSquare(n: real, sx: real, sy: real, sxx: real, sxy: real, syy: real, a: real, b: real)
    ensures n * ErrorForm(n, sx, sy, sxx, sxy, syy, a, b)
         == Square(OffsetForm(n, sx, sy, a, b))
            + ParabolaForm(DenominatorForm(n, sx, sxx), NumeratorForm(n, sx, sy, sxy), b)
            + (n * syy - sy * sy)
  {
    SquareOfOffset(n, sx, sy, a, b);
    ErrorTimesN(n, sx, sy, sxx, sxy, syy, a, b);
    ParabolaOfSums(n, sx, sy, sxx, sxy, b);
    hide *;
  }

  lemma SquareOfOffset(n: real, sx: real, sy: real, a: real, b: real)
    ensures Square(OffsetForm(n, sx, sy, a, b))
         == n * (n * (a * a)) + b * b * (sx * sx) + sy * sy
            + 2.0 * (n * (a * b) * sx) - 2.0 * (n * (a * sy)) - 2.0 * (b * sx * sy)
  {
  }

  lemma ErrorTimesN(n: real, sx: real, sy: real, sxx: real, sxy: real, syy: real, a: real, b: real)
    ensures n * ErrorForm(n, sx, sy, sxx, sxy, syy, a, b)
         == n * syy - 2.0 * (n * (a * sy)) - 2.0 * (n * (b * sxy))
            + n * (n * (a * a)) + 2.0 * (n * (a * b) * sx) + n * (b * b * sxx)
  {
  }

  lemma ParabolaOfSums(n: real, sx: real, sy: real, sxx: real, sxy: real, b: real)
    ensures ParabolaForm(DenominatorForm(n, sx, sxx), NumeratorForm(n, sx, sy, sxy), b)
         == n * (b * b * sxx) - b * b * (sx * sx) - 2.0 * (n * (b * sxy)) + 2.0 * (b * sx * sy)
  {
  }

  function Slope(ps: seq<Point>): real
    requires Denominator(ps) > 0.0
  {
    Numerator(ps) / Denominator(ps)
  }

  /** The best intercept for a given slope. */
  function Intercept(ps: seq<Point>, b: real): real
    requires ps != []
  {
    (SumY(ps) - b * SumX(ps)) / |ps| as real
  }

  /** n times the distance of a line's intercept from the best one for its slope. */
  function Offset(ps: seq<Point>, a: real, b: real): real {
    OffsetForm(|ps| as real, SumX(ps), SumY(ps), a, b)
  }

  lemma OffsetZeroIff(ps: seq<Point>, a: real, b: real)
    requires ps != []
    ensures Offset(ps, a, b) == 0.0 <==> a == Intercept(ps, b)
  {
    var n, t := |ps| as real, SumY(ps) - b * SumX(ps);
    assert n * (t / n) == t;
    assert n * a == t ==> a == t / n;
  }

  /** The parabola measured from its vertex. */
  lemma Parabola(d: real, num: real, b: real, m: real)
    requires d > 0.0
    ensures var s := num / d;
      ParabolaForm(d, num, b) - ParabolaForm(d, num, m) == d * (Square(b - s) - Square(m - s))
  {
    var s := num / d;
    assert num == s * d;
    assert Square(b - s) == b * b - 2.0 * (b * s) + s * s;
    assert Square(m - s) == m * m - 2.0 * (m * s) + s * s;
    ParabolaExpanded(d, s, b * b, m * m, b, m);
  }

  lemma ParabolaExpanded(d: real, s: real, bb: real, mm: real, b: real, m: real)
    ensures d * ((bb - 2.0 * (b * s) + s * s) - (mm - 2.0 * (m * s) + s * s))
         == (d * bb - 2.0 * b * (s * d)) - (d * mm - 2.0 * m * (s * d))
  {
  }

  /** How much worse a line is than the best line of slope m. */
  lemma ErrorGap(ps: seq<Point>, a: real, b: real, m: real)
    requires ps != [] && Denominator(ps) > 0.0
    ensures |ps| as real * (Error(ps, a, b) - Error(ps, Intercept(ps, m), m))
         == Square(Offset(ps, a, b)) + Denominator(ps) * (Square(b - Slope(ps)) - Square(m - Slope(ps)))
  {
    hide ErrorForm, ParabolaForm, OffsetForm, DenominatorForm, NumeratorForm, Intercept, Square;
    var n, a0 := |ps| as real, Intercept(ps, m);
    var sx, sy, sxx, sxy, syy := SumX(ps), SumY(ps), SumXX(ps), SumXY(ps), SumYY(ps);
    ErrorSums(ps, a, b);
    ErrorSums(ps, a0, m);
    CompleteSquare(n, sx, sy, sxx, sxy, syy, a, b);
    CompleteSquare(n, sx, sy, sxx, sxy, syy, a0, m);
    OffsetZeroIff(ps, a0, m);
    SquareSign(Offset(ps, a0, m));
    Parabola(Denominator(ps), Numerator(ps), b, m);
    GapAlgebra(n, Error(ps, a, b), Error(ps, a0, m));
  }

  lemma GapAlgebra(n: real, e: real, f: real)
    ensures n * (e - f) == n * e - n * f
  {
  }

  /** When the parabola does not fall below its value at m, no line with slope b beats the best line
      of slope m, and only that line itself equals it. */
  lemma NotBetter(ps: seq<Point>, a: real, b: real, m: real)
    requires ps != [] && Denominator(ps) > 0.0
    requires Square(b - Slope(ps)) >= Square(m - Slope(ps))
    requires Square(b - Slope(ps)) == Square(m - Slope(ps)) ==> b == m
    ensures Error(ps, Intercept(ps, m), m) <= Error(ps, a, b)
    ensures Error(ps, Intercept(ps, m), m) == Error(ps, a, b) <==> a == Intercept(ps, m) && b == m
  {
    hide Square, Offset, Intercept, Error, Denominator, Slope;
    var rise := Square(b - Slope(ps)) - Square(m - Slope(ps));
    ErrorGap(ps, a, b, m);
    SquareSign(Offset(ps, a, b));
    SignOfProduct(Denominator(ps), rise);
    OffsetZeroIff(ps, a, b);
    SignOfProduct(|ps| as real, Error(ps, a, b) - Error(ps, Intercept(ps, m), m));
  }

  /** The unclamped slope is the least-squares slope: with its intercept it beats every other line. */
  lemma SlopeIsLeastSquares(ps: seq<Point>, a: real, b: real)
    requires ps != [] && Denominator(ps) > 0.0
    ensures var s := Slope(ps);
      && Error(ps, Intercept(ps, s), s) <= Error(ps, a, b)
      && (Error(ps, Intercept(ps, s), s) == Error(ps, a, b) <==> a == Intercept(ps, s) && b == s)
  {
    hide Intercept, Error, Denominator, Slope;
    var s := Slope(ps);
    SquareSign(b - s);
    assert Square(s - s) == 0.0;
    NotBetter(ps, a, b, s);
  }

  // ---- the reported figure ----

  function Max(x: real, y: real): real {
    if x >= y then x else y
  }

  function Abs(x: real): real {
    if x >= 0.0 then x else -x
  }

  const GUARD := 0.000000001

  /** The slope put in the report: the clamped slope for runs of a minute with at least two samples and
      a denominator past the guard, 0 when the guard stops it, and the plain growth for short runs. */
  function ReportedSlope(duration: real, ps: seq<Point>, memStart: real, memEnd: real): real {
    if duration >= 60.0 && |ps| >= 2 then
      var d := Denominator(ps);
      if Abs(d) > GUARD then Max(0.0, Numerator(ps) / d) else 0.0
    else Max(0.0, memEnd - memStart)
  }

  /** The clamp is no distortion: the reported slope is the unique least-squares slope among all lines
      that do not fall. */
  lemma ReportedSlopeIsBest(duration: real, ps: seq<Point>, memStart: real, memEnd: real, a: real, b: real)
    requires duration >= 60.0 && |ps| >= 2 && PairSpread(ps) > 0.000000001 && b >= 0.0
    ensures var m := ReportedSlope(duration, ps, memStart, memEnd);
      && m >= 0.0
      && Error(ps, Intercept(ps, m), m) <= Error(ps, a, b)
      && (Error(ps, Intercept(ps, m), m) == Error(ps, a, b) <==> a == Intercept(ps, m) && b == m)
  {
    hide Intercept, Error, Denominator, PairSpread;
    DenominatorIsPairSpread(ps);
    var s := Slope(ps);
    ClampedParabola(s, b);
    NotBetter(ps, a, b, Max(0.0, s));
  }

  /** When no line is fitted: a run of under a minute or with fewer than two samples reports how much the memory
      grew, or 0 when it did not; samples whose x are too close together report 0. */
  lemma ReportedWithoutLine(duration: real, ps: seq<Point>, memStart: real, memEnd: real)
    ensures var m := ReportedSlope(duration, ps, memStart, memEnd);
      && (duration < 60.0 || |ps| < 2 ==> m == if memEnd > memStart then memEnd - memStart else 0.0)
      && (duration >= 60.0 && |ps| >= 2 && PairSpread(ps) <= 0.000000001 ==> m == 0.0)
      && m >= 0.0
  {
    hide Denominator, Numerator;
    DenominatorIsPairSpread(ps);
    DenominatorSign(ps);
  }

  lemma ClampedParabola(s: real, b: real)
    requires b >= 0.0
    ensures var m := Max(0.0, s);
      Square(b - s) >= Square(m - s) && (Square(b - s) == Square(m - s) ==> b == m)
  {
    if s >= 0.0 {
      SquareSign(b - s);
      assert Square(s - s) == 0.0;
    } else {
      var t := -s;
      assert Square(b - s) == Square(b) + 2.0 * (t * b) + Square(t);
      assert 0.0 - s == t;
      SquareSign(b);
      SignOfProduct(t, b);
    }
  }

  ghost predicate OnLine(ps: seq<Point>, a: real, b: real) {
    forall i :: 0 <= i < |ps| ==> ps[i].y == Line(a, b, ps[i].x)
  }

  lemma LineStep(n: real, a: real, b: real, sx: real, sxx: real, x: real)
    ensures OffsetForm(n, sx, 0.0, a, b) + Line(a, b, x) == OffsetForm(n + 1.0, sx + x, 0.0, a, b)
    ensures OffsetForm(sx, sxx, 0.0, a, b) + Times(x, Line(a, b, x)) == OffsetForm(sx + x, sxx + Times(x, x), 0.0, a, b)
    ensures OffsetForm(0.0, 0.0, 0.0, a, b) == 0.0
  {
    assert x * (a + b * x) == x * a + b * (x * x);
  }

  lemma {:induction false} SumsOnLine(ps: seq<Point>, a: real, b: real)
    requires OnLine(ps, a, b)
    ensures SumY(ps) == OffsetForm(|ps| as real, SumX(ps), 0.0, a, b)
    ensures SumXY(ps) == OffsetForm(SumX(ps), SumXX(ps), 0.0, a, b)
  {
    hide OffsetForm, Line, Times;
    if ps == [] {
      LineStep(0.0, a, b, 0.0, 0.0, 0.0);
    } else {
      var rest, p := ps[..|ps| - 1], ps[|ps| - 1];
      assert OnLine(rest, a, b);
      SumsOnLine(rest, a, b);
      LineStep(|rest| as real, a, b, SumX(rest), SumXX(rest), p.x);
      assert p.y == Line(a, b, p.x);
    }
  }

  lemma NumeratorOnLine(n: real, a: real, b: real, sx: real, sxx: real)
    ensures NumeratorForm(n, sx, OffsetForm(n, sx, 0.0, a, b), OffsetForm(sx, sxx, 0.0, a, b))
         == b * DenominatorForm(n, sx, sxx)
  {
  }

  lemma DivideBack(b: real, d: real)
    requires d > 0.0
    ensures b * d / d == b
  {
  }

  /** Exact data are recovered: points on a line of slope b >= 0 are reported with slope b exactly when
      the guard lets the division through, or b is 0 anyway. */
  lemma ExactDataRecoveredIff(duration: real, ps: seq<Point>, memStart: real, memEnd: real, a: real, b: real)
    requires duration >= 60.0 && |ps| >= 2 && OnLine(ps, a, b) && b >= 0.0
    ensures ReportedSlope(duration, ps, memStart, memEnd) == b <==> PairSpread(ps) > 0.000000001 || b == 0.0
  {
    DenominatorIsPairSpread(ps);
    hide OffsetForm, NumeratorForm, DenominatorForm, OnLine;
    SumsOnLine(ps, a, b);
    NumeratorOnLine(|ps| as real, a, b, SumX(ps), SumXX(ps));
    DenominatorSign(ps);
    if Denominator(ps) > GUARD {
      DivideBack(b, Denominator(ps));
    }
  }
}
