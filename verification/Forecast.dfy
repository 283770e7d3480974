/** The disk-usage forecast (blackvuesync/server/forecast.py), over the reals. */
module Forecast {
  import opened Common

  datatype Point = Point(x: real, y: real)
  datatype Sample = Sample(ts: real, ratio: Option<real>)
  datatype Line = Line(slope: real, intercept: real)
  datatype Projection = Projection(projected: seq<Point>, maxUsed: Option<real>, keepSteady: Option<real>)

  const MIN_POINTS := 3

  function SumX(p: seq<Point>): real
  {
    if |p| == 0 then 0.0 else SumX(p[..|p| - 1]) + p[|p| - 1].x
  }

  function SumY(p: seq<Point>): real
  {
    if |p| == 0 then 0.0 else SumY(p[..|p| - 1]) + p[|p| - 1].y
  }

  function Product(a: real, b: real): real { a * b }

  /** The sum of (x - cx)^2, of (x - cx)(y - cy), and of (y - cy)^2. */
  function SumXX(p: seq<Point>, cx: real): real
  {
    if |p| == 0 then 0.0 else
    SumXX(p[..|p| - 1], cx) + Product(p[|p| - 1].x - cx, p[|p| - 1].x - cx)
  }

  function SumXY(p: seq<Point>, cx: real, cy: real): real
  {
    if |p| == 0 then 0.0 else
    SumXY(p[..|p| - 1], cx, cy) + Product(p[|p| - 1].x - cx, p[|p| - 1].y - cy)
  }

  function SumYY(p: seq<Point>, cy: real): real
  {
    if |p| == 0 then 0.0 else
    SumYY(p[..|p| - 1], cy) + Product(p[|p| - 1].y - cy, p[|p| - 1].y - cy)
  }

  function MeanX(p: seq<Point>): real
    requires |p| > 0
  {
    SumX(p) / (|p| as real)
  }

  function MeanY(p: seq<Point>): real
    requires |p| > 0
  {
    SumY(p) / (|p| as real)
  }

  function LinearFit(p: seq<Point>): Line
    requires |p| > 0
  {
    var mx, my := MeanX(p), MeanY(p);
    FitFrom(SumXY(p, mx, my), SumXX(p, mx), mx, my)
  }

  function FitFrom(numerator: real, denominator: real, mx: real, my: real): Line
  {
    if denominator == 0.0 then Line(0.0, my)
    else
      var slope := numerator / denominator;
      Line(slope, my - slope * mx)
  }

  function At(l: Line, x: real): real { l.intercept + l.slope * x }

  function Squared(p: Point, l: Line): real { Product(p.y - At(l, p.x), p.y - At(l, p.x)) }

  /** The sum of the squared vertical distances of the points from a line. */
  function SquaredError(p: seq<Point>, l: Line): real
  {
    if |p| == 0 then 0.0 else
    SquaredError(p[..|p| - 1], l) + Squared(p[|p| - 1], l)
  }

  /** The squared error of `n` points about a centre, from their sums about it: `m` is the slope,
      `d` the centre's distance from the line, `r` the sum of the residuals about the centre. */
  function Expanded(m: real, d: real, xx: real, xy: real, yy: real, r: real, n: real): real
  {
    yy - 2.0 * m * xy + m * m * xx + 2.0 * d * r + n * (d * d)
  }

  lemma {:induction false} OnePoint(pt: Point, l: Line, cx: real, cy: real)
    ensures
      var u, v := pt.x - cx, pt.y - cy;
      Squared(pt, l) == Expanded(l.slope, cy - At(l, cx), Product(u, u), Product(u, v), Product(v, v),
                                 v - l.slope * u, 1.0)
  {
    var u, v, m, d := pt.x - cx, pt.y - cy, l.slope, cy - At(l, cx);
    assert pt.y - At(l, pt.x) == v - m * u + d;
    assert (v - m * u + d) * (v - m * u + d)
      == v * v - 2.0 * m * (u * v) + m * m * (u * u) + 2.0 * d * (v - m * u) + 1.0 * (d * d);
  }

  /** The sums over some points that their squared error depends on. */
  datatype Sums = Sums(n: real, x: real, y: real, xx: real, xy: real, yy: real)

  function SumsOf(p: seq<Point>, cx: real, cy: real): Sums
  {
    Sums(|p| as real, SumX(p), SumY(p), SumXX(p, cx), SumXY(p, cx, cy), SumYY(p, cy))
  }

  function Plus(s: Sums, pt: Point, cx: real, cy: real): Sums
  {
    var u, v := pt.x - cx, pt.y - cy;
    Sums(s.n + 1.0, s.x + pt.x, s.y + pt.y, s.xx + Product(u, u), s.xy + Product(u, v), s.yy + Product(v, v))
  }

  /** The sum of the residuals about a centre. */
  function Rest(sx: real, sy: real, n: real, m: real, cx: real, cy: real): real
  {
    (sy - n * cy) - m * (sx - n * cx)
  }

  function ErrorFrom(s: Sums, l: Line, cx: real, cy: real): real
  {
    Expanded(l.slope, cy - At(l, cx), s.xx, s.xy, s.yy, Rest(s.x, s.y, s.n, l.slope, cx, cy), s.n)
  }

  lemma {:induction false} RestAdds(sx: real, sy: real, n: real, m: real, cx: real, cy: real, x: real, y: real)
    ensures Rest(sx, sy, n, m, cx, cy) + ((y - cy) - m * (x - cx)) == Rest(sx + x, sy + y, n + 1.0, m, cx, cy)
  {
  }

  lemma {:induction false} ExpandedAdds(m: real, d: real, xx: real, xy: real, yy: real, r: real, n: real,
      xx1: real, xy1: real, yy1: real, r1: real)
    ensures Expanded(m, d, xx, xy, yy, r, n) + Expanded(m, d, xx1, xy1, yy1, r1, 1.0)
      == Expanded(m, d, xx + xx1, xy + xy1, yy + yy1, r + r1, n + 1.0)
  {
  }

  lemma {:induction false} ErrorStep(s: Sums, pt: Point, l: Line, cx: real, cy: real)
    ensures ErrorFrom(Plus(s, pt, cx, cy), l, cx, cy) == ErrorFrom(s, l, cx, cy) + Squared(pt, l)
  {
    var u, v := pt.x - cx, pt.y - cy;
    OnePoint(pt, l, cx, cy);
    RestAdds(s.x, s.y, s.n, l.slope, cx, cy, pt.x, pt.y);
    ErrorGrows(s, Plus(s, pt, cx, cy), l, cx, cy, Product(u, u), Product(u, v), Product(v, v), v - l.slope * u);
  }

  lemma {:induction false} ErrorGrows(s: Sums, t: Sums, l: Line, cx: real, cy: real,
      xx: real, xy: real, yy: real, r: real)
    requires t.n == s.n + 1.0 && t.xx == s.xx + xx && t.xy == s.xy + xy && t.yy == s.yy + yy
    requires Rest(t.x, t.y, t.n, l.slope, cx, cy) == Rest(s.x, s.y, s.n, l.slope, cx, cy) + r
    ensures ErrorFrom(t, l, cx, cy)
      == ErrorFrom(s, l, cx, cy) + Expanded(l.slope, cy - At(l, cx), xx, xy, yy, r, 1.0)
  {
    ExpandedAdds(l.slope, cy - At(l, cx), s.xx, s.xy, s.yy, Rest(s.x, s.y, s.n, l.slope, cx, cy), s.n,
      xx, xy, yy, r);
  }

  lemma {:induction false} SumsPush(p: seq<Point>, cx: real, cy: real)
    requires |p| > 0
    ensures SumsOf(p, cx, cy) == Plus(SumsOf(p[..|p| - 1], cx, cy), p[|p| - 1], cx, cy)
  {
    assert |p| as real == (|p| - 1) as real + 1.0;
  }

  /** The error of any line, from the sums about any centre. */
  lemma {:induction false} ErrorAbout(p: seq<Point>, l: Line, cx: real, cy: real)
    ensures SquaredError(p, l) == ErrorFrom(SumsOf(p, cx, cy), l, cx, cy)
  {
    if |p| > 0 {
      ErrorAbout(p[..|p| - 1], l, cx, cy);
      SumsPush(p, cx, cy);
      ErrorStep(SumsOf(p[..|p| - 1], cx, cy), p[|p| - 1], l, cx, cy);
    }
  }

  lemma {:induction false} Positive(a: real, b: real, ab: real)
    requires a >= 0.0 && b >= 0.0 && ab == a * b
    ensures ab >= 0.0
    ensures a > 0.0 && b > 0.0 ==> ab > 0.0
  {
  }

  lemma {:induction false} ProductSign(u: real)
    ensures Product(u, u) >= 0.0
    ensures u != 0.0 ==> Product(u, u) > 0.0
  {
    if u >= 0.0 { Positive(u, u, Product(u, u)); } else { Positive(-u, -u, Product(u, u)); }
  }

  lemma {:induction false} SumXXSign(p: seq<Point>, cx: real)
    ensures SumXX(p, cx) >= 0.0
    ensures SumXX(p, cx) == 0.0 ==> forall i :: 0 <= i < |p| ==> p[i].x == cx
  {
    if |p| > 0 {
      var u := p[|p| - 1].x - cx;
      SumXXSign(p[..|p| - 1], cx);
      ProductSign(u);
      if SumXX(p, cx) == 0.0 {
        forall i | 0 <= i < |p|
          ensures p[i].x == cx
        {
          if i < |p| - 1 { assert p[..|p| - 1][i].x == cx; }
        }
      }
    }
  }

  lemma {:induction false} SumXYZero(p: seq<Point>, cx: real, cy: real)
    requires forall i :: 0 <= i < |p| ==> p[i].x == cx
    ensures SumXY(p, cx, cy) == 0.0
  {
    if |p| > 0 {
      SumXYZero(p[..|p| - 1], cx, cy);
      assert p[|p| - 1].x - cx == 0.0;
    }
  }

  lemma {:induction false} MeanTimesCount(sum: real, n: real)
    requires n != 0.0
    ensures n * (sum / n) == sum
  {
  }

  lemma {:induction false} NoRest(sx: real, sy: real, n: real, m: real, cx: real, cy: real)
    requires n * cx == sx && n * cy == sy
    ensures Rest(sx, sy, n, m, cx, cy) == 0.0
  {
  }

  ghost predicate AreMeans(p: seq<Point>, mx: real, my: real)
  {
    (|p| as real) * mx == SumX(p) && (|p| as real) * my == SumY(p)
  }

  /** About the means the residuals add up to nothing. */
  lemma {:induction false} ErrorAboutMeans(p: seq<Point>, l: Line, mx: real, my: real)
    requires AreMeans(p, mx, my)
    ensures SquaredError(p, l)
      == Expanded(l.slope, my - At(l, mx), SumXX(p, mx), SumXY(p, mx, my), SumYY(p, my), 0.0, |p| as real)
  {
    ErrorAbout(p, l, mx, my);
    NoRest(SumX(p), SumY(p), |p| as real, l.slope, mx, my);
  }

  lemma {:induction false} FitFromSolves(xy: real, xx: real, mx: real, my: real)
    requires xx == 0.0 ==> xy == 0.0
    ensures xx * FitFrom(xy, xx, mx, my).slope == xy && my - At(FitFrom(xy, xx, mx, my), mx) == 0.0
  {
    if xx != 0.0 { MeanTimesCount(xy, xx); }
  }

  /** The two equations that the fitted line solves. */
  ghost predicate Solves(p: seq<Point>, fit: Line, mx: real, my: real)
  {
    SumXX(p, mx) * fit.slope == SumXY(p, mx, my) && my - At(fit, mx) == 0.0
  }

  lemma {:induction false} NormalEquations(p: seq<Point>, mx: real, my: real)
    ensures Solves(p, FitFrom(SumXY(p, mx, my), SumXX(p, mx), mx, my), mx, my)
  {
    SumsVanish(p, mx, my);
    FitFromSolves(SumXY(p, mx, my), SumXX(p, mx), mx, my);
  }

  lemma {:induction false} SumsVanish(p: seq<Point>, mx: real, my: real)
    ensures SumXX(p, mx) == 0.0 ==> SumXY(p, mx, my) == 0.0
  {
    SumXXSign(p, mx);
    if SumXX(p, mx) == 0.0 { SumXYZero(p, mx, my); }
  }

  lemma {:induction false} Excess(xx: real, xy: real, yy: real, n: real, m: real, d: real, s: real)
    requires xx * s == xy
    ensures Expanded(m, d, xx, xy, yy, 0.0, n)
      == Expanded(s, 0.0, xx, xy, yy, 0.0, n) + (xx * Product(m - s, m - s) + n * Product(d, d))
  {
    assert m * (xx * s) == m * xy && s * (xx * s) == s * xy;
    assert xx * ((m - s) * (m - s)) == xx * m * m - 2.0 * (m * (xx * s)) + s * (xx * s);
  }

  lemma {:induction false} ExcessSign(xx: real, n: real, a2: real, d2: real)
    requires xx >= 0.0 && n > 0.0 && a2 >= 0.0 && d2 >= 0.0
    ensures xx * a2 + n * d2 >= 0.0
    ensures xx > 0.0 && xx * a2 + n * d2 == 0.0 ==> a2 == 0.0 && d2 == 0.0
  {
    Positive(xx, a2, xx * a2);
    Positive(n, d2, n * d2);
  }

  /** How much worse any line is than one that solves the normal equations. */
  lemma {:induction false} ExcessError(p: seq<Point>, l: Line, fit: Line, mx: real, my: real)
    requires AreMeans(p, mx, my)
    requires Solves(p, fit, mx, my)
    ensures SquaredError(p, l) == SquaredError(p, fit)
      + (SumXX(p, mx) * Product(l.slope - fit.slope, l.slope - fit.slope)
         + (|p| as real) * Product(my - At(l, mx), my - At(l, mx)))
  {
    var xx, xy, yy, n := SumXX(p, mx), SumXY(p, mx, my), SumYY(p, my), |p| as real;
    var d := my - At(l, mx);
    ErrorAboutMeans(p, l, mx, my);
    ErrorAboutMeans(p, fit, mx, my);
    assert SquaredError(p, fit) == Expanded(fit.slope, 0.0, xx, xy, yy, 0.0, n);
    Excess(xx, xy, yy, n, l.slope, d, fit.slope);
  }

  /** MAIN: the fitted line is a least-squares line: no slope and intercept has a smaller squared error,
      also when all timestamps coincide; when they do not, no other line is as good. */
  lemma {:induction false} FitIsLeastSquares(p: seq<Point>, l: Line, i: nat)
    requires i < |p|
    ensures SquaredError(p, LinearFit(p)) <= SquaredError(p, l)
    ensures SquaredError(p, l) == SquaredError(p, LinearFit(p)) && p[i].x != p[0].x ==> l == LinearFit(p)
  {
    MeansAreMeans(p);
    NormalEquations(p, MeanX(p), MeanY(p));
    NoLineIsBetter(p, l, LinearFit(p), MeanX(p), MeanY(p), i);
  }

  lemma {:induction false} MeansAreMeans(p: seq<Point>)
    requires |p| > 0
    ensures AreMeans(p, MeanX(p), MeanY(p))
  {
    MeanTimesCount(SumX(p), |p| as real);
    MeanTimesCount(SumY(p), |p| as real);
  }

  lemma {:induction false} NoLineIsBetter(p: seq<Point>, l: Line, fit: Line, mx: real, my: real, i: nat)
    requires i < |p| && AreMeans(p, mx, my)
    requires Solves(p, fit, mx, my)
    ensures SquaredError(p, fit) <= SquaredError(p, l)
    ensures SquaredError(p, l) == SquaredError(p, fit) && p[i].x != p[0].x ==> l == fit
  {
    var a, d := l.slope - fit.slope, my - At(l, mx);
    ExcessError(p, l, fit, mx, my);
    SumXXSign(p, mx);
    ProductSign(a);
    ProductSign(d);
    ExcessSign(SumXX(p, mx), |p| as real, Product(a, a), Product(d, d));
    if a == 0.0 && d == 0.0 { SameLine(l, fit, mx); }
  }

  lemma {:induction false} SameLine(a: Line, b: Line, x: real)
    requires a.slope == b.slope && At(a, x) == At(b, x)
    ensures a == b
  {
  }

  // The projection

  function Clean(samples: seq<Sample>): seq<Point>
  {
    if |samples| == 0 then [] else
    var s := samples[|samples| - 1];
    Clean(samples[..|samples| - 1]) + if s.ratio.Some? then [Point(s.ts, s.ratio.value)] else []
  }

  function Min(a: real, b: real): real { if b < a then b else a }

  function Max(a: real, b: real): real { if b > a then b else a }

  function Ceiling(maxUsed: Option<real>, keepSteady: Option<real>): Option<real>
  {
    if maxUsed.None? then keepSteady
    else if keepSteady.None? then maxUsed
    else Some(Min(maxUsed.value, keepSteady.value))
  }

  function Clamped(value: real, ceiling: Option<real>): real
  {
    Max(0.0, Min(1.0, if ceiling.Some? then Min(value, ceiling.value) else value))
  }

  /** Point `i` of the projection, counted from 1. */
  function Projected(fit: Line, from: real, horizon: real, steps: int, ceiling: Option<real>, i: int): Point
    requires steps > 0
  {
    var ts := from + horizon * (i as real) / (steps as real);
    Point(ts, Clamped(At(fit, ts), ceiling))
  }

  method ProjectPoint(fit: Line, lastTs: real, horizon: real, steps: int, ceiling: Option<real>, i: int)
      returns (pt: Point)
    requires steps > 0
    ensures pt == Projected(fit, lastTs, horizon, steps, ceiling, i)
  {
    var ts := lastTs + horizon * (i as real) / (steps as real);
    var value := At(fit, ts);
    if ceiling.Some? { value := Min(value, ceiling.value); }
    value := Max(0.0, Min(1.0, value));
    pt := Point(ts, value);
  }

  method ComputeForecast(samples: seq<Sample>, horizon: real, steps: int,
                         maxUsed: Option<real>, keepSteady: Option<real>) returns (r: Projection)
    ensures r.maxUsed == maxUsed && r.keepSteady == keepSteady
    ensures |Clean(samples)| < 3 ==> r.projected == []
    ensures |Clean(samples)| >= 3 ==>
      var clean, ceiling := Clean(samples), Ceiling(maxUsed, keepSteady);
      && |r.projected| == (if steps > 0 then steps else 0)
      && forall k :: 0 <= k < |r.projected| ==>
           r.projected[k] == Projected(LinearFit(clean), clean[|clean| - 1].x, horizon, steps, ceiling, k + 1)
  {
    var clean := Clean(samples);
    if |clean| < MIN_POINTS { return Projection([], maxUsed, keepSteady); }
    var fit := LinearFit(clean);
    var ceiling := Ceiling(maxUsed, keepSteady);
    var lastTs := clean[|clean| - 1].x;
    var projected: seq<Point> := [];
    var i := 1;
    while i < steps + 1
      invariant 1 <= i && (i <= steps + 1 || i == 1) && |projected| == i - 1
      invariant forall k :: 0 <= k < i - 1 ==> projected[k] == Projected(fit, lastTs, horizon, steps, ceiling, k + 1)
    {
      var pt := ProjectPoint(fit, lastTs, horizon, steps, ceiling, i);
      projected := projected + [pt];
      i := i + 1;
    }
    r := Projection(projected, maxUsed, keepSteady);
  }

  /** MAIN: a projected ratio is a ratio, at most every ceiling that is not negative, and of all such
      numbers the one nearest to the line. */
  lemma {:induction false} ProjectionIsNearest(fit: Line, from: real, horizon: real, steps: int,
      maxUsed: Option<real>, keepSteady: Option<real>, i: int, other: real)
    requires steps > 0
    ensures
      var pt := Projected(fit, from, horizon, steps, Ceiling(maxUsed, keepSteady), i);
      && Allowed(pt.y, maxUsed, keepSteady)
      && (Allowed(other, maxUsed, keepSteady) ==>
            Distance(pt.y, At(fit, pt.x)) <= Distance(other, At(fit, pt.x)))
  {
  }

  predicate Within(value: real, limit: Option<real>)
  {
    limit.Some? && limit.value >= 0.0 ==> value <= limit.value
  }

  /** With a negative ceiling only 0 is left. */
  predicate Allowed(value: real, maxUsed: Option<real>, keepSteady: Option<real>)
  {
    && 0.0 <= value <= 1.0
    && Within(value, maxUsed) && Within(value, keepSteady)
    && (Negative(maxUsed) || Negative(keepSteady) ==> value == 0.0)
  }

  predicate Negative(limit: Option<real>) { limit.Some? && limit.value < 0.0 }

  function Distance(a: real, b: real): real { if a < b then b - a else a - b }

  /** MAIN: over a forward horizon the projection rises with a rising line and falls with a falling one. */
  lemma {:induction false} ProjectionFollowsSlope(fit: Line, from: real, horizon: real, steps: int,
      ceiling: Option<real>, i: int, j: int)
    requires steps > 0 && horizon >= 0.0 && i <= j
    ensures
      var a, b := Projected(fit, from, horizon, steps, ceiling, i), Projected(fit, from, horizon, steps, ceiling, j);
      && a.x <= b.x
      && (fit.slope >= 0.0 ==> a.y <= b.y)
      && (fit.slope <= 0.0 ==> a.y >= b.y)
  {
    var a, b := Projected(fit, from, horizon, steps, ceiling, i), Projected(fit, from, horizon, steps, ceiling, j);
    var hi, hj, n := horizon * (i as real), horizon * (j as real), steps as real;
    assert (i as real) <= (j as real);
    assert hi <= hj;
    Divide(hi, hj, n);
    Scale(fit.slope, a.x, b.x);
  }

  lemma {:induction false} Divide(a: real, b: real, n: real)
    requires a <= b && n > 0.0
    ensures a / n <= b / n
  {
    assert b / n - a / n == (b - a) / n;
  }

  lemma {:induction false} Scale(m: real, a: real, b: real)
    requires a <= b
    ensures m >= 0.0 ==> m * a <= m * b
    ensures m <= 0.0 ==> m * a >= m * b
  {
    assert m >= 0.0 ==> m * (b - a) >= 0.0;
    assert m <= 0.0 ==> m * (b - a) <= 0.0;
  }

  /** The points are the samples with a ratio, in their order, at their times: what is kept of some
      samples and others after them is what is kept of each, and of one sample its point if any. */
  lemma {:induction false} CleanPoints(a: seq<Sample>, b: seq<Sample>, ts: real, ratio: real)
    ensures Clean(a + b) == Clean(a) + Clean(b)
    ensures Clean([Sample(ts, Some(ratio))]) == [Point(ts, ratio)]
    ensures Clean([Sample(ts, None)]) == [] == Clean([])
  {
    assert [Sample(ts, Some(ratio))][..0] == [] && [Sample(ts, None)][..0] == [];
    if |b| == 0 {
      assert a + b == a;
    } else {
      var all, front := a + b, b[..|b| - 1];
      CleanPoints(a, front, ts, ratio);
      assert all[..|all| - 1] == a + front && all[|all| - 1] == b[|b| - 1];
    }
  }

  /** The projection starts one step after the last sample, in even steps, and ends with the horizon. */
  lemma {:induction false} StepsAreEven(fit: Line, from: real, horizon: real, steps: int, ceiling: Option<real>, i: int)
    requires steps > 0
    ensures
      var step := horizon / (steps as real);
      && Projected(fit, from, horizon, steps, ceiling, 1).x == from + step
      && Projected(fit, from, horizon, steps, ceiling, i + 1).x
         == Projected(fit, from, horizon, steps, ceiling, i).x + step
      && Projected(fit, from, horizon, steps, ceiling, steps).x == from + horizon
  {
    var n := steps as real;
    StepTimes(horizon, i as real, n);
    assert (i + 1) as real == i as real + 1.0;
    TimeOfStep(fit, from, horizon, steps, ceiling, 1, 1.0);
    TimeOfStep(fit, from, horizon, steps, ceiling, i, i as real);
    TimeOfStep(fit, from, horizon, steps, ceiling, i + 1, i as real + 1.0);
    TimeOfStep(fit, from, horizon, steps, ceiling, steps, n);
  }

  lemma {:induction false} TimeOfStep(fit: Line, from: real, horizon: real, steps: int, ceiling: Option<real>,
      i: int, at: real)
    requires steps > 0 && at == i as real
    ensures Projected(fit, from, horizon, steps, ceiling, i).x == from + Share(horizon, at, steps as real)
  {
  }

  function Share(horizon: real, i: real, n: real): real
    requires n > 0.0
  {
    horizon * i / n
  }

  lemma {:induction false} StepTimes(horizon: real, i: real, n: real)
    requires n > 0.0
    ensures Share(horizon, 1.0, n) == horizon / n && Share(horizon, n, n) == horizon
    ensures Share(horizon, i + 1.0, n) == Share(horizon, i, n) + horizon / n
  {
    OneMoreStep(horizon, i, n);
    AllSteps(horizon, n);
  }

  lemma {:induction false} OneMoreStep(horizon: real, i: real, n: real)
    requires n > 0.0
    ensures horizon * (i + 1.0) / n == horizon * i / n + horizon / n
  {
    assert horizon * (i + 1.0) == horizon * i + horizon;
    Quotients(horizon * i, horizon, n);
  }

  lemma {:induction false} Quotients(a: real, b: real, n: real)
    requires n > 0.0
    ensures (a + b) / n == a / n + b / n
  {
  }

  lemma {:induction false} AllSteps(horizon: real, n: real)
    requires n > 0.0
    ensures horizon * n / n == horizon
  {
  }

  /** A sample without a ratio, wherever it stands, changes nothing. */
  lemma {:induction false} MissingRatiosAreIgnored(before: seq<Sample>, ts: real, rest: seq<Sample>)
    ensures Clean(before + [Sample(ts, None)] + rest) == Clean(before + rest)
  {
    if |rest| == 0 {
      assert before + rest == before;
      assert before + [Sample(ts, None)] + rest == before + [Sample(ts, None)];
      assert (before + [Sample(ts, None)])[..|before|] == before;
    } else {
      var all, less, front := before + [Sample(ts, None)] + rest, before + rest, rest[..|rest| - 1];
      MissingRatiosAreIgnored(before, ts, front);
      assert all[..|all| - 1] == before + [Sample(ts, None)] + front && less[..|less| - 1] == before + front;
    }
  }
}
