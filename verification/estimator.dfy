/**
  The offset estimate of Program.cs `CalculateOffset`: two independent
  one-variable least-squares fits, one against the cosine weights and one
  against the sine weights of the probes, whose slopes are negated into the
  centre displacement (dx, dy).
*/
module Estimator {
  import opened Geometry
  import opened Sums

  /** What the C# program needs to avoid an out-of-range read or a division by
      zero (it checks neither): every row has `fingers` readings, there is at
      least one row, and neither basis axis is identically zero. */
  predicate FitDefined(data: Table, b: Basis, fingers: nat) {
    && b.Fits(fingers)
    && RowsCover(data, fingers)
    && |data| > 0
    && Inner(b.cos, b.cos, fingers) != 0.0
    && Inner(b.sin, b.sin, fingers) != 0.0
  }

  /** Both denominators of the fit are positive. */
  lemma Denominators(data: Table, b: Basis, fingers: nat)
    requires FitDefined(data, b, fingers)
    ensures TableSquares(b.cos, data, fingers) > 0.0
    ensures TableSquares(b.sin, data, fingers) > 0.0
  {
    SquaresIgnoreReadings(b.cos, data, fingers);
    SquaresIgnoreReadings(b.sin, data, fingers);
    SquaresNonnegative(b.cos, fingers);
    SquaresNonnegative(b.sin, fingers);
    TimesSign(|data|, Inner(b.cos, b.cos, fingers));
    TimesSign(|data|, Inner(b.sin, b.sin, fingers));
  }

  /** The estimated offset. `-dx` is the slope a of the fit
      deviation ~ a * cos[i], and `-dy` the slope of deviation ~ b * sin[i]:
      each is the root of its normal equation sumCos2 * a == sumCosY (the
      residual of the fit is orthogonal to its regressor), unique because
      sumCos2 is positive. */
  function EstimateOffset(data: Table, b: Basis, fingers: nat, radius: real): (o: Offset)
    requires FitDefined(data, b, fingers)
    ensures Solves(TableSquares(b.cos, data, fingers), TableDeviation(b.cos, data, radius, fingers), -o.dx)
    ensures Solves(TableSquares(b.sin, data, fingers), TableDeviation(b.sin, data, radius, fingers), -o.dy)
  {
    Denominators(data, b, fingers);
    var a := TableDeviation(b.cos, data, radius, fingers) / TableSquares(b.cos, data, fingers);
    var c := TableDeviation(b.sin, data, radius, fingers) / TableSquares(b.sin, data, fingers);
    Offset(-a, -c)
  }

  /** The normal equations pin the estimate down: a slope solves the x (or y)
      normal equation exactly when it is -dx (or -dy). */
  lemma NormalEquations(data: Table, b: Basis, fingers: nat, radius: real, ax: real, ay: real)
    requires FitDefined(data, b, fingers)
    ensures Solves(TableSquares(b.cos, data, fingers), TableDeviation(b.cos, data, radius, fingers), ax)
        <==> ax == -EstimateOffset(data, b, fingers, radius).dx
    ensures Solves(TableSquares(b.sin, data, fingers), TableDeviation(b.sin, data, radius, fingers), ay)
        <==> ay == -EstimateOffset(data, b, fingers, radius).dy
  {
    var o := EstimateOffset(data, b, fingers, radius);
    Denominators(data, b, fingers);
    if Solves(TableSquares(b.cos, data, fingers), TableDeviation(b.cos, data, radius, fingers), ax) {
      SameRoot(TableSquares(b.cos, data, fingers), TableDeviation(b.cos, data, radius, fingers), ax, -o.dx);
    }
    if Solves(TableSquares(b.sin, data, fingers), TableDeviation(b.sin, data, radius, fingers), ay) {
      SameRoot(TableSquares(b.sin, data, fingers), TableDeviation(b.sin, data, radius, fingers), ay, -o.dy);
    }
  }

  /** A normal equation with a nonzero coefficient has one root. */
  lemma SameRoot(sq: real, dev: real, s1: real, s2: real)
    requires sq != 0.0 && Solves(sq, dev, s1) && Solves(sq, dev, s2)
    ensures s1 == s2
  {
    assert sq * (s1 - s2) == 0.0;
  }

  /** The C# program's single pass: for each row, add its terms to the running
      sums, then divide and flip the signs. */
  method CalculateOffset(data: Table, b: Basis, fingers: nat, radius: real) returns (o: Offset)
    requires FitDefined(data, b, fingers)
    ensures o == EstimateOffset(data, b, fingers, radius)
  {
    var sumCosY, sumSinY := 0.0, 0.0;
    var sumCos2, sumSin2 := 0.0, 0.0;
    var k := 0;
    while k < |data|
      invariant 0 <= k <= |data|
      invariant sumCosY == TableDeviation(b.cos, data[..k], radius, fingers)
      invariant sumSinY == TableDeviation(b.sin, data[..k], radius, fingers)
      invariant sumCos2 == TableSquares(b.cos, data[..k], fingers)
      invariant sumSin2 == TableSquares(b.sin, data[..k], fingers)
    {
      sumCosY, sumSinY, sumCos2, sumSin2 := AccumulateRow(data[k], b.cos, b.sin, fingers, radius, sumCosY, sumSinY, sumCos2, sumSin2);
      assert data[..k + 1][..k] == data[..k];
      k := k + 1;
    }
    assert data[..k] == data;
    Denominators(data, b, fingers);
    var a := sumCosY / sumCos2;
    var c := sumSinY / sumSin2;
    o := Offset(-a, -c);
  }

  /** The C# program's inner loop over the probes of one row: each probe adds
      cos[i]*diff and sin[i]*diff, with diff its deviation from the nominal
      radius, and cos[i]^2 and sin[i]^2 to the four running sums. */
  method AccumulateRow(row: Row, cos: seq<real>, sin: seq<real>, fingers: nat, radius: real,
                       cosY: real, sinY: real, cos2: real, sin2: real)
    returns (cosY': real, sinY': real, cos2': real, sin2': real)
    requires |cos| == fingers && |sin| == fingers && |row| >= fingers
    ensures cosY' == cosY + WeightedDeviation(cos, row, radius, fingers)
    ensures sinY' == sinY + WeightedDeviation(sin, row, radius, fingers)
    ensures cos2' == cos2 + Inner(cos, cos, fingers)
    ensures sin2' == sin2 + Inner(sin, sin, fingers)
  {
    cosY', sinY', cos2', sin2' := cosY, sinY, cos2, sin2;
    var i := 0;
    while i < fingers
      invariant 0 <= i <= fingers
      invariant cosY' == cosY + WeightedDeviation(cos, row, radius, i)
      invariant sinY' == sinY + WeightedDeviation(sin, row, radius, i)
      invariant cos2' == cos2 + Inner(cos, cos, i)
      invariant sin2' == sin2 + Inner(sin, sin, i)
    {
      var diff := row[i] - radius;
      cosY' := cosY' + cos[i] * diff;
      sinY' := sinY' + sin[i] * diff;
      cos2' := cos2' + cos[i] * cos[i];
      sin2' := sin2' + sin[i] * sin[i];
      i := i + 1;
    }
  }

  /** Sum over the first n probes of the squared residual (row[i] - radius - a*w[i])^2
      left by the one-variable fit deviation ~ a * w[i]. */
  function RowResidual(w: seq<real>, row: Row, radius: real, n: nat, a: real): real
    requires n <= |w| && n <= |row|
  {
    if n == 0 then 0.0
    else RowResidual(w, row, radius, n - 1, a) + SquaredError(w[n - 1], row[n - 1] - radius, a)
  }

  /** The squared residual over all rows. */
  function TableResidual(w: seq<real>, data: Table, radius: real, n: nat, a: real): real
    requires n <= |w| && RowsCover(data, n)
  {
    if |data| == 0 then 0.0
    else TableResidual(w, data[..|data| - 1], radius, n, a) + RowResidual(w, data[|data| - 1], radius, n, a)
  }

  /** The squared residual (y - a*x)^2 of one probe with weight x and deviation y. */
  function SquaredError(x: real, y: real, a: real): real {
    (y - a * x) * (y - a * x)
  }

  /** Sum over the first n probes of the squared deviation (row[i] - radius)^2. */
  function RowSpread(row: Row, radius: real, n: nat): real
    requires n <= |row|
  {
    if n == 0 then 0.0
    else RowSpread(row, radius, n - 1) + (row[n - 1] - radius) * (row[n - 1] - radius)
  }

  /** The squared deviations over all rows. */
  function TableSpread(data: Table, radius: real, n: nat): real
    requires RowsCover(data, n)
  {
    if |data| == 0 then 0.0
    else TableSpread(data[..|data| - 1], radius, n) + RowSpread(data[|data| - 1], radius, n)
  }

  /** The squared residual at slope a of a fit whose sums of squared deviations,
      weighted deviations and squared weights are yy, xy and xx. */
  function Quadratic(yy: real, xy: real, xx: real, a: real): real {
    yy - 2.0 * a * xy + a * a * xx
  }

  /** The quadratic is additive in its three sums. */
  lemma AddQuadratics(yy1: real, yy2: real, yy: real, xy1: real, xy2: real, xy: real,
                      xx1: real, xx2: real, xx: real, a: real)
    requires yy == yy1 + yy2 && xy == xy1 + xy2 && xx == xx1 + xx2
    ensures Quadratic(yy, xy, xx, a) == Quadratic(yy1, xy1, xx1, a) + Quadratic(yy2, xy2, xx2, a)
  {
  }

  /** A row's squared residual, as a function of the slope, is the quadratic of
      the row's three sums. */
  lemma {:induction false} RowResidualExpands(w: seq<real>, row: Row, radius: real, n: nat, a: real)
    requires n <= |w| && n <= |row|
    ensures RowResidual(w, row, radius, n, a)
         == Quadratic(RowSpread(row, radius, n), WeightedDeviation(w, row, radius, n), Inner(w, w, n), a)
  {
    if n > 0 {
      RowResidualExpands(w, row, radius, n - 1, a);
      ProbeExpands(w, row, radius, n, a);
      AddQuadratics(RowSpread(row, radius, n - 1), RowSpread(row, radius, n) - RowSpread(row, radius, n - 1),
                    RowSpread(row, radius, n),
                    WeightedDeviation(w, row, radius, n - 1),
                    WeightedDeviation(w, row, radius, n) - WeightedDeviation(w, row, radius, n - 1),
                    WeightedDeviation(w, row, radius, n),
                    Inner(w, w, n - 1), Inner(w, w, n) - Inner(w, w, n - 1), Inner(w, w, n), a);
    }
  }

  /** Probe n-1 adds to the row's squared residual the quadratic of what it adds
      to the three sums: (y - a*x)^2 == y^2 - 2a*x*y + a^2*x^2. */
  lemma ProbeExpands(w: seq<real>, row: Row, radius: real, n: nat, a: real)
    requires 0 < n <= |w| && n <= |row|
    ensures RowResidual(w, row, radius, n, a) - RowResidual(w, row, radius, n - 1, a)
         == Quadratic(RowSpread(row, radius, n) - RowSpread(row, radius, n - 1),
                      WeightedDeviation(w, row, radius, n) - WeightedDeviation(w, row, radius, n - 1),
                      Inner(w, w, n) - Inner(w, w, n - 1), a)
  {
    assert SquaredError(w[n - 1], row[n - 1] - radius, a)
        == Quadratic((row[n - 1] - radius) * (row[n - 1] - radius), w[n - 1] * (row[n - 1] - radius), w[n - 1] * w[n - 1], a);
  }

  /** The same over all rows: the table's squared residual is the quadratic of
      the squared deviations, sumCosY (or sumSinY) and sumCos2 (or sumSin2). */
  lemma {:induction false} TableResidualExpands(w: seq<real>, data: Table, radius: real, n: nat, a: real)
    requires n <= |w| && RowsCover(data, n)
    ensures TableResidual(w, data, radius, n, a)
         == Quadratic(TableSpread(data, radius, n), TableDeviation(w, data, radius, n), TableSquares(w, data, n), a)
  {
    if |data| > 0 {
      var k := |data| - 1;
      TableResidualExpands(w, data[..k], radius, n, a);
      RowResidualExpands(w, data[k], radius, n, a);
      AddQuadratics(TableSpread(data[..k], radius, n), RowSpread(data[k], radius, n), TableSpread(data, radius, n),
                    TableDeviation(w, data[..k], radius, n), WeightedDeviation(w, data[k], radius, n),
                    TableDeviation(w, data, radius, n),
                    TableSquares(w, data[..k], n), Inner(w, w, n), TableSquares(w, data, n), a);
    }
  }

  /** The x axis of the estimate is a least-squares fit: no slope leaves a
      smaller squared residual against the cosine weights than -dx. */
  lemma LeastSquaresX(data: Table, b: Basis, fingers: nat, radius: real, a: real)
    requires FitDefined(data, b, fingers)
    ensures TableResidual(b.cos, data, radius, fingers, -EstimateOffset(data, b, fingers, radius).dx)
         <= TableResidual(b.cos, data, radius, fingers, a)
  {
    var o := EstimateOffset(data, b, fingers, radius);
    SlopeMinimises(b.cos, data, radius, fingers, -o.dx, a);
  }

  /** Likewise for the y axis, the sine weights and -dy. */
  lemma LeastSquaresY(data: Table, b: Basis, fingers: nat, radius: real, a: real)
    requires FitDefined(data, b, fingers)
    ensures TableResidual(b.sin, data, radius, fingers, -EstimateOffset(data, b, fingers, radius).dy)
         <= TableResidual(b.sin, data, radius, fingers, a)
  {
    var o := EstimateOffset(data, b, fingers, radius);
    SlopeMinimises(b.sin, data, radius, fingers, -o.dy, a);
  }

  /** A slope that solves the normal equation minimises the squared residual. */
  lemma SlopeMinimises(w: seq<real>, data: Table, radius: real, n: nat, best: real, a: real)
    requires n <= |w| && RowsCover(data, n)
    requires Solves(TableSquares(w, data, n), TableDeviation(w, data, radius, n), best)
    ensures TableResidual(w, data, radius, n, best) <= TableResidual(w, data, radius, n, a)
  {
    SquaresIgnoreReadings(w, data, n);
    TableResidualExpands(w, data, radius, n, best);
    TableResidualExpands(w, data, radius, n, a);
    QuadraticMinimum(TableSpread(data, radius, n), TableDeviation(w, data, radius, n), TableSquares(w, data, n), best, a);
  }

  /** With a non-negative leading coefficient, the root of the normal equation
      xx * best == xy is where the quadratic is smallest: it exceeds its value
      there by (a - best)^2 * xx. */
  lemma QuadraticMinimum(yy: real, xy: real, xx: real, best: real, a: real)
    requires xx >= 0.0 && Solves(xx, xy, best)
    ensures Quadratic(yy, xy, xx, best) <= Quadratic(yy, xy, xx, a)
  {
    var d := a - best;
    assert Quadratic(yy, xy, xx, a) - Quadratic(yy, xy, xx, best) == d * d * xx by {
      assert a * a - best * best == d * (a + best);
      assert 2.0 * (a - best) * xy == 2.0 * d * (best * xx);
    }
    assert d * d >= 0.0 by {
      if d < 0.0 {
        assert d * d == (-d) * (-d);
      }
    }
    assert d * d * xx >= 0.0;
  }
}
