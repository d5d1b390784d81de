/**
  The four accumulators of the offset fit, as recursive sums that add one
  probe (or one row) at a time. They add the same terms in the same order as
  the C# program's loops, but grouped as a subtotal per row, which makes a
  difference only under rounding. Also the algebra the fit relies on.
*/
module Sums {
  import opened Geometry

  /** Sum over the first n probes of u[i] * v[i]. */
  function Inner(u: seq<real>, v: seq<real>, n: nat): real
    requires n <= |u| && n <= |v|
  {
    if n == 0 then 0.0 else Inner(u, v, n - 1) + u[n - 1] * v[n - 1]
  }

  /** Sum over the first n probes of w[i] * (row[i] - radius): one row's share of
      sumCosY (w = cos) or sumSinY (w = sin). */
  function WeightedDeviation(w: seq<real>, row: Row, radius: real, n: nat): real
    requires n <= |w| && n <= |row|
  {
    if n == 0 then 0.0
    else WeightedDeviation(w, row, radius, n - 1) + w[n - 1] * (row[n - 1] - radius)
  }

  /** sumCosY / sumSinY over all rows. */
  function TableDeviation(w: seq<real>, data: Table, radius: real, n: nat): real
    requires n <= |w| && RowsCover(data, n)
  {
    if |data| == 0 then 0.0
    else TableDeviation(w, data[..|data| - 1], radius, n) + WeightedDeviation(w, data[|data| - 1], radius, n)
  }

  /** sumCos2 / sumSin2: the squared basis weights, added once per row. */
  function TableSquares(w: seq<real>, data: Table, n: nat): real
    requires n <= |w|
  {
    if |data| == 0 then 0.0 else TableSquares(w, data[..|data| - 1], n) + Inner(w, w, n)
  }

  lemma {:induction false} InnerCommutes(u: seq<real>, v: seq<real>, n: nat)
    requires n <= |u| && n <= |v|
    ensures Inner(u, v, n) == Inner(v, u, n)
  {
    if n > 0 {
      InnerCommutes(u, v, n - 1);
    }
  }

  /** A sum of squares is never negative. */
  lemma {:induction false} SquaresNonnegative(w: seq<real>, n: nat)
    requires n <= |w|
    ensures Inner(w, w, n) >= 0.0
  {
    if n > 0 {
      SquaresNonnegative(w, n - 1);
      var x := w[n - 1];
      assert x * x >= 0.0 by {
        if x < 0.0 {
          assert x * x == (-x) * (-x);
        }
      }
    }
  }

  /** x added k times: what k rows that each contribute x add up to. */
  function Times(k: nat, x: real): real {
    if k == 0 then 0.0 else Times(k - 1, x) + x
  }

  /** Repeated addition is multiplication by the count. */
  lemma {:induction false} TimesIsProduct(k: nat, x: real)
    ensures Times(k, x) == (k as real) * x
  {
    if k > 0 {
      TimesIsProduct(k - 1, x);
      assert ((k - 1) as real) * x + x == (k as real) * x;
    }
  }

  /** Repeating a non-negative quantity gives a non-negative total, and a
      positive one when the quantity is positive and repeated at least once. */
  lemma {:induction false} TimesSign(k: nat, x: real)
    requires x >= 0.0
    ensures Times(k, x) >= 0.0
    ensures k > 0 && x > 0.0 ==> Times(k, x) > 0.0
  {
    if k > 0 {
      TimesSign(k - 1, x);
    }
  }

  /** `slope` is a root of the normal equation sq * slope == dev of a
      one-variable least-squares fit. */
  predicate Solves(sq: real, dev: real, slope: real) {
    sq * slope == dev
  }

  /** Repeating at least once preserves strict order. */
  lemma {:induction false} TimesGrows(k: nat, u: real, v: real)
    requires k > 0 && u < v
    ensures Times(k, u) < Times(k, v)
  {
    if k > 1 {
      TimesGrows(k - 1, u, v);
    }
  }

  /** Repeating at least once loses nothing: equal totals mean equal quantities. */
  lemma TimesInjective(k: nat, u: real, v: real)
    requires k > 0 && Times(k, u) == Times(k, v)
    ensures u == v
  {
    if u < v {
      TimesGrows(k, u, v);
    } else if v < u {
      TimesGrows(k, v, u);
    }
  }

  /** A slope that solves the normal equation of one row solves that of k
      copies of the row. */
  lemma {:induction false} TimesSolves(k: nat, x: real, y: real, a: real)
    requires Solves(x, y, a)
    ensures Solves(Times(k, x), Times(k, y), a)
  {
    if k > 0 {
      TimesSolves(k - 1, x, y, a);
      assert Times(k, x) * a == Times(k - 1, x) * a + x * a;
    }
  }

  /** The squared-weight accumulators do not read the readings at all: every
      row adds the same per-row sum of squares, so the total is never negative. */
  lemma {:induction false} SquaresIgnoreReadings(w: seq<real>, data: Table, n: nat)
    requires n <= |w|
    ensures TableSquares(w, data, n) == Times(|data|, Inner(w, w, n))
    ensures TableSquares(w, data, n) >= 0.0
  {
    SquaresNonnegative(w, n);
    TimesSign(|data|, Inner(w, w, n));
    if |data| > 0 {
      SquaresIgnoreReadings(w, data[..|data| - 1], n);
      assert |data[..|data| - 1]| == |data| - 1;
    }
  }

  /** sumCos2 (and sumSin2) is the row count times the sum of squares of one row. */
  lemma {:induction false} SquaresCountRows(w: seq<real>, data: Table, n: nat)
    requires n <= |w|
    ensures TableSquares(w, data, n) == (|data| as real) * Inner(w, w, n)
  {
    SquaresIgnoreReadings(w, data, n);
    TimesIsProduct(|data|, Inner(w, w, n));
  }

  /** Adding p[i] to each reading i of a row adds the inner product of the
      weights with p to its weighted deviation. */
  lemma {:induction false} RowShift(w: seq<real>, row: Row, row': Row, p: seq<real>, radius: real, n: nat)
    requires n <= |w| && n <= |p| && n <= |row| && n <= |row'|
    requires forall i :: 0 <= i < n ==> row'[i] == row[i] + p[i]
    ensures WeightedDeviation(w, row', radius, n) == WeightedDeviation(w, row, radius, n) + Inner(w, p, n)
  {
    if n > 0 {
      RowShift(w, row, row', p, radius, n - 1);
      Distribute(w[n - 1], row[n - 1] - radius, p[n - 1]);
    }
  }

  lemma Distribute(x: real, y: real, q: real)
    ensures x * (y + q) == x * y + x * q
  {
  }

  /** Displacing every row by p adds, per row, the inner product of the
      weights with p to the table's weighted deviation. */
  lemma {:induction false} TableShift(w: seq<real>, data: Table, data': Table, p: seq<real>, radius: real, n: nat)
    requires n <= |w| && Displaced(data, data', p, n)
    ensures TableDeviation(w, data', radius, n) == TableDeviation(w, data, radius, n) + Times(|data|, Inner(w, p, n))
  {
    if |data| > 0 {
      var k := |data| - 1;
      DisplacedPrefix(data, data', p, n, k);
      TableShift(w, data[..k], data'[..k], p, radius, n);
      RowShift(w, data[k], data'[k], p, radius, n);
      assert |data[..k]| == k;
    }
  }

  /** The first k rows of displaced tables are displaced alike. */
  lemma DisplacedPrefix(data: Table, data': Table, p: seq<real>, n: nat, k: nat)
    requires Displaced(data, data', p, n) && k <= |data|
    ensures Displaced(data[..k], data'[..k], p, n)
  {
    forall r, i | 0 <= r < k && 0 <= i < n
      ensures data'[..k][r][i] == data[..k][r][i] + p[i]
    {
      assert data[..k][r] == data[r] && data'[..k][r] == data'[r];
    }
  }

  /** The inner product of the weights with a displacement's projections is
      the projection of the weights' inner products with the two axes. */
  lemma {:induction false} InnerAlong(w: seq<real>, b: Basis, o: Offset, n: nat)
    requires |b.cos| == |b.sin| && n <= |w| && n <= |b.cos|
    ensures Inner(w, b.Along(o), n) == o.Project(Inner(w, b.cos, n), Inner(w, b.sin, n))
  {
    InnerProjects(w, b.cos, b.sin, b.Along(o), o, n);
  }

  /** Inner products are linear: if p[i] is the projection of (c[i], s[i]) for
      every probe, the weights' inner product with p is the projection of their
      inner products with c and s. */
  lemma {:induction false} InnerProjects(w: seq<real>, c: seq<real>, s: seq<real>, p: seq<real>, o: Offset, n: nat)
    requires n <= |w| && n <= |c| && n <= |s| && n <= |p|
    requires forall i :: 0 <= i < n ==> p[i] == o.Project(c[i], s[i])
    ensures Inner(w, p, n) == o.Project(Inner(w, c, n), Inner(w, s, n))
  {
    if n > 0 {
      InnerProjects(w, c, s, p, o, n - 1);
      ProbeProjects(w, c, s, p, o, n);
      AddProjections(o, Inner(w, c, n - 1), Inner(w, c, n) - Inner(w, c, n - 1), Inner(w, c, n),
                     Inner(w, s, n - 1), Inner(w, s, n) - Inner(w, s, n - 1), Inner(w, s, n));
    }
  }

  /** Probe n-1's share of the same identity. */
  lemma ProbeProjects(w: seq<real>, c: seq<real>, s: seq<real>, p: seq<real>, o: Offset, n: nat)
    requires 0 < n <= |w| && n <= |c| && n <= |s| && n <= |p|
    requires p[n - 1] == o.Project(c[n - 1], s[n - 1])
    ensures Inner(w, p, n) - Inner(w, p, n - 1)
         == o.Project(Inner(w, c, n) - Inner(w, c, n - 1), Inner(w, s, n) - Inner(w, s, n - 1))
  {
    assert w[n - 1] * (o.dx * c[n - 1] + o.dy * s[n - 1]) == o.dx * (w[n - 1] * c[n - 1]) + o.dy * (w[n - 1] * s[n - 1]);
  }

  /** Projection is additive in the two components. */
  lemma AddProjections(o: Offset, c1: real, c2: real, c: real, s1: real, s2: real, s: real)
    requires c == c1 + c2 && s == s1 + s2
    ensures o.Project(c, s) == o.Project(c1, s1) + o.Project(c2, s2)
  {
  }

  /** A table whose first n readings all equal the nominal radius deviates nowhere. */
  lemma {:induction false} NominalDeviatesNowhere(w: seq<real>, data: Table, radius: real, n: nat)
    requires n <= |w| && RowsCover(data, n)
    requires forall r, i :: 0 <= r < |data| && 0 <= i < n ==> data[r][i] == radius
    ensures TableDeviation(w, data, radius, n) == 0.0
  {
    if |data| > 0 {
      NominalDeviatesNowhere(w, data[..|data| - 1], radius, n);
      NominalRowDeviatesNowhere(w, data[|data| - 1], radius, n);
    }
  }

  lemma {:induction false} NominalRowDeviatesNowhere(w: seq<real>, row: Row, radius: real, n: nat)
    requires n <= |w| && n <= |row|
    requires forall i :: 0 <= i < n ==> row[i] == radius
    ensures WeightedDeviation(w, row, radius, n) == 0.0
  {
    if n > 0 {
      NominalRowDeviatesNowhere(w, row, radius, n - 1);
    }
  }
}
