/**
  Estimation followed by correction, as Program.cs `Main` chains them: the
  facts that make the two stages fit together. The exactness results need the
  basis to be orthogonal (sum of cos[i]*sin[i] equal to zero), which holds for
  the true angles of an evenly spaced ring of at least three probes but is not
  derived here from trigonometry: it is a hypothesis.
*/
module Pipeline {
  import opened Geometry
  import opened Sums
  import opened Estimator
  import opened Corrector

  /** The cosine and sine weights are orthogonal over the ring. */
  predicate Orthogonal(b: Basis, fingers: nat)
    requires b.Fits(fingers)
  {
    Inner(b.cos, b.sin, fingers) == 0.0
  }

  /** `data` is, to first order in |t|/radius, what the ring reads in a bore
      of radius `radius` whose centre lies at `t` from the ring's centre: the
      nominal table with probe i moved by the projection of t onto its
      direction. (The exact reading of a displaced circle differs by a term of
      order |t|^2/radius: with radius 100 and t = (10, 0) the probe at 90
      degrees reads sqrt(9900), about 99.50, not 100.) Equivalently, the ring is
      displaced by -t from the bore's centre, so a probe facing the way the
      ring moved reads less. */
  predicate Generated(data: Table, b: Basis, fingers: nat, radius: real, t: Offset)
    requires b.Fits(fingers)
  {
    Shifted(Constant(|data|, fingers, radius), data, b, fingers, t)
  }

  /** Readings that all equal the nominal radius give a zero offset, whatever the
      basis (no orthogonality needed). */
  lemma NominalGivesZero(data: Table, b: Basis, fingers: nat, radius: real)
    requires FitDefined(data, b, fingers)
    requires forall r, i :: 0 <= r < |data| && 0 <= i < fingers ==> data[r][i] == radius
    ensures EstimateOffset(data, b, fingers, radius) == Offset(0.0, 0.0)
  {
    var o := EstimateOffset(data, b, fingers, radius);
    Denominators(data, b, fingers);
    NominalDeviatesNowhere(b.cos, data, radius, fingers);
    NominalDeviatesNowhere(b.sin, data, radius, fingers);
    assert Solves(TableSquares(b.cos, data, fingers), TableDeviation(b.cos, data, radius, fingers), 0.0);
    assert Solves(TableSquares(b.sin, data, fingers), TableDeviation(b.sin, data, radius, fingers), 0.0);
    SameRoot(TableSquares(b.cos, data, fingers), TableDeviation(b.cos, data, radius, fingers), -o.dx, 0.0);
    SameRoot(TableSquares(b.sin, data, fingers), TableDeviation(b.sin, data, radius, fingers), -o.dy, 0.0);
  }

  /** Shifting every reading by the projection of t (moving the bore's centre
      by t relative to the ring) moves the estimate by -t: the estimator is
      equivariant under displacement. */
  lemma EstimateShift(data: Table, data': Table, b: Basis, fingers: nat, radius: real, t: Offset)
    requires FitDefined(data, b, fingers) && Orthogonal(b, fingers)
    requires Shifted(data, data', b, fingers, t)
    ensures EstimateOffset(data', b, fingers, radius) == EstimateOffset(data, b, fingers, radius).Plus(t.Negate())
  {
    var o := EstimateOffset(data, b, fingers, radius);
    var o' := EstimateOffset(data', b, fingers, radius);
    Denominators(data, b, fingers);
    InnerAlong(b.cos, b, t, fingers);
    AxisShift(b.cos, b.sin, data, data', b.Along(t), radius, fingers, t.dx, t.dy, -o.dx, -o'.dx);
    InnerAlong(b.sin, b, t, fingers);
    InnerCommutes(b.cos, b.sin, fingers);
    assert t.Project(Inner(b.sin, b.cos, fingers), Inner(b.sin, b.sin, fingers))
        == Offset(t.dy, t.dx).Project(Inner(b.sin, b.sin, fingers), Inner(b.sin, b.cos, fingers));
    AxisShift(b.sin, b.cos, data, data', b.Along(t), radius, fingers, t.dy, t.dx, -o.dy, -o'.dy);
  }

  /** One axis of the equivariance: when the weights w are orthogonal to the
      other axis v, displacing the table by p, whose inner product with w is
      that of along*w + across*v, moves the slope fitted against w by exactly
      `along`. */
  lemma AxisShift(w: seq<real>, v: seq<real>, data: Table, data': Table, p: seq<real>, radius: real, n: nat,
                  along: real, across: real, slope: real, slope': real)
    requires n <= |w| && n <= |v| && Displaced(data, data', p, n)
    requires TableSquares(w, data, n) != 0.0 && Inner(w, v, n) == 0.0
    requires Inner(w, p, n) == Offset(along, across).Project(Inner(w, w, n), Inner(w, v, n))
    requires Solves(TableSquares(w, data, n), TableDeviation(w, data, radius, n), slope)
    requires Solves(TableSquares(w, data', n), TableDeviation(w, data', radius, n), slope')
    ensures slope' == slope + along
  {
    TableShift(w, data, data', p, radius, n);
    SquaresIgnoreReadings(w, data, n);
    SquaresIgnoreReadings(w, data', n);
    assert Solves(Inner(w, w, n), Inner(w, p, n), along);
    TimesSolves(|data|, Inner(w, w, n), Inner(w, p, n), along);
    SlopeShift(TableSquares(w, data, n), TableSquares(w, data', n), along,
               TableDeviation(w, data, radius, n), TableDeviation(w, data', radius, n),
               Times(|data|, Inner(w, p, n)), slope, slope');
  }

  /** The arithmetic of one axis: both slopes solve normal equations with the
      same coefficient, and the right-hand sides differ by a shift that
      `along` solves. */
  lemma SlopeShift(sq: real, sq': real, along: real, dev: real, dev': real, gain: real, slope: real, slope': real)
    requires sq != 0.0 && sq' == sq && dev' == dev + gain && Solves(sq, gain, along)
    requires Solves(sq, dev, slope) && Solves(sq', dev', slope')
    ensures slope' == slope + along
  {
    assert sq * slope' == sq * (slope + along);
  }

  /** Data read with the bore's centre at t from the ring's centre yields
      exactly -t, the ring's own displacement from the bore's centre. This is
      the sign convention of Program.cs:85, "If pipe shifts right, right-side
      fingers measure less", reading "pipe" there as the instrument (the
      ring): a ring moved to the right reads less on its right-hand probes and
      returns a positive dx. */
  lemma Recovery(data: Table, b: Basis, fingers: nat, radius: real, t: Offset)
    requires FitDefined(data, b, fingers) && Orthogonal(b, fingers)
    requires Generated(data, b, fingers, radius, t)
    ensures EstimateOffset(data, b, fingers, radius) == t.Negate()
  {
    var nominal := Constant(|data|, fingers, radius);
    NominalGivesZero(nominal, b, fingers, radius);
    EstimateShift(nominal, data, b, fingers, radius, t);
  }

  /** Without orthogonality the per-axis fit is biased: on generated data, the
      x slope picks up the y component of t weighted by the cross term. */
  lemma RecoveryBias(data: Table, b: Basis, fingers: nat, radius: real, t: Offset)
    requires FitDefined(data, b, fingers)
    requires Generated(data, b, fingers, radius, t)
    ensures -EstimateOffset(data, b, fingers, radius).dx * Inner(b.cos, b.cos, fingers)
         == t.dx * Inner(b.cos, b.cos, fingers) + t.dy * Inner(b.cos, b.sin, fingers)
  {
    var nominal := Constant(|data|, fingers, radius);
    var o := EstimateOffset(data, b, fingers, radius);
    NominalDeviatesNowhere(b.cos, nominal, radius, fingers);
    TableShift(b.cos, nominal, data, b.Along(t), radius, fingers);
    InnerAlong(b.cos, b, t, fingers);
    SquaresIgnoreReadings(b.cos, data, fingers);
    assert TableDeviation(b.cos, data, radius, fingers) == Times(|data|, Inner(b.cos, b.Along(t), fingers));
    TimesCancel(|data|, Inner(b.cos, b.cos, fingers), Inner(b.cos, b.Along(t), fingers), -o.dx);
    assert Solves(Inner(b.cos, b.cos, fingers), Inner(b.cos, b.Along(t), fingers), -o.dx);
    assert Inner(b.cos, b.Along(t), fingers) == t.Project(Inner(b.cos, b.cos, fingers), Inner(b.cos, b.sin, fingers));
  }

  /** k equal rows can be cancelled from a normal equation. */
  lemma TimesCancel(k: nat, x: real, y: real, s: real)
    requires k > 0 && Solves(Times(k, x), Times(k, y), s)
    ensures Solves(x, y, s)
  {
    var z := x * s;
    assert Solves(x, z, s);
    TimesSolves(k, x, z, s);
    TimesInjective(k, z, y);
  }

  /** The whole pipeline on generated data: correcting by the estimated offset
      restores every reading to exactly the nominal radius. */
  lemma PipelineRestoresNominal(data: Table, b: Basis, fingers: nat, radius: real, t: Offset)
    requires FitDefined(data, b, fingers) && Orthogonal(b, fingers)
    requires Generated(data, b, fingers, radius, t)
    ensures Corrected(data, b, fingers, EstimateOffset(data, b, fingers, radius)) == Constant(|data|, fingers, radius)
  {
    Recovery(data, b, fingers, radius, t);
    var c := Corrected(data, b, fingers, t.Negate());
    var k := Constant(|data|, fingers, radius);
    forall r | 0 <= r < |data|
      ensures c[r] == k[r]
    {
      forall i | 0 <= i < fingers
        ensures c[r][i] == k[r][i]
      {
        assert b.Along(t)[i] == t.dx * b.cos[i] + t.dy * b.sin[i];
        assert data[r][i] == radius + b.Along(t)[i];
      }
    }
  }

  /** Estimating again on corrected data finds nothing left to correct: the
      corrected table is a fixed point of the pipeline. */
  lemma ReestimateIsZero(data: Table, b: Basis, fingers: nat, radius: real)
    requires FitDefined(data, b, fingers) && Orthogonal(b, fingers)
    ensures FitDefined(Corrected(data, b, fingers, EstimateOffset(data, b, fingers, radius)), b, fingers)
    ensures EstimateOffset(Corrected(data, b, fingers, EstimateOffset(data, b, fingers, radius)), b, fingers, radius)
         == Offset(0.0, 0.0)
  {
    var o := EstimateOffset(data, b, fingers, radius);
    var c := Corrected(data, b, fingers, o);
    assert Shifted(data, c, b, fingers, o);
    EstimateShift(data, c, b, fingers, radius, o);
  }

  /** The four-probe ring at 0, 90, 180 and 270 degrees. */
  function QuarterBasis(): Basis {
    Basis([1.0, 0.0, -1.0, 0.0], [0.0, 1.0, 0.0, -1.0])
  }

  /** One scan of a bore of radius 100 read by a ring displaced by 2 to the
      left (the bore's centre at +2 along x from the ring's): probe 0, facing
      right, reads 2 over nominal and probe 2, facing left, reads 2 under. The
      offset is the ring's displacement (-2, 0), and the corrected scan is
      nominal everywhere. */
  lemma QuarterScenario()
    ensures FitDefined([[102.0, 100.0, 98.0, 100.0]], QuarterBasis(), 4)
    ensures EstimateOffset([[102.0, 100.0, 98.0, 100.0]], QuarterBasis(), 4, 100.0) == Offset(-2.0, 0.0)
    ensures Corrected([[102.0, 100.0, 98.0, 100.0]], QuarterBasis(), 4, Offset(-2.0, 0.0)) == [[100.0, 100.0, 100.0, 100.0]]
  {
    var data := [[102.0, 100.0, 98.0, 100.0]];
    var b := QuarterBasis();
    var t := Offset(2.0, 0.0);
    assert Inner(b.cos, b.cos, 4) == 2.0;
    assert Inner(b.sin, b.sin, 4) == 2.0;
    assert Inner(b.cos, b.sin, 4) == 0.0;
    assert Generated(data, b, 4, 100.0, t);
    PipelineRestoresNominal(data, b, 4, 100.0, t);
    assert Constant(1, 4, 100.0)[0] == [100.0, 100.0, 100.0, 100.0];
  }

  /** The sign convention of Program.cs:85 ("pipe" read as the instrument) on
      the same ring: moved 2 to the right,
      the right-hand probe 0 reads less (98) and the left-hand probe 2 reads
      more (102), and the offset is (2, 0). */
  lemma QuarterRightShift()
    ensures FitDefined([[98.0, 100.0, 102.0, 100.0]], QuarterBasis(), 4)
    ensures EstimateOffset([[98.0, 100.0, 102.0, 100.0]], QuarterBasis(), 4, 100.0) == Offset(2.0, 0.0)
  {
    var data := [[98.0, 100.0, 102.0, 100.0]];
    var b := QuarterBasis();
    assert Inner(b.cos, b.cos, 4) == 2.0;
    assert Inner(b.sin, b.sin, 4) == 2.0;
    assert Inner(b.cos, b.sin, 4) == 0.0;
    assert Generated(data, b, 4, 100.0, Offset(-2.0, 0.0));
    Recovery(data, b, 4, 100.0, Offset(-2.0, 0.0));
  }
}
