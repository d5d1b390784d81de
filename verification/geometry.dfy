/**
  The data the eccentricity correction works on: scan rows of probe readings,
  the angular basis of the probe ring, and the (dx, dy) offset of the
  instrument centre. Readings are modelled as mathematical reals; the
  floating-point rounding of the C# program is not part of this model.
*/
module Geometry {

  /** One scan: one reading per probe ("finger"), possibly followed by extra columns. */
  type Row = seq<real>

  /** All scans of a run, in file order. */
  type Table = seq<Row>

  /** The cosine and sine of each probe's angle around the ring. The true values
      cos(2*pi*i/N) and sin(2*pi*i/N) are not computed here: the basis is an
      input, and the facts the fit needs about it are stated as predicates. */
  datatype Basis = Basis(cos: seq<real>, sin: seq<real>) {

    /** The basis has one entry per probe of an N-probe ring. */
    predicate Fits(fingers: nat) {
      |cos| == fingers && |sin| == fingers
    }

    /** The projection dx*cos[i] + dy*sin[i] of o onto each probe's direction:
        to first order in |o|/radius, the change in probe i's reading when the
        bore's centre moves by o relative to the ring (the ring moves by -o). */
    function Along(o: Offset): seq<real>
      requires |cos| == |sin|
    {
      seq(|cos|, i requires 0 <= i < |cos| => o.Project(cos[i], sin[i]))
    }
  }

  /** A displacement (dx, dy) in the plane of the ring. The offset the
      estimator returns is the ring's displacement from the bore's centre. */
  datatype Offset = Offset(dx: real, dy: real) {

    /** The offset that undoes this one. */
    function Negate(): Offset {
      Offset(-dx, -dy)
    }

    /** The component dx*c + dy*s of this offset along the direction (c, s). */
    function Project(c: real, s: real): real {
      dx * c + dy * s
    }

    /** Component-wise sum of two offsets. */
    function Plus(other: Offset): Offset {
      Offset(dx + other.dx, dy + other.dy)
    }
  }

  /** Every row has a reading for each of the first `fingers` probes: the
      C# program indexes `row[i]` for `i < fingers` without any check. */
  predicate RowsCover(data: Table, fingers: nat) {
    forall r :: 0 <= r < |data| ==> |data[r]| >= fingers
  }

  /** Row by row, the first n readings of `data'` are those of `data` plus p[i]
      at probe i. */
  predicate Displaced(data: Table, data': Table, p: seq<real>, n: nat) {
    && n <= |p|
    && |data'| == |data|
    && RowsCover(data, n)
    && RowsCover(data', n)
    && forall r, i :: 0 <= r < |data| && 0 <= i < n ==> data'[r][i] == data[r][i] + p[i]
  }

  /** `data'` is `data` with every reading moved by the projection
      dx*cos[i] + dy*sin[i] of the offset `o` onto its probe's direction. */
  predicate Shifted(data: Table, data': Table, b: Basis, n: nat, o: Offset)
    requires b.Fits(n)
  {
    Displaced(data, data', b.Along(o), n)
  }

  /** A table whose every row holds exactly `fingers` copies of `value`. */
  function Constant(rows: nat, fingers: nat, value: real): (t: Table)
    ensures |t| == rows && RowsCover(t, fingers)
    ensures forall r, i :: 0 <= r < rows && 0 <= i < fingers ==> |t[r]| == fingers && t[r][i] == value
  {
    seq(rows, _ => seq(fingers, _ => value))
  }

  /** The first `fingers` columns of every row (what the correction keeps). */
  function Truncate(data: Table, fingers: nat): (t: Table)
    requires RowsCover(data, fingers)
    ensures |t| == |data| && RowsCover(t, fingers)
    ensures forall r :: 0 <= r < |t| ==> t[r] == data[r][..fingers]
  {
    seq(|data|, r requires 0 <= r < |data| => data[r][..fingers])
  }
}
