/**
  The correction of Program.cs `Correction`: a fresh table whose cell (r, i)
  is the reading data[r][i] plus the angular projection dx*cos[i] + dy*sin[i]
  of the offset. Only the first `fingers` columns of each row are read and
  kept.
*/
module Corrector {
  import opened Geometry

  /** One corrected row: exactly `fingers` cells. */
  function CorrectRow(row: Row, b: Basis, fingers: nat, o: Offset): (r: Row)
    requires b.Fits(fingers) && |row| >= fingers
    ensures |r| == fingers
  {
    seq(fingers, i requires 0 <= i < fingers => row[i] + o.dx * b.cos[i] + o.dy * b.sin[i])
  }

  /** The corrected table, row by row. */
  function Corrected(data: Table, b: Basis, fingers: nat, o: Offset): (t: Table)
    requires b.Fits(fingers) && RowsCover(data, fingers)
    ensures |t| == |data| && RowsCover(t, fingers)
    ensures forall r :: 0 <= r < |t| ==> |t[r]| == fingers
  {
    seq(|data|, r requires 0 <= r < |data| => CorrectRow(data[r], b, fingers, o))
  }

  /** The C# program's loops: allocate a row of `fingers` cells for every input
      row, fill it probe by probe, and append it to the result. The result has
      the input's row count, rows of exactly `fingers` cells (extra input
      columns are dropped), and each cell is the input shifted by the offset. */
  method Correction(data: Table, b: Basis, fingers: nat, o: Offset) returns (result: Table)
    requires b.Fits(fingers) && RowsCover(data, fingers)
    ensures |result| == |data|
    ensures forall r :: 0 <= r < |result| ==> |result[r]| == fingers
    ensures Shifted(data, result, b, fingers, o)
    ensures result == Corrected(data, b, fingers, o)
  {
    result := [];
    var k := 0;
    while k < |data|
      invariant 0 <= k <= |data|
      invariant result == Corrected(data[..k], b, fingers, o)
    {
      var row := data[k];
      var outRow := [];
      var i := 0;
      while i < fingers
        invariant 0 <= i <= fingers
        invariant |outRow| == i
        invariant forall j :: 0 <= j < i ==> outRow[j] == row[j] + o.dx * b.cos[j] + o.dy * b.sin[j]
      {
        outRow := outRow + [row[i] + o.dx * b.cos[i] + o.dy * b.sin[i]];
        i := i + 1;
      }
      var expected := CorrectRow(row, b, fingers, o);
      assert forall j :: 0 <= j < fingers ==> expected[j] == outRow[j];
      assert outRow == expected;
      result := result + [outRow];
      k := k + 1;
    }
    assert data[..k] == data;
  }

  /** The zero offset keeps the first `fingers` readings of every row. */
  lemma CorrectZero(data: Table, b: Basis, fingers: nat)
    requires b.Fits(fingers) && RowsCover(data, fingers)
    ensures Corrected(data, b, fingers, Offset(0.0, 0.0)) == Truncate(data, fingers)
  {
    var c := Corrected(data, b, fingers, Offset(0.0, 0.0));
    forall r | 0 <= r < |data|
      ensures c[r] == data[r][..fingers]
    {
    }
  }

  /** Two corrections in a row are one correction by the summed offset. */
  lemma CorrectCompose(data: Table, b: Basis, fingers: nat, o1: Offset, o2: Offset)
    requires b.Fits(fingers) && RowsCover(data, fingers)
    ensures Corrected(Corrected(data, b, fingers, o1), b, fingers, o2) == Corrected(data, b, fingers, o1.Plus(o2))
  {
    var once := Corrected(data, b, fingers, o1);
    var twice := Corrected(once, b, fingers, o2);
    var direct := Corrected(data, b, fingers, o1.Plus(o2));
    forall r, i | 0 <= r < |data| && 0 <= i < fingers
      ensures twice[r][i] == direct[r][i]
    {
      var x, c, s := data[r][i], b.cos[i], b.sin[i];
      assert once[r][i] == x + o1.dx * c + o1.dy * s;
      assert (x + o1.dx * c + o1.dy * s) + o2.dx * c + o2.dy * s
          == x + (o1.dx + o2.dx) * c + (o1.dy + o2.dy) * s;
    }
    forall r | 0 <= r < |data|
      ensures twice[r] == direct[r]
    {
    }
  }

  /** Correcting by the negated offset undoes a correction. */
  lemma CorrectUndo(data: Table, b: Basis, fingers: nat, o: Offset)
    requires b.Fits(fingers) && RowsCover(data, fingers)
    ensures Corrected(Corrected(data, b, fingers, o), b, fingers, o.Negate()) == Truncate(data, fingers)
  {
    CorrectCompose(data, b, fingers, o, o.Negate());
    assert o.Plus(o.Negate()) == Offset(0.0, 0.0);
    CorrectZero(data, b, fingers);
  }
}
