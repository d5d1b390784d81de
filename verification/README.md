# Eccentricity correction of a multi-finger caliper, in Dafny

The program reads scans from a ring of `fingers` radial probes ("fingers")
inside a pipe of known nominal radius (`pipeRadMm`). Each scan is a row of
readings, one per probe. If the instrument is not centred, the readings show
a first-harmonic pattern `a*cos(theta_i) + b*sin(theta_i)` around the ring.
The program does two things:

- `CalculateOffset` fits the two slopes `a` and `b` of that pattern by
  per-axis least squares over all rows and probes, and returns the offset
  `(dx, dy) = (-a, -b)`.
- `Correction` adds `dx*cos[i] + dy*sin[i]` back to every reading, which gives
  a new table with exactly `fingers` columns.

This project models both over mathematical reals and proves what they promise.

- `Geometry` holds the data model:
  - tables of rows;
  - the angular basis `Basis(cos, sin)`;
  - the offset `Offset(dx, dy)`, with its projection onto a probe direction;
  - "this table is that table displaced by an offset" (`Displaced`, `Shifted`).
- `Sums` holds the four accumulators of `CalculateOffset` as recursive sums,
  plus their algebra. They add the same terms in the same order as the
  C# program, grouped as a subtotal per row (which matters only under rounding):
  - the squared-weight sums ignore the readings;
  - displacing the readings shifts the weighted sums linearly.
- `Estimator` holds:
  - `CalculateOffset` and its inner loop `AccumulateRow`, as methods with
    loop invariants;
  - the reference definition `EstimateOffset`, characterised by its normal
    equations;
  - the proof that each axis is a least-squares fit.
- `Corrector` holds:
  - `Correction` as a method;
  - its reference definition `Corrected`;
  - the zero, compose and undo laws.
- `Pipeline` chains the two stages. Take data read with the bore's centre at
  `t` from the ring's centre, that is, by a ring displaced by `-t`, in the
  first-order model `pipeRadMm + tx*cos[i] + ty*sin[i]` (exact up to terms of
  order `|t|^2/pipeRadMm`), and an orthogonal basis (below):
  - the estimate is exactly `-t`, the ring's own displacement. Program.cs:85
    says "If pipe shifts right, right-side fingers measure less"; the model
    reads "pipe" there as the instrument, so a ring moved to the right reads
    less on its right-hand probes and returns a positive `dx`;
  - the correction restores the nominal radius everywhere;
  - re-estimating on corrected data gives zero;
  - one concrete four-probe scan shows all of this.

The angular basis is an input. The true values `cos(2*pi*i/N)` and
`sin(2*pi*i/N)` are not computed. The exact-recovery results take their
orthogonality (`Inner(cos, sin) == 0`) as a hypothesis (`Pipeline.Orthogonal`).
Both source functions build the same basis, so one basis is passed to both.

The C# program has no guards. It reads `row[i]` for `i < fingers` without a
check, and it divides by `sumCos2` and `sumSin2` whatever they are. So the
model makes these preconditions (`Geometry.RowsCover`,
`Estimator.FitDefined`):

- every row has at least `fingers` readings;
- there is at least one row;
- neither sum of squared basis weights is zero.

The program signals no error of its own. A row shorter than `fingers` makes
`row[i]` throw IndexOutOfRangeException, which `Main` catches and prints
(Program.cs:41-44). An empty table or a degenerate basis gives NaN or
±Infinity from the division. The model therefore has no error results.
Rows longer than `fingers` are accepted, as in the code: `CalculateOffset`
ignores the extra columns and `Correction` drops them.

Tables are immutable values in the model, so "the input rows are not
modified" holds by construction. The C# program gets the same effect by
allocating a fresh array for every output row.

## Model

| member | source | states |
|---|---|---|
| Estimator.CalculateOffset | Program.cs:92-131 | The single pass over rows and probes, followed by division and sign flip, returns exactly the offset `EstimateOffset` defines (its slopes solve the normal equations). |
| Estimator.AccumulateRow | Program.cs:110-119 | The inner loop adds the row's `sum cos[i]*(row[i]-r)` and `sum sin[i]*(row[i]-r)` to sumCosY and sumSinY, and `sum cos[i]^2` and `sum sin[i]^2` to sumCos2 and sumSin2. |
| Estimator.EstimateOffset | Program.cs:105-130 | `-dx` solves `sumCos2 * a == sumCosY` and `-dy` solves `sumSin2 * b == sumSinY`: the normal equations of the two one-variable fits. |
| Estimator.NormalEquations | Program.cs:123-128 | A slope solves the x (or y) normal equation if and only if it equals `-dx` (or `-dy`): the quotients are the unique roots. |
| Estimator.Denominators | Program.cs:117-118 | Under the preconditions, sumCos2 and sumSin2 are strictly positive, so both divisions are defined. |
| Estimator.LeastSquaresX | Program.cs:115-123 | No slope leaves a smaller sum of squared residuals `(row[i]-r - a*cos[i])^2` than `-dx`. |
| Estimator.LeastSquaresY | Program.cs:116-124 | No slope leaves a smaller sum of squared residuals `(row[i]-r - b*sin[i])^2` than `-dy`. |
| Estimator.SlopeMinimises | Program.cs:115-124 | For any weights, a root of the normal equation minimises the table's squared residual. |
| Estimator.RowResidualExpands | Program.cs:110-118 | A row's squared residual at slope a equals the quadratic of that row's sums of squared deviations, weighted deviations (sumCosY's share) and squared weights (sumCos2's share). |
| Estimator.TableResidualExpands | Program.cs:108-120 | The table's squared residual is the quadratic of the table's squared deviations, sumCosY (or sumSinY) and sumCos2 (or sumSin2). |
| Sums.Inner | Program.cs:117-118 | Defines the sum of `u[i]*v[i]` over the first n probes. With `u = v = cos` it is one row's share of sumCos2, added probe by probe. |
| Sums.WeightedDeviation | Program.cs:112-116 | Defines one row's share of sumCosY (or sumSinY): `w[i]*(row[i] - pipeRadMm)` added over the first n probes, in probe order. |
| Sums.TableDeviation | Program.cs:105-116 | Defines sumCosY (or sumSinY) over the whole table: the rows' shares added in row order, starting from 0. |
| Sums.TableSquares | Program.cs:106-118 | Defines sumCos2 (or sumSin2): the per-row sum of squared weights, added once per row, starting from 0. |
| Sums.SquaresIgnoreReadings | Program.cs:108-120 | sumCos2 (sumSin2) does not depend on the readings: it is the per-row sum of squares added once per row, and it is never negative. |
| Sums.SquaresCountRows | Program.cs:117-118 | sumCos2 equals the row count times `sum cos[i]^2` (and likewise for sin). |
| Sums.SquaresNonnegative | Program.cs:117-118 | A per-row sum of squared basis weights is never negative. |
| Sums.TimesSign | Program.cs:117-118 | Helper fact about repeated addition, used to show sumCos2 and sumSin2 are positive before the divisions: adding a non-negative per-row amount once per row gives a non-negative total, and a positive one when the amount is positive and there is a row. |
| Sums.TimesSolves | Program.cs:123-124 | Helper fact about repeated addition, used for tables of identical rows: a slope solving one row's normal equation solves the equation summed over any number of such rows. |
| Sums.RowShift | Program.cs:110-115 | Adding `p[i]` to each reading of a row adds `sum w[i]*p[i]` to that row's weighted deviation. |
| Sums.TableShift | Program.cs:108-116 | Displacing every row by `p` adds `sum w[i]*p[i]` per row to sumCosY (sumSinY). |
| Sums.InnerAlong | Program.cs:115-116 | The weighted sum of a displacement's projections `dx*cos[i] + dy*sin[i]` is `dx*sum w[i]cos[i] + dy*sum w[i]sin[i]`. |
| Sums.InnerProjects | Program.cs:115-116 | Inner products are linear: if `p[i]` is the projection of `(c[i], s[i])` for every probe, then `sum w[i]*p[i]` is the projection of `sum w[i]*c[i]` and `sum w[i]*s[i]`. |
| Sums.NominalDeviatesNowhere | Program.cs:108-116 | If every reading equals the nominal radius, sumCosY and sumSinY are zero. |
| Sums.NominalRowDeviatesNowhere | Program.cs:110-116 | One row at the nominal radius contributes nothing to sumCosY or sumSinY. |
| Corrector.CorrectRow | Program.cs:158-163 | Defines one output row: exactly `fingers` cells, cell i being `row[i] + dx*cos[i] + dy*sin[i]`; columns past `fingers` are not read. |
| Corrector.Corrected | Program.cs:155-166 | Defines the corrected table: one corrected row per input row, in order, each of exactly `fingers` cells. |
| Corrector.Correction | Program.cs:142-167 | The result has the input's row count and rows of exactly `fingers` cells, and each cell is `data[r][i] + dx*cos[i] + dy*sin[i]`: the input shifted by the offset along each probe's direction. |
| Corrector.CorrectZero | Program.cs:158-165 | Correcting by `(0, 0)` returns the first `fingers` readings of every row unchanged. |
| Corrector.CorrectCompose | Program.cs:162 | Correcting by o1 and then by o2 equals one correction by `o1 + o2`. |
| Corrector.CorrectUndo | Program.cs:162 | Correcting by `(-dx, -dy)` undoes a correction by `(dx, dy)`, up to dropping the extra columns. |
| Pipeline.NominalGivesZero | Program.cs:112-128 | If every reading equals `pipeRadMm`, the offset is `(0, 0)`, with no orthogonality needed. |
| Pipeline.EstimateShift | Program.cs:108-128 | With an orthogonal basis, shifting every reading by `tx*cos[i] + ty*sin[i]` moves the estimate by exactly `(-tx, -ty)`. |
| Pipeline.AxisShift | Program.cs:115-124 | One axis of that equivariance: if the weights are orthogonal to the other axis, displacing the table moves the fitted slope by the displacement along this axis. |
| Pipeline.Recovery | Program.cs:83-86 | For rows `pipeRadMm + tx*cos[i] + ty*sin[i]` (the bore's centre at `(tx, ty)` from the ring's, so the ring is displaced by `(-tx, -ty)`) with an orthogonal basis, the estimate is exactly `(-tx, -ty)`: the ring's displacement. |
| Pipeline.RecoveryBias | Program.cs:115-127 | Without orthogonality the x fit is biased: `-dx * sum cos^2 == tx * sum cos^2 + ty * sum cos*sin`. |
| Pipeline.PipelineRestoresNominal | Program.cs:92-167 | With an orthogonal basis, on generated data, `Correction(CalculateOffset(data))` is `pipeRadMm` in every cell. |
| Pipeline.ReestimateIsZero | Program.cs:92-167 | With an orthogonal basis, estimating again on the corrected table gives `(0, 0)`. |
| Pipeline.QuarterScenario | Program.cs:108-128 | For the four-probe ring with `cos = [1,0,-1,0]`, `sin = [0,1,0,-1]`, radius 100 and the scan `[102,100,98,100]` (a ring displaced 2 to the left), the offset is `(-2, 0)` and the corrected scan is `[100,100,100,100]`. |
| Pipeline.QuarterRightShift | Program.cs:83-86 | On the same ring moved 2 to the right, the right-hand probe reads less and the left-hand probe more (`[98,100,102,100]`), and the offset is `(2, 0)`. |

## Left out

- `Main`, `RetrievePath`, `ExtractData` and `SaveFile` are left out. They are console and file I/O, `double.Parse`, `G5` formatting and `Path` calls. This includes `Main`'s fixed 40 fingers and 254 mm diameter, and its `data[0]` access on an empty file.
- The basis loops (Program.cs:95-102 and 145-152) are not modelled. `Math.Cos` and `Math.Sin` are foreign calls, so the basis is an input sequence pair. Orthogonality of the true trigonometric basis is assumed where needed, not derived.
- IEEE-754 doubles are modelled as reals: no rounding, no NaN and no infinities. The two basis loops evaluate the angle in a different order, which matters only under rounding.
- The division by zero of an empty table or a degenerate basis is excluded by precondition (`Estimator.FitDefined`). The C# program would return NaN or an infinity, and a model over reals has no such value.
- A negative `fingers` makes the C# program throw when it allocates the arrays. `fingers` is a `nat` here.
- The top-level `catch` that prints exception messages (Program.cs:41-44) is not modelled.
- Geometry.RowsCover: the out-of-range error path is not modelled. A row shorter than `fingers` makes `row[i]` throw IndexOutOfRangeException in `CalculateOffset` (Program.cs:112) and in `Correction` (Program.cs:162), and `Main` prints it. Both operations require `RowsCover` (every row has at least `fingers` readings) instead.
