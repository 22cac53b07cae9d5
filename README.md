# Proportional sample allocation (ortho_utils.sampling)

This project models `proportional_samples` from `ortho_utils/sampling.py`,
together with its nested helper `calculate_area`. The function takes a list of
GeoJSON polygon cells and a sample budget `max_samples`. It returns one integer
quota per cell:

- the area of a cell is the area, in square degrees, of the bounding box of
  the vertices of its outer ring (ring 0);
- every cell must have geometry type `"Polygon"`, or the whole call fails;
- each quota is `area / max_area * max_samples`, rounded half up and never
  below 1, where `max_area` is the largest cell area.

`sampling.dfy` (module `Sampling`) holds the data model and the operations.

- `CellArea` is the per-cell step. `AreasOf` is the loop over the cells, as a
  function.
- `ComputeAreas` is that loop as a method with a loop invariant, proved equal
  to `AreasOf`.
- `Quota` and `Quotas` are the final list comprehension.
- `Allocate` is the whole computation as a function. The method
  `ProportionalSamples` follows the source's statement order and is proved
  equal to `Allocate`.

Python's exceptions are modelled as `Failure` results, never as preconditions.
A cell whose type tag is not `"Polygon"` is the `ValueError` of line 27, and
the allocation stops at the first bad cell in input order. A cell with no ring
(`IndexError` on `[0]`) and a ring with no vertex (`max()` of an empty list)
are their own faults. When every area is 0, `max_area` is 0 and the division
fails (`ZeroDivisionError`); this is `ZeroMaxArea`.

Python's `int()` truncates toward zero. It is modelled as `Trunc`. `Quota`'s
contract proves that `max(1, int(v + 0.5))` equals `v` rounded half up and
clamped to 1, for every `max_samples`, negative ones included.

`sampling_properties.dfy` (module `SamplingProperties`) proves what the
allocation promises:

- when it succeeds and when it fails;
- the bounds of every quota;
- that the largest cell gets exactly `max_samples`;
- that quotas are monotone in area;
- which parts of the geometry the area depends on;
- the two-rectangle example of the test suite.

Where the code differs from the behaviour described for the repository, the
model follows the code:

- the area is the bounding-box product of line 21, not a shoelace area;
- the allocator does not check that the ring has five vertices or that it is
  closed;
- the error for a non-polygon is Python's `ValueError`, not a dedicated
  validation error;
- degenerate cells and an all-zero area list fail in their own ways.

## Model

| member | source | states |
|---|---|---|
| Sampling.MaxOf | ortho_utils/sampling.py:33 | `max` of a non-empty list is an element of the list and no element exceeds it |
| Sampling.MinOf | ortho_utils/sampling.py:21 | `min` of a non-empty list is an element of the list and no element is below it |
| Sampling.BoundingBox | ortho_utils/sampling.py:18-21 | the box built from the extreme longitudes and latitudes encloses every vertex and touches the ring on all four sides |
| Sampling.BoundingBoxUnique | ortho_utils/sampling.py:18-21 | any box that encloses the ring and touches it on every side is that bounding box, so the extremes are determined by the vertices alone |
| Sampling.BoxArea | ortho_utils/sampling.py:21 | width times height is non-negative, and zero exactly when the box has zero width or zero height |
| Sampling.BoundingBoxArea | ortho_utils/sampling.py:12-21 | `calculate_area` of a non-empty ring is non-negative |
| Sampling.CellArea | ortho_utils/sampling.py:26-29 | a cell whose type is not "Polygon" is rejected with the non-polygon fault; any area it yields is non-negative |
| Sampling.AreasOf | ortho_utils/sampling.py:23-29 | the loop succeeds iff every cell has an area, and then yields exactly those areas in input order; otherwise it reports the first failing cell, its index and its fault |
| Sampling.ComputeAreas | ortho_utils/sampling.py:23-29 | the imperative loop, which appends one area per cell and stops at the first bad cell, computes exactly `AreasOf` |
| Sampling.FirstFault | ortho_utils/sampling.py:25-27 | when every cell before `i` has an area and cell `i` has none, the loop fails at index `i` with cell `i`'s fault |
| Sampling.Trunc | ortho_utils/sampling.py:37 | `int()` on a float truncates toward zero: it lies within 1 of `x` on the zero side |
| Sampling.RoundHalfUp | ortho_utils/sampling.py:35-37 | the result is the integer nearest to `x`, with halves rounded up |
| Sampling.Quota | ortho_utils/sampling.py:37 | `max(1, int(area / max_area * max_samples + 0.5))` is at least 1 and equals the share rounded half up and clamped to 1, for every sign of the share |
| Sampling.Quotas | ortho_utils/sampling.py:37 | the comprehension yields one quota per area, each at least 1 |
| Sampling.Allocate | ortho_utils/sampling.py:1-37 | no cells give the empty list; a success has one entry per cell, each at least 1; any cell without an area makes the call fail with a bad-cell error |
| Sampling.ProportionalSamples | ortho_utils/sampling.py:1-37 | the statement-by-statement method (loop, `max` only when there are areas, then the comprehension) computes exactly `Allocate` |
| SamplingProperties.LargestArea | ortho_utils/sampling.py:32-33 | `max_area` is the area of some cell and no cell's area exceeds it |
| SamplingProperties.QuotaOfLargest | ortho_utils/sampling.py:37 | a cell whose area equals `max_area` gets exactly `max_samples` when `max_samples >= 1` |
| SamplingProperties.QuotaAtMost | ortho_utils/sampling.py:37 | no quota exceeds `max(1, max_samples)` |
| SamplingProperties.RoundHalfUpMonotone | ortho_utils/sampling.py:37 | rounding half up preserves order |
| SamplingProperties.QuotaMonotone | ortho_utils/sampling.py:37 | a larger area never gets a smaller quota, for any `max_samples` |
| SamplingProperties.AllocateOfMeasurable | ortho_utils/sampling.py:31-37 | over cells that all have areas, the result is the quota list scaled by the largest area, or the division-by-zero failure when that area is 0 |
| SamplingProperties.LargestAreaPositive | ortho_utils/sampling.py:32-33 | `max_area` is non-negative, and positive exactly when some cell has a positive area |
| SamplingProperties.AllocateSucceedsIff | ortho_utils/sampling.py:24-37 | the call succeeds iff every cell has an area and, unless the list is empty, some area is positive; when every cell has an area, the only failure is the zero division |
| SamplingProperties.NonPolygonRejected | ortho_utils/sampling.py:25-27 | a non-polygon anywhere in the list makes the whole call fail at or before its index, and exactly at it with the non-polygon fault when every earlier cell is fine |
| SamplingProperties.QuotaOfCell | ortho_utils/sampling.py:32-37 | after a success, entry `i` is cell `i`'s quota scaled by the largest area, and that area is positive |
| SamplingProperties.QuotaBounds | ortho_utils/sampling.py:37 | after a success, every entry is between 1 and `max(1, max_samples)` |
| SamplingProperties.LargestCellGetsMax | ortho_utils/sampling.py:33-37 | every cell whose area is the largest, ties included, gets exactly `max_samples` |
| SamplingProperties.SomeCellGetsMax | ortho_utils/sampling.py:33-37 | a successful call over at least one cell hands out `max_samples` to some cell |
| SamplingProperties.AllocateMonotone | ortho_utils/sampling.py:37 | of two cells in one call, the one with the larger area never gets fewer samples |
| SamplingProperties.HolesIgnored | ortho_utils/sampling.py:28-29 | rings after the first never affect the result: lists that agree cell by cell on type and outer ring get identical areas and quotas |
| SamplingProperties.AreaZeroIffFlat | ortho_utils/sampling.py:18-21 | a ring's area is 0 exactly when all its vertices share one longitude or all share one latitude |
| SamplingProperties.SameVerticesSameArea | ortho_utils/sampling.py:18-21 | the area depends only on the set of vertices, not on their order or repetition |
| SamplingProperties.ClosingVertexIgnored | ortho_utils/sampling.py:18-21 | repeating the first vertex to close the ring does not change its area |
| SamplingProperties.RectBoundingBox | ortho_utils/sampling.py:14-21 | the bounding box of the closed five-vertex ring of an axis-aligned rectangle is that rectangle |
| SamplingProperties.RectArea | ortho_utils/sampling.py:14-21 | an axis-aligned rectangle cell has area width times height |
| SamplingProperties.TestRectangleAreas | tests/test_sampling.py:8-13 | the two test rectangles have areas 12 and 6 |
| SamplingProperties.TestQuotas | tests/test_sampling.py:96-106 | areas 12 and 6 with a budget of 100 get quotas 100 and 50 |
| SamplingProperties.AreasOfPair | ortho_utils/sampling.py:24-29 | two cells with areas give those two areas in order |
| SamplingProperties.TwoRectangles | tests/test_sampling.py:96-106 | the 4 by 3 and 3 by 2 rectangle cells with `max_samples = 100` are allocated `[100, 50]` |

The empty-list test (tests/test_sampling.py:108-111) is the first `ensures`
of `Sampling.Allocate`.

## Left out

- `Zone` and `Sample`, with `contains`, `associate` and `avg_samples`, are imported by the tests but are not part of this model. `ortho_utils/sampling.py` does not define them.
- Floating point: coordinates, areas and ratios are exact `real`s, so IEEE-754 rounding of the product, of the division and of `+ 0.5` is not modelled.
- The GeoJSON "Feature" wrapper is left out, and so is the `KeyError` for a record without `geometry`, `type` or `coordinates`. A `Cell` is the `geometry` object itself, with its type tag and rings.
- Vertices are (longitude, latitude) pairs. A point with fewer than two components (an `IndexError` in Python) cannot be expressed, and extra components, which Python ignores, are dropped.
- Non-numeric inputs and duck-typed values (a non-integer or non-numeric `max_samples`, strings as coordinates) are not modelled. `max_samples` is an `int`.
- Sampling.BoundingBoxArea: its contract states only non-negativity; the exact zero case is `SamplingProperties.AreaZeroIffFlat` and the value for rectangles is `SamplingProperties.RectArea`.
