/*
 * What the allocation promises: where it fails, how long its result is,
 * the bounds of each quota, the quota of the largest cell, monotonicity in
 * area, and which parts of a cell's geometry the area depends on.
 */
module SamplingProperties {
  import opened Sampling

  /** Every cell has an area: none fails the type check or lacks an outer vertex. */
  predicate AllMeasurable(cells: seq<Cell>) {
    forall i :: 0 <= i < |cells| ==> CellArea(cells[i]).Success?
  }

  /** The largest cell area, the `max_area` the quotas are scaled by. */
  function LargestArea(cells: seq<Cell>): (m: real)
    requires AllMeasurable(cells) && cells != []
    ensures exists k :: 0 <= k < |cells| && CellArea(cells[k]).Success? && CellArea(cells[k]).value == m
    ensures forall i :: 0 <= i < |cells| ==> CellArea(cells[i]).value <= m
  {
    var areas := AreasOf(cells).value;
    var m := MaxOf(areas);
    var k :| 0 <= k < |areas| && areas[k] == m;
    assert CellArea(cells[k]).value == m;
    m
  }

  // ---------------------------------------------------------------------------
  // Quota of one cell
  // ---------------------------------------------------------------------------

  /** A cell whose area is the maximum gets exactly `maxSamples` when that is at least 1. */
  lemma QuotaOfLargest(maxArea: real, maxSamples: int)
    requires maxArea > 0.0 && maxSamples >= 1
    ensures Quota(maxArea, maxArea, maxSamples) == maxSamples
  {
    assert maxArea / maxArea == 1.0;
    assert maxArea / maxArea * maxSamples as real == maxSamples as real;
  }

  /** No quota exceeds `maxSamples` (or 1, when `maxSamples` is below 1). */
  lemma QuotaAtMost(area: real, maxArea: real, maxSamples: int)
    requires 0.0 <= area <= maxArea && maxArea > 0.0
    ensures Quota(area, maxArea, maxSamples) <= AtLeastOne(maxSamples)
  {
    var ratio := area / maxArea;
    assert 0.0 <= ratio <= 1.0;
    var share := ratio * maxSamples as real;
    if maxSamples >= 0 {
      assert share <= maxSamples as real;
    } else {
      assert share <= 0.0;
    }
  }

  /** Rounding half up never reverses an order. */
  lemma RoundHalfUpMonotone(x: real, y: real)
    requires x <= y
    ensures RoundHalfUp(x) <= RoundHalfUp(y)
  {
    var m, n := RoundHalfUp(x), RoundHalfUp(y);
    assert (m as real) - 0.5 <= y < (n as real) + 0.5;
  }

  /** Scaling by a non-negative factor keeps an order. */
  lemma ScaleMonotone(x: real, y: real, k: real)
    requires x <= y && k >= 0.0
    ensures x * k <= y * k
  {
  }

  /** A larger area never gets a smaller quota. */
  lemma QuotaMonotone(a: real, b: real, maxArea: real, maxSamples: int)
    requires 0.0 <= a <= b && maxArea > 0.0
    ensures Quota(a, maxArea, maxSamples) <= Quota(b, maxArea, maxSamples)
  {
    var ra, rb := a / maxArea, b / maxArea;
    assert 0.0 <= ra <= rb;
    var ms := maxSamples as real;
    if maxSamples >= 0 {
      ScaleMonotone(ra, rb, ms);
      RoundHalfUpMonotone(ra * ms, rb * ms);
    } else {
      assert ra * ms <= 0.0 && rb * ms <= 0.0;
    }
  }

  // ---------------------------------------------------------------------------
  // The whole allocation
  // ---------------------------------------------------------------------------

  /** Over measurable cells the allocation divides by LargestArea, or fails when it is 0. */
  lemma AllocateOfMeasurable(cells: seq<Cell>, maxSamples: int)
    requires AllMeasurable(cells) && cells != []
    ensures LargestArea(cells) == 0.0 ==> Allocate(cells, maxSamples) == Failure(ZeroMaxArea)
    ensures LargestArea(cells) != 0.0 ==>
      Allocate(cells, maxSamples).Success? &&
      Allocate(cells, maxSamples).value == Quotas(AreasOf(cells).value, LargestArea(cells), maxSamples)
  {
    assert AreasOf(cells).Success?;
  }

  /** The largest area is positive exactly when some cell's area is. */
  lemma LargestAreaPositive(cells: seq<Cell>)
    requires AllMeasurable(cells) && cells != []
    ensures LargestArea(cells) > 0.0 <==>
      exists i :: 0 <= i < |cells| && CellArea(cells[i]).Success? && CellArea(cells[i]).value > 0.0
    ensures LargestArea(cells) >= 0.0
  {
    var m := LargestArea(cells);
    var k :| 0 <= k < |cells| && CellArea(cells[k]).Success? && CellArea(cells[k]).value == m;
    if exists i :: 0 <= i < |cells| && CellArea(cells[i]).Success? && CellArea(cells[i]).value > 0.0 {
      var i :| 0 <= i < |cells| && CellArea(cells[i]).Success? && CellArea(cells[i]).value > 0.0;
      assert CellArea(cells[i]).value <= m;
    }
  }

  /**
   * The allocation succeeds exactly when every cell has an area and, unless
   * there are no cells, some area is positive; when every cell has an area,
   * the only possible failure is the all-zero division.
   */
  lemma AllocateSucceedsIff(cells: seq<Cell>, maxSamples: int)
    ensures Allocate(cells, maxSamples).Success? <==>
      AllMeasurable(cells) &&
      (cells == [] ||
       exists i :: 0 <= i < |cells| && CellArea(cells[i]).Success? && CellArea(cells[i]).value > 0.0)
    ensures AllMeasurable(cells) ==>
      Allocate(cells, maxSamples).Success? || Allocate(cells, maxSamples).error == ZeroMaxArea
  {
    if AllMeasurable(cells) && cells != [] {
      AllocateOfMeasurable(cells, maxSamples);
      LargestAreaPositive(cells);
    }
  }

  /**
   * A cell whose type tag is not "Polygon" makes the whole allocation fail,
   * wherever it sits; it is the cell reported unless an earlier cell failed first.
   */
  lemma NonPolygonRejected(cells: seq<Cell>, maxSamples: int, k: nat)
    requires k < |cells| && cells[k].geometryType != "Polygon"
    ensures Allocate(cells, maxSamples).Failure?
    ensures Allocate(cells, maxSamples).error.BadCell?
    ensures Allocate(cells, maxSamples).error.index <= k
    ensures (forall j :: 0 <= j < k ==> CellArea(cells[j]).Success?) ==>
      Allocate(cells, maxSamples).error == BadCell(k, NotPolygon)
  {
    assert CellArea(cells[k]).Failure?;
    var e := AreasOf(cells).error;
    assert e.index <= k by {
      assert CellArea(cells[e.index]).Failure?;
    }
    if forall j :: 0 <= j < k ==> CellArea(cells[j]).Success? {
      assert e.index == k;
    }
  }

  /**
   * Entry `i` of a successful allocation is cell `i`'s share of `maxSamples`,
   * `area / max_area * maxSamples`, rounded half up and raised to at least 1.
   */
  lemma QuotaOfCell(cells: seq<Cell>, maxSamples: int, i: nat)
    requires Allocate(cells, maxSamples).Success? && i < |cells|
    ensures AllMeasurable(cells) && LargestArea(cells) > 0.0
    ensures Allocate(cells, maxSamples).value[i] ==
      Quota(CellArea(cells[i]).value, LargestArea(cells), maxSamples)
  {
    AllocateSucceedsIff(cells, maxSamples);
    LargestAreaPositive(cells);
    AllocateOfMeasurable(cells, maxSamples);
    var areas, m := AreasOf(cells).value, LargestArea(cells);
    assert m != 0.0;
    assert 0.0 <= CellArea(cells[i]).value <= m;
    assert Allocate(cells, maxSamples).value == Quotas(areas, m, maxSamples);
    assert areas[i] == CellArea(cells[i]).value;
  }

  /** Every entry is at least 1 and at most `maxSamples` (or 1 when `maxSamples` < 1). */
  lemma QuotaBounds(cells: seq<Cell>, maxSamples: int, i: nat)
    requires Allocate(cells, maxSamples).Success? && i < |cells|
    ensures 1 <= Allocate(cells, maxSamples).value[i] <= AtLeastOne(maxSamples)
  {
    AllocateSucceedsIff(cells, maxSamples);
    QuotaAtMost(CellArea(cells[i]).value, LargestArea(cells), maxSamples);
  }

  /** Every cell whose area is the largest, ties included, gets exactly `maxSamples`. */
  lemma LargestCellGetsMax(cells: seq<Cell>, maxSamples: int, i: nat)
    requires Allocate(cells, maxSamples).Success? && i < |cells| && maxSamples >= 1
    requires AllMeasurable(cells) && CellArea(cells[i]).value == LargestArea(cells)
    ensures Allocate(cells, maxSamples).value[i] == maxSamples
  {
    AllocateSucceedsIff(cells, maxSamples);
    QuotaOfLargest(LargestArea(cells), maxSamples);
  }

  /** A successful allocation over at least one cell hands out `maxSamples` somewhere. */
  lemma SomeCellGetsMax(cells: seq<Cell>, maxSamples: int)
    requires Allocate(cells, maxSamples).Success? && cells != [] && maxSamples >= 1
    ensures exists i :: 0 <= i < |cells| && Allocate(cells, maxSamples).value[i] == maxSamples
  {
    AllocateSucceedsIff(cells, maxSamples);
    var k :| 0 <= k < |cells| && CellArea(cells[k]).Success? && CellArea(cells[k]).value == LargestArea(cells);
    LargestCellGetsMax(cells, maxSamples, k);
  }

  /** A cell with a larger area never receives fewer samples than one with a smaller area. */
  lemma AllocateMonotone(cells: seq<Cell>, maxSamples: int, i: nat, j: nat)
    requires Allocate(cells, maxSamples).Success? && i < |cells| && j < |cells|
    requires AllMeasurable(cells) && CellArea(cells[i]).value <= CellArea(cells[j]).value
    ensures Allocate(cells, maxSamples).value[i] <= Allocate(cells, maxSamples).value[j]
  {
    AllocateSucceedsIff(cells, maxSamples);
    QuotaMonotone(CellArea(cells[i]).value, CellArea(cells[j]).value, LargestArea(cells), maxSamples);
  }

  // ---------------------------------------------------------------------------
  // What the area depends on
  // ---------------------------------------------------------------------------

  /** Two cells that agree on their type tag and on ring 0 (or both lack it). */
  predicate SameOutline(c: Cell, d: Cell) {
    && c.geometryType == d.geometryType
    && (|c.coordinates| == 0 <==> |d.coordinates| == 0)
    && (|c.coordinates| > 0 ==> c.coordinates[0] == d.coordinates[0])
  }

  /**
   * Rings after the first never change the outcome: two cell lists that agree
   * cell by cell on type tag and outer ring get the same result.
   */
  lemma {:induction false} HolesIgnored(cells: seq<Cell>, others: seq<Cell>, maxSamples: int)
    requires |cells| == |others|
    requires forall i :: 0 <= i < |cells| ==> SameOutline(cells[i], others[i])
    ensures AreasOf(cells) == AreasOf(others)
    ensures Allocate(cells, maxSamples) == Allocate(others, maxSamples)
  {
    if cells != [] {
      var n := |cells| - 1;
      HolesIgnored(cells[..n], others[..n], maxSamples);
      assert CellArea(cells[n]) == CellArea(others[n]);
    }
  }

  /** All vertices of the ring lie on one meridian. */
  predicate SameLon(ring: Ring) {
    forall i, j :: 0 <= i < |ring| && 0 <= j < |ring| ==> ring[i].lon == ring[j].lon
  }

  /** All vertices of the ring lie on one parallel. */
  predicate SameLat(ring: Ring) {
    forall i, j :: 0 <= i < |ring| && 0 <= j < |ring| ==> ring[i].lat == ring[j].lat
  }

  /** A ring has zero area exactly when its vertices share a longitude or share a latitude. */
  lemma AreaZeroIffFlat(ring: Ring)
    requires |ring| > 0
    ensures BoundingBoxArea(ring) == 0.0 <==> SameLon(ring) || SameLat(ring)
  {
    var b := BoundingBox(ring);
    assert b.west <= ring[0].lon <= b.east && b.south <= ring[0].lat <= b.north;
    if SameLon(ring) {
      var i :| 0 <= i < |ring| && ring[i].lon == b.west;
      var j :| 0 <= j < |ring| && ring[j].lon == b.east;
      assert b.west == b.east;
    }
    if SameLat(ring) {
      var i :| 0 <= i < |ring| && ring[i].lat == b.south;
      var j :| 0 <= j < |ring| && ring[j].lat == b.north;
      assert b.south == b.north;
    }
  }

  /** Rings with the same vertices, in any order and with any repetition, have the same area. */
  lemma SameVerticesSameArea(r1: Ring, r2: Ring)
    requires |r1| > 0 && |r2| > 0
    requires forall p :: p in r1 <==> p in r2
    ensures BoundingBox(r1) == BoundingBox(r2)
    ensures BoundingBoxArea(r1) == BoundingBoxArea(r2)
  {
    var b := BoundingBox(r1);
    forall j | 0 <= j < |r2|
      ensures b.west <= r2[j].lon <= b.east && b.south <= r2[j].lat <= b.north
    {
      assert r2[j] in r1;
    }
    var i :| 0 <= i < |r1| && r1[i].lon == b.west;
    assert r1[i] in r2;
    i :| 0 <= i < |r1| && r1[i].lon == b.east;
    assert r1[i] in r2;
    i :| 0 <= i < |r1| && r1[i].lat == b.south;
    assert r1[i] in r2;
    i :| 0 <= i < |r1| && r1[i].lat == b.north;
    assert r1[i] in r2;
    BoundingBoxUnique(b, r2);
  }

  /** Closing the ring by repeating its first vertex does not change its area. */
  lemma ClosingVertexIgnored(ring: Ring)
    requires |ring| > 0
    ensures BoundingBoxArea(ring + [ring[0]]) == BoundingBoxArea(ring)
  {
    SameVerticesSameArea(ring + [ring[0]], ring);
  }

  // ---------------------------------------------------------------------------
  // The two rectangles of the allocation test
  // ---------------------------------------------------------------------------

  function Rect(lon1: real, lat1: real, lon2: real, lat2: real): Cell {
    Cell("Polygon", [[Point(lon1, lat1), Point(lon2, lat1), Point(lon2, lat2), Point(lon1, lat2), Point(lon1, lat1)]])
  }

  /** The bounding box of an axis-aligned rectangle's ring is the rectangle itself. */
  lemma RectBoundingBox(lon1: real, lat1: real, lon2: real, lat2: real)
    requires lon1 <= lon2 && lat1 <= lat2
    ensures BoundingBox(Rect(lon1, lat1, lon2, lat2).coordinates[0]) == Box(lon1, lon2, lat1, lat2)
  {
    var ring := Rect(lon1, lat1, lon2, lat2).coordinates[0];
    var b := Box(lon1, lon2, lat1, lat2);
    assert ring[0].lon == lon1 && ring[1].lon == lon2 && ring[0].lat == lat1 && ring[2].lat == lat2;
    BoundingBoxUnique(b, ring);
  }

  /** An axis-aligned rectangle cell has the area of the rectangle. */
  lemma RectArea(lon1: real, lat1: real, lon2: real, lat2: real)
    requires lon1 <= lon2 && lat1 <= lat2
    ensures CellArea(Rect(lon1, lat1, lon2, lat2)) == Success(BoxArea(Box(lon1, lon2, lat1, lat2)))
  {
    var c := Rect(lon1, lat1, lon2, lat2);
    RectBoundingBox(lon1, lat1, lon2, lat2);
    assert c.geometryType == "Polygon" && |c.coordinates| > 0 && |c.coordinates[0]| > 0;
  }

  /** The two rectangles of the allocation test have areas 12 and 6. */
  lemma TestRectangleAreas()
    ensures BoxArea(Box(0.0, 4.0, 0.0, 3.0)) == 12.0
    ensures BoxArea(Box(10.0, 13.0, 10.0, 12.0)) == 6.0
  {
  }

  /** With a budget of 100, areas 12 and 6 get 100 and 50. */
  lemma TestQuotas()
    ensures Quotas([12.0, 6.0], 12.0, 100) == [100, 50]
  {
    var qs := Quotas([12.0, 6.0], 12.0, 100);
    assert qs[0] == Quota(12.0, 12.0, 100) == 100 by {
      assert 12.0 / 12.0 * 100.0 == 100.0;
    }
    assert qs[1] == Quota(6.0, 12.0, 100) == 50 by {
      assert 6.0 / 12.0 * 100.0 == 50.0;
    }
  }

  /** Two cells with areas have those areas, in order. */
  lemma AreasOfPair(a: Cell, b: Cell)
    requires CellArea(a).Success? && CellArea(b).Success?
    ensures AreasOf([a, b]).Success?
    ensures AreasOf([a, b]).value == [CellArea(a).value, CellArea(b).value]
  {
  }

  /** A 4 by 3 rectangle and a 3 by 2 one, with a budget of 100, get 100 and 50. */
  lemma TwoRectangles(big: Cell, small: Cell)
    requires big == Rect(0.0, 0.0, 4.0, 3.0) && small == Rect(10.0, 10.0, 13.0, 12.0)
    ensures Allocate([big, small], 100).Success?
    ensures Allocate([big, small], 100).value == [100, 50]
  {
    RectArea(0.0, 0.0, 4.0, 3.0);
    RectArea(10.0, 10.0, 13.0, 12.0);
    TestRectangleAreas();
    var cells := [big, small];
    AreasOfPair(big, small);
    assert AreasOf(cells).value == [12.0, 6.0];
    assert AllMeasurable(cells);
    assert LargestArea(cells) == 12.0 by {
      assert MaxOf([12.0, 6.0]) == 12.0;
    }
    AllocateOfMeasurable(cells, 100);
    TestQuotas();
  }
}
