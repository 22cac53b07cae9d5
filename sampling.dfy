/*
 * Proportional allocation of a sampling budget over GeoJSON-like cells.
 *
 * Each cell is given an integer quota proportional to the area of the
 * bounding box of its outer ring, scaled so that the largest cell gets
 * `maxSamples`, rounded half up and never below 1.
 */
module Sampling {

  datatype Result<T, E> = Success(value: T) | Failure(error: E)

  /** One vertex of a ring: longitude first, then latitude (GeoJSON order). */
  datatype Point = Point(lon: real, lat: real)

  /** A ring is the ordered list of vertices of one polygon boundary. */
  type Ring = seq<Point>

  /**
   * The geometry of one cell: its GeoJSON "type" tag and its list of rings.
   * Ring 0 is the outer boundary; any further rings are holes.
   */
  datatype Cell = Cell(geometryType: string, coordinates: seq<Ring>)

  /** Why one cell could not be given an area. */
  datatype CellFault =
    | NotPolygon      // the "type" tag is not "Polygon": the explicit ValueError
    | NoOuterRing     // "coordinates" holds no ring, so ring 0 does not exist
    | EmptyOuterRing  // the outer ring has no vertex, so it has no largest longitude

  /** Why a whole allocation fails; no partial quota list is ever returned. */
  datatype Error =
    | BadCell(index: nat, fault: CellFault)  // the first cell, in input order, that failed
    | ZeroMaxArea                            // every area is 0, so the ratio divides by 0

  /** The largest element of a non-empty sequence (Python's `max`). */
  function MaxOf(s: seq<real>): (m: real)
    requires |s| > 0
    ensures m in s
    ensures forall i :: 0 <= i < |s| ==> s[i] <= m
  {
    if |s| == 1 then s[0]
    else
      var rest := MaxOf(s[1..]);
      assert forall i :: 1 <= i < |s| ==> s[i] == s[1..][i - 1];
      if s[0] >= rest then s[0] else rest
  }

  /** The smallest element of a non-empty sequence (Python's `min`). */
  function MinOf(s: seq<real>): (m: real)
    requires |s| > 0
    ensures m in s
    ensures forall i :: 0 <= i < |s| ==> m <= s[i]
  {
    if |s| == 1 then s[0]
    else
      var rest := MinOf(s[1..]);
      assert forall i :: 1 <= i < |s| ==> s[i] == s[1..][i - 1];
      if s[0] <= rest then s[0] else rest
  }

  /** The longitudes of a ring's vertices, in ring order. */
  function Lons(ring: Ring): seq<real> {
    seq(|ring|, i requires 0 <= i < |ring| => ring[i].lon)
  }

  /** The latitudes of a ring's vertices, in ring order. */
  function Lats(ring: Ring): seq<real> {
    seq(|ring|, i requires 0 <= i < |ring| => ring[i].lat)
  }

  /** An axis-aligned box in longitude and latitude. */
  datatype Box = Box(west: real, east: real, south: real, north: real)

  /** The box holds every vertex of the ring. */
  predicate Encloses(b: Box, ring: Ring) {
    forall i :: 0 <= i < |ring| ==>
      b.west <= ring[i].lon <= b.east && b.south <= ring[i].lat <= b.north
  }

  /** Each side of the box passes through some vertex of the ring. */
  predicate Touches(b: Box, ring: Ring) {
    && (exists i :: 0 <= i < |ring| && ring[i].lon == b.west)
    && (exists i :: 0 <= i < |ring| && ring[i].lon == b.east)
    && (exists i :: 0 <= i < |ring| && ring[i].lat == b.south)
    && (exists i :: 0 <= i < |ring| && ring[i].lat == b.north)
  }

  /**
   * The bounding box of a ring, from the largest and smallest longitude and
   * latitude of its vertices: the box that encloses the ring and touches it
   * on all four sides.
   */
  function BoundingBox(ring: Ring): (b: Box)
    requires |ring| > 0
    ensures Encloses(b, ring) && Touches(b, ring)
  {
    var lon, lat := Lons(ring), Lats(ring);
    assert forall i :: 0 <= i < |ring| ==> lon[i] == ring[i].lon && lat[i] == ring[i].lat;
    Box(MinOf(lon), MaxOf(lon), MinOf(lat), MaxOf(lat))
  }

  /** A box that encloses a ring and touches it on every side is its bounding box. */
  lemma BoundingBoxUnique(b: Box, ring: Ring)
    requires |ring| > 0 && Encloses(b, ring) && Touches(b, ring)
    ensures b == BoundingBox(ring)
  {
    var c := BoundingBox(ring);
    var i :| 0 <= i < |ring| && ring[i].lon == b.west;
    var j :| 0 <= j < |ring| && ring[j].lon == c.west;
    assert b.west == c.west;
    i :| 0 <= i < |ring| && ring[i].lon == b.east;
    j :| 0 <= j < |ring| && ring[j].lon == c.east;
    assert b.east == c.east;
    i :| 0 <= i < |ring| && ring[i].lat == b.south;
    j :| 0 <= j < |ring| && ring[j].lat == c.south;
    assert b.south == c.south;
    i :| 0 <= i < |ring| && ring[i].lat == b.north;
    j :| 0 <= j < |ring| && ring[j].lat == c.north;
    assert b.north == c.north;
  }

  /** Width times height of a box whose sides are in order; zero exactly when the box is flat. */
  function BoxArea(b: Box): (area: real)
    requires b.west <= b.east && b.south <= b.north
    ensures area >= 0.0
    ensures area == 0.0 <==> b.west == b.east || b.south == b.north
  {
    ProductZero(b.east - b.west, b.north - b.south);
    (b.east - b.west) * (b.north - b.south)
  }

  /**
   * Python's calculate_area: the approximate area of a ring in square
   * degrees, the area of the bounding box of its vertices.
   */
  function BoundingBoxArea(ring: Ring): (area: real)
    requires |ring| > 0
    ensures area >= 0.0
  {
    var b := BoundingBox(ring);
    assert b.west <= ring[0].lon <= b.east && b.south <= ring[0].lat <= b.north;
    BoxArea(b)
  }

  /** A product of two non-negative reals is non-negative, and zero exactly when a factor is. */
  lemma ProductZero(w: real, h: real)
    requires w >= 0.0 && h >= 0.0
    ensures w * h >= 0.0
    ensures w * h == 0.0 <==> w == 0.0 || h == 0.0
  {
    if w > 0.0 && h > 0.0 {
      assert w * h > 0.0;
    }
  }

  /**
   * The per-cell body of the allocation loop: reject a cell whose type tag is
   * not "Polygon", otherwise take the bounding-box area of ring 0 only.
   */
  function CellArea(c: Cell): (r: Result<real, CellFault>)
    ensures c.geometryType != "Polygon" ==> r == Failure(NotPolygon)
    ensures r.Success? ==> r.value >= 0.0
  {
    if c.geometryType != "Polygon" then Failure(NotPolygon)
    else if |c.coordinates| == 0 then Failure(NoOuterRing)
    else if |c.coordinates[0]| == 0 then Failure(EmptyOuterRing)
    else Success(BoundingBoxArea(c.coordinates[0]))
  }

  /**
   * The areas of all cells in input order, or the fault of the first cell
   * that has none. Specifies the loop of ComputeAreas.
   */
  function AreasOf(cells: seq<Cell>): (r: Result<seq<real>, Error>)
    ensures r.Success? <==> forall i :: 0 <= i < |cells| ==> CellArea(cells[i]).Success?
    ensures r.Success? ==>
      |r.value| == |cells| &&
      forall i :: 0 <= i < |cells| ==> CellArea(cells[i]) == Success(r.value[i])
    ensures r.Failure? ==>
      r.error.BadCell? && r.error.index < |cells| &&
      CellArea(cells[r.error.index]) == Failure(r.error.fault) &&
      forall j :: 0 <= j < r.error.index ==> CellArea(cells[j]).Success?
  {
    if cells == [] then Success([])
    else
      var n := |cells| - 1;
      assert forall i :: 0 <= i < n ==> cells[..n][i] == cells[i];
      match AreasOf(cells[..n])
      case Failure(e) => Failure(e)
      case Success(areas) =>
        match CellArea(cells[n])
        case Failure(f) => Failure(BadCell(n, f))
        case Success(a) => Success(areas + [a])
  }

  /**
   * The loop over the cells: check each cell in turn and append its area,
   * stopping at the first cell that fails.
   */
  method ComputeAreas(cells: seq<Cell>) returns (r: Result<seq<real>, Error>)
    ensures r == AreasOf(cells)
  {
    var areas: seq<real> := [];
    var i := 0;
    while i < |cells|
      invariant 0 <= i <= |cells|
      invariant AreasOf(cells[..i]) == Success(areas)
    {
      var area := CellArea(cells[i]);
      if area.Failure? {
        FirstFault(cells, i);
        return Failure(BadCell(i, area.error));
      }
      assert cells[..i + 1][..i] == cells[..i];
      areas := areas + [area.value];
      i := i + 1;
    }
    assert cells[..i] == cells;
    r := Success(areas);
  }

  /** When every cell before `i` has an area and cell `i` has none, cell `i` is the one reported. */
  lemma FirstFault(cells: seq<Cell>, i: nat)
    requires i < |cells|
    requires AreasOf(cells[..i]).Success?
    requires CellArea(cells[i]).Failure?
    ensures AreasOf(cells) == Failure(BadCell(i, CellArea(cells[i]).error))
  {
    assert forall j :: 0 <= j < i ==> cells[..i][j] == cells[j];
    var r := AreasOf(cells);
    assert r.Failure?;
    var k := r.error.index;
    assert CellArea(cells[k]).Failure?;
    assert k >= i;
    assert k <= i;
  }

  /** Python's `int()` on a float: truncation toward zero. */
  function Trunc(x: real): (t: int)
    ensures 0.0 <= x ==> t as real <= x < t as real + 1.0
    ensures x < 0.0 ==> t as real - 1.0 < x <= t as real
  {
    if x >= 0.0 then x.Floor else -((-x).Floor)
  }

  /** The integer nearest to `x`, with halves rounded up. */
  function RoundHalfUp(x: real): (n: int)
    ensures n as real - 0.5 <= x < n as real + 0.5
  {
    (x + 0.5).Floor
  }

  /** Python's `max(1, n)`. */
  function AtLeastOne(n: int): int {
    if 1 >= n then 1 else n
  }

  /**
   * The quota of one cell: its share of `maxSamples` in proportion to
   * `area / maxArea`, computed as truncation of the share plus one half,
   * and never less than 1. Whatever the sign of the share, this is the
   * share rounded half up and clamped to 1.
   */
  function Quota(area: real, maxArea: real, maxSamples: int): (q: int)
    requires maxArea != 0.0
    ensures q >= 1
    ensures q == AtLeastOne(RoundHalfUp(area / maxArea * maxSamples as real))
  {
    AtLeastOne(Trunc(area / maxArea * maxSamples as real + 0.5))
  }

  /** The final list comprehension: one quota per area, in order. */
  function Quotas(areas: seq<real>, maxArea: real, maxSamples: int): (qs: seq<int>)
    requires areas != [] ==> maxArea != 0.0
    ensures |qs| == |areas|
    ensures forall i :: 0 <= i < |areas| ==> qs[i] >= 1
  {
    seq(|areas|, i requires 0 <= i < |areas| => Quota(areas[i], maxArea, maxSamples))
  }

  /**
   * proportional_samples as a function of its inputs: the areas, their
   * maximum (bound only when there is at least one cell), and the quotas.
   */
  function Allocate(cells: seq<Cell>, maxSamples: int): (r: Result<seq<int>, Error>)
    ensures cells == [] ==> r == Success([])
    ensures r.Success? ==> |r.value| == |cells|
    ensures r.Success? ==> forall i :: 0 <= i < |cells| ==> r.value[i] >= 1
    ensures (exists i :: 0 <= i < |cells| && CellArea(cells[i]).Failure?) ==> r.Failure? && r.error.BadCell?
  {
    match AreasOf(cells)
    case Failure(e) => Failure(e)
    case Success(areas) =>
      var maxArea := if areas == [] then 0.0 else MaxOf(areas);
      if areas != [] && maxArea == 0.0 then Failure(ZeroMaxArea)
      else Success(Quotas(areas, maxArea, maxSamples))
  }

  /**
   * proportional_samples: compute every cell's area, failing on the first bad
   * cell; take the largest area; then give each cell its quota in input order.
   */
  method ProportionalSamples(cells: seq<Cell>, maxSamples: int) returns (r: Result<seq<int>, Error>)
    ensures r == Allocate(cells, maxSamples)
  {
    var computed := ComputeAreas(cells);
    if computed.Failure? {
      return Failure(computed.error);
    }
    var areas := computed.value;
    var maxArea := 0.0;  // never read when there are no cells
    if areas != [] {
      maxArea := MaxOf(areas);
    }
    if areas != [] && maxArea == 0.0 {
      return Failure(ZeroMaxArea);
    }
    r := Success(Quotas(areas, maxArea, maxSamples));
  }
}
