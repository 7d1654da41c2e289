/** Object catalog, footprints and the placement predicates of the room
    planner (scripts/helpers.py). Coordinates are grid cells; one cell is
    one inch, so catalog sizes are used directly as cell counts. */
module Helpers {

  /** A grid cell (x, y). */
  type Cell = (int, int)

  datatype Option<T> = None | Some(value: T)

  /** The "type" entry of a catalog record: only "boundary" is special. */
  datatype Kind = Furniture | Boundary

  datatype ObjectSpec = ObjectSpec(width: int, height: int, kind: Kind)

  /** Object type name -> geometry, as loaded at import time. */
  type Catalog = map<string, ObjectSpec>

  /** The built-in catalog used when no configuration file is found. */
  const DefaultCatalog: Catalog := map[
    "bed" := ObjectSpec(80, 60, Furniture),
    "desk" := ObjectSpec(48, 24, Furniture),
    "door" := ObjectSpec(30, 0, Boundary),
    "window" := ObjectSpec(24, 0, Boundary)
  ]

  /** Span of a boundary whose type is not in the catalog. */
  const DefaultSpan: int := 30

  predicate IsBoundary(cat: Catalog, t: string)
  {
    t in cat && cat[t].kind == Boundary
  }

  /** Length along its wall of a boundary (door or window). */
  function BoundarySpan(cat: Catalog, t: string): (span: int)
    ensures t in cat ==> span == cat[t].width
    ensures t !in cat ==> span == DefaultSpan
  {
    if t !in cat then DefaultSpan else cat[t].width
  }

  function Max(a: int, b: int): int { if a < b then b else a }

  /** Footprint (width, height) in cells: never smaller than 1 x 1. */
  function Dimensions(cat: Catalog, t: string): (d: (int, int))
    ensures d.0 >= 1 && d.1 >= 1
    ensures t !in cat ==> d == (1, 1)
    ensures t in cat && cat[t].width >= 1 ==> d.0 == cat[t].width
    ensures t in cat && cat[t].height >= 1 ==> d.1 == cat[t].height
    ensures t in cat && cat[t].width < 1 ==> d.0 == 1
    ensures t in cat && cat[t].height < 1 ==> d.1 == 1
  {
    if t !in cat then (1, 1)
    else (Max(1, cat[t].width), Max(1, cat[t].height))
  }

  /** The cells [x, x + w) x [y, y + h). */
  function Rect(x: int, y: int, w: int, h: int): set<Cell>
  {
    set i, j | x <= i < x + w && y <= j < y + h :: (i, j)
  }

  lemma InRect(c: Cell, x: int, y: int, w: int, h: int)
    ensures c in Rect(x, y, w, h) <==> x <= c.0 < x + w && y <= c.1 < y + h
  {
    if x <= c.0 < x + w && y <= c.1 < y + h {
      assert c == (c.0, c.1);
    }
  }

  /** The cells an object of type t anchored at (x, y) blocks: none for a
      boundary, its whole footprint otherwise. */
  function Occupies(cat: Catalog, t: string, x: int, y: int): set<Cell>
  {
    if IsBoundary(cat, t) then {}
    else
      var d := Dimensions(cat, t);
      Rect(x, y, d.0, d.1)
  }

  lemma InOccupies(cat: Catalog, t: string, x: int, y: int, c: Cell)
    ensures c in Occupies(cat, t, x, y) <==>
      !IsBoundary(cat, t) &&
      x <= c.0 < x + Dimensions(cat, t).0 && y <= c.1 < y + Dimensions(cat, t).1
  {
    var d := Dimensions(cat, t);
    InRect(c, x, y, d.0, d.1);
  }

  /** An unknown type blocks exactly its anchor cell. */
  lemma UnknownOccupiesAnchor(cat: Catalog, t: string, x: int, y: int)
    requires t !in cat
    ensures Occupies(cat, t, x, y) == {(x, y)}
  {
    forall c | c in Occupies(cat, t, x, y) ensures c == (x, y) {
      InOccupies(cat, t, x, y, c);
    }
    InOccupies(cat, t, x, y, (x, y));
  }

  predicate InGrid(c: Cell, gridWidth: int, gridHeight: int)
  {
    0 <= c.0 < gridWidth && 0 <= c.1 < gridHeight
  }

  /** Every cell of the set lies in [0, gridWidth) x [0, gridHeight). */
  predicate InsideGrid(cells: set<Cell>, gridWidth: int, gridHeight: int)
  {
    forall c :: c in cells ==> InGrid(c, gridWidth, gridHeight)
  }

  /** (x, y) lies on one of the four walls. */
  predicate OnWall(x: int, y: int, gridWidth: int, gridHeight: int)
  {
    x == 0 || x == gridWidth - 1 || y == 0 || y == gridHeight - 1
  }

  /** Anchor on a vertical wall (the left or right one, corners included). */
  predicate OnVerticalWall(x: int, gridWidth: int)
  {
    x == 0 || x == gridWidth - 1
  }

  /** Whether an object of type t may be anchored at (x, y). The planner's
      test also receives the occupied set but never reads it. */
  predicate IsPositionValid(cat: Catalog, t: string, x: int, y: int, gridWidth: int, gridHeight: int)
  {
    if t !in cat then false
    else if IsBoundary(cat, t) then
      OnWall(x, y, gridWidth, gridHeight) &&
      var span := BoundarySpan(cat, t);
      if OnVerticalWall(x, gridWidth) then 0 <= y && y + span <= gridHeight
      else 0 <= x && x + span <= gridWidth
    else
      var d := Dimensions(cat, t);
      0 <= x && 0 <= y && x + d.0 <= gridWidth && y + d.1 <= gridHeight
  }

  /** The cells a boundary runs along its wall, starting at its anchor: down
      a vertical wall, or right along a horizontal one. */
  function WallRun(cat: Catalog, t: string, x: int, y: int, gridWidth: int): set<Cell>
  {
    var span := BoundarySpan(cat, t);
    if OnVerticalWall(x, gridWidth) then Rect(x, y, 1, span) else Rect(x, y, span, 1)
  }

  /** Validity of a boundary, stated over cells: it is valid exactly when its
      anchor is on a wall and the whole run of `span` cells along that wall
      lies inside the grid. */
  lemma BoundaryValidIffRunInside(cat: Catalog, t: string, x: int, y: int, gridWidth: int, gridHeight: int)
    requires IsBoundary(cat, t) && BoundarySpan(cat, t) >= 1
    requires gridWidth >= 1 && gridHeight >= 1
    ensures IsPositionValid(cat, t, x, y, gridWidth, gridHeight) <==>
      OnWall(x, y, gridWidth, gridHeight) && InsideGrid(WallRun(cat, t, x, y, gridWidth), gridWidth, gridHeight)
  {
    var span := BoundarySpan(cat, t);
    var run := WallRun(cat, t, x, y, gridWidth);
    if OnVerticalWall(x, gridWidth) {
      InRect((x, y), x, y, 1, span);
      InRect((x, y + span - 1), x, y, 1, span);
      forall c | c in run ensures 0 <= y && y + span <= gridHeight ==> InGrid(c, gridWidth, gridHeight) {
        InRect(c, x, y, 1, span);
      }
    } else {
      InRect((x, y), x, y, span, 1);
      InRect((x + span - 1, y), x, y, span, 1);
      forall c | c in run
        ensures OnWall(x, y, gridWidth, gridHeight) && 0 <= x && x + span <= gridWidth ==> InGrid(c, gridWidth, gridHeight)
      {
        InRect(c, x, y, span, 1);
      }
    }
  }

  /** Validity of furniture, stated over cells: it is valid exactly when its
      whole footprint lies inside the grid. */
  lemma FurnitureValidIffInside(cat: Catalog, t: string, x: int, y: int, gridWidth: int, gridHeight: int)
    requires t in cat && !IsBoundary(cat, t)
    ensures IsPositionValid(cat, t, x, y, gridWidth, gridHeight) <==>
      InsideGrid(Occupies(cat, t, x, y), gridWidth, gridHeight)
  {
    var d := Dimensions(cat, t);
    InOccupies(cat, t, x, y, (x, y));
    InOccupies(cat, t, x, y, (x + d.0 - 1, y + d.1 - 1));
    forall c | c in Occupies(cat, t, x, y)
      ensures IsPositionValid(cat, t, x, y, gridWidth, gridHeight) ==> InGrid(c, gridWidth, gridHeight)
    {
      InOccupies(cat, t, x, y, c);
    }
  }

  /** Whether an object of type t at (x, y) would overlap an occupied cell. */
  predicate Collides(cat: Catalog, t: string, x: int, y: int, occupied: set<Cell>)
  {
    !(Occupies(cat, t, x, y) !! occupied)
  }

  /** The polygon (corner list) of an object anchored at (x, y): a single
      point for a boundary, the four corners of the footprint otherwise. */
  function Polygon(cat: Catalog, t: string, x: int, y: int): (poly: seq<Cell>)
    ensures IsBoundary(cat, t) ==> poly == [(x, y)]
    ensures !IsBoundary(cat, t) ==> |poly| == 4
  {
    if t !in cat then [(x, y), (x + 1, y), (x + 1, y + 1), (x, y + 1)]
    else if IsBoundary(cat, t) then [(x, y)]
    else
      var d := Dimensions(cat, t);
      [(x, y), (x + d.0, y), (x + d.0, y + d.1), (x, y + d.1)]
  }

  function Coord(c: Cell, axis: bool): int { if axis then c.1 else c.0 }

  /** Smallest coordinate along one axis (x when axis is false). */
  function Lo(poly: seq<Cell>, axis: bool): (m: int)
    requires |poly| > 0
    ensures forall i :: 0 <= i < |poly| ==> m <= Coord(poly[i], axis)
    ensures exists i :: 0 <= i < |poly| && m == Coord(poly[i], axis)
  {
    if |poly| == 1 then Coord(poly[0], axis)
    else
      var rest := Lo(poly[1..], axis);
      assert forall i :: 1 <= i < |poly| ==> poly[i] == poly[1..][i - 1];
      if Coord(poly[0], axis) <= rest then Coord(poly[0], axis) else rest
  }

  /** Largest coordinate along one axis. */
  function Hi(poly: seq<Cell>, axis: bool): (m: int)
    requires |poly| > 0
    ensures forall i :: 0 <= i < |poly| ==> Coord(poly[i], axis) <= m
    ensures exists i :: 0 <= i < |poly| && m == Coord(poly[i], axis)
  {
    if |poly| == 1 then Coord(poly[0], axis)
    else
      var rest := Hi(poly[1..], axis);
      assert forall i :: 1 <= i < |poly| ==> poly[i] == poly[1..][i - 1];
      if Coord(poly[0], axis) >= rest then Coord(poly[0], axis) else rest
  }

  /** Closed bounding-box intersection of two polygons. */
  predicate PolygonsIntersect(poly1: seq<Cell>, poly2: seq<Cell>)
    requires |poly1| > 0 && |poly2| > 0
  {
    !(Hi(poly1, false) < Lo(poly2, false) || Hi(poly2, false) < Lo(poly1, false) ||
      Hi(poly1, true) < Lo(poly2, true) || Hi(poly2, true) < Lo(poly1, true))
  }

  /** A point of the closed bounding box of a polygon. */
  predicate InBox(poly: seq<Cell>, px: int, py: int)
    requires |poly| > 0
  {
    Lo(poly, false) <= px <= Hi(poly, false) && Lo(poly, true) <= py <= Hi(poly, true)
  }

  /** The test is exactly "the closed boxes share a point", so it is
      symmetric and boxes that only touch along an edge or at a corner
      count as intersecting. */
  lemma IntersectIffCommonPoint(poly1: seq<Cell>, poly2: seq<Cell>)
    requires |poly1| > 0 && |poly2| > 0
    ensures PolygonsIntersect(poly1, poly2) <==> exists px, py :: InBox(poly1, px, py) && InBox(poly2, px, py)
    ensures PolygonsIntersect(poly1, poly2) == PolygonsIntersect(poly2, poly1)
  {
    if PolygonsIntersect(poly1, poly2) {
      var px := Max(Lo(poly1, false), Lo(poly2, false));
      var py := Max(Lo(poly1, true), Lo(poly2, true));
      assert InBox(poly1, px, py) && InBox(poly2, px, py);
    }
  }

  /** The box of a non-boundary polygon is its footprint's closed box. */
  lemma FurnitureBox(cat: Catalog, t: string, x: int, y: int)
    requires !IsBoundary(cat, t)
    ensures var poly := Polygon(cat, t, x, y); var d := Dimensions(cat, t);
      Lo(poly, false) == x && Hi(poly, false) == x + d.0 &&
      Lo(poly, true) == y && Hi(poly, true) == y + d.1
  {
    var poly := Polygon(cat, t, x, y);
    var d := Dimensions(cat, t);
    assert Coord(poly[0], false) == x && Coord(poly[1], false) == x + d.0;
    assert Coord(poly[0], true) == y && Coord(poly[2], true) == y + d.1;
  }

  /** Two pieces of furniture that share a cell have intersecting polygons. */
  lemma SharedCellIntersects(cat: Catalog, t1: string, x1: int, y1: int, t2: string, x2: int, y2: int, c: Cell)
    requires c in Occupies(cat, t1, x1, y1) && c in Occupies(cat, t2, x2, y2)
    ensures PolygonsIntersect(Polygon(cat, t1, x1, y1), Polygon(cat, t2, x2, y2))
  {
    InOccupies(cat, t1, x1, y1, c);
    InOccupies(cat, t2, x2, y2, c);
    FurnitureBox(cat, t1, x1, y1);
    FurnitureBox(cat, t2, x2, y2);
  }

  /** Furniture placed side by side, the second starting where the first
      ends, still counts as intersecting: the boxes are closed. */
  lemma SideBySideIntersects(cat: Catalog, t1: string, t2: string, x: int, y: int)
    requires !IsBoundary(cat, t1) && !IsBoundary(cat, t2)
    ensures PolygonsIntersect(Polygon(cat, t1, x, y), Polygon(cat, t2, x + Dimensions(cat, t1).0, y))
    ensures Occupies(cat, t1, x, y) !! Occupies(cat, t2, x + Dimensions(cat, t1).0, y)
  {
    var w := Dimensions(cat, t1).0;
    FurnitureBox(cat, t1, x, y);
    FurnitureBox(cat, t2, x + w, y);
    SideBySideDisjoint(cat, t1, t2, x, y);
  }

  lemma SideBySideDisjoint(cat: Catalog, t1: string, t2: string, x: int, y: int)
    ensures Occupies(cat, t1, x, y) !! Occupies(cat, t2, x + Dimensions(cat, t1).0, y)
  {
    var w := Dimensions(cat, t1).0;
    forall c | c in Occupies(cat, t1, x, y) ensures c !in Occupies(cat, t2, x + w, y) {
      InOccupies(cat, t1, x, y, c);
      InOccupies(cat, t2, x + w, y, c);
    }
  }

  /** The set of occupied cells, grown in place as objects are placed. */
  class Occupancy {
    var cells: set<Cell>

    constructor ()
      ensures cells == {}
    {
      cells := {};
    }
  }

  /** Scans the footprint cell by cell, column by column, and stops at the
      first occupied cell. */
  method CheckObjectCollision(cat: Catalog, t: string, x: int, y: int, occupied: set<Cell>) returns (hit: bool)
    ensures hit <==> Collides(cat, t, x, y, occupied)
    ensures IsBoundary(cat, t) ==> !hit
  {
    if IsBoundary(cat, t) {
      return false;
    }
    var d := Dimensions(cat, t);
    var w, h := d.0, d.1;
    for dx := 0 to w
      invariant forall i, j :: x <= i < x + dx && y <= j < y + h ==> (i, j) !in occupied
    {
      for dy := 0 to h
        invariant forall i, j :: x <= i < x + dx && y <= j < y + h ==> (i, j) !in occupied
        invariant forall i, j :: i == x + dx && y <= j < y + dy ==> (i, j) !in occupied
      {
        if (x + dx, y + dy) in occupied {
          InOccupies(cat, t, x, y, (x + dx, y + dy));
          return true;
        }
      }
    }
    forall c | c in Occupies(cat, t, x, y) ensures c !in occupied {
      InOccupies(cat, t, x, y, c);
    }
    return false;
  }

  /** Adds the cells the object blocks to the occupied set, in place. */
  method AddOccupiedPositions(cat: Catalog, t: string, x: int, y: int, occ: Occupancy)
    modifies occ
    ensures occ.cells == old(occ.cells) + Occupies(cat, t, x, y)
  {
    if t !in cat {
      UnknownOccupiesAnchor(cat, t, x, y);
      occ.cells := occ.cells + {(x, y)};
      return;
    }
    if IsBoundary(cat, t) {
      return;
    }
    var d := Dimensions(cat, t);
    var w, h := d.0, d.1;
    for dx := 0 to w
      invariant forall c :: c in occ.cells <==> c in old(occ.cells) || (x <= c.0 < x + dx && y <= c.1 < y + h)
    {
      for dy := 0 to h
        invariant forall c :: c in occ.cells <==>
          c in old(occ.cells) || (x <= c.0 < x + dx && y <= c.1 < y + h) || (c.0 == x + dx && y <= c.1 < y + dy)
      {
        occ.cells := occ.cells + {(x + dx, y + dy)};
      }
    }
    forall c ensures c in occ.cells <==> c in old(occ.cells) + Occupies(cat, t, x, y) {
      InOccupies(cat, t, x, y, c);
    }
  }

  /** After adding a piece of furniture, that same placement collides. */
  lemma PlacedFurnitureCollidesWithItself(cat: Catalog, t: string, x: int, y: int, occupied: set<Cell>)
    requires !IsBoundary(cat, t)
    ensures Collides(cat, t, x, y, occupied + Occupies(cat, t, x, y))
  {
    InOccupies(cat, t, x, y, (x, y));
  }
}
