/** The bagua map: the grid divided into three bands across and three bands
    down (the last band takes the remainder), each of the nine regions
    labelled with a zone. */
module Bagua {
  import opened Helpers

  datatype Zone =
    | Career | Knowledge | Family | Wealth | Fame
    | Relationships | Children | HelpfulPeople | Health

  /** The nine zones, in the order the default weight table lists them. */
  const AllZones: seq<Zone> :=
    [Career, Knowledge, Family, Wealth, Fame, Relationships, Children, HelpfulPeople, Health]

  /** Row by row, top to bottom. */
  const ZoneGrid: seq<seq<Zone>> := [
    [Career, Knowledge, Family],
    [HelpfulPeople, Health, Wealth],
    [Children, Relationships, Fame]
  ]

  function Min(a: int, b: int): int { if a < b then a else b }

  /** Band index of coordinate v on an axis of n cells: min(v // (n // 3), 2). */
  function Band(v: int, n: int): (b: int)
    requires n >= 3 && v >= 0
    ensures 0 <= b <= 2
  {
    Min(v / (n / 3), 2)
  }

  /** The bands are [0, n/3), [n/3, 2(n/3)) and [2(n/3), n): the last one
      absorbs the remainder of the division by three. */
  lemma BandThirds(v: int, n: int)
    requires n >= 3 && 0 <= v < n
    ensures Band(v, n) == 0 <==> v < n / 3
    ensures Band(v, n) == 1 <==> n / 3 <= v < 2 * (n / 3)
    ensures Band(v, n) == 2 <==> 2 * (n / 3) <= v
  {
    var z := n / 3;
    var q := v / z;
    assert v == z * q + v % z && 0 <= v % z < z;
    if q == 0 {
      assert v < z;
    } else if q == 1 {
      assert z <= v < 2 * z;
    } else {
      assert q >= 2;
      assert z * q >= z * 2;
    }
  }

  /** The zone of an in-grid cell of a gridWidth x gridHeight room. */
  function ZoneAt(gridWidth: int, gridHeight: int, x: int, y: int): Zone
    requires gridWidth >= 3 && gridHeight >= 3 && x >= 0 && y >= 0
  {
    ZoneGrid[Band(y, gridHeight)][Band(x, gridWidth)]
  }

  /** Building the map divides by zero: the grid has cells but a third of
      its width or height rounds down to zero. */
  predicate MapConstructionFails(gridWidth: int, gridHeight: int)
  {
    gridWidth >= 1 && gridHeight >= 1 && (gridWidth < 3 || gridHeight < 3)
  }

  /** m holds exactly the in-grid cells, each with its zone. */
  ghost predicate IsBaguaMap(m: map<Cell, Zone>, gridWidth: int, gridHeight: int)
  {
    (forall c :: c in m <==> InGrid(c, gridWidth, gridHeight)) &&
    (forall c :: c in m ==>
       gridWidth >= 3 && gridHeight >= 3 && InGrid(c, gridWidth, gridHeight) &&
       m[c] == ZoneAt(gridWidth, gridHeight, c.0, c.1))
  }

  /** Fills the map row by row; None stands for the division by zero the
      planner meets on a grid with cells that is narrower or shorter than
      three cells. */
  method CreateBaguaMap(gridWidth: int, gridHeight: int) returns (r: Option<map<Cell, Zone>>)
    ensures r.None? <==> MapConstructionFails(gridWidth, gridHeight)
    ensures r.Some? ==> IsBaguaMap(r.value, gridWidth, gridHeight)
  {
    var baguaMap: map<Cell, Zone> := map[];
    var zoneWidth := gridWidth / 3;
    var zoneHeight := gridHeight / 3;
    var rows, cols := Max(0, gridHeight), Max(0, gridWidth);
    for y := 0 to rows
      invariant forall c :: c in baguaMap <==> 0 <= c.0 < gridWidth && 0 <= c.1 < y
      invariant forall c :: c in baguaMap ==>
        gridWidth >= 3 && gridHeight >= 3 && InGrid(c, gridWidth, gridHeight) &&
        baguaMap[c] == ZoneAt(gridWidth, gridHeight, c.0, c.1)
      invariant y > 0 && cols > 0 ==> gridWidth >= 3 && gridHeight >= 3
    {
      for x := 0 to cols
        invariant forall c :: c in baguaMap <==> (0 <= c.0 < gridWidth && 0 <= c.1 < y) || (c.1 == y && 0 <= c.0 < x)
        invariant forall c :: c in baguaMap ==>
          gridWidth >= 3 && gridHeight >= 3 && InGrid(c, gridWidth, gridHeight) &&
          baguaMap[c] == ZoneAt(gridWidth, gridHeight, c.0, c.1)
        invariant (y > 0 || x > 0) && cols > 0 ==> gridWidth >= 3 && gridHeight >= 3
      {
        if zoneWidth == 0 || zoneHeight == 0 {
          return None;
        }
        var zoneX := Min(x / zoneWidth, 2);
        var zoneY := Min(y / zoneHeight, 2);
        baguaMap := baguaMap[(x, y) := ZoneGrid[zoneY][zoneX]];
      }
    }
    return Some(baguaMap);
  }

  /** On a grid of at least 3 x 3 cells every one of the nine zones labels
      some cell. */
  lemma EveryZoneLabelsACell(gridWidth: int, gridHeight: int, z: Zone)
    requires gridWidth >= 3 && gridHeight >= 3
    ensures exists x, y :: 0 <= x < gridWidth && 0 <= y < gridHeight && ZoneAt(gridWidth, gridHeight, x, y) == z
  {
    var zw, zh := gridWidth / 3, gridHeight / 3;
    var xs := [0, zw, 2 * zw];
    var ys := [0, zh, 2 * zh];
    forall b | 0 <= b < 3
      ensures 0 <= xs[b] < gridWidth && Band(xs[b], gridWidth) == b
      ensures 0 <= ys[b] < gridHeight && Band(ys[b], gridHeight) == b
    {
      BandThirds(xs[b], gridWidth);
      BandThirds(ys[b], gridHeight);
    }
    var (row, col) := GridPosition(z);
    assert ZoneAt(gridWidth, gridHeight, xs[col], ys[row]) == z;
  }

  /** Where a zone sits in the 3 x 3 grid: (band down, band across). */
  function GridPosition(z: Zone): (rc: (int, int))
    ensures 0 <= rc.0 < 3 && 0 <= rc.1 < 3 && ZoneGrid[rc.0][rc.1] == z
  {
    match z
    case Career => (0, 0)
    case Knowledge => (0, 1)
    case Family => (0, 2)
    case HelpfulPeople => (1, 0)
    case Health => (1, 1)
    case Wealth => (1, 2)
    case Children => (2, 0)
    case Relationships => (2, 1)
    case Fame => (2, 2)
  }
}
