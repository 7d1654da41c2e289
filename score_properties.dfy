/** Properties of the layout score: the clear-path count is twice the number
    of adjacent pairs of free cells, doors and windows leave it unchanged,
    the squared-distance test of the command position is the test on the
    Euclidean distance, and the zone counts of a layout add up to its size. */
module ScoreProperties {
  import opened Helpers
  import opened Layout
  import opened Bagua
  import opened Optimizer

  // ------------------------------------------------------------ pair counts

  /** 1 when (x, y) and (x + dx, y + dy) are both free. */
  function Link(o: FengShuiOptimizer, ps: seq<Placement>, x: int, y: int, dx: int, dy: int): nat
  {
    B(o.Free(ps, x, y) && o.Free(ps, x + dx, y + dy))
  }

  /** Link summed over the first n cells of row y. */
  function RowLinks(o: FengShuiOptimizer, ps: seq<Placement>, y: int, n: int, dx: int, dy: int): nat
    decreases n
  {
    if n <= 0 then 0 else RowLinks(o, ps, y, n - 1, dx, dy) + Link(o, ps, n - 1, y, dx, dy)
  }

  /** RowLinks summed over the first m rows. */
  function GridLinks(o: FengShuiOptimizer, ps: seq<Placement>, m: int, dx: int, dy: int): nat
    decreases m
  {
    if m <= 0 then 0 else GridLinks(o, ps, m - 1, dx, dy) + RowLinks(o, ps, m - 1, o.gridWidth, dx, dy)
  }

  /** Unordered pairs of free cells side by side, each counted at its left
      cell. */
  function HorizontalPairs(o: FengShuiOptimizer, ps: seq<Placement>): nat
  {
    GridLinks(o, ps, o.gridHeight, 1, 0)
  }

  /** Unordered pairs of free cells one above the other, each counted at its
      upper cell. */
  function VerticalPairs(o: FengShuiOptimizer, ps: seq<Placement>): nat
  {
    GridLinks(o, ps, o.gridHeight, 0, 1)
  }

  lemma {:induction false} RowPathsSplit(o: FengShuiOptimizer, ps: seq<Placement>, y: int, n: int)
    ensures o.RowPaths(ps, y, n) ==
      RowLinks(o, ps, y, n, -1, 0) + RowLinks(o, ps, y, n, 1, 0) + RowLinks(o, ps, y, n, 0, -1) + RowLinks(o, ps, y, n, 0, 1)
    decreases n
  {
    if n > 0 {
      RowPathsSplit(o, ps, y, n - 1);
    }
  }

  lemma {:induction false} GridPathsSplit(o: FengShuiOptimizer, ps: seq<Placement>, m: int)
    ensures o.GridPaths(ps, m) ==
      GridLinks(o, ps, m, -1, 0) + GridLinks(o, ps, m, 1, 0) + GridLinks(o, ps, m, 0, -1) + GridLinks(o, ps, m, 0, 1)
    decreases m
  {
    if m > 0 {
      GridPathsSplit(o, ps, m - 1);
      RowPathsSplit(o, ps, m - 1, o.gridWidth);
    }
  }

  /** Looking left from the first n cells of a row finds the same pairs as
      looking right from the first n - 1. */
  lemma {:induction false} WestIsEastShifted(o: FengShuiOptimizer, ps: seq<Placement>, y: int, n: int)
    ensures RowLinks(o, ps, y, n, -1, 0) == RowLinks(o, ps, y, n - 1, 1, 0)
    decreases n
  {
    if n == 1 {
      assert !o.Free(ps, -1, y);
    } else if n > 1 {
      WestIsEastShifted(o, ps, y, n - 1);
      assert Link(o, ps, n - 1, y, -1, 0) == Link(o, ps, n - 2, y, 1, 0);
    }
  }

  /** The last cell of a row has no free right neighbour. */
  lemma EastEndsInside(o: FengShuiOptimizer, ps: seq<Placement>, y: int)
    ensures RowLinks(o, ps, y, o.gridWidth, 1, 0) == RowLinks(o, ps, y, o.gridWidth - 1, 1, 0)
  {
    if o.gridWidth > 0 {
      assert !o.Free(ps, o.gridWidth, y);
    }
  }

  /** Looking up from row y finds the same pairs as looking down from row
      y - 1. */
  lemma {:induction false} NorthIsSouthShifted(o: FengShuiOptimizer, ps: seq<Placement>, y: int, n: int)
    ensures RowLinks(o, ps, y, n, 0, -1) == RowLinks(o, ps, y - 1, n, 0, 1)
    decreases n
  {
    if n > 0 {
      NorthIsSouthShifted(o, ps, y, n - 1);
      assert Link(o, ps, n - 1, y, 0, -1) == Link(o, ps, n - 1, y - 1, 0, 1);
    }
  }

  /** A row whose neighbouring row (at offset dy) lies outside the grid
      has no vertical links. */
  lemma {:induction false} NoLinksAcrossEdge(o: FengShuiOptimizer, ps: seq<Placement>, y: int, n: int, dy: int)
    requires y + dy < 0 || y + dy >= o.gridHeight
    ensures RowLinks(o, ps, y, n, 0, dy) == 0
    decreases n
  {
    if n > 0 {
      NoLinksAcrossEdge(o, ps, y, n - 1, dy);
      assert !o.Free(ps, n - 1, y + dy);
    }
  }

  lemma {:induction false} NorthIsSouthInGrid(o: FengShuiOptimizer, ps: seq<Placement>, m: int)
    ensures GridLinks(o, ps, m, 0, -1) == GridLinks(o, ps, m - 1, 0, 1)
    decreases m
  {
    if m == 1 {
      NoLinksAcrossEdge(o, ps, 0, o.gridWidth, -1);
    } else if m > 1 {
      NorthIsSouthInGrid(o, ps, m - 1);
      NorthIsSouthShifted(o, ps, m - 1, o.gridWidth);
    }
  }

  lemma {:induction false} WestIsEastInGrid(o: FengShuiOptimizer, ps: seq<Placement>, m: int)
    ensures GridLinks(o, ps, m, -1, 0) == GridLinks(o, ps, m, 1, 0)
    decreases m
  {
    if m > 0 {
      WestIsEastInGrid(o, ps, m - 1);
      WestIsEastShifted(o, ps, m - 1, o.gridWidth);
      EastEndsInside(o, ps, m - 1);
    }
  }

  /** Every free-to-free adjacency is seen once from each end, so the
      clear-path count is twice the number of adjacent pairs of free cells,
      and in particular even. */
  lemma ClearPathsCountsPairsTwice(o: FengShuiOptimizer, ps: seq<Placement>)
    ensures o.ClearPaths(ps) == 2 * (HorizontalPairs(o, ps) + VerticalPairs(o, ps))
    ensures o.ClearPaths(ps) % 2 == 0
  {
    GridPathsSplit(o, ps, o.gridHeight);
    WestIsEastInGrid(o, ps, o.gridHeight);
    NorthIsSouthInGrid(o, ps, o.gridHeight);
    if o.gridHeight > 0 {
      NoLinksAcrossEdge(o, ps, o.gridHeight - 1, o.gridWidth, 1);
    }
  }

  // ------------------------------------------------- doors and windows

  lemma {:induction false} SameFreeSameRow(o: FengShuiOptimizer, ps: seq<Placement>, qs: seq<Placement>, y: int, n: int)
    requires forall x, y' :: o.Free(ps, x, y') == o.Free(qs, x, y')
    ensures o.RowPaths(ps, y, n) == o.RowPaths(qs, y, n)
    decreases n
  {
    if n > 0 {
      SameFreeSameRow(o, ps, qs, y, n - 1);
    }
  }

  lemma {:induction false} SameFreeSameGrid(o: FengShuiOptimizer, ps: seq<Placement>, qs: seq<Placement>, m: int)
    requires forall x, y :: o.Free(ps, x, y) == o.Free(qs, x, y)
    ensures o.GridPaths(ps, m) == o.GridPaths(qs, m)
    decreases m
  {
    if m > 0 {
      SameFreeSameGrid(o, ps, qs, m - 1);
      SameFreeSameRow(o, ps, qs, m - 1, o.gridWidth);
    }
  }

  /** Adding a door or a window to a layout leaves its clear paths as they
      were: boundaries do not block chi. */
  lemma BoundariesDoNotBlockChi(o: FengShuiOptimizer, ps: seq<Placement>, p: Placement)
    requires p.objType == "door" || p.objType == "window"
    ensures o.ClearPaths(ps + [p]) == o.ClearPaths(ps)
  {
    forall x, y ensures o.Free(ps + [p], x, y) == o.Free(ps, x, y) {
      assert (ps + [p])[..|ps|] == ps;
    }
    SameFreeSameGrid(o, ps + [p], ps, o.gridHeight);
  }

  /** A piece of furniture inside the grid takes away the clear paths of its
      own cells: the cell under its anchor is no longer free. */
  lemma FurnitureBlocksItsAnchor(o: FengShuiOptimizer, ps: seq<Placement>, p: Placement)
    requires p.objType != "door" && p.objType != "window"
    ensures !o.Free(ps + [p], p.x, p.y)
  {
    assert (ps + [p])[..|ps|] == ps;
    assert o.Blocks(p, p.x, p.y);
  }

  // ----------------------------------------------------- command position

  lemma SquareLess(a: real, b: real)
    requires a >= 0.0 && b >= 0.0
    ensures a < b <==> a * a < b * b
  {
    var aa, ab, bb := a * a, a * b, b * b;
    if a < b {
      assert aa <= ab;
      assert ab < bb;
    } else {
      assert bb <= ab;
      assert ab <= aa;
    }
  }

  /** The squared comparison is the command-position test on the Euclidean distance
      d: more than 2 and less than half the grid width, rounded down. */
  lemma FacesDoorIsDistanceTest(o: FengShuiOptimizer, objX: int, objY: int, doorX: int, doorY: int, d: real)
    requires d >= 0.0
    requires d * d == ((objX - doorX) * (objX - doorX) + (objY - doorY) * (objY - doorY)) as real
    ensures o.FacesDoor(objX, objY, doorX, doorY) <==> 2.0 < d && d < (o.gridWidth / 2) as real
  {
    var k := o.gridWidth / 2;
    SquareLess(2.0, d);
    if k > 0 {
      SquareLess(d, k as real);
      assert (k * k) as real == (k as real) * (k as real);
    }
  }

  // ---------------------------------------------------------- zone counts

  /** ZoneCount summed over zones. */
  function SumCounts(o: FengShuiOptimizer, ps: seq<Placement>, zones: seq<Zone>): nat
  {
    if |zones| == 0 then 0
    else SumCounts(o, ps, zones[..|zones| - 1]) + o.ZoneCount(ps, zones[|zones| - 1])
  }

  lemma {:induction false} SumCountsStep(o: FengShuiOptimizer, ps: seq<Placement>, p: Placement, zones: seq<Zone>)
    ensures SumCounts(o, ps + [p], zones) == SumCounts(o, ps, zones) + multiset(zones)[o.GetBaguaZone(p.x, p.y)]
    decreases |zones|
  {
    if |zones| > 0 {
      var front, z := zones[..|zones| - 1], zones[|zones| - 1];
      var zp := o.GetBaguaZone(p.x, p.y);
      SumCountsStep(o, ps, p, front);
      assert o.ZoneCount(ps + [p], z) == o.ZoneCount(ps, z) + B(zp == z) by {
        assert (ps + [p])[..|ps|] == ps;
      }
      assert multiset(zones)[zp] == multiset(front)[zp] + B(zp == z) by {
        assert zones == front + [z];
      }
    }
  }

  lemma EachZoneOnce(z: Zone)
    ensures multiset(AllZones)[z] == 1
  {
    match z
    case Career =>
    case Knowledge =>
    case Family =>
    case Wealth =>
    case Fame =>
    case Relationships =>
    case Children =>
    case HelpfulPeople =>
    case Health =>
  }

  /** Every anchor lies in exactly one zone, so the counts over the nine
      zones add up to the number of placements. */
  lemma ZoneCountsPartition(o: FengShuiOptimizer, ps: seq<Placement>)
    ensures SumCounts(o, ps, AllZones) == |ps|
  {
    forall z: Zone ensures multiset(AllZones)[z] == 1 {
      EachZoneOnce(z);
    }
    CountsOverEachZoneOnce(o, ps, AllZones);
  }

  /** The same for any list of zones that names each zone exactly once. */
  lemma {:induction false} CountsOverEachZoneOnce(o: FengShuiOptimizer, ps: seq<Placement>, zones: seq<Zone>)
    requires forall z: Zone :: multiset(zones)[z] == 1
    ensures SumCounts(o, ps, zones) == |ps|
    decreases |ps|
  {
    if |ps| == 0 {
      ZeroCounts(o, ps, zones);
    } else {
      var init, p := ps[..|ps| - 1], ps[|ps| - 1];
      CountsOverEachZoneOnce(o, init, zones);
      SumCountsStep(o, init, p, zones);
      assert init + [p] == ps;
    }
  }

  lemma {:induction false} ZeroCounts(o: FengShuiOptimizer, ps: seq<Placement>, zones: seq<Zone>)
    requires |ps| == 0
    ensures SumCounts(o, ps, zones) == 0
    decreases |zones|
  {
    if |zones| > 0 {
      ZeroCounts(o, ps, zones[..|zones| - 1]);
    }
  }

  /** What the analysis reports: per zone, the count of anchors in it, the
      counts adding up to the size of the layout. */
  method AnalyseZones(o: FengShuiOptimizer, ps: seq<Placement>) returns (counts: map<Zone, nat>)
    ensures forall z :: z in counts <==> o.ZoneCount(ps, z) > 0
    ensures forall z :: z in counts ==> counts[z] == o.ZoneCount(ps, z)
    ensures SumCounts(o, ps, AllZones) == |ps|
  {
    counts := o.ZoneCounts(ps);
    ZoneCountsPartition(o, ps);
  }

  // -------------------------------------------------------------- mutation

  /** A placement that starts inside the clamping range moves by at most
      the drawn offset on each axis. */
  lemma MutationMovesAtMostOffset(o: FengShuiOptimizer, p: Placement, dx: int, dy: int)
    requires var d := Dimensions(o.catalog, p.objType);
      0 <= p.x <= o.gridWidth - d.0 && 0 <= p.y <= o.gridHeight - d.1
    ensures var r := o.MutatePlacement(p, dx, dy);
      Abs(r.x - p.x) <= Abs(dx) && Abs(r.y - p.y) <= Abs(dy)
  {
  }

  function Abs(n: int): nat { if n < 0 then -n else n }
}
