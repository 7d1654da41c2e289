/** The feng shui optimizer: a layout score built from bagua zones, the
    command position and chi flow, a seeded initial layout, and a
    hill-climbing search with simulated-annealing acceptance. */
module Optimizer {
  import opened Helpers
  import opened Layout
  import opened Bagua
  import opened PlacementOrder

  /** Per-type preferences. A missing list stands for the empty list, a
      missing command flag for false and a missing weight for 1. */
  datatype Preferences = Preferences(
    preferredZones: seq<Zone>,
    avoidZones: seq<Zone>,
    commandPosition: bool,
    weight: int)

  datatype Config = Config(
    baguaWeights: map<Zone, int>,
    furniturePreferences: map<string, Preferences>,
    chiPathWeight: int,
    clutterPenalty: int,
    commandPositionWeight: int,
    maxIterations: int,
    maxNoImprovement: int)

  /** The configuration used when none (or an empty one) is given. */
  const DefaultConfig: Config := Config(
    map[Career := 8, Knowledge := 7, Family := 6, Wealth := 9, Fame := 5,
        Relationships := 8, Children := 6, HelpfulPeople := 7, Health := 8],
    map[
      "bed" := Preferences([Health, Relationships, Family], [Career, Fame], true, 10),
      "desk" := Preferences([Career, Knowledge, Wealth], [Health, Relationships], true, 8),
      "door" := Preferences([Career, HelpfulPeople], [Health], false, 6),
      "window" := Preferences([Knowledge, Wealth], [Health], false, 5)
    ],
    7, 8, 9, 1000, 100)

  /** The lookups the scoring makes without a default: a weight for every
      zone, and preferences for beds and desks. */
  predicate WellFormed(config: Config)
  {
    (forall z: Zone :: z in config.baguaWeights) &&
    "bed" in config.furniturePreferences && "desk" in config.furniturePreferences
  }

  /** The random choices the optimizer makes, indexed by where they are made:
      seedDraw(i, j, k) is the k-th candidate cell of the j-th attempt for
      the i-th object in placement order; mutates(t, i) and offset(t, i)
      decide whether and by how much placement i moves in iteration t; and
      accepts(t, c, delta) decides whether a neighbour that is worse by
      -delta is taken in iteration t after c coolings of the temperature. */
  datatype Rng = Rng(
    seedDraw: (nat, nat, nat) -> Cell,
    mutates: (nat, nat) -> bool,
    offset: (nat, nat) -> (int, int),
    accepts: (nat, nat, int) -> bool)

  const RandomPlacementAttempts: nat := 100
  const SeedAttempts: nat := 500

  function B(b: bool): nat { if b then 1 else 0 }

  /** The first of a, a + 1, ... below limit at which ok holds. */
  function FirstOk(ok: nat -> bool, a: nat, limit: nat): (r: Option<nat>)
    decreases limit - a
    ensures r.Some? ==> a <= r.value < limit && ok(r.value) && forall b :: a <= b < r.value ==> !ok(b)
    ensures r.None? ==> forall b :: a <= b < limit ==> !ok(b)
  {
    if a >= limit then None
    else if ok(a) then Some(a)
    else FirstOk(ok, a + 1, limit)
  }

  /** The first placement of a door, if any. */
  function FirstDoor(ps: seq<Placement>): (r: Option<Placement>)
    ensures r.None? <==> forall i :: 0 <= i < |ps| ==> ps[i].objType != "door"
    ensures r.Some? ==>
      r.value.objType == "door" &&
      exists i :: 0 <= i < |ps| && ps[i] == r.value && forall j :: 0 <= j < i ==> ps[j].objType != "door"
  {
    if |ps| == 0 then None
    else if ps[0].objType == "door" then Some(ps[0])
    else
      var r := FirstDoor(ps[1..]);
      assert r.None? ==> forall i :: 0 <= i < |ps| ==> ps[i].objType != "door" by {
        if r.None? {
          forall i | 0 <= i < |ps| ensures ps[i].objType != "door" {
            if i > 0 { assert ps[i] == ps[1..][i - 1]; }
          }
        }
      }
      assert r.Some? ==> exists i :: 0 <= i < |ps| && ps[i] == r.value && forall j :: 0 <= j < i ==> ps[j].objType != "door" by {
        if r.Some? {
          var i :| 0 <= i < |ps[1..]| && ps[1..][i] == r.value && forall j :: 0 <= j < i ==> ps[1..][j].objType != "door";
          assert ps[i + 1] == r.value;
          forall j | 0 <= j < i + 1 ensures ps[j].objType != "door" {
            if j > 0 { assert ps[j] == ps[1..][j - 1]; }
          }
        }
      }
      r
  }

  /** Placements whose types never appear in present, moved to the origin,
      in the order of objects. */
  function Missing(objects: seq<string>, present: seq<string>): (r: seq<Placement>)
    ensures forall k :: 0 <= k < |r| ==>
      r[k].objType in objects && r[k].objType !in present && r[k].x == 0 && r[k].y == 0
    ensures (forall k :: 0 <= k < |objects| ==> objects[k] in present) ==> r == []
  {
    if |objects| == 0 then []
    else
      var t := objects[|objects| - 1];
      var init := Missing(objects[..|objects| - 1], present);
      assert forall k :: 0 <= k < |init| ==> init[k].objType in objects by {
        forall k | 0 <= k < |init| ensures init[k].objType in objects {
          var m :| 0 <= m < |objects| - 1 && objects[..|objects| - 1][m] == init[k].objType;
          assert objects[m] == init[k].objType;
        }
      }
      init + (if t in present then [] else [Placement(t, 0, 0)])
  }

  /** Every request whose type is absent gets its origin placement. */
  lemma {:induction false} MissingCovers(objects: seq<string>, present: seq<string>)
    ensures var r := Missing(objects, present);
      forall k :: 0 <= k < |objects| && objects[k] !in present ==> Placement(objects[k], 0, 0) in r
  {
    if |objects| > 0 {
      var n := |objects| - 1;
      MissingCovers(objects[..n], present);
      assert forall k :: 0 <= k < n ==> objects[k] == objects[..n][k];
    }
  }

  /** The requested types absent from present, one per request, in request
      order. */
  function Absent(objects: seq<string>, present: seq<string>): seq<string>
  {
    if |objects| == 0 then []
    else
      var t := objects[|objects| - 1];
      Absent(objects[..|objects| - 1], present) + (if t in present then [] else [t])
  }

  lemma {:induction false} MissingTypes(objects: seq<string>, present: seq<string>)
    ensures Types(Missing(objects, present)) == Absent(objects, present)
  {
    if |objects| > 0 {
      var n := |objects| - 1;
      MissingTypes(objects[..n], present);
      if objects[n] !in present {
        TypesSnoc(Missing(objects[..n], present), Placement(objects[n], 0, 0));
      }
    }
  }

  lemma {:induction false} AbsentCount(objects: seq<string>, present: seq<string>, u: string)
    ensures multiset(Absent(objects, present))[u] == if u in present then 0 else multiset(objects)[u]
  {
    if |objects| > 0 {
      var n := |objects| - 1;
      var front, t := objects[..n], objects[n];
      AbsentCount(front, present, u);
      var extra: multiset<string> := if t in present then multiset{} else multiset{t};
      assert multiset(Absent(objects, present)) == multiset(Absent(front, present)) + extra;
      assert multiset(objects) == multiset(front) + multiset{t} by {
        assert objects == front + [t];
      }
    }
  }

  /** One placement per request: a type requested twice and absent is
      appended twice, and a present type not at all. */
  lemma MissingCount(objects: seq<string>, present: seq<string>, u: string)
    ensures multiset(Types(Missing(objects, present)))[u] == if u in present then 0 else multiset(objects)[u]
  {
    MissingTypes(objects, present);
    AbsentCount(objects, present, u);
  }

  /** The variables of the search loop: the current layout and its score,
      the best layout seen and its score, how many times the temperature
      has been cooled, the iterations since the last new best, and whether
      the early-stopping test has fired. */
  datatype ClimbState = ClimbState(
    current: seq<Placement>,
    currentScore: int,
    best: seq<Placement>,
    bestScore: int,
    cooled: nat,
    noImprovement: nat,
    stopped: bool)

  datatype FengShuiOptimizer = FengShuiOptimizer(
    gridWidth: int,
    gridHeight: int,
    config: Config,
    catalog: Catalog,
    baguaMap: map<Cell, Zone>)
  {
    /** The configuration can be scored and the map is the bagua map of the
        grid. */
    ghost predicate Valid()
    {
      WellFormed(config) && IsBaguaMap(baguaMap, gridWidth, gridHeight)
    }

    // ---------------------------------------------------------------- zones

    /** Cells outside the map count as the centre zone. */
    function GetBaguaZone(x: int, y: int): Zone
    {
      if (x, y) in baguaMap then baguaMap[(x, y)] else Health
    }

    lemma ZoneLookup(x: int, y: int)
      requires Valid()
      ensures InGrid((x, y), gridWidth, gridHeight) ==>
        gridWidth >= 3 && gridHeight >= 3 && GetBaguaZone(x, y) == ZoneAt(gridWidth, gridHeight, x, y)
      ensures !InGrid((x, y), gridWidth, gridHeight) ==> GetBaguaZone(x, y) == Health
    {
      if InGrid((x, y), gridWidth, gridHeight) {
        assert (x, y) in baguaMap;
      }
    }

    // --------------------------------------------------------- bagua score

    /** The zone weight when the placement's zone is preferred for its type,
        minus it when avoided (and not preferred), otherwise 0. */
    function BaguaScore(p: Placement): int
      requires WellFormed(config)
    {
      if p.objType !in config.furniturePreferences then 0
      else
        var prefs := config.furniturePreferences[p.objType];
        var zone := GetBaguaZone(p.x, p.y);
        if zone in prefs.preferredZones then config.baguaWeights[zone]
        else if zone in prefs.avoidZones then -config.baguaWeights[zone]
        else 0
    }

    /** With positive zone weights, a placement scores above zero exactly in
        a preferred zone of its type, and below zero exactly in an avoided
        zone that is not also preferred. */
    lemma BaguaScoreSign(p: Placement)
      requires WellFormed(config)
      requires forall z: Zone :: config.baguaWeights[z] > 0
      ensures BaguaScore(p) > 0 <==>
        p.objType in config.furniturePreferences &&
        GetBaguaZone(p.x, p.y) in config.furniturePreferences[p.objType].preferredZones
      ensures BaguaScore(p) < 0 <==>
        p.objType in config.furniturePreferences &&
        GetBaguaZone(p.x, p.y) !in config.furniturePreferences[p.objType].preferredZones &&
        GetBaguaZone(p.x, p.y) in config.furniturePreferences[p.objType].avoidZones
    {
      var zone := GetBaguaZone(p.x, p.y);
      assert config.baguaWeights[zone] > 0;
    }

    /** The multiplier of a type's bagua score. */
    function Weight(t: string): int
    {
      if t in config.furniturePreferences then config.furniturePreferences[t].weight else 1
    }

    function BaguaTotal(ps: seq<Placement>): int
      requires WellFormed(config)
    {
      if |ps| == 0 then 0
      else
        var p := ps[|ps| - 1];
        BaguaTotal(ps[..|ps| - 1]) + BaguaScore(p) * Weight(p.objType)
    }

    // ---------------------------------------------------- command position

    /** More than two cells from the door and closer than half the grid
        width (rounded down); distances are compared squared. */
    predicate FacesDoor(objX: int, objY: int, doorX: int, doorY: int)
    {
      var d2 := (objX - doorX) * (objX - doorX) + (objY - doorY) * (objY - doorY);
      var limit := gridWidth / 2;
      d2 > 4 && limit > 0 && d2 < limit * limit
    }

    /** Beds and desks whose preferences ask for the command position. */
    predicate WantsCommand(p: Placement)
      requires WellFormed(config)
    {
      (p.objType == "bed" || p.objType == "desk") &&
      config.furniturePreferences[p.objType].commandPosition
    }

    /** How many placements want the command position and face the door. */
    function CommandHits(ps: seq<Placement>, door: Placement): (n: nat)
      requires WellFormed(config)
      ensures n <= |ps|
      ensures (forall i :: 0 <= i < |ps| ==> ps[i].objType != "bed" && ps[i].objType != "desk") ==> n == 0
    {
      if |ps| == 0 then 0
      else
        var p := ps[|ps| - 1];
        CommandHits(ps[..|ps| - 1], door) + B(WantsCommand(p) && FacesDoor(p.x, p.y, door.x, door.y))
    }

    /** The command weight for each placement that wants the command
        position and faces the door. */
    function CommandPoints(ps: seq<Placement>, door: Placement): int
      requires WellFormed(config)
    {
      if |ps| == 0 then 0
      else
        var p := ps[|ps| - 1];
        CommandPoints(ps[..|ps| - 1], door) +
          (if WantsCommand(p) && FacesDoor(p.x, p.y, door.x, door.y) then config.commandPositionWeight else 0)
    }

    lemma {:induction false} CommandPointsCountsHits(ps: seq<Placement>, door: Placement)
      requires WellFormed(config)
      ensures CommandPoints(ps, door) == config.commandPositionWeight * CommandHits(ps, door)
    {
      if |ps| > 0 {
        var init, p := ps[..|ps| - 1], ps[|ps| - 1];
        CommandPointsCountsHits(init, door);
        var w, h := config.commandPositionWeight, CommandHits(init, door);
        if WantsCommand(p) && FacesDoor(p.x, p.y, door.x, door.y) {
          assert CommandHits(ps, door) == h + 1;
          assert w * (h + 1) == w * h + w;
        } else {
          assert CommandHits(ps, door) == h;
        }
      }
    }

    /** Scored against the first door only; 0 when there is no door. */
    function CommandScore(ps: seq<Placement>): int
      requires WellFormed(config)
    {
      match FirstDoor(ps)
      case None => 0
      case Some(door) => CommandPoints(ps, door)
    }

    /** With a non-negative weight the command score lies between 0 and the
        weight times the number of placements. */
    lemma CommandScoreRange(ps: seq<Placement>)
      requires WellFormed(config)
      ensures FirstDoor(ps).None? ==> CommandScore(ps) == 0
      ensures FirstDoor(ps).Some? ==>
        CommandScore(ps) == config.commandPositionWeight * CommandHits(ps, FirstDoor(ps).value)
      ensures config.commandPositionWeight >= 0 ==> 0 <= CommandScore(ps) <= config.commandPositionWeight * |ps|
    {
      if FirstDoor(ps).Some? {
        var door := FirstDoor(ps).value;
        CommandPointsCountsHits(ps, door);
        if config.commandPositionWeight >= 0 {
          MulMonotone(config.commandPositionWeight, 0, CommandHits(ps, door));
          MulMonotone(config.commandPositionWeight, CommandHits(ps, door), |ps|);
        }
      }
    }

    /** Finds the first door, then adds the command weight for every bed or
        desk that wants the command position and faces it. */
    method CalculateCommandPositionScore(ps: seq<Placement>) returns (score: int)
      requires WellFormed(config)
      ensures score == CommandScore(ps)
    {
      score := 0;
      var door: Option<Placement> := None;
      for i := 0 to |ps|
        invariant door.None?
        invariant forall j :: 0 <= j < i ==> ps[j].objType != "door"
      {
        if ps[i].objType == "door" {
          door := Some(ps[i]);
          break;
        }
      }
      if door.None? {
        return 0;
      }
      assert door == FirstDoor(ps);
      var d := door.value;
      for i := 0 to |ps|
        invariant score == CommandPoints(ps[..i], d)
      {
        assert ps[..i + 1][..i] == ps[..i];
        var objType := ps[i].objType;
        if objType == "bed" || objType == "desk" {
          var prefs := config.furniturePreferences[objType];
          if prefs.commandPosition && FacesDoor(ps[i].x, ps[i].y, d.x, d.y) {
            score := score + config.commandPositionWeight;
          }
        }
      }
      assert ps[..|ps|] == ps;
    }

    // ------------------------------------------------------------ chi flow

    /** Placement p blocks chi at (x, y): doors and windows never do. */
    predicate Blocks(p: Placement, x: int, y: int)
    {
      p.objType != "door" && p.objType != "window" &&
      var d := Dimensions(catalog, p.objType);
      p.x <= x < p.x + d.0 && p.y <= y < p.y + d.1
    }

    predicate Marked(ps: seq<Placement>, x: int, y: int)
    {
      |ps| > 0 && (Marked(ps[..|ps| - 1], x, y) || Blocks(ps[|ps| - 1], x, y))
    }

    /** An in-grid cell nothing blocks. */
    predicate Free(ps: seq<Placement>, x: int, y: int)
    {
      0 <= x < gridWidth && 0 <= y < gridHeight && !Marked(ps, x, y)
    }

    /** Free cells among the four orthogonal neighbours of a free cell. */
    function CellPaths(ps: seq<Placement>, x: int, y: int): nat
    {
      if Free(ps, x, y) then
        B(Free(ps, x - 1, y)) + B(Free(ps, x + 1, y)) + B(Free(ps, x, y - 1)) + B(Free(ps, x, y + 1))
      else 0
    }

    /** CellPaths summed over the first n cells of row y. */
    function RowPaths(ps: seq<Placement>, y: int, n: int): nat
      decreases n
    {
      if n <= 0 then 0 else RowPaths(ps, y, n - 1) + CellPaths(ps, n - 1, y)
    }

    /** RowPaths summed over the first m rows. */
    function GridPaths(ps: seq<Placement>, m: int): nat
      decreases m
    {
      if m <= 0 then 0 else GridPaths(ps, m - 1) + RowPaths(ps, m - 1, gridWidth)
    }

    function ClearPaths(ps: seq<Placement>): nat
    {
      GridPaths(ps, gridHeight)
    }

    /** How many placements are anchored in zone z. */
    function ZoneCount(ps: seq<Placement>, z: Zone): (n: nat)
      ensures n <= |ps|
    {
      if |ps| == 0 then 0
      else
        var p := ps[|ps| - 1];
        ZoneCount(ps[..|ps| - 1], z) + B(GetBaguaZone(p.x, p.y) == z)
    }

    /** The clutter penalty for each placement beyond two in a zone, summed
        over zones. */
    function ClutterPenalty(ps: seq<Placement>, zones: seq<Zone>): (r: int)
      ensures config.clutterPenalty >= 0 ==> r >= 0
      ensures Uncluttered(ps, zones) ==> r == 0
    {
      if |zones| == 0 then 0
      else
        var n := ZoneCount(ps, zones[|zones| - 1]);
        var init := ClutterPenalty(ps, zones[..|zones| - 1]);
        UnclutteredFront(ps, zones);
        init + Excess(n, config.clutterPenalty)
    }

    /** The penalty for n placements in one zone: each one beyond two is
        charged. */
    function Excess(n: nat, penalty: int): (r: int)
      ensures penalty >= 0 ==> r >= 0
      ensures n <= 2 ==> r == 0
    {
      if n > 2 then (n - 2) * penalty else 0
    }

    /** No zone of zones holds more than two placements of ps. */
    predicate Uncluttered(ps: seq<Placement>, zones: seq<Zone>)
    {
      forall k :: 0 <= k < |zones| ==> ZoneCount(ps, zones[k]) <= 2
    }

    lemma UnclutteredFront(ps: seq<Placement>, zones: seq<Zone>)
      requires |zones| > 0
      ensures Uncluttered(ps, zones) ==> Uncluttered(ps, zones[..|zones| - 1])
    {
      if Uncluttered(ps, zones) {
        var front := zones[..|zones| - 1];
        forall k | 0 <= k < |front| ensures ZoneCount(ps, front[k]) <= 2 {
          assert front[k] == zones[k];
        }
      }
    }

    function ChiFlow(ps: seq<Placement>): int
    {
      ClearPaths(ps) * config.chiPathWeight - ClutterPenalty(ps, AllZones)
    }

    /** A rows x cols grid (row index first) whose cells are set exactly
        where ps blocks chi. */
    method MarkBlocked(ps: seq<Placement>) returns (grid: array2<bool>)
      ensures fresh(grid)
      ensures grid.Length0 == Max(0, gridHeight) && grid.Length1 == Max(0, gridWidth)
      ensures forall r, c :: 0 <= r < grid.Length0 && 0 <= c < grid.Length1 ==> grid[r, c] == Marked(ps, c, r)
    {
      grid := new bool[Max(0, gridHeight), Max(0, gridWidth)]((_, _) => false);
      for k := 0 to |ps|
        invariant forall r, c :: 0 <= r < grid.Length0 && 0 <= c < grid.Length1 ==> grid[r, c] == Marked(ps[..k], c, r)
      {
        assert ps[..k + 1][..k] == ps[..k];
        MarkPlacement(grid, ps[k], ps[..k]);
      }
      assert ps[..|ps|] == ps;
    }

    /** Sets the in-grid cells p blocks. */
    method MarkPlacement(grid: array2<bool>, p: Placement, ghost before: seq<Placement>)
      requires grid.Length0 == Max(0, gridHeight) && grid.Length1 == Max(0, gridWidth)
      requires forall r, c :: 0 <= r < grid.Length0 && 0 <= c < grid.Length1 ==> grid[r, c] == Marked(before, c, r)
      modifies grid
      ensures forall r, c :: 0 <= r < grid.Length0 && 0 <= c < grid.Length1 ==> grid[r, c] == Marked(before + [p], c, r)
    {
      assert (before + [p])[..|before|] == before;
      if p.objType != "door" && p.objType != "window" {
        var d := Dimensions(catalog, p.objType);
        for dx := 0 to d.0
          invariant forall r, c :: 0 <= r < grid.Length0 && 0 <= c < grid.Length1 ==>
            grid[r, c] == (Marked(before, c, r) || (p.x <= c < p.x + dx && p.y <= r < p.y + d.1))
        {
          for dy := 0 to d.1
            invariant forall r, c :: 0 <= r < grid.Length0 && 0 <= c < grid.Length1 ==>
              grid[r, c] == (Marked(before, c, r) || (p.x <= c < p.x + dx && p.y <= r < p.y + d.1) ||
                             (c == p.x + dx && p.y <= r < p.y + dy))
          {
            if 0 <= p.x + dx < gridWidth && 0 <= p.y + dy < gridHeight {
              grid[p.y + dy, p.x + dx] := true;
            }
          }
        }
      }
    }

    /** For every unset cell, the number of unset cells among its four
        neighbours, summed over the grid. */
    method CountClearPaths(ps: seq<Placement>, grid: array2<bool>) returns (clearPaths: nat)
      requires grid.Length0 == Max(0, gridHeight) && grid.Length1 == Max(0, gridWidth)
      requires forall r, c :: 0 <= r < grid.Length0 && 0 <= c < grid.Length1 ==> grid[r, c] == Marked(ps, c, r)
      ensures clearPaths == ClearPaths(ps)
    {
      var rows, cols := grid.Length0, grid.Length1;
      clearPaths := 0;
      for y := 0 to rows
        invariant clearPaths == GridPaths(ps, y)
      {
        for x := 0 to cols
          invariant clearPaths == GridPaths(ps, y) + RowPaths(ps, y, x)
        {
          if !grid[y, x] {
            var clearNeighbours := 0;
            if 0 <= x - 1 && !grid[y, x - 1] { clearNeighbours := clearNeighbours + 1; }
            if x + 1 < cols && !grid[y, x + 1] { clearNeighbours := clearNeighbours + 1; }
            if 0 <= y - 1 && !grid[y - 1, x] { clearNeighbours := clearNeighbours + 1; }
            if y + 1 < rows && !grid[y + 1, x] { clearNeighbours := clearNeighbours + 1; }
            clearPaths := clearPaths + clearNeighbours;
          }
        }
      }
    }

    /** How many placements are anchored in zone. */
    method CountZone(ps: seq<Placement>, zone: Zone) returns (zoneCount: nat)
      ensures zoneCount == ZoneCount(ps, zone)
    {
      zoneCount := 0;
      for j := 0 to |ps|
        invariant zoneCount == ZoneCount(ps[..j], zone)
      {
        assert ps[..j + 1][..j] == ps[..j];
        if GetBaguaZone(ps[j].x, ps[j].y) == zone {
          zoneCount := zoneCount + 1;
        }
      }
      assert ps[..|ps|] == ps;
    }

    /** Marks the blocked cells of a grid, counts for every free cell its
        free neighbours, weights the total, then charges the clutter penalty
        zone by zone. */
    method CalculateChiFlowScore(ps: seq<Placement>) returns (score: int)
      ensures score == ChiFlow(ps)
    {
      var grid := MarkBlocked(ps);
      var clearPaths := CountClearPaths(ps, grid);
      score := clearPaths * config.chiPathWeight;
      for i := 0 to |AllZones|
        invariant score == clearPaths * config.chiPathWeight - ClutterPenalty(ps, AllZones[..i])
      {
        assert AllZones[..i + 1][..i] == AllZones[..i];
        var zoneCount := CountZone(ps, AllZones[i]);
        if zoneCount > 2 {
          score := score - (zoneCount - 2) * config.clutterPenalty;
        }
      }
      assert AllZones[..|AllZones|] == AllZones;
    }

    // -------------------------------------------------------- layout score

    /** 0 for an empty layout; otherwise the weighted bagua scores plus the
        command score plus the chi flow. */
    function LayoutScore(ps: seq<Placement>): int
      requires WellFormed(config)
    {
      if |ps| == 0 then 0 else BaguaTotal(ps) + CommandScore(ps) + ChiFlow(ps)
    }

    method CalculateLayoutScore(ps: seq<Placement>) returns (total: int)
      requires WellFormed(config)
      ensures total == LayoutScore(ps)
      ensures |ps| == 0 ==> total == 0
    {
      if |ps| == 0 {
        return 0;
      }
      total := 0;
      for i := 0 to |ps|
        invariant total == BaguaTotal(ps[..i])
      {
        assert ps[..i + 1][..i] == ps[..i];
        var baguaScore := BaguaScore(ps[i]);
        var weight := Weight(ps[i].objType);
        total := total + baguaScore * weight;
      }
      assert ps[..|ps|] == ps;
      var commandScore := CalculateCommandPositionScore(ps);
      total := total + commandScore;
      var chiScore := CalculateChiFlowScore(ps);
      total := total + chiScore;
    }

    // ------------------------------------------------------ random placement

    predicate ValidAt(t: string, c: Cell)
    {
      IsPositionValid(catalog, t, c.0, c.1, gridWidth, gridHeight)
    }

    /** The first of the candidates k, k+1, ... (below the attempt limit)
        that is a valid position for t. */
    function FirstValidDraw(t: string, draw: (nat, nat, nat) -> Cell, i: nat, j: nat, k: nat): (r: Option<nat>)
      decreases RandomPlacementAttempts - k
      ensures r.Some? ==>
        k <= r.value < RandomPlacementAttempts && ValidAt(t, draw(i, j, r.value)) &&
        forall a :: k <= a < r.value ==> !ValidAt(t, draw(i, j, a))
      ensures r.None? ==> forall a :: k <= a < RandomPlacementAttempts ==> !ValidAt(t, draw(i, j, a))
    {
      if k >= RandomPlacementAttempts then None
      else if ValidAt(t, draw(i, j, k)) then Some(k)
      else FirstValidDraw(t, draw, i, j, k + 1)
    }

    /** The first valid candidate, or the origin when all of them fail. */
    function RandomPlacement(t: string, draw: (nat, nat, nat) -> Cell, i: nat, j: nat): (p: Placement)
      ensures p.objType == t
      ensures ValidAt(t, (p.x, p.y)) || (p.x == 0 && p.y == 0)
    {
      match FirstValidDraw(t, draw, i, j, 0)
      case Some(k) => Placement(t, draw(i, j, k).0, draw(i, j, k).1)
      case None => Placement(t, 0, 0)
    }

    method GenerateRandomPlacement(t: string, draw: (nat, nat, nat) -> Cell, i: nat, j: nat) returns (p: Placement)
      ensures p == RandomPlacement(t, draw, i, j)
    {
      for k := 0 to RandomPlacementAttempts
        invariant FirstValidDraw(t, draw, i, j, 0) == FirstValidDraw(t, draw, i, j, k)
      {
        var c := draw(i, j, k);
        if IsPositionValid(catalog, t, c.0, c.1, gridWidth, gridHeight) {
          return Placement(t, c.0, c.1);
        }
      }
      return Placement(t, 0, 0);
    }

    // -------------------------------------------------------- initial layout

    /** Attempt a for the i-th object yields a placement that fits. */
    predicate AttemptFits(t: string, draw: (nat, nat, nat) -> Cell, i: nat, occupied: set<Cell>, a: nat)
    {
      Fits(catalog, gridWidth, gridHeight, RandomPlacement(t, draw, i, a), occupied)
    }

    /** The first attempt a, a+1, ... (below the attempt limit) whose random
        placement fits against occupied: none before it fits, and when
        there is none, no attempt below the limit fits. */
    function FirstSeedAttempt(t: string, draw: (nat, nat, nat) -> Cell, i: nat, occupied: set<Cell>, a: nat): (r: Option<nat>)
      ensures r.Some? ==>
        a <= r.value < SeedAttempts && AttemptFits(t, draw, i, occupied, r.value) &&
        forall b :: a <= b < r.value ==> !AttemptFits(t, draw, i, occupied, b)
      ensures r.None? ==> forall b :: a <= b < SeedAttempts ==> !AttemptFits(t, draw, i, occupied, b)
    {
      var fits := (b: nat) => AttemptFits(t, draw, i, occupied, b);
      assert forall b: nat :: fits(b) == AttemptFits(t, draw, i, occupied, b);
      FirstOk(fits, a, SeedAttempts)
    }

    /** The placement chosen for the i-th object: the first attempt that
        fits, else the origin. */
    function SeedPick(t: string, draw: (nat, nat, nat) -> Cell, i: nat, occupied: set<Cell>): (p: Placement)
      ensures p.objType == t
    {
      match FirstSeedAttempt(t, draw, i, occupied, 0)
      case Some(a) => RandomPlacement(t, draw, i, a)
      case None => Placement(t, 0, 0)
    }

    /** The chosen placement fits, or every attempt failed and it sits at
        the origin. */
    lemma SeedPickFitsOrOrigin(t: string, draw: (nat, nat, nat) -> Cell, i: nat, occupied: set<Cell>)
      ensures var p := SeedPick(t, draw, i, occupied);
        Fits(catalog, gridWidth, gridHeight, p, occupied) || (p.x == 0 && p.y == 0)
      ensures FirstSeedAttempt(t, draw, i, occupied, 0).None? ==> SeedPick(t, draw, i, occupied) == Placement(t, 0, 0)
    {
      var r := FirstSeedAttempt(t, draw, i, occupied, 0);
      if r.Some? {
        assert AttemptFits(t, draw, i, occupied, r.value);
      }
    }

    /** The layout built object by object in the given order, each checked
        against the cells of those before it. */
    function SeedLayout(order: seq<string>, draw: (nat, nat, nat) -> Cell): (ps: seq<Placement>)
      ensures Types(ps) == order
    {
      if |order| == 0 then []
      else
        var n := |order| - 1;
        assert order == order[..n] + [order[n]];
        SeedNext(SeedLayout(order[..n], draw), order[n], draw, n)
    }

    /** init followed by the placement chosen for the i-th object, of type
        t, against the cells of init. */
    function SeedNext(init: seq<Placement>, t: string, draw: (nat, nat, nat) -> Cell, i: nat): (ps: seq<Placement>)
      ensures Types(ps) == Types(init) + [t]
    {
      var p := SeedPick(t, draw, i, OccupiedBy(catalog, init));
      TypesSnoc(init, p);
      init + [p]
    }

    lemma SeedLayoutStep(order: seq<string>, draw: (nat, nat, nat) -> Cell, n: nat)
      requires n < |order|
      ensures SeedLayout(order[..n + 1], draw) == SeedNext(SeedLayout(order[..n], draw), order[n], draw, n)
    {
      assert order[..n + 1][..n] == order[..n];
    }

    /** Each placement of a seeded layout fits against those before it or
        was forced to the origin. */
    lemma {:induction false} SeedLayoutFitsOrOrigin(order: seq<string>, draw: (nat, nat, nat) -> Cell)
      ensures FitsOrOrigin(catalog, gridWidth, gridHeight, SeedLayout(order, draw))
    {
      if |order| > 0 {
        var n := |order| - 1;
        var init := SeedLayout(order[..n], draw);
        SeedLayoutFitsOrOrigin(order[..n], draw);
        var p := SeedPick(order[n], draw, n, OccupiedBy(catalog, init));
        SeedPickFitsOrOrigin(order[n], draw, n, OccupiedBy(catalog, init));
        FitsOrOriginSnoc(catalog, gridWidth, gridHeight, init, p);
        SeedLayoutStep(order, draw, n);
        assert order[..n + 1] == order;
      }
    }

    /** The initial layout: desk first, then the other types in name order. */
    function InitialLayout(objects: seq<string>, draw: (nat, nat, nat) -> Cell): seq<Placement>
    {
      SeedLayout(SortForPlacement(objects), draw)
    }

    /** The initial layout has one placement per requested object, holds
        the requested types in placement order, starts with the desk when
        one is requested, and each placement fits or was forced to the
        origin. */
    lemma InitialLayoutShape(objects: seq<string>, draw: (nat, nat, nat) -> Cell)
      ensures var ps := InitialLayout(objects, draw);
        |ps| == |objects| &&
        Types(ps) == SortForPlacement(objects) &&
        multiset(Types(ps)) == multiset(objects) &&
        ("desk" in objects ==> ps[0].objType == "desk") &&
        FitsOrOrigin(catalog, gridWidth, gridHeight, ps)
    {
      SeedLayoutFitsOrOrigin(SortForPlacement(objects), draw);
      if "desk" in objects {
        DeskFirst(objects);
      }
    }

    /** Up to SeedAttempts random placements for the i-th object; the first
        that is valid and collision-free, else the origin. */
    method PlaceWithAttempts(t: string, draw: (nat, nat, nat) -> Cell, i: nat, occupied: set<Cell>)
      returns (chosen: Placement)
      ensures chosen == SeedPick(t, draw, i, occupied)
    {
      for attempt := 0 to SeedAttempts
        invariant FirstSeedAttempt(t, draw, i, occupied, 0) == FirstSeedAttempt(t, draw, i, occupied, attempt)
      {
        var temp := GenerateRandomPlacement(t, draw, i, attempt);
        var isValid := IsPositionValid(catalog, t, temp.x, temp.y, gridWidth, gridHeight);
        var collides := CheckObjectCollision(catalog, t, temp.x, temp.y, occupied);
        if isValid && !collides {
          assert AttemptFits(t, draw, i, occupied, attempt);
          return temp;
        }
      }
      return Placement(t, 0, 0);
    }

    method GenerateInitialLayout(objects: seq<string>, draw: (nat, nat, nat) -> Cell) returns (placements: seq<Placement>)
      requires |objects| > 0 ==> gridWidth >= 1 && gridHeight >= 1
      ensures placements == InitialLayout(objects, draw)
    {
      placements := [];
      var occupied := new Occupancy();
      var sortedObjects := SortForPlacement(objects);
      for i := 0 to |sortedObjects|
        invariant placements == SeedLayout(sortedObjects[..i], draw)
        invariant occupied.cells == OccupiedBy(catalog, placements)
      {
        var t := sortedObjects[i];
        SeedLayoutStep(sortedObjects, draw, i);
        var placement := PlaceWithAttempts(t, draw, i, occupied.cells);
        OccupiedBySnoc(catalog, placements, placement);
        placements := placements + [placement];
        AddOccupiedPositions(catalog, t, placement.x, placement.y, occupied);
      }
      assert sortedObjects[..|sortedObjects|] == sortedObjects;
    }

    // -------------------------------------------------------------- search

    /** Shifts p by (dx, dy), clamped so that its footprint stays inside the
        grid where it can, and never to a negative coordinate. */
    function MutatePlacement(p: Placement, dx: int, dy: int): (r: Placement)
      ensures r.objType == p.objType
      ensures r.x >= 0 && r.y >= 0
      ensures var d := Dimensions(catalog, p.objType);
        (d.0 <= gridWidth ==> r.x + d.0 <= gridWidth) && (d.1 <= gridHeight ==> r.y + d.1 <= gridHeight)
      ensures var d := Dimensions(catalog, p.objType);
        0 <= p.x + dx && p.x + dx + d.0 <= gridWidth && 0 <= p.y + dy && p.y + dy + d.1 <= gridHeight ==>
        r.x == p.x + dx && r.y == p.y + dy
    {
      var d := Dimensions(catalog, p.objType);
      Placement(p.objType, Max(0, Min(gridWidth - d.0, p.x + dx)), Max(0, Min(gridHeight - d.1, p.y + dy)))
    }

    /** A moved piece of furniture of a known type that fits in the grid at
        all is always at a valid position. */
    lemma MutatedFurnitureIsValid(p: Placement, dx: int, dy: int)
      requires p.objType in catalog && !IsBoundary(catalog, p.objType)
      requires Dimensions(catalog, p.objType).0 <= gridWidth && Dimensions(catalog, p.objType).1 <= gridHeight
      ensures var r := MutatePlacement(p, dx, dy); IsPositionValid(catalog, r.objType, r.x, r.y, gridWidth, gridHeight)
    {
      var r := MutatePlacement(p, dx, dy);
      FurnitureValidIffInside(catalog, r.objType, r.x, r.y, gridWidth, gridHeight);
    }

    /** Placement i of the neighbour built in the given iteration. */
    function Perturbed(current: seq<Placement>, rng: Rng, iteration: nat, i: nat): Placement
      requires i < |current|
    {
      if rng.mutates(iteration, i) then
        MutatePlacement(current[i], rng.offset(iteration, i).0, rng.offset(iteration, i).1)
      else current[i]
    }

    /** The neighbour tried in iteration t: every placement perturbed by
        that iteration's draws. */
    function Neighbour(current: seq<Placement>, rng: Rng, t: nat): (next: seq<Placement>)
      ensures |next| == |current|
    {
      seq(|current|, i requires 0 <= i < |current| => Perturbed(current, rng, t, i))
    }

    /** A neighbour holds the same object types, in the same order. */
    lemma NeighbourKeepsTypes(current: seq<Placement>, rng: Rng, t: nat)
      ensures Types(Neighbour(current, rng, t)) == Types(current)
    {
      var next := Neighbour(current, rng, t);
      assert forall i :: 0 <= i < |current| ==> Types(next)[i] == Types(current)[i];
    }

    method MutateLayout(current: seq<Placement>, rng: Rng, iteration: nat) returns (next: seq<Placement>)
      ensures |next| == |current|
      ensures forall i :: 0 <= i < |current| ==> next[i] == Perturbed(current, rng, iteration, i)
      ensures next == Neighbour(current, rng, iteration)
    {
      next := [];
      for i := 0 to |current|
        invariant |next| == i
        invariant forall k :: 0 <= k < i ==> next[k] == Perturbed(current, rng, iteration, k)
      {
        if rng.mutates(iteration, i) {
          var offset := rng.offset(iteration, i);
          next := next + [MutatePlacement(current[i], offset.0, offset.1)];
        } else {
          next := next + [current[i]];
        }
      }
    }

    /** Replays the placements, rejecting the layout at the first one that
        is out of place or collides with those before it. */
    method IsValidLayout(ps: seq<Placement>) returns (valid: bool)
      ensures valid <==> ValidLayout(catalog, gridWidth, gridHeight, ps)
    {
      var occupied := new Occupancy();
      for i := 0 to |ps|
        invariant occupied.cells == OccupiedBy(catalog, ps[..i])
        invariant ValidLayout(catalog, gridWidth, gridHeight, ps[..i])
      {
        var p := ps[i];
        if !IsPositionValid(catalog, p.objType, p.x, p.y, gridWidth, gridHeight) {
          assert !FitsAt(catalog, gridWidth, gridHeight, ps, i);
          return false;
        }
        var collides := CheckObjectCollision(catalog, p.objType, p.x, p.y, occupied.cells);
        if collides {
          assert !FitsAt(catalog, gridWidth, gridHeight, ps, i);
          return false;
        }
        AddOccupiedPositions(catalog, p.objType, p.x, p.y, occupied);
        OccupiedBySnoc(catalog, ps[..i], p);
        ValidLayoutSnoc(catalog, gridWidth, gridHeight, ps[..i], p);
        assert ps[..i + 1] == ps[..i] + [p];
      }
      assert ps[..|ps|] == ps;
      return true;
    }

    /** Appends, at the origin, every requested type that the layout lacks. */
    method AddMissingAtOrigin(layout: seq<Placement>, objects: seq<string>) returns (r: seq<Placement>)
      ensures r == layout + Missing(objects, Types(layout))
    {
      var placedTypes := Types(layout);
      r := layout;
      for k := 0 to |objects|
        invariant r == layout + Missing(objects[..k], placedTypes)
      {
        assert objects[..k + 1][..k] == objects[..k];
        if objects[k] !in placedTypes {
          r := r + [Placement(objects[k], 0, 0)];
        }
      }
      assert objects[..|objects|] == objects;
    }

    /** Hill climbing from the initial layout, then every requested type
        the best layout lacks is appended at the origin. The result holds
        one placement per requested object, is the initial layout or a valid
        layout, and scores at least as well as the initial layout. */
    method OptimizeLayout(objects: seq<string>, rng: Rng) returns (best: seq<Placement>, bestScore: int)
      requires Valid()
      requires |objects| > 0 ==> gridWidth >= 1 && gridHeight >= 1
      ensures |best| == |objects|
      ensures multiset(Types(best)) == multiset(objects)
      ensures bestScore == LayoutScore(best)
      ensures bestScore >= LayoutScore(InitialLayout(objects, rng.seedDraw))
      ensures best == InitialLayout(objects, rng.seedDraw) || ValidLayout(catalog, gridWidth, gridHeight, best)
      ensures best == Search(objects, rng).best && bestScore == Search(objects, rng).bestScore
    {
      var currentLayout := GenerateInitialLayout(objects, rng.seedDraw);
      InitialLayoutShape(objects, rng.seedDraw);
      var currentScore := CalculateLayoutScore(currentLayout);
      best, bestScore := Climb(currentLayout, currentScore, |objects|, rng);
      ghost var climbed := best;
      AllTypesPresent(best, objects);
      if |best| != |objects| {
        best := AddMissingAtOrigin(best, objects);
      }
      best := AddMissingAtOrigin(best, objects);
      assert best == climbed + [] == climbed;
    }

    /** The search loop: each iteration builds a neighbour; one that is not
        a valid layout of the requested size is skipped outright; otherwise
        it is scored, taken when the acceptance rule allows, the best layout
        seen is kept, the temperature is cooled, and the loop stops once too
        many iterations in a row brought no new best. */
    method Climb(start: seq<Placement>, startScore: int, size: int, rng: Rng)
      returns (best: seq<Placement>, bestScore: int)
      requires WellFormed(config)
      requires startScore == LayoutScore(start)
      ensures var final := Run(StartState(start, startScore), size, rng, Max(0, config.maxIterations));
        best == final.best && bestScore == final.bestScore
      ensures bestScore == LayoutScore(best)
      ensures startScore <= bestScore
      ensures Types(best) == Types(start)
      ensures best == start || ValidLayout(catalog, gridWidth, gridHeight, best)
    {
      ghost var init := StartState(start, startScore);
      ghost var last := Max(0, config.maxIterations);
      RunInvariant(start, startScore, size, rng, last);
      var state := StartState(start, startScore);
      for iteration := 0 to Max(0, config.maxIterations)
        invariant state == Run(init, size, rng, iteration) && !state.stopped
      {
        RunStep(init, size, rng, iteration);
        state := Iterate(state, size, rng, iteration);
        if state.stopped {
          StoppedIsFinal(init, size, rng, iteration + 1, last);
          break;
        }
      }
      best, bestScore := state.best, state.bestScore;
    }

    /** The loop body: a neighbour that is not a valid layout of the
        requested size leaves everything as it was; otherwise it is scored,
        taken when it is at least as good or the acceptance draw allows,
        the best is updated, the temperature cooled and the stopping test
        made. */
    method Iterate(s: ClimbState, size: int, rng: Rng, iteration: nat) returns (r: ClimbState)
      requires WellFormed(config)
      requires !s.stopped
      ensures r == Step(s, size, rng, iteration)
    {
      var newLayout := MutateLayout(s.current, rng, iteration);
      var valid := IsValidLayout(newLayout);
      if !valid || |newLayout| != size {
        assert !Scored(s, size, rng, iteration);
        return s;
      }
      assert Scored(s, size, rng, iteration);
      var newScore := CalculateLayoutScore(newLayout);
      var currentLayout, currentScore := s.current, s.currentScore;
      var best, bestScore := s.best, s.bestScore;
      var noImprovementCount := s.noImprovement;
      // exp(0) = 1 exceeds every value of random(), so a neighbour that
      // scores the same as the current layout is always taken.
      var taken := newScore >= currentScore || rng.accepts(iteration, s.cooled, newScore - currentScore);
      if taken {
        currentLayout, currentScore := newLayout, newScore;
        if newScore > bestScore {
          best, bestScore := newLayout, newScore;
          noImprovementCount := 0;
        } else {
          noImprovementCount := noImprovementCount + 1;
        }
      } else {
        noImprovementCount := noImprovementCount + 1;
      }
      r := ClimbState(currentLayout, currentScore, best, bestScore, s.cooled + 1, noImprovementCount,
                      noImprovementCount >= config.maxNoImprovement);
      AdvanceIs(s, newLayout, newScore, taken, r);
    }

    /** The state before the first iteration. */
    function StartState(start: seq<Placement>, startScore: int): ClimbState
    {
      ClimbState(start, startScore, start, startScore, 0, 0, false)
    }

    /** Iteration t scores its neighbour: the search has not stopped and
        the neighbour is a valid layout of the requested size. */
    predicate Scored(s: ClimbState, size: int, rng: Rng, t: nat)
    {
      !s.stopped && |s.current| == size &&
      ValidLayout(catalog, gridWidth, gridHeight, Neighbour(s.current, rng, t))
    }

    /** The acceptance rule: a neighbour scoring at least the current score
        is always taken (exp(0) = 1 exceeds every value of random()), a
        worse one when the draw for this iteration, temperature and score
        difference allows it. */
    predicate Accepted(s: ClimbState, score: int, rng: Rng, t: nat)
    {
      score >= s.currentScore || rng.accepts(t, s.cooled, score - s.currentScore)
    }

    /** Iteration t takes its scored neighbour. */
    predicate Takes(s: ClimbState, size: int, rng: Rng, t: nat)
      requires WellFormed(config)
    {
      Scored(s, size, rng, t) && Accepted(s, LayoutScore(Neighbour(s.current, rng, t)), rng, t)
    }

    /** One iteration of the search loop. */
    function Step(s: ClimbState, size: int, rng: Rng, t: nat): ClimbState
      requires WellFormed(config)
    {
      if !Scored(s, size, rng, t) then s
      else
        var next := Neighbour(s.current, rng, t);
        var score := LayoutScore(next);
        Advance(s, next, score, Accepted(s, score, rng, t))
    }

    /** The state after an iteration scored neighbour next and took it or
        not: a taken neighbour becomes the current layout, and the best one
        too when it beats the best score; the no-improvement count restarts
        only on a new best; the temperature cools and the stopping test is
        made. */
    function Advance(s: ClimbState, next: seq<Placement>, score: int, taken: bool): ClimbState
    {
      var moved :=
        if !taken then s.(noImprovement := s.noImprovement + 1)
        else if score > s.bestScore then
          s.(current := next, currentScore := score, best := next, bestScore := score, noImprovement := 0)
        else s.(current := next, currentScore := score, noImprovement := s.noImprovement + 1);
      moved.(cooled := s.cooled + 1, stopped := moved.noImprovement >= config.maxNoImprovement)
    }

    /** The state after t iterations. */
    function Run(init: ClimbState, size: int, rng: Rng, t: nat): ClimbState
      requires WellFormed(config)
    {
      if t == 0 then init else Step(Run(init, size, rng, t - 1), size, rng, t - 1)
    }

    lemma RunStep(init: ClimbState, size: int, rng: Rng, t: nat)
      requires WellFormed(config)
      ensures Run(init, size, rng, t + 1) == Step(Run(init, size, rng, t), size, rng, t)
    {
    }

    /** The loop's final state for a request, started from the initial
        layout. */
    function Search(objects: seq<string>, rng: Rng): ClimbState
      requires WellFormed(config)
    {
      var start := InitialLayout(objects, rng.seedDraw);
      Run(StartState(start, LayoutScore(start)), |objects|, rng, Max(0, config.maxIterations))
    }

    /** An iteration cools the temperature exactly when it scores its
        neighbour; one that does not (an invalid or wrong-sized neighbour, or
        a search that has stopped) changes nothing at all, so neither the
        no-improvement count nor the stopping test moves. */
    lemma SkippedIterationChangesNothing(s: ClimbState, size: int, rng: Rng, t: nat)
      requires WellFormed(config)
      ensures Step(s, size, rng, t).cooled == s.cooled + B(Scored(s, size, rng, t))
      ensures !Scored(s, size, rng, t) ==> Step(s, size, rng, t) == s
    {
    }

    /** What the search loop keeps: the scores are those of their layouts,
        the best score never falls below the start nor below the current
        score, the types never change, both layouts are the start or valid,
        and the search has stopped exactly when some iteration was scored
        and the no-improvement count has reached its limit. */
    ghost predicate Invariant(s: ClimbState, start: seq<Placement>, startScore: int)
      requires WellFormed(config)
    {
      ScoresKept(s, startScore) && LayoutsKept(s, start) && CountersKept(s)
    }

    ghost predicate ScoresKept(s: ClimbState, startScore: int)
      requires WellFormed(config)
    {
      s.currentScore == LayoutScore(s.current) && s.bestScore == LayoutScore(s.best) &&
      startScore <= s.bestScore && s.currentScore <= s.bestScore
    }

    ghost predicate LayoutsKept(s: ClimbState, start: seq<Placement>)
    {
      Types(s.current) == Types(start) && Types(s.best) == Types(start) &&
      (s.current == start || ValidLayout(catalog, gridWidth, gridHeight, s.current)) &&
      (s.best == start || ValidLayout(catalog, gridWidth, gridHeight, s.best))
    }

    predicate CountersKept(s: ClimbState)
    {
      s.noImprovement <= s.cooled &&
      (s.stopped <==> s.cooled > 0 && s.noImprovement >= config.maxNoImprovement)
    }

    lemma AdvanceIs(s: ClimbState, next: seq<Placement>, score: int, taken: bool, r: ClimbState)
      requires r.cooled == s.cooled + 1 && r.stopped == (r.noImprovement >= config.maxNoImprovement)
      requires !taken ==> r == s.(noImprovement := s.noImprovement + 1, cooled := r.cooled, stopped := r.stopped)
      requires taken && score > s.bestScore ==>
        r == ClimbState(next, score, next, score, r.cooled, 0, r.stopped)
      requires taken && score <= s.bestScore ==>
        r == s.(current := next, currentScore := score, noImprovement := s.noImprovement + 1, cooled := r.cooled, stopped := r.stopped)
      ensures r == Advance(s, next, score, taken)
    {
    }

    lemma AdvanceKeepsScores(s: ClimbState, next: seq<Placement>, score: int, taken: bool, startScore: int)
      requires WellFormed(config) && ScoresKept(s, startScore) && score == LayoutScore(next)
      ensures ScoresKept(Advance(s, next, score, taken), startScore)
    {
    }

    lemma AdvanceKeepsLayouts(s: ClimbState, next: seq<Placement>, score: int, taken: bool, start: seq<Placement>)
      requires LayoutsKept(s, start) && Types(next) == Types(s.current)
      requires ValidLayout(catalog, gridWidth, gridHeight, next)
      ensures LayoutsKept(Advance(s, next, score, taken), start)
    {
    }

    lemma StepKeepsScores(s: ClimbState, startScore: int, size: int, rng: Rng, t: nat)
      requires WellFormed(config) && ScoresKept(s, startScore)
      ensures ScoresKept(Step(s, size, rng, t), startScore)
    {
      if Scored(s, size, rng, t) {
        var next := Neighbour(s.current, rng, t);
        AdvanceKeepsScores(s, next, LayoutScore(next), Takes(s, size, rng, t), startScore);
      }
    }

    lemma StepKeepsLayouts(s: ClimbState, start: seq<Placement>, size: int, rng: Rng, t: nat)
      requires WellFormed(config) && LayoutsKept(s, start)
      ensures LayoutsKept(Step(s, size, rng, t), start)
    {
      if Scored(s, size, rng, t) {
        var next := Neighbour(s.current, rng, t);
        NeighbourKeepsTypes(s.current, rng, t);
        AdvanceKeepsLayouts(s, next, LayoutScore(next), Takes(s, size, rng, t), start);
      }
    }

    lemma StepKeepsCounters(s: ClimbState, size: int, rng: Rng, t: nat)
      requires WellFormed(config) && CountersKept(s)
      ensures CountersKept(Step(s, size, rng, t))
      ensures Step(s, size, rng, t).cooled <= s.cooled + 1
    {
      SkippedIterationChangesNothing(s, size, rng, t);
    }

    lemma {:induction false} RunKeepsScores(start: seq<Placement>, startScore: int, size: int, rng: Rng, t: nat)
      requires WellFormed(config) && startScore == LayoutScore(start)
      ensures ScoresKept(Run(StartState(start, startScore), size, rng, t), startScore)
    {
      if t > 0 {
        RunKeepsScores(start, startScore, size, rng, t - 1);
        StepKeepsScores(Run(StartState(start, startScore), size, rng, t - 1), startScore, size, rng, t - 1);
      }
    }

    lemma {:induction false} RunKeepsLayouts(start: seq<Placement>, startScore: int, size: int, rng: Rng, t: nat)
      requires WellFormed(config)
      ensures LayoutsKept(Run(StartState(start, startScore), size, rng, t), start)
    {
      if t > 0 {
        RunKeepsLayouts(start, startScore, size, rng, t - 1);
        RunStepKeepsLayouts(start, startScore, size, rng, t - 1);
      }
    }

    lemma RunStepKeepsLayouts(start: seq<Placement>, startScore: int, size: int, rng: Rng, t: nat)
      requires WellFormed(config)
      requires LayoutsKept(Run(StartState(start, startScore), size, rng, t), start)
      ensures LayoutsKept(Run(StartState(start, startScore), size, rng, t + 1), start)
    {
      var s := Run(StartState(start, startScore), size, rng, t);
      StepKeepsLayouts(s, start, size, rng, t);
      assert Run(StartState(start, startScore), size, rng, t + 1) == Step(s, size, rng, t);
    }

    lemma {:induction false} RunKeepsCounters(init: ClimbState, size: int, rng: Rng, t: nat)
      requires WellFormed(config) && init.cooled == 0 && init.noImprovement == 0 && !init.stopped
      ensures CountersKept(Run(init, size, rng, t)) && Run(init, size, rng, t).cooled <= t
    {
      if t > 0 {
        RunKeepsCounters(init, size, rng, t - 1);
        StepKeepsCounters(Run(init, size, rng, t - 1), size, rng, t - 1);
      }
    }

    /** After t iterations the invariant holds and the temperature has been
        cooled at most t times. */
    lemma RunInvariant(start: seq<Placement>, startScore: int, size: int, rng: Rng, t: nat)
      requires WellFormed(config) && startScore == LayoutScore(start)
      ensures Invariant(Run(StartState(start, startScore), size, rng, t), start, startScore)
      ensures Run(StartState(start, startScore), size, rng, t).cooled <= t
    {
      RunKeepsScores(start, startScore, size, rng, t);
      RunKeepsLayouts(start, startScore, size, rng, t);
      RunKeepsCounters(StartState(start, startScore), size, rng, t);
    }

    /** Once the stopping test has fired every later state is the same: the
        loop is over. */
    lemma {:induction false} StoppedIsFinal(init: ClimbState, size: int, rng: Rng, t1: nat, t2: nat)
      requires WellFormed(config)
      requires t1 <= t2 && Run(init, size, rng, t1).stopped
      ensures Run(init, size, rng, t2) == Run(init, size, rng, t1)
      decreases t2
    {
      if t2 > t1 {
        StoppedIsFinal(init, size, rng, t1, t2 - 1);
      }
    }

    /** The best score never decreases. */
    lemma {:induction false} BestScoreGrows(init: ClimbState, size: int, rng: Rng, t1: nat, t2: nat)
      requires WellFormed(config)
      requires t1 <= t2
      ensures Run(init, size, rng, t1).bestScore <= Run(init, size, rng, t2).bestScore
      decreases t2
    {
      if t2 > t1 {
        BestScoreGrows(init, size, rng, t1, t2 - 1);
      }
    }

    /** The best layout scores at least as well as every neighbour the
        search scored, taken or not. */
    lemma BestBeatsScored(start: seq<Placement>, startScore: int, size: int, rng: Rng, t: nat, last: nat)
      requires WellFormed(config) && startScore == LayoutScore(start)
      requires t < last
      requires Scored(Run(StartState(start, startScore), size, rng, t), size, rng, t)
      ensures var s := Run(StartState(start, startScore), size, rng, t);
        LayoutScore(Neighbour(s.current, rng, t)) <= Run(StartState(start, startScore), size, rng, last).bestScore
    {
      var init := StartState(start, startScore);
      RunInvariant(start, startScore, size, rng, t);
      StepBeatsScored(Run(init, size, rng, t), size, rng, t);
      RunStep(init, size, rng, t);
      BestScoreGrows(init, size, rng, t + 1, last);
    }

    lemma StepBeatsScored(s: ClimbState, size: int, rng: Rng, t: nat)
      requires WellFormed(config)
      requires s.currentScore <= s.bestScore && Scored(s, size, rng, t)
      ensures LayoutScore(Neighbour(s.current, rng, t)) <= Step(s, size, rng, t).bestScore
    {
    }

    /** The best layout is the start or a neighbour that some iteration
        took. */
    lemma {:induction false} BestIsStartOrTaken(start: seq<Placement>, startScore: int, size: int, rng: Rng, last: nat)
      requires WellFormed(config)
      ensures var best := Run(StartState(start, startScore), size, rng, last).best;
        best == start ||
        exists t :: 0 <= t < last && Takes(Run(StartState(start, startScore), size, rng, t), size, rng, t) &&
          best == Neighbour(Run(StartState(start, startScore), size, rng, t).current, rng, t)
    {
      if last > 0 {
        BestIsStartOrTaken(start, startScore, size, rng, last - 1);
        var s := Run(StartState(start, startScore), size, rng, last - 1);
        var best := Run(StartState(start, startScore), size, rng, last).best;
        if best != s.best {
          assert Takes(s, size, rng, last - 1);
          assert best == Neighbour(s.current, rng, last - 1);
        } else if best != start {
          var t :| 0 <= t < last - 1 && Takes(Run(StartState(start, startScore), size, rng, t), size, rng, t) &&
            s.best == Neighbour(Run(StartState(start, startScore), size, rng, t).current, rng, t);
        }
      }
    }

    lemma AllTypesPresent(ps: seq<Placement>, objects: seq<string>)
      requires multiset(Types(ps)) == multiset(objects)
      ensures Missing(objects, Types(ps)) == []
    {
      forall k | 0 <= k < |objects| ensures objects[k] in Types(ps) {
        assert objects[k] in multiset(objects);
      }
    }

    // ------------------------------------------------------------- analysis

    /** The number of placements per zone, for the zones that hold any. */
    method ZoneCounts(ps: seq<Placement>) returns (counts: map<Zone, nat>)
      ensures forall z :: z in counts <==> ZoneCount(ps, z) > 0
      ensures forall z :: z in counts ==> counts[z] == ZoneCount(ps, z)
    {
      counts := map[];
      for i := 0 to |ps|
        invariant forall z :: z in counts <==> ZoneCount(ps[..i], z) > 0
        invariant forall z :: z in counts ==> counts[z] == ZoneCount(ps[..i], z)
      {
        assert ps[..i + 1][..i] == ps[..i];
        var zone := GetBaguaZone(ps[i].x, ps[i].y);
        counts := counts[zone := (if zone in counts then counts[zone] else 0) + 1];
      }
      assert ps[..|ps|] == ps;
    }
  }

  lemma DefaultConfigWellFormed()
    ensures WellFormed(DefaultConfig)
  {
    forall z: Zone ensures z in DefaultConfig.baguaWeights {
      match z
      case Career =>
      case Knowledge =>
      case Family =>
      case Wealth =>
      case Fame =>
      case Relationships =>
      case Children =>
      case HelpfulPeople =>
      case Health =>
    }
  }

  lemma MulMonotone(w: int, a: int, b: int)
    requires w >= 0 && a <= b
    ensures w * a <= w * b
  {
  }

  /** Builds an optimizer: the given configuration, or the default one when
      none is given, and the bagua map of the grid; None when the map cannot
      be built. */
  method NewOptimizer(gridWidth: int, gridHeight: int, config: Option<Config>, catalog: Catalog)
    returns (r: Option<FengShuiOptimizer>)
    ensures r.None? <==> MapConstructionFails(gridWidth, gridHeight)
    ensures r.Some? ==>
      r.value.gridWidth == gridWidth && r.value.gridHeight == gridHeight && r.value.catalog == catalog &&
      r.value.config == (if config.None? then DefaultConfig else config.value)
    ensures r.Some? && (config.None? || WellFormed(config.value)) ==> r.value.Valid()
  {
    var chosen := if config.None? then DefaultConfig else config.value;
    DefaultConfigWellFormed();
    var baguaMap := CreateBaguaMap(gridWidth, gridHeight);
    if baguaMap.None? {
      return None;
    }
    return Some(FengShuiOptimizer(gridWidth, gridHeight, chosen, catalog, baguaMap.value));
  }
}
