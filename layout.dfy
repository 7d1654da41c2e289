/** Placements and the sequential validity rule shared by the layout
    constructor, the layout check and the random placer: each object is
    tested against the cells of the objects placed before it. */
module Layout {
  import opened Helpers

  /** One placed object: its type name and the top-left anchor cell. */
  datatype Placement = Placement(objType: string, x: int, y: int)

  function Types(ps: seq<Placement>): (ts: seq<string>)
    ensures |ts| == |ps|
    ensures forall i :: 0 <= i < |ps| ==> ts[i] == ps[i].objType
  {
    if |ps| == 0 then [] else Types(ps[..|ps| - 1]) + [ps[|ps| - 1].objType]
  }

  function Cells(cat: Catalog, p: Placement): set<Cell>
  {
    Occupies(cat, p.objType, p.x, p.y)
  }

  /** The occupied set after adding every placement of ps in order. */
  function OccupiedBy(cat: Catalog, ps: seq<Placement>): set<Cell>
  {
    if |ps| == 0 then {} else OccupiedBy(cat, ps[..|ps| - 1]) + Cells(cat, ps[|ps| - 1])
  }

  /** A cell is occupied exactly when some placement of ps blocks it. */
  lemma {:induction false} InOccupiedBy(cat: Catalog, ps: seq<Placement>, c: Cell)
    ensures c in OccupiedBy(cat, ps) <==> exists i :: 0 <= i < |ps| && c in Cells(cat, ps[i])
  {
    if |ps| > 0 {
      var init := ps[..|ps| - 1];
      InOccupiedBy(cat, init, c);
      if c in OccupiedBy(cat, init) {
        var i :| 0 <= i < |init| && c in Cells(cat, init[i]);
        assert ps[i] == init[i];
      }
      if exists i :: 0 <= i < |ps| && c in Cells(cat, ps[i]) {
        var i :| 0 <= i < |ps| && c in Cells(cat, ps[i]);
        if i < |ps| - 1 {
          assert init[i] == ps[i];
        }
      }
    }
  }

  /** Placement p may be committed given the occupied cells: its position is
      valid and it does not collide. */
  predicate Fits(cat: Catalog, gridWidth: int, gridHeight: int, p: Placement, occupied: set<Cell>)
  {
    IsPositionValid(cat, p.objType, p.x, p.y, gridWidth, gridHeight) &&
    !Collides(cat, p.objType, p.x, p.y, occupied)
  }

  /** The i-th placement fits against the cells of the placements before
      it. */
  predicate FitsAt(cat: Catalog, gridWidth: int, gridHeight: int, ps: seq<Placement>, i: nat)
    requires i < |ps|
  {
    Fits(cat, gridWidth, gridHeight, ps[i], OccupiedBy(cat, ps[..i]))
  }

  /** Every placement fits against the cells of the placements before it. */
  predicate ValidLayout(cat: Catalog, gridWidth: int, gridHeight: int, ps: seq<Placement>)
  {
    forall i :: 0 <= i < |ps| ==> FitsAt(cat, gridWidth, gridHeight, ps, i)
  }

  /** Every placement either fits against the cells of those before it or
      was forced to the origin. */
  predicate FitsOrOrigin(cat: Catalog, gridWidth: int, gridHeight: int, ps: seq<Placement>)
  {
    forall i :: 0 <= i < |ps| ==>
      Fits(cat, gridWidth, gridHeight, ps[i], OccupiedBy(cat, ps[..i])) || (ps[i].x == 0 && ps[i].y == 0)
  }

  /** A placement that fitted shares no cell with any earlier placement,
      including earlier ones that were forced to the origin. */
  lemma FittedIsDisjointFromEarlier(cat: Catalog, gridWidth: int, gridHeight: int, ps: seq<Placement>, i: int, j: int)
    requires 0 <= i < j < |ps|
    requires Fits(cat, gridWidth, gridHeight, ps[j], OccupiedBy(cat, ps[..j]))
    ensures Cells(cat, ps[i]) !! Cells(cat, ps[j])
  {
    forall c | c in Cells(cat, ps[i]) ensures c in OccupiedBy(cat, ps[..j]) {
      assert ps[..j][i] == ps[i];
      InOccupiedBy(cat, ps[..j], c);
    }
  }

  /** In a valid layout no cell is blocked by two placements, every
      placement has a known type and a valid position, every piece of
      furniture lies inside the grid and every boundary sits on a wall with
      its span fitting along it. */
  lemma ValidLayoutProperties(cat: Catalog, gridWidth: int, gridHeight: int, ps: seq<Placement>)
    requires ValidLayout(cat, gridWidth, gridHeight, ps)
    ensures forall i, j :: 0 <= i < j < |ps| ==> Cells(cat, ps[i]) !! Cells(cat, ps[j])
    ensures forall i :: 0 <= i < |ps| ==> ps[i].objType in cat
    ensures forall i :: 0 <= i < |ps| ==> IsPositionValid(cat, ps[i].objType, ps[i].x, ps[i].y, gridWidth, gridHeight)
    ensures forall i :: 0 <= i < |ps| ==> InsideGrid(Cells(cat, ps[i]), gridWidth, gridHeight)
    ensures forall i :: 0 <= i < |ps| && IsBoundary(cat, ps[i].objType) ==>
      OnWall(ps[i].x, ps[i].y, gridWidth, gridHeight)
  {
    forall i, j | 0 <= i < j < |ps| ensures Cells(cat, ps[i]) !! Cells(cat, ps[j]) {
      assert FitsAt(cat, gridWidth, gridHeight, ps, j);
      FittedIsDisjointFromEarlier(cat, gridWidth, gridHeight, ps, i, j);
    }
    forall i | 0 <= i < |ps|
      ensures ps[i].objType in cat
      ensures IsPositionValid(cat, ps[i].objType, ps[i].x, ps[i].y, gridWidth, gridHeight)
      ensures InsideGrid(Cells(cat, ps[i]), gridWidth, gridHeight)
      ensures IsBoundary(cat, ps[i].objType) ==> OnWall(ps[i].x, ps[i].y, gridWidth, gridHeight)
    {
      assert FitsAt(cat, gridWidth, gridHeight, ps, i);
      if !IsBoundary(cat, ps[i].objType) {
        FurnitureValidIffInside(cat, ps[i].objType, ps[i].x, ps[i].y, gridWidth, gridHeight);
      }
    }
  }

  /** The same property for sequences built by fit-or-origin: placements
      that were not forced share no cell with each other, and a boundary
      that was not forced sits on a wall with its span fitting. */
  lemma FitsOrOriginProperties(cat: Catalog, gridWidth: int, gridHeight: int, ps: seq<Placement>)
    requires FitsOrOrigin(cat, gridWidth, gridHeight, ps)
    ensures forall i, j :: 0 <= i < j < |ps| && Fits(cat, gridWidth, gridHeight, ps[j], OccupiedBy(cat, ps[..j])) ==>
      Cells(cat, ps[i]) !! Cells(cat, ps[j])
    ensures forall i :: 0 <= i < |ps| && (ps[i].x != 0 || ps[i].y != 0) ==>
      IsPositionValid(cat, ps[i].objType, ps[i].x, ps[i].y, gridWidth, gridHeight)
  {
    forall i, j | 0 <= i < j < |ps| && Fits(cat, gridWidth, gridHeight, ps[j], OccupiedBy(cat, ps[..j]))
      ensures Cells(cat, ps[i]) !! Cells(cat, ps[j])
    {
      FittedIsDisjointFromEarlier(cat, gridWidth, gridHeight, ps, i, j);
    }
  }

  lemma TypesSnoc(ps: seq<Placement>, p: Placement)
    ensures Types(ps + [p]) == Types(ps) + [p.objType]
  {
    assert (ps + [p])[..|ps|] == ps;
  }

  lemma OccupiedBySnoc(cat: Catalog, ps: seq<Placement>, p: Placement)
    ensures OccupiedBy(cat, ps + [p]) == OccupiedBy(cat, ps) + Cells(cat, p)
  {
    assert (ps + [p])[..|ps|] == ps;
  }

  /** Appending a placement that fits against the cells of the layout keeps
      the layout valid. */
  lemma ValidLayoutSnoc(cat: Catalog, gridWidth: int, gridHeight: int, ps: seq<Placement>, p: Placement)
    requires ValidLayout(cat, gridWidth, gridHeight, ps)
    requires Fits(cat, gridWidth, gridHeight, p, OccupiedBy(cat, ps))
    ensures ValidLayout(cat, gridWidth, gridHeight, ps + [p])
  {
    var qs := ps + [p];
    forall i | 0 <= i < |qs| ensures FitsAt(cat, gridWidth, gridHeight, qs, i) {
      if i < |ps| {
        assert FitsAt(cat, gridWidth, gridHeight, ps, i);
        assert qs[i] == ps[i] && qs[..i] == ps[..i];
      } else {
        assert qs[..i] == ps;
      }
    }
  }

  /** Appending a placement that fits, or one at the origin, keeps
      fit-or-origin. */
  lemma FitsOrOriginSnoc(cat: Catalog, gridWidth: int, gridHeight: int, ps: seq<Placement>, p: Placement)
    requires FitsOrOrigin(cat, gridWidth, gridHeight, ps)
    requires Fits(cat, gridWidth, gridHeight, p, OccupiedBy(cat, ps)) || (p.x == 0 && p.y == 0)
    ensures FitsOrOrigin(cat, gridWidth, gridHeight, ps + [p])
  {
    var qs := ps + [p];
    forall i | 0 <= i < |qs|
      ensures Fits(cat, gridWidth, gridHeight, qs[i], OccupiedBy(cat, qs[..i])) || (qs[i].x == 0 && qs[i].y == 0)
    {
      if i < |ps| {
        assert qs[i] == ps[i] && qs[..i] == ps[..i];
      } else {
        assert qs[..i] == ps;
      }
    }
  }
}
