/** The random placer of the server: objects are placed in the order they
    were requested, each at the first random candidate that is valid and
    free, or at the origin when a thousand candidates fail; either way its
    cells are then marked occupied. */
module RandomPlacer {
  import opened Helpers
  import opened Layout

  const MaxAttempts: nat := 1000

  /** Candidate c of the i-th object fits against occupied. */
  predicate CandidateFits(cat: Catalog, gridWidth: int, gridHeight: int, t: string, occupied: set<Cell>, c: Cell)
  {
    Fits(cat, gridWidth, gridHeight, Placement(t, c.0, c.1), occupied)
  }

  /** The first of the candidates draw(i, a), draw(i, a + 1), ... (below
      the attempt limit) that fits. */
  function FirstFit(cat: Catalog, gridWidth: int, gridHeight: int, t: string, occupied: set<Cell>,
                    draw: (nat, nat) -> Cell, i: nat, a: nat): (r: Option<nat>)
    decreases MaxAttempts - a
    ensures r.Some? ==>
      a <= r.value < MaxAttempts && CandidateFits(cat, gridWidth, gridHeight, t, occupied, draw(i, r.value)) &&
      forall b :: a <= b < r.value ==> !CandidateFits(cat, gridWidth, gridHeight, t, occupied, draw(i, b))
    ensures r.None? ==>
      forall b :: a <= b < MaxAttempts ==> !CandidateFits(cat, gridWidth, gridHeight, t, occupied, draw(i, b))
  {
    if a >= MaxAttempts then None
    else if CandidateFits(cat, gridWidth, gridHeight, t, occupied, draw(i, a)) then Some(a)
    else FirstFit(cat, gridWidth, gridHeight, t, occupied, draw, i, a + 1)
  }

  /** The placement of the i-th object: the first fitting candidate, else
      the origin. */
  function Pick(cat: Catalog, gridWidth: int, gridHeight: int, t: string, occupied: set<Cell>,
                draw: (nat, nat) -> Cell, i: nat): (p: Placement)
    ensures p.objType == t
  {
    match FirstFit(cat, gridWidth, gridHeight, t, occupied, draw, i, 0)
    case Some(a) => Placement(t, draw(i, a).0, draw(i, a).1)
    case None => Placement(t, 0, 0)
  }

  lemma PickFitsOrOrigin(cat: Catalog, gridWidth: int, gridHeight: int, t: string, occupied: set<Cell>,
                         draw: (nat, nat) -> Cell, i: nat)
    ensures var p := Pick(cat, gridWidth, gridHeight, t, occupied, draw, i);
      Fits(cat, gridWidth, gridHeight, p, occupied) || (p.x == 0 && p.y == 0)
    ensures FirstFit(cat, gridWidth, gridHeight, t, occupied, draw, i, 0).None? ==>
      Pick(cat, gridWidth, gridHeight, t, occupied, draw, i) == Placement(t, 0, 0)
  {
    var r := FirstFit(cat, gridWidth, gridHeight, t, occupied, draw, i, 0);
    if r.Some? {
      assert CandidateFits(cat, gridWidth, gridHeight, t, occupied, draw(i, r.value));
    }
  }

  /** The layout for the requested objects, in request order. */
  function RandomLayout(cat: Catalog, gridWidth: int, gridHeight: int, objects: seq<string>,
                        draw: (nat, nat) -> Cell): (ps: seq<Placement>)
    ensures Types(ps) == objects
  {
    if |objects| == 0 then []
    else
      var n := |objects| - 1;
      assert objects == objects[..n] + [objects[n]];
      PlaceNext(cat, gridWidth, gridHeight, RandomLayout(cat, gridWidth, gridHeight, objects[..n], draw), objects[n], draw, n)
  }

  /** init followed by the placement of the i-th object, of type t, against
      the cells of init. */
  function PlaceNext(cat: Catalog, gridWidth: int, gridHeight: int, init: seq<Placement>, t: string,
                     draw: (nat, nat) -> Cell, i: nat): (ps: seq<Placement>)
    ensures Types(ps) == Types(init) + [t]
  {
    var p := Pick(cat, gridWidth, gridHeight, t, OccupiedBy(cat, init), draw, i);
    TypesSnoc(init, p);
    init + [p]
  }

  lemma RandomLayoutStep(cat: Catalog, gridWidth: int, gridHeight: int, objects: seq<string>,
                         draw: (nat, nat) -> Cell, n: nat)
    requires n < |objects|
    ensures RandomLayout(cat, gridWidth, gridHeight, objects[..n + 1], draw) ==
      PlaceNext(cat, gridWidth, gridHeight, RandomLayout(cat, gridWidth, gridHeight, objects[..n], draw), objects[n], draw, n)
  {
    assert objects[..n + 1][..n] == objects[..n];
  }

  lemma {:induction false} RandomLayoutFitsOrOrigin(cat: Catalog, gridWidth: int, gridHeight: int,
                                                    objects: seq<string>, draw: (nat, nat) -> Cell)
    ensures FitsOrOrigin(cat, gridWidth, gridHeight, RandomLayout(cat, gridWidth, gridHeight, objects, draw))
    decreases |objects|
  {
    if |objects| > 0 {
      var n := |objects| - 1;
      var init := RandomLayout(cat, gridWidth, gridHeight, objects[..n], draw);
      var p := Pick(cat, gridWidth, gridHeight, objects[n], OccupiedBy(cat, init), draw, n);
      assert RandomLayout(cat, gridWidth, gridHeight, objects, draw) == init + [p] by {
        RandomLayoutStep(cat, gridWidth, gridHeight, objects, draw, n);
        assert objects[..n + 1] == objects;
      }
      RandomLayoutFitsOrOrigin(cat, gridWidth, gridHeight, objects[..n], draw);
      PickFitsOrOrigin(cat, gridWidth, gridHeight, objects[n], OccupiedBy(cat, init), draw, n);
      FitsOrOriginSnoc(cat, gridWidth, gridHeight, init, p);
    }
  }

  /** One placement per requested object, in request order; the ones not
      forced to the origin share no cell with any earlier placement, and
      those among them that are doors or windows sit on a wall with their
      span fitting. */
  lemma RandomLayoutProperties(cat: Catalog, gridWidth: int, gridHeight: int, objects: seq<string>,
                               draw: (nat, nat) -> Cell)
    ensures var ps := RandomLayout(cat, gridWidth, gridHeight, objects, draw);
      |ps| == |objects| &&
      (forall i :: 0 <= i < |ps| ==> ps[i].objType == objects[i]) &&
      (forall i, j :: 0 <= i < j < |ps| && Fits(cat, gridWidth, gridHeight, ps[j], OccupiedBy(cat, ps[..j])) ==>
         Cells(cat, ps[i]) !! Cells(cat, ps[j])) &&
      (forall i :: 0 <= i < |ps| && (ps[i].x != 0 || ps[i].y != 0) ==>
         IsPositionValid(cat, ps[i].objType, ps[i].x, ps[i].y, gridWidth, gridHeight))
  {
    var ps := RandomLayout(cat, gridWidth, gridHeight, objects, draw);
    RandomLayoutFitsOrOrigin(cat, gridWidth, gridHeight, objects, draw);
    FitsOrOriginProperties(cat, gridWidth, gridHeight, ps);
  }

  /** Up to MaxAttempts random candidates for the i-th object; the first
      one that is valid and free, else the origin. */
  method PlaceFirstFit(cat: Catalog, gridWidth: int, gridHeight: int, t: string, occupied: set<Cell>,
                       draw: (nat, nat) -> Cell, i: nat) returns (p: Placement)
    ensures p == Pick(cat, gridWidth, gridHeight, t, occupied, draw, i)
  {
    for attempt := 0 to MaxAttempts
      invariant FirstFit(cat, gridWidth, gridHeight, t, occupied, draw, i, 0) ==
                FirstFit(cat, gridWidth, gridHeight, t, occupied, draw, i, attempt)
    {
      var (x, y) := draw(i, attempt);
      var valid := IsPositionValid(cat, t, x, y, gridWidth, gridHeight);
      var collides := CheckObjectCollision(cat, t, x, y, occupied);
      if valid && !collides {
        assert CandidateFits(cat, gridWidth, gridHeight, t, occupied, draw(i, attempt));
        return Placement(t, x, y);
      }
    }
    return Placement(t, 0, 0);
  }

  /** draw(i, a) is the a-th random cell drawn for the i-th requested
      object. */
  method GenerateRandomLayout(cat: Catalog, gridWidth: int, gridHeight: int, objects: seq<string>,
                              draw: (nat, nat) -> Cell) returns (placements: seq<Placement>)
    requires |objects| > 0 ==> gridWidth >= 1 && gridHeight >= 1
    ensures placements == RandomLayout(cat, gridWidth, gridHeight, objects, draw)
  {
    placements := [];
    var occupied := new Occupancy();
    for i := 0 to |objects|
      invariant placements == RandomLayout(cat, gridWidth, gridHeight, objects[..i], draw)
      invariant occupied.cells == OccupiedBy(cat, placements)
    {
      var t := objects[i];
      RandomLayoutStep(cat, gridWidth, gridHeight, objects, draw, i);
      var placement := PlaceFirstFit(cat, gridWidth, gridHeight, t, occupied.cells, draw, i);
      OccupiedBySnoc(cat, placements, placement);
      placements := placements + [placement];
      AddOccupiedPositions(cat, t, placement.x, placement.y, occupied);
    }
    assert objects[..|objects|] == objects;
  }
}
