/**
 * The grid world: a width-by-height array of tiles indexed [x][y], the
 * colonists, miners and food growers of the pre-component loop, and the
 * stockpile tile. It also carries the passability grid that movement and
 * path search consult.
 */
module Worlds {

  import opened Common
  import opened Tiles
  import opened Colonists
  import opened LegacyBuildings

  /** Whether tile t holds at least one FOOD item. */
  predicate HoldsFood(t: Tile)
    reads t
  {
    CountOf(t.groundItems, ItemType.Food) > 0
  }

  /** Scan order of the grid: row by row (y outer), left to right within a row (x inner). */
  predicate ScannedBefore(x1: int, y1: int, x2: int, y2: int)
  {
    y1 < y2 || (y1 == y2 && x1 < x2)
  }

  class World {
    const width: int
    const height: int
    /** The tiles, indexed [x][y]. */
    const tiles: seq<seq<Tile>>
    /** Which tiles can be walked on (the passability test is not declared in the shown class). */
    const passable: seq<seq<bool>>
    var colonists: seq<Colonist>
    var miners: seq<Miner>
    var foodGrowers: seq<FoodGrower>
    var stockpileTile: Tile?

    /** The arrays have the world's dimensions and each tile knows its own coordinates. */
    ghost predicate Valid()
    {
      && |tiles| == width && |passable| == width && height >= 0
      && (forall x :: 0 <= x < width ==> |tiles[x]| == height && |passable[x]| == height)
      && (forall x, y :: 0 <= x < width && 0 <= y < height ==> tiles[x][y].x == x && tiles[x][y].y == y)
    }

    constructor (w: int, h: int, tiles0: seq<seq<Tile>>, passable0: seq<seq<bool>>)
      ensures width == w && height == h && tiles == tiles0 && passable == passable0
      ensures colonists == [] && miners == [] && foodGrowers == [] && stockpileTile == null
    {
      width, height, tiles, passable := w, h, tiles0, passable0;
      colonists, miners, foodGrowers := [], [], [];
      stockpileTile := null;
    }

    predicate InBounds(x: int, y: int)
    {
      0 <= x < width && 0 <= y < height
    }

    /** The tile at (x, y), or null exactly when (x, y) lies outside the grid. */
    function GetTile(x: int, y: int): (t: Tile?)
      requires Valid()
      ensures t == null <==> !InBounds(x, y)
      ensures t != null ==> t.x == x && t.y == y
    {
      if x < 0 || y < 0 || x >= width || y >= height then null else tiles[x][y]
    }

    /** Out-of-bounds tiles are impassable. */
    predicate IsPassable(x: int, y: int)
      requires Valid()
    {
      InBounds(x, y) && passable[x][y]
    }

    method AddColonist(c: Colonist)
      modifies this`colonists
      ensures colonists == old(colonists) + [c]
    {
      colonists := colonists + [c];
    }

    method AddMiner(m: Miner)
      modifies this`miners
      ensures miners == old(miners) + [m]
    {
      miners := miners + [m];
    }

    /** The first miner added, or null when there is none. */
    function GetMiner(): (m: Miner?)
      reads this
      ensures m == null <==> miners == []
      ensures m != null ==> m == miners[0] && forall i :: 0 <= i < |miners| ==> m == miners[i] || i > 0
    {
      if miners == [] then null else miners[0]
    }

    method AddFoodGrower(g: FoodGrower)
      modifies this`foodGrowers
      ensures foodGrowers == old(foodGrowers) + [g]
    {
      foodGrowers := foodGrowers + [g];
    }

    method SetStockpileTile(t: Tile?)
      modifies this`stockpileTile
      ensures stockpileTile == t
    {
      stockpileTile := t;
    }

    /** Whether a colonist stands inside the margin the clamp keeps. */
    predicate InsideMargin(c: Colonist)
      reads c
    {
      && 0.1 <= c.x && (width as real >= 0.2 ==> c.x <= width as real - 0.1)
      && 0.1 <= c.y && (height as real >= 0.2 ==> c.y <= height as real - 0.1)
    }

    /** Keeps c at least 0.1 inside every edge; a colonist already inside keeps its place. */
    method ClampColonist(c: Colonist)
      modifies c`x, c`y
      ensures c.x == Max(0.1, Min(width as real - 0.1, old(c.x)))
      ensures c.y == Max(0.1, Min(height as real - 0.1, old(c.y)))
      ensures InsideMargin(c)
      ensures width as real >= 0.2 && height as real >= 0.2 && old(InsideMargin(c)) ==>
        c.x == old(c.x) && c.y == old(c.y)
    {
      var cx := Max(0.1, Min(width as real - 0.1, c.x));
      var cy := Max(0.1, Min(height as real - 0.1, c.y));
      c.SetPosition(cx, cy);
    }

    /**
     * One tick of the pre-component world: every miner, then every food
     * grower, then for each colonist a needs step followed by the clamp.
     * Every colonist ends inside the margin; when no object is listed
     * twice, each has stepped exactly once.
     */
    method Update(delta: real)
      modifies (set m | m in miners), (set g | g in foodGrowers), (set c | c in colonists)
      ensures forall c :: c in colonists ==> InsideMargin(c)
      ensures NoDuplicates(miners) ==> forall m :: m in miners ==> MinerStepped(m, delta)
      ensures NoDuplicates(foodGrowers) ==> forall g :: g in foodGrowers ==> GrowerStepped(g, delta)
      ensures NoDuplicates(colonists) ==> forall c :: c in colonists ==>
        NeedsStepped(c, delta)
        && c.x == Max(0.1, Min(width as real - 0.1, old(c.x)))
        && c.y == Max(0.1, Min(height as real - 0.1, old(c.y)))
    {
      UpdateMiners(delta);
      UpdateGrowers(delta);
      UpdateColonists(delta);
    }

    method UpdateMiners(delta: real)
      modifies (set m | m in miners)
      ensures NoDuplicates(miners) ==> forall m :: m in miners ==> MinerStepped(m, delta)
    {
      for i := 0 to |miners|
        invariant NoDuplicates(miners) ==>
          (forall j :: 0 <= j < i ==> MinerStepped(miners[j], delta))
          && (forall j :: i <= j < |miners| ==> unchanged(miners[j]))
      {
        miners[i].Update(delta);
      }
    }

    method UpdateGrowers(delta: real)
      modifies (set g | g in foodGrowers)
      ensures NoDuplicates(foodGrowers) ==> forall g :: g in foodGrowers ==> GrowerStepped(g, delta)
    {
      for i := 0 to |foodGrowers|
        invariant NoDuplicates(foodGrowers) ==>
          (forall j :: 0 <= j < i ==> GrowerStepped(foodGrowers[j], delta))
          && (forall j :: i <= j < |foodGrowers| ==> unchanged(foodGrowers[j]))
      {
        foodGrowers[i].Update(delta);
      }
    }

    method UpdateColonists(delta: real)
      modifies (set c | c in colonists)
      ensures forall c :: c in colonists ==> InsideMargin(c)
      ensures NoDuplicates(colonists) ==> forall c :: c in colonists ==>
        NeedsStepped(c, delta)
        && c.x == Max(0.1, Min(width as real - 0.1, old(c.x)))
        && c.y == Max(0.1, Min(height as real - 0.1, old(c.y)))
    {
      for i := 0 to |colonists|
        invariant forall j :: 0 <= j < i ==> InsideMargin(colonists[j])
        invariant NoDuplicates(colonists) ==>
          (forall j :: 0 <= j < i ==>
            NeedsStepped(colonists[j], delta)
            && colonists[j].x == Max(0.1, Min(width as real - 0.1, old(colonists[j].x)))
            && colonists[j].y == Max(0.1, Min(height as real - 0.1, old(colonists[j].y))))
          && (forall j :: i <= j < |colonists| ==> unchanged(colonists[j]))
      {
        colonists[i].UpdateNeeds(delta);
        ClampColonist(colonists[i]);
      }
    }

    /** Every tile of the grid. */
    ghost function TileSet(): set<Tile>
    {
      set x, y | 0 <= x < |tiles| && 0 <= y < |tiles[x]| :: tiles[x][y]
    }

    /**
     * The state of the nearest-food scan once every cell before (x, y) in
     * scan order has been looked at: best is null exactly when none of
     * them holds FOOD, and otherwise it is a FOOD tile among them at
     * distance bestDist, no farther than any of them and strictly nearer
     * than those scanned before it.
     */
    ghost predicate NearestSoFar(px: real, py: real, best: Tile?, bestDist: real, x: int, y: int)
      requires Valid()
      reads TileSet()
    {
      && (best == null <==>
          forall x', y' :: InBounds(x', y') && ScannedBefore(x', y', x, y) ==> !HoldsFood(tiles[x'][y']))
      && (best != null ==>
          && InBounds(best.x, best.y) && best == tiles[best.x][best.y] && HoldsFood(best)
          && ScannedBefore(best.x, best.y, x, y) && bestDist == DistSqToCentre(px, py, best.x, best.y)
          && forall x', y' :: InBounds(x', y') && ScannedBefore(x', y', x, y) && HoldsFood(tiles[x'][y']) ==>
               && bestDist <= DistSqToCentre(px, py, x', y')
               && (ScannedBefore(x', y', best.x, best.y) ==> bestDist < DistSqToCentre(px, py, x', y')))
    }

    /** Looking at cell (x, y) extends the scan state by one cell. */
    lemma NearestStep(px: real, py: real, best: Tile?, bestDist: real, x: int, y: int, food: bool,
                      best': Tile?, bestDist': real)
      requires Valid() && InBounds(x, y) && NearestSoFar(px, py, best, bestDist, x, y)
      requires food == HoldsFood(tiles[x][y])
      requires food && (best == null || DistSqToCentre(px, py, x, y) < bestDist) ==>
        best' == tiles[x][y] && bestDist' == DistSqToCentre(px, py, x, y)
      requires !(food && (best == null || DistSqToCentre(px, py, x, y) < bestDist)) ==>
        best' == best && bestDist' == bestDist
      ensures NearestSoFar(px, py, best', bestDist', x + 1, y)
    {
    }

    /** The end of a row is the start of the next. */
    lemma NearestNextRow(px: real, py: real, best: Tile?, bestDist: real, y: int)
      requires Valid() && NearestSoFar(px, py, best, bestDist, width, y)
      ensures NearestSoFar(px, py, best, bestDist, 0, y + 1)
    {
    }

    /**
     * The nearest-food scan from cell (x, y) onward, in scan order, given
     * the best FOOD tile so far and its distance: a FOOD tile replaces the
     * best only when strictly nearer.
     */
    function ScanNearestFood(px: real, py: real, best: Tile?, bestDist: real, x: int, y: int): Tile?
      requires Valid() && 0 <= x <= width && 0 <= y <= height
      reads this, TileSet()
      decreases height - y, width - x
    {
      if y == height then best
      else if x == width then ScanNearestFood(px, py, best, bestDist, 0, y + 1)
      else if HoldsFood(tiles[x][y]) && (best == null || DistSqToCentre(px, py, x, y) < bestDist) then
        ScanNearestFood(px, py, tiles[x][y], DistSqToCentre(px, py, x, y), x + 1, y)
      else
        ScanNearestFood(px, py, best, bestDist, x + 1, y)
    }

    /**
     * Started from a scan state that is NearestSoFar at (x, y), the scan
     * finds null exactly when no tile holds FOOD, and otherwise the FOOD
     * tile nearest to (px, py), the earliest in scan order on ties.
     */
    lemma {:induction false} ScanFindsNearest(px: real, py: real, best: Tile?, bestDist: real, x: int, y: int)
      requires Valid() && 0 <= x <= width && 0 <= y <= height && NearestSoFar(px, py, best, bestDist, x, y)
      ensures NearestFood(px, py, ScanNearestFood(px, py, best, bestDist, x, y))
      decreases height - y, width - x
    {
      var r := ScanNearestFood(px, py, best, bestDist, x, y);
      if y == height {
        ScanDone(px, py, best, bestDist, x);
      } else if x == width {
        NearestNextRow(px, py, best, bestDist, y);
        ScanFindsNearest(px, py, best, bestDist, 0, y + 1);
      } else {
        var food := HoldsFood(tiles[x][y]);
        var dist := DistSqToCentre(px, py, x, y);
        var replace := food && (best == null || dist < bestDist);
        var best', bestDist' := if replace then tiles[x][y] else best, if replace then dist else bestDist;
        NearestStep(px, py, best, bestDist, x, y, food, best', bestDist');
        ScanFindsNearest(px, py, best', bestDist', x + 1, y);
        assert r == ScanNearestFood(px, py, best', bestDist', x + 1, y);
      }
    }

    /** Once the last row is passed every cell has been scanned, so the scan state is the answer. */
    lemma ScanDone(px: real, py: real, best: Tile?, bestDist: real, x: int)
      requires Valid() && 0 <= x <= width && NearestSoFar(px, py, best, bestDist, x, height)
      ensures NearestFood(px, py, best)
    {
      assert forall x', y' :: InBounds(x', y') ==> ScannedBefore(x', y', x, height);
    }

    /**
     * r is what a nearest-food scan must find: null exactly when no tile
     * holds FOOD, and otherwise a FOOD tile of the grid no farther from
     * (px, py) than any other and strictly nearer than those before it in
     * scan order.
     */
    ghost predicate NearestFood(px: real, py: real, r: Tile?)
      requires Valid()
      reads this, TileSet()
    {
      && (r == null <==> forall x, y :: InBounds(x, y) ==> !HoldsFood(tiles[x][y]))
      && (r != null ==> InBounds(r.x, r.y) && r == tiles[r.x][r.y] && HoldsFood(r))
      && (r != null ==> forall x, y :: InBounds(x, y) && HoldsFood(tiles[x][y]) ==>
            DistSqToCentre(px, py, r.x, r.y) <= DistSqToCentre(px, py, x, y))
      && (r != null ==> forall x, y ::
            InBounds(x, y) && HoldsFood(tiles[x][y]) && ScannedBefore(x, y, r.x, r.y) ==>
              DistSqToCentre(px, py, r.x, r.y) < DistSqToCentre(px, py, x, y))
    }

    /** The FOOD tile the whole scan finds for (px, py); null exactly when no tile holds FOOD. */
    function NearestFoodTile(px: real, py: real): (r: Tile?)
      requires Valid()
      reads this, TileSet()
      ensures r == null <==> forall x, y :: InBounds(x, y) ==> !HoldsFood(tiles[x][y])
      ensures r != null ==> InBounds(r.x, r.y) && r == tiles[r.x][r.y] && HoldsFood(r)
      ensures r != null ==> forall x, y :: InBounds(x, y) && HoldsFood(tiles[x][y]) ==>
        DistSqToCentre(px, py, r.x, r.y) <= DistSqToCentre(px, py, x, y)
      ensures r != null ==> forall x, y ::
        InBounds(x, y) && HoldsFood(tiles[x][y]) && ScannedBefore(x, y, r.x, r.y) ==>
          DistSqToCentre(px, py, r.x, r.y) < DistSqToCentre(px, py, x, y)
    {
      ScanFindsNearest(px, py, null, 0.0, 0, 0);
      ScanNearestFood(px, py, null, 0.0, 0, 0)
    }

    /**
     * The FOOD tile whose centre is nearest to (px, py) by squared
     * distance, ties going to the earliest tile in scan order; null
     * exactly when no tile holds FOOD.
     */
    method FindNearestFoodTile(px: real, py: real) returns (best: Tile?)
      requires Valid()
      ensures best == NearestFoodTile(px, py)
    {
      best := null;
      var bestDist := 0.0;
      for y := 0 to height
        invariant ScanNearestFood(px, py, best, bestDist, 0, y) == NearestFoodTile(px, py)
      {
        for x := 0 to width
          invariant ScanNearestFood(px, py, best, bestDist, x, y) == NearestFoodTile(px, py)
        {
          var tile := tiles[x][y];
          if HoldsFood(tile) {
            var dist := DistSqToCentre(px, py, x, y);
            if best == null || dist < bestDist {
              bestDist := dist;
              best := tile;
            }
          }
        }
      }
    }
  }
}
