/**
 * World generation: terrain from a noise value by fixed thresholds, the
 * search for a free spawn tile nearest a hint (ring by ring outwards),
 * the creation of buildings, colonists and the leader with their starting
 * components, and the hand-out of unowned beds to the AI-run colonists.
 * The noise field itself and the random draws are not modelled: a noise
 * value is an input, and each draw is any value in its stated range.
 */
module WorldGeneration {

  import opened Common
  import opened Tiles
  import opened Worlds
  import opened Ecs
  import opened DataComponents
  import opened AIComponents
  import opened NeedsComponents
  import opened WorkSettings
  import opened AgingComponents
  import opened LeaderComponents
  import opened SkillsComponents
  import opened MoodComponents
  import opened BuildingComponents

  /** The terrain of a tile whose noise value is n. */
  function TerrainFor(n: real): (t: TerrainType)
    ensures t == Water <==> n < -0.35
    ensures t == TerrainType.Stone <==> n >= 0.5
  {
    if n < -0.35 then Water
    else if n < -0.1 then Sand
    else if n < 0.3 then Grass
    else if n < 0.5 then Dirt
    else TerrainType.Stone
  }

  /** Terrains from the lowest noise band to the highest. */
  function Elevation(t: TerrainType): nat
  {
    match t
    case Water => 0
    case Sand => 1
    case Grass => 2
    case Dirt => 3
    case Stone => 4
  }

  /** Higher noise never gives lower terrain, and each middle terrain is exactly its band's. */
  lemma TerrainMonotone(a: real, b: real)
    requires a <= b
    ensures Elevation(TerrainFor(a)) <= Elevation(TerrainFor(b))
    ensures TerrainFor(a) == Sand <==> -0.35 <= a < -0.1
    ensures TerrainFor(a) == Grass <==> -0.1 <= a < 0.3
    ensures TerrainFor(a) == Dirt <==> 0.3 <= a < 0.5
  {
  }

  /** v clamped into [0, n - 1]; 0 when n is 0. */
  function ClampIndex(v: int, n: int): (r: int)
    ensures n > 0 ==> 0 <= r < n
    ensures 0 <= v < n ==> r == v
  {
    var lo := if n - 1 <= v then n - 1 else v;
    if lo < 0 then 0 else lo
  }

  function Abs(v: int): nat
  {
    if v < 0 then -v else v
  }

  /** The Chebyshev distance between two cells: the ring around (cx, cy) that (x, y) lies on. */
  function Ring(cx: int, cy: int, x: int, y: int): (d: nat)
    ensures d == 0 <==> x == cx && y == cy
  {
    if Abs(x - cx) >= Abs(y - cy) then Abs(x - cx) else Abs(y - cy)
  }

  /** A spawn spot: inside the grid, passable, and without a building. */
  ghost predicate Vacant(world: World, x: int, y: int)
    requires world.Valid()
    reads world.TileSet()
  {
    world.IsPassable(x, y) && world.tiles[x][y].buildingEntity == null
  }

  /**
   * The state of the ring search around (cx, cy) once ring r has been
   * scanned up to offset (dx, dy): no vacant cell lies on an inner ring,
   * in an earlier row of the square of radius r, or earlier in the
   * current row.
   */
  ghost predicate SearchedUpTo(world: World, cx: int, cy: int, r: int, dx: int, dy: int)
    requires world.Valid()
    reads world.TileSet()
  {
    forall x, y :: Vacant(world, x, y) ==>
      && Ring(cx, cy, x, y) >= r
      && !(Abs(x - cx) <= r && -r <= y - cy < dy)
      && !(y - cy == dy && -r <= x - cx < dx)
  }

  /** Before the first ring only the (non-vacant) centre has been looked at. */
  lemma SearchStart(world: World, cx: int, cy: int)
    requires world.Valid() && !Vacant(world, cx, cy)
    ensures SearchedUpTo(world, cx, cy, 1, -1, -1)
  {
  }

  /** A non-vacant cell extends the scanned part of the current row. */
  lemma SearchStep(world: World, cx: int, cy: int, r: int, dx: int, dy: int)
    requires world.Valid() && SearchedUpTo(world, cx, cy, r, dx, dy)
    requires -r <= dx <= r && -r <= dy <= r && !Vacant(world, cx + dx, cy + dy)
    ensures SearchedUpTo(world, cx, cy, r, dx + 1, dy)
  {
  }

  /** The end of a row of the square is the start of the next row. */
  lemma SearchNextRow(world: World, cx: int, cy: int, r: int, dy: int)
    requires world.Valid() && r >= 0 && SearchedUpTo(world, cx, cy, r, r + 1, dy)
    ensures SearchedUpTo(world, cx, cy, r, -r, dy + 1)
  {
  }

  /** A fully scanned square of radius r leaves no vacant cell on rings up to r. */
  lemma SearchNextRing(world: World, cx: int, cy: int, r: int)
    requires world.Valid() && r >= 0 && SearchedUpTo(world, cx, cy, r, -r, r + 1)
    ensures SearchedUpTo(world, cx, cy, r + 1, -(r + 1), -(r + 1))
  {
  }

  /**
   * (x, y) is a vacant cell on the nearest ring around (cx, cy) that holds
   * one, and no vacant cell of that ring comes before it in scan order.
   */
  ghost predicate NearestVacant(world: World, cx: int, cy: int, x: int, y: int)
    requires world.Valid()
    reads world.TileSet()
  {
    && Vacant(world, x, y)
    && (forall a, b :: Vacant(world, a, b) ==> Ring(cx, cy, x, y) <= Ring(cx, cy, a, b))
    && (forall a, b :: Vacant(world, a, b) && Ring(cx, cy, a, b) == Ring(cx, cy, x, y) ==>
         !ScannedBefore(a - cx, b - cy, x - cx, y - cy))
  }

  /** The first vacant cell met lies on the nearest ring with one and comes first in that ring's scan. */
  lemma SearchFound(world: World, cx: int, cy: int, r: int, dx: int, dy: int)
    requires world.Valid() && SearchedUpTo(world, cx, cy, r, dx, dy)
    requires -r <= dx <= r && -r <= dy <= r && Vacant(world, cx + dx, cy + dy)
    ensures NearestVacant(world, cx, cy, cx + dx, cy + dy)
  {
  }

  /** Once the rings reach the grid's larger side around an in-grid centre, every cell has been looked at. */
  lemma SearchExhausted(world: World, cx: int, cy: int, r: int)
    requires world.Valid() && SearchedUpTo(world, cx, cy, r, -r, -r)
    requires (world.width > 0 ==> 0 <= cx < world.width) && (world.height > 0 ==> 0 <= cy < world.height)
    requires r >= world.width && r >= world.height
    ensures forall a, b :: !Vacant(world, a, b)
  {
  }

  /** Scans row dy of the square of radius r around (cx, cy), left to right, for the first vacant cell. */
  method ScanRow(world: World, cx: int, cy: int, r: int, dy: int) returns (found: bool, x: int)
    requires world.Valid() && r >= 1 && -r <= dy <= r
    requires SearchedUpTo(world, cx, cy, r, -r, dy)
    ensures found ==> NearestVacant(world, cx, cy, x, cy + dy)
    ensures !found ==> SearchedUpTo(world, cx, cy, r, r + 1, dy)
  {
    var dx := -r;
    while dx <= r
      invariant -r <= dx <= r + 1
      invariant SearchedUpTo(world, cx, cy, r, dx, dy)
    {
      var nx := cx + dx;
      var ny := cy + dy;
      if nx >= 0 && ny >= 0 && nx < world.width && ny < world.height
        && world.IsPassable(nx, ny) && world.tiles[nx][ny].buildingEntity == null
      {
        SearchFound(world, cx, cy, r, dx, dy);
        return true, nx;
      }
      SearchStep(world, cx, cy, r, dx, dy);
      dx := dx + 1;
    }
    return false, 0;
  }

  /** Scans the square of radius r around (cx, cy), row by row, for the first vacant cell. */
  method ScanRing(world: World, cx: int, cy: int, r: int) returns (found: bool, x: int, y: int)
    requires world.Valid() && r >= 1
    requires SearchedUpTo(world, cx, cy, r, -r, -r)
    ensures found ==> NearestVacant(world, cx, cy, x, y)
    ensures !found ==> SearchedUpTo(world, cx, cy, r + 1, -(r + 1), -(r + 1))
  {
    var dy := -r;
    while dy <= r
      invariant -r <= dy <= r + 1
      invariant SearchedUpTo(world, cx, cy, r, -r, dy)
    {
      var hit, nx := ScanRow(world, cx, cy, r, dy);
      if hit {
        return true, nx, cy + dy;
      }
      SearchNextRow(world, cx, cy, r, dy);
      dy := dy + 1;
    }
    SearchNextRing(world, cx, cy, r);
    return false, 0, 0;
  }

  /**
   * A free tile for something to spawn on, as near the hint as possible.
   * The hint is first clamped into the grid; when it is vacant it is the
   * answer. Otherwise the rings around it are scanned outwards, each
   * square row by row (dy outer) and left to right (dx inner), and the
   * first vacant cell wins: it lies on the nearest ring holding any
   * vacant cell and is the first of that ring in scan order. With no
   * vacant cell in the grid the clamped hint is returned.
   */
  method FindValidTile(world: World, hintX: int, hintY: int) returns (x: int, y: int)
    requires world.Valid()
    ensures var cx, cy := ClampIndex(hintX, world.width), ClampIndex(hintY, world.height);
      && (Vacant(world, cx, cy) ==> x == cx && y == cy)
      && (Vacant(world, x, y) ==> NearestVacant(world, cx, cy, x, y))
      && (!Vacant(world, x, y) ==> x == cx && y == cy && forall a, b :: !Vacant(world, a, b))
    ensures world.width > 0 && world.height > 0 ==> world.InBounds(x, y)
  {
    var cx := ClampIndex(hintX, world.width);
    var cy := ClampIndex(hintY, world.height);
    if world.IsPassable(cx, cy) && world.tiles[cx][cy].buildingEntity == null {
      assert NearestVacant(world, cx, cy, cx, cy);
      return cx, cy;
    }
    SearchStart(world, cx, cy);
    var limit := if world.width >= world.height then world.width else world.height;
    var r := 1;
    while r < limit
      invariant 1 <= r && (r <= limit || limit <= 1)
      invariant SearchedUpTo(world, cx, cy, r, -r, -r)
    {
      var found, nx, ny := ScanRing(world, cx, cy, r);
      if found {
        return nx, ny;
      }
      r := r + 1;
    }
    SearchExhausted(world, cx, cy, r);
    return cx, cy;
  }

  /** The kinds the bed hand-out looks for. */
  const BedKinds: seq<Kind> := [BedKind]
  const AIKinds: seq<Kind> := [AIKind]

  /** The bed records held by the entities of es. */
  ghost function BedsOf(es: seq<Entity>): set<BedComponent>
    reads es
  {
    set x | x in es && x.bed != null :: x.bed
  }

  /** The members of bs whose bed has no owner yet (owner id -1), in order. */
  function UnownedBeds(bs: seq<Entity>): (r: seq<Entity>)
    reads bs, BedsOf(bs)
    ensures |r| <= |bs|
    ensures forall k :: 0 <= k < |r| ==> r[k] in bs && r[k].bed != null && r[k].bed.ownerEntityId == -1
  {
    if bs == [] then []
    else
      var last := bs[|bs| - 1];
      assert last.bed != null ==> last.bed in BedsOf(bs);
      var front := UnownedBeds(bs[..|bs| - 1]);
      assert forall y :: y in front ==> y in bs;
      if last.bed != null && last.bed.ownerEntityId == -1 then front + [last] else front
  }

  /** UnownedBeds keeps every member of bs with an unowned bed. */
  lemma {:induction false} UnownedBedsComplete(bs: seq<Entity>, x: Entity)
    requires x in bs && x.bed != null && x.bed.ownerEntityId == -1
    ensures x in UnownedBeds(bs)
  {
    if bs[|bs| - 1] != x {
      assert x in bs[..|bs| - 1];
      UnownedBedsComplete(bs[..|bs| - 1], x);
    }
  }

  /** The members of cs run by their AI (not disabled), in order. */
  function AIRun(cs: seq<Entity>): (r: seq<Entity>)
    reads cs, AIsOf(cs)
    ensures |r| <= |cs|
    ensures forall k :: 0 <= k < |r| ==> r[k] in cs && r[k].ai != null && !r[k].ai.aiDisabled
  {
    if cs == [] then []
    else
      var last := cs[|cs| - 1];
      assert last.ai != null ==> last.ai in AIsOf(cs);
      var front := AIRun(cs[..|cs| - 1]);
      assert forall y :: y in front ==> y in cs;
      if last.ai != null && !last.ai.aiDisabled then front + [last] else front
  }

  /** The AI-run colonists of a prefix come first, in the same order, among those of the whole. */
  lemma {:induction false} AIRunPrefix(cs: seq<Entity>, i: nat)
    requires i <= |cs|
    ensures AIRun(cs[..i]) <= AIRun(cs)
  {
    if i < |cs| {
      AIRunPrefix(cs[..|cs| - 1], i);
      assert cs[..|cs| - 1][..i] == cs[..i];
    } else {
      assert cs[..i] == cs;
    }
  }

  /** AIRun depends only on each member's AI record and its disabled flag. */
  twostate lemma {:induction false} AIRunFrame(cs: seq<Entity>)
    requires forall e :: e in cs ==> e.ai == old(e.ai)
    requires forall e :: e in cs && e.ai != null ==> e.ai.aiDisabled == old(e.ai.aiDisabled)
    ensures AIRun(cs) == old(AIRun(cs))
  {
    if cs != [] {
      AIRunFrame(cs[..|cs| - 1]);
    }
  }

  /** No two of bs share a bed record, so each bed is handed out once. */
  predicate DistinctBeds(bs: seq<Entity>)
    reads bs
  {
    forall i, j :: 0 <= i < j < |bs| ==> bs[i].bed != bs[j].bed
  }

  /** The unowned beds of the registry, in registry order. */
  method CollectUnownedBeds(ecs: ECSWorld) returns (beds: seq<Entity>)
    ensures beds == old(UnownedBeds(With(ecs.entities, BedKinds)))
    ensures forall k :: 0 <= k < |beds| ==>
      beds[k].bed != null && beds[k].bed in BedsOf(ecs.entities) && beds[k].bed.ownerEntityId == -1
    ensures BedsOf(beds) <= BedsOf(ecs.entities)
  {
    var candidates := With(ecs.entities, BedKinds);
    beds := [];
    for i := 0 to |candidates|
      invariant beds == UnownedBeds(candidates[..i])
    {
      assert candidates[..i + 1][..i] == candidates[..i];
      var bed := candidates[i].bed;
      if bed != null && bed.ownerEntityId == -1 {
        beds := beds + [candidates[i]];
      }
    }
    assert candidates[..|candidates|] == candidates;
    forall k | 0 <= k < |beds| ensures beds[k].bed in BedsOf(ecs.entities) {
      WithSelects(ecs.entities, BedKinds, beds[k]);
    }
  }

  /** The owner the hand-out gives the k-th bed once sofar have been served. */
  function OwnerAt(sofar: seq<Entity>, k: nat): (owner: int)
  {
    if k < |sofar| then sofar[k].id else -1
  }

  /**
   * The k-th of beds goes to the k-th colonist of colonists whose AI is
   * enabled, until either runs out; the rest keep no owner.
   */
  method HandOutBeds(beds: seq<Entity>, colonists: seq<Entity>)
    requires forall k :: 0 <= k < |beds| ==> beds[k].bed != null && beds[k].bed.ownerEntityId == -1
    modifies BedsOf(beds)`ownerEntityId
    ensures var sleepers := old(AIRun(colonists));
      DistinctBeds(beds) ==> forall k :: 0 <= k < |beds| ==>
        beds[k].bed.ownerEntityId == (if k < |sleepers| then sleepers[k].id else -1)
  {
    ghost var sleepers := AIRun(colonists);
    forall j | 0 <= j <= |colonists| ensures AIRun(colonists[..j]) <= sleepers {
      AIRunPrefix(colonists, j);
    }
    ghost var distinct := DistinctBeds(beds);
    ghost var sofar: seq<Entity> := [];
    var bedIndex := 0;
    var i := 0;
    while i < |colonists| && bedIndex < |beds|
      invariant 0 <= i <= |colonists|
      invariant sofar == old(AIRun(colonists[..i])) && sofar <= sleepers
      invariant bedIndex == |sofar| <= |beds|
      invariant distinct ==>
        forall k :: 0 <= k < |beds| ==> beds[k].bed.ownerEntityId == OwnerAt(sofar, k)
    {
      assert colonists[..i + 1][..i] == colonists[..i];
      assert beds[bedIndex].bed in BedsOf(beds);
      assert distinct ==> DistinctBeds(beds);
      bedIndex, sofar := Serve(beds, bedIndex, sofar, colonists[i]);
      assert colonists[i].ai == old(colonists[i].ai);
      assert colonists[i].ai != null ==> colonists[i].ai.aiDisabled == old(colonists[i].ai.aiDisabled);
      i := i + 1;
    }
    if i == |colonists| {
      assert colonists[..i] == colonists;
    }
    OwnersSettle(sofar, sleepers, |beds|);
  }

  /** Serves colonist c: if its AI is enabled it gets the next free bed, beds[|sofar|]. */
  method Serve(beds: seq<Entity>, bedIndex: nat, ghost sofar: seq<Entity>, c: Entity)
    returns (next: nat, ghost served: seq<Entity>)
    requires bedIndex == |sofar| < |beds|
    requires forall k :: 0 <= k < |beds| ==> beds[k].bed != null
    requires DistinctBeds(beds) ==>
      forall k :: 0 <= k < |beds| ==> beds[k].bed.ownerEntityId == OwnerAt(sofar, k)
    modifies beds[bedIndex].bed`ownerEntityId
    ensures served == sofar + (if c.ai != null && !c.ai.aiDisabled then [c] else [])
    ensures next == |served|
    ensures DistinctBeds(beds) ==>
      forall k :: 0 <= k < |beds| ==> beds[k].bed.ownerEntityId == OwnerAt(served, k)
  {
    var ai := c.ai;
    if ai != null && !ai.aiDisabled {
      beds[bedIndex].bed.ownerEntityId := c.id;
      return bedIndex + 1, sofar + [c];
    }
    return bedIndex, sofar;
  }

  /** Once the beds or the sleepers run out, the owners are the first sleepers in turn. */
  lemma OwnersSettle(sofar: seq<Entity>, sleepers: seq<Entity>, n: nat)
    requires sofar <= sleepers && (|sofar| == n || sofar == sleepers)
    ensures forall k :: 0 <= k < n ==> OwnerAt(sofar, k) == (if k < |sleepers| then sleepers[k].id else -1)
  {
  }

  /**
   * Hands the unowned beds out to the AI-run colonists in registry order:
   * the k-th unowned bed goes to the k-th colonist whose AI is enabled,
   * until either runs out. Beds that already had an owner keep it, and
   * no bed's occupancy changes.
   */
  method AssignBedsToColonists(ecs: ECSWorld)
    modifies BedsOf(ecs.entities)`ownerEntityId
    ensures var beds := old(UnownedBeds(With(ecs.entities, BedKinds)));
      var sleepers := old(AIRun(With(ecs.entities, AIKinds)));
      DistinctBeds(beds) ==> forall k :: 0 <= k < |beds| ==>
        beds[k].bed.ownerEntityId == (if k < |sleepers| then sleepers[k].id else -1)
    ensures forall b :: b in BedsOf(ecs.entities) && old(b.ownerEntityId) != -1 ==>
      b.ownerEntityId == old(b.ownerEntityId)
  {
    var colonists := With(ecs.entities, AIKinds);
    var beds := CollectUnownedBeds(ecs);
    if beds == [] {
      return;
    }
    AIRunFrame(colonists);
    assert forall b :: b in BedsOf(beds) ==> b.ownerEntityId == -1;
    HandOutBeds(beds, colonists);
  }
  /** The least and the spread of a colonist's lifespan draw: 60 plus a value below 25. */
  const COLONIST_MAX_AGE_BASE: int := 60
  const COLONIST_MAX_AGE_SPREAD: int := 25
  /** The same for the leader: 65 plus a value below 20. */
  const LEADER_MAX_AGE_BASE: int := 65
  const LEADER_MAX_AGE_SPREAD: int := 20
  /** The priority a colonist gives its own role, and the one everyone gives hauling. */
  const OWN_ROLE_PRIORITY: int := 3
  const HAULING_PRIORITY: int := 2

  /** A draw of a value in 0..bound-1 (any such value; 0 when the draw falls outside). */
  method NextInt(bound: int) returns (k: int)
    requires bound > 0
    ensures 0 <= k < bound
  {
    k := *;
    if !(0 <= k < bound) {
      k := 0;
    }
  }

  /**
   * A building entity at tile (x, y): a position, a producing building
   * record, and the tile pointing back at the entity.
   */
  method CreateBuilding(ecs: ECSWorld, counter: IdCounter, world: World, x: int, y: int,
                        kind: string, interval: real, max: int, produced: ItemType) returns (e: Entity)
    requires world.Valid() && world.InBounds(x, y)
    modifies ecs`entities, counter, world.GetTile(x, y)`buildingEntity
    ensures fresh(e) && ecs.entities == old(ecs.entities) + [e]
    ensures e.id == old(counter.nextId) && counter.nextId == old(counter.nextId) + 1
    ensures e.pos != null && e.pos.x == x as real && e.pos.y == y as real
    ensures e.building != null && e.building.buildingType == kind && e.building.built
    ensures e.building.productionInterval == interval && e.building.maxOutput == max
    ensures e.building.producedItemType == produced && e.building.outputBuffer == []
    ensures e.ai == null && e.needs == null && e.health == null && e.identity == null && e.bed == null
    ensures world.GetTile(x, y).buildingEntity == e
  {
    e := ecs.CreateEntity(counter);
    var p := new PositionComponent(x as real, y as real);
    e.Add(PositionC(p));
    var b := new BuildingComponent(kind, interval, max, produced);
    e.Add(BuildingC(b));
    var tile := world.GetTile(x, y);
    tile.buildingEntity := e;
  }

  /** A settler's body: a position, its name and age, full needs, and health. */
  method AddSettlerBody(e: Entity, name: string, age: int, x: real, y: real)
    modifies e
    ensures e.pos != null && fresh(e.pos) && e.pos.x == x && e.pos.y == y
    ensures e.identity != null && fresh(e.identity) && e.identity.name == name && e.identity.age == age
    ensures e.needs != null && fresh(e.needs)
    ensures e.needs.hunger == FULL && e.needs.energy == FULL && e.needs.mood == FULL
    ensures e.health != null && fresh(e.health) && !e.health.dead
    ensures e.ai == old(e.ai) && e.inv == old(e.inv) && e.skills == old(e.skills)
    ensures e.building == old(e.building) && e.ws == old(e.ws) && e.mood == old(e.mood)
    ensures e.aging == old(e.aging) && e.leader == old(e.leader) && e.bed == old(e.bed)
    ensures e.sleep == old(e.sleep) && e.role == old(e.role)
  {
    var p := new PositionComponent(x, y);
    e.Add(PositionC(p));
    var id := new IdentityComponent(name, age);
    e.Add(IdentityC(id));
    var n := new NeedsComponent();
    e.Add(NeedsC(n));
    var h := new HealthComponent();
    e.Add(HealthC(h));
  }

  /** A settler's means to act: an AI record (enabled, idle), an empty inventory and the starting skills. */
  method AddSettlerMind(e: Entity)
    modifies e
    ensures e.ai != null && fresh(e.ai) && !e.ai.aiDisabled && e.ai.taskType == TaskType.Idle
    ensures e.inv != null && fresh(e.inv) && e.inv.carriedItem == None
    ensures e.skills != null && fresh(e.skills)
    ensures e.pos == old(e.pos) && e.identity == old(e.identity) && e.needs == old(e.needs)
    ensures e.health == old(e.health)
    ensures e.building == old(e.building) && e.ws == old(e.ws) && e.mood == old(e.mood)
    ensures e.aging == old(e.aging) && e.leader == old(e.leader) && e.bed == old(e.bed)
    ensures e.sleep == old(e.sleep) && e.role == old(e.role)
  {
    var ai := new AIComponent();
    e.Add(AIC(ai));
    var inv := new InventoryComponent();
    e.Add(InventoryC(inv));
    var sk := new SkillsComponent();
    e.Add(SkillsC(sk));
  }

  /** A settler's life: its age and lifespan, its role, and a neutral mood. */
  method AddSettlerLife(e: Entity, age: int, maxAge: int, role: ColonistRole)
    modifies e
    ensures e.aging != null && fresh(e.aging)
    ensures e.aging.ageYears == age as real && e.aging.maxAge == maxAge as real && e.aging.yearAccumulator == 0.0
    ensures e.role != null && fresh(e.role) && e.role.role == role
    ensures e.mood != null && fresh(e.mood) && e.mood.mood == DEFAULT_MOOD
    ensures e.pos == old(e.pos) && e.identity == old(e.identity) && e.needs == old(e.needs)
    ensures e.health == old(e.health) && e.ai == old(e.ai) && e.inv == old(e.inv)
    ensures e.skills == old(e.skills) && e.building == old(e.building) && e.ws == old(e.ws)
    ensures e.leader == old(e.leader) && e.bed == old(e.bed) && e.sleep == old(e.sleep)
  {
    var aging := new AgingComponent(age as real, maxAge as real);
    e.Add(AgingC(aging));
    var r := new RoleComponent(role);
    e.Add(RoleC(r));
    var m := new MoodComponent();
    e.Add(MoodC(m));
  }

  /**
   * A settler's sleep record and work table. The sleep record is added
   * once before and once after the work table; the second replaces the
   * first.
   */
  method AddSettlerRest(e: Entity, ws: WorkSettingsComponent)
    modifies e
    ensures e.sleep != null && fresh(e.sleep) && e.sleep.lastSleepQuality == NoSleep
    ensures e.ws == ws
    ensures e.pos == old(e.pos) && e.identity == old(e.identity) && e.needs == old(e.needs)
    ensures e.health == old(e.health) && e.ai == old(e.ai) && e.inv == old(e.inv)
    ensures e.skills == old(e.skills) && e.building == old(e.building) && e.aging == old(e.aging)
    ensures e.leader == old(e.leader) && e.bed == old(e.bed) && e.role == old(e.role)
    ensures e.mood == old(e.mood)
  {
    var first := new SleepQualityComponent();
    e.Add(SleepQualityC(first));
    e.Add(WorkSettingsC(ws));
    var second := new SleepQualityComponent();
    e.Add(SleepQualityC(second));
  }

  /**
   * The work table of a new colonist: its own role at priority 3, then
   * hauling at priority 2 (so a hauler ends with 2), every other job 0.
   */
  method NewWorkTable(role: ColonistRole) returns (ws: WorkSettingsComponent)
    ensures fresh(ws) && ws.Valid()
    ensures ws.GetPriority(Hauler) == HAULING_PRIORITY
    ensures role != Hauler ==> ws.GetPriority(role) == OWN_ROLE_PRIORITY
    ensures forall r :: r != role && r != Hauler ==> ws.GetPriority(r) == 0
  {
    ws := new WorkSettingsComponent();
    var _ := ws.SetPriority(role, OWN_ROLE_PRIORITY);
    var _ := ws.SetPriority(Hauler, HAULING_PRIORITY);
  }

  /**
   * A colonist of the given role at (x, y): every settler component, its
   * AI enabled, a lifespan of 60 to 84 whole years, and a work table that
   * gives its own role priority 3 and hauling priority 2 (a hauler ends
   * with 2), every other job 0.
   */
  method CreateColonist(ecs: ECSWorld, counter: IdCounter, name: string, age: int, x: real, y: real,
                        role: ColonistRole) returns (e: Entity)
    modifies ecs`entities, counter
    ensures fresh(e) && ecs.entities == old(ecs.entities) + [e]
    ensures e.id == old(counter.nextId) && counter.nextId == old(counter.nextId) + 1
    ensures e.pos != null && e.pos.x == x && e.pos.y == y
    ensures e.identity != null && e.identity.name == name && e.identity.age == age
    ensures e.needs != null && e.health != null && !e.health.dead
    ensures e.ai != null && !e.ai.aiDisabled
    ensures e.inv != null && e.skills != null && e.mood != null && e.sleep != null
    ensures e.aging != null && e.aging.ageYears == age as real
    ensures COLONIST_MAX_AGE_BASE as real <= e.aging.maxAge < (COLONIST_MAX_AGE_BASE + COLONIST_MAX_AGE_SPREAD) as real
    ensures e.aging.maxAge.Floor as real == e.aging.maxAge
    ensures e.role != null && e.role.role == role
    ensures e.ws != null && e.ws.Valid()
    ensures e.ws.GetPriority(Hauler) == HAULING_PRIORITY
    ensures role != Hauler ==> e.ws.GetPriority(role) == OWN_ROLE_PRIORITY
    ensures forall r :: r != role && r != Hauler ==> e.ws.GetPriority(r) == 0
    ensures e.leader == null && e.building == null && e.bed == null
  {
    e := ecs.CreateEntity(counter);
    AddSettlerBody(e, name, age, x, y);
    AddSettlerMind(e);
    var draw := NextInt(COLONIST_MAX_AGE_SPREAD);
    AddSettlerLife(e, age, COLONIST_MAX_AGE_BASE + draw, role);
    var ws := NewWorkTable(role);
    AddSettlerRest(e, ws);
  }

  /**
   * The leader at (x, y): every settler component plus the leader's
   * stats, a lifespan of 65 to 84 whole years, the idle role and an
   * all-zero work table; its AI is disabled, since the player steers it.
   */
  method CreateLeader(ecs: ECSWorld, counter: IdCounter, name: string, age: int, x: real, y: real)
    returns (e: Entity)
    modifies ecs`entities, counter
    ensures fresh(e) && ecs.entities == old(ecs.entities) + [e]
    ensures e.id == old(counter.nextId) && counter.nextId == old(counter.nextId) + 1
    ensures e.pos != null && e.pos.x == x && e.pos.y == y
    ensures e.identity != null && e.identity.name == name && e.identity.age == age
    ensures e.needs != null && e.health != null && !e.health.dead
    ensures e.ai != null && e.ai.aiDisabled
    ensures e.inv != null && e.skills != null && e.mood != null && e.sleep != null
    ensures e.leader != null && e.leader.EfficiencyBonus() == 0.25
    ensures e.aging != null && e.aging.ageYears == age as real
    ensures LEADER_MAX_AGE_BASE as real <= e.aging.maxAge < (LEADER_MAX_AGE_BASE + LEADER_MAX_AGE_SPREAD) as real
    ensures e.aging.maxAge.Floor as real == e.aging.maxAge
    ensures e.role != null && e.role.role == ColonistRole.Idle
    ensures e.ws != null && e.ws.Valid() && forall r :: e.ws.GetPriority(r) == 0
    ensures e.building == null && e.bed == null
  {
    e := ecs.CreateEntity(counter);
    AddSettlerBody(e, name, age, x, y);
    AddSettlerMind(e);
    var stats := new LeaderComponent();
    e.Add(LeaderC(stats));
    var draw := NextInt(LEADER_MAX_AGE_SPREAD);
    AddSettlerLife(e, age, LEADER_MAX_AGE_BASE + draw, ColonistRole.Idle);
    var ws := new WorkSettingsComponent();
    AddSettlerRest(e, ws);
    e.ai.aiDisabled := true;
  }
}
