/**
 * The pre-component task loop: for each living colonist under AI
 * control, the handlers for hunger, rest, hauling and wandering are
 * tried in that order, and the first that reports it acted ends the
 * colonist's turn.
 */
module TaskSystems {

  import opened Common
  import opened Tiles
  import opened Colonists
  import opened LegacyBuildings
  import opened Worlds

  const MOVE_SPEED: real := 2.2
  const REST_DURATION: real := 3.0

  /** The handlers of one colonist's turn. */
  datatype Handler = HungerHandler | RestHandler | HaulingHandler | WanderHandler

  /** The order in which the handlers are tried. */
  const Chain: seq<Handler> := [HungerHandler, RestHandler, HaulingHandler, WanderHandler]

  /** Index of the first miner with buffered output, if any. */
  function FirstMinerWithOutput(ms: seq<Miner>): (r: Option<nat>)
    reads set m | m in ms
    ensures r.None? <==> forall j :: 0 <= j < |ms| ==> !ms[j].HasOutput()
    ensures r.Some? ==> r.value < |ms| && ms[r.value].HasOutput()
    ensures r.Some? ==> forall j :: 0 <= j < r.value ==> !ms[j].HasOutput()
  {
    if ms == [] then None
    else if ms[0].HasOutput() then Some(0)
    else match FirstMinerWithOutput(ms[1..])
      case None => None
      case Some(i) => Some(i + 1)
  }

  /** Index of the first food grower with buffered output, if any. */
  function FirstGrowerWithOutput(gs: seq<FoodGrower>): (r: Option<nat>)
    reads set g | g in gs
    ensures r.None? <==> forall j :: 0 <= j < |gs| ==> !gs[j].HasOutput()
    ensures r.Some? ==> r.value < |gs| && gs[r.value].HasOutput()
    ensures r.Some? ==> forall j :: 0 <= j < r.value ==> !gs[j].HasOutput()
  {
    if gs == [] then None
    else if gs[0].HasOutput() then Some(0)
    else match FirstGrowerWithOutput(gs[1..])
      case None => None
      case Some(i) => Some(i + 1)
  }

  /** No handler kills, revives or releases a colonist. */
  twostate predicate KeepsStatus(c: Colonist)
    reads c
  {
    c.dead == old(c.dead) && c.aiDisabled == old(c.aiDisabled)
  }

  /** The fields a movement-and-pickup step leaves alone: needs and wander timing. */
  twostate predicate KeepsNeedsAndTimers(c: Colonist)
    reads c
  {
    && c.hunger == old(c.hunger) && c.energy == old(c.energy) && c.mood == old(c.mood)
    && c.wanderTimer == old(c.wanderTimer) && c.wanderCooldown == old(c.wanderCooldown)
  }

  /** Heads for FOOD tile t; on arrival takes one FOOD from it, eats, and clears the task. */
  method GoEat(c: Colonist, t: Tile, delta: real) returns (ghost arrived: bool)
    requires HoldsFood(t)
    modifies c, t`groundItems
    ensures KeepsStatus(c) && c.carriedItem == old(c.carriedItem) && c.energy == old(c.energy)
    ensures c.wanderTimer == old(c.wanderTimer) && c.wanderCooldown == old(c.wanderCooldown)
    ensures arrived ==>
      && t.groundItems == WithoutFirstOfKind(old(t.groundItems), ItemType.Food)
      && CountOf(t.groundItems, ItemType.Food) == CountOf(old(t.groundItems), ItemType.Food) - 1
      && c.hunger == Min(NEED_MAX, old(c.hunger) + HUNGER_EAT_AMOUNT)
      && c.mood == Min(NEED_MAX, old(c.mood) + MOOD_BOOST_AMOUNT)
      && c.taskType == TaskType.Idle && c.targetX == -1 && c.targetY == -1
    ensures !arrived ==>
      && t.groundItems == old(t.groundItems) && c.hunger == old(c.hunger) && c.mood == old(c.mood)
      && c.taskType == TaskType.MoveToFood && c.targetX == t.x && c.targetY == t.y
  {
    c.SetTask(TaskType.MoveToFood, t.x, t.y);
    c.MoveTowardTarget(delta, MOVE_SPEED);
    var atTarget := c.IsAtTarget();
    arrived := atTarget;
    if atTarget {
      var food := t.TakeFirstItem(ItemType.Food);
      if food.Some? {
        c.Eat();
      }
      c.ClearTask();
    }
  }

  /** Carries the held item toward stockpile s; on arrival drops it there and clears the task. */
  method GoDeliver(c: Colonist, s: Tile, delta: real) returns (ghost arrived: bool)
    requires c.carriedItem.Some?
    modifies c, s`groundItems
    ensures KeepsStatus(c) && KeepsNeedsAndTimers(c)
    ensures arrived ==>
      s.groundItems == old(s.groundItems) + [old(c.carriedItem).value] && c.carriedItem == None
      && c.taskType == TaskType.Idle && c.targetX == -1 && c.targetY == -1
    ensures !arrived ==>
      s.groundItems == old(s.groundItems) && c.carriedItem == old(c.carriedItem)
      && c.taskType == TaskType.MoveToStockpile && c.targetX == s.x && c.targetY == s.y
  {
    c.SetTask(TaskType.MoveToStockpile, s.x, s.y);
    c.MoveTowardTarget(delta, MOVE_SPEED);
    var atTarget := c.IsAtTarget();
    arrived := atTarget;
    if atTarget {
      s.AddItem(c.carriedItem.value);
      c.carriedItem := None;
      c.ClearTask();
    }
  }

  /** Walks an empty-handed colonist to miner m; on arrival takes its oldest stone. */
  method GoCollectFromMiner(c: Colonist, m: Miner, delta: real) returns (ghost arrived: bool)
    requires c.carriedItem.None? && m.HasOutput()
    modifies c, m`outputBuffer
    ensures KeepsStatus(c) && KeepsNeedsAndTimers(c)
    ensures PickedUp(c, old(m.outputBuffer), m.outputBuffer, arrived, TaskType.MoveToMiner, m.x, m.y)
  {
    c.SetTask(TaskType.MoveToMiner, m.x, m.y);
    c.MoveTowardTarget(delta, MOVE_SPEED);
    var atTarget := c.IsAtTarget();
    arrived := atTarget;
    if atTarget {
      var output := m.TakeOutput();
      if output.Some? {
        c.carriedItem := output;
      }
      c.ClearTask();
    }
  }

  /** Walks an empty-handed colonist to grower g; on arrival takes its oldest food. */
  method GoCollectFromGrower(c: Colonist, g: FoodGrower, delta: real) returns (ghost arrived: bool)
    requires c.carriedItem.None? && g.HasOutput()
    modifies c, g`outputBuffer
    ensures KeepsStatus(c) && KeepsNeedsAndTimers(c)
    ensures PickedUp(c, old(g.outputBuffer), g.outputBuffer, arrived, TaskType.MoveToFoodGrower, g.x, g.y)
  {
    c.SetTask(TaskType.MoveToFoodGrower, g.x, g.y);
    c.MoveTowardTarget(delta, MOVE_SPEED);
    var atTarget := c.IsAtTarget();
    arrived := atTarget;
    if atTarget {
      var output := g.TakeOutput();
      if output.Some? {
        c.carriedItem := output;
      }
      c.ClearTask();
    }
  }

  /**
   * Hunger: a colonist that is not hungry declines. A hungry one always
   * uses its turn: with no FOOD anywhere its task is cleared; otherwise
   * it heads for the nearest FOOD tile and, on arrival, takes one FOOD
   * from it, eats, and clears its task.
   */
  method HandleHunger(world: World, c: Colonist, delta: real)
    returns (consumed: bool, ghost foodTile: Tile?, ghost arrived: bool)
    requires world.Valid()
    modifies c, world.TileSet()
    ensures KeepsStatus(c) && c.carriedItem == old(c.carriedItem) && c.energy == old(c.energy)
    ensures c.wanderTimer == old(c.wanderTimer) && c.wanderCooldown == old(c.wanderCooldown)
    ensures consumed <==> old(c.IsHungry())
    ensures !old(c.IsHungry()) ==> unchanged(c) && foodTile == null
    ensures forall t :: t in world.TileSet() && t != foodTile ==> unchanged(t)
    ensures old(c.IsHungry()) && foodTile == null ==>
      && (forall x, y :: world.InBounds(x, y) ==> !old(HoldsFood(world.tiles[x][y])))
      && c.taskType == TaskType.Idle && c.targetX == -1 && c.targetY == -1
      && c.hunger == old(c.hunger) && c.mood == old(c.mood)
    ensures foodTile != null ==> foodTile in world.TileSet() && old(HoldsFood(foodTile))
    ensures foodTile != null && arrived ==>
      && foodTile.groundItems == WithoutFirstOfKind(old(foodTile.groundItems), ItemType.Food)
      && CountOf(foodTile.groundItems, ItemType.Food) == CountOf(old(foodTile.groundItems), ItemType.Food) - 1
      && c.hunger == Min(NEED_MAX, old(c.hunger) + HUNGER_EAT_AMOUNT)
      && c.mood == Min(NEED_MAX, old(c.mood) + MOOD_BOOST_AMOUNT)
      && c.taskType == TaskType.Idle && c.targetX == -1 && c.targetY == -1
    ensures foodTile != null && !arrived ==>
      && unchanged(foodTile) && c.hunger == old(c.hunger) && c.mood == old(c.mood)
      && c.taskType == TaskType.MoveToFood && c.targetX == foodTile.x && c.targetY == foodTile.y
  {
    foodTile, arrived := null, false;
    if !c.IsHungry() {
      return false, foodTile, arrived;
    }
    var t := world.FindNearestFoodTile(c.x, c.y);
    foodTile := t;
    if t == null {
      c.ClearTask();
      return true, foodTile, arrived;
    }
    arrived := GoEat(c, t, delta);
    consumed := true;
  }

  /**
   * Rest: declines unless the colonist is tired or already resting. A
   * new rest starts on the colonist's current tile with a 3-second
   * cooldown. When the cooldown has run out, energy is restored, the task
   * cleared and the turn passed on; otherwise resting uses the turn.
   */
  method HandleRest(c: Colonist, delta: real) returns (consumed: bool)
    modifies c
    ensures KeepsStatus(c) && c.carriedItem == old(c.carriedItem)
    ensures c.hunger == old(c.hunger) && c.mood == old(c.mood) && c.x == old(c.x) && c.y == old(c.y)
    ensures !old(c.IsTired()) && old(c.taskType) != TaskType.Resting ==> !consumed && unchanged(c)
    ensures old(c.IsTired()) || old(c.taskType) == TaskType.Resting ==>
      var resting := old(c.taskType) == TaskType.Resting;
      var cooldown := if resting then old(c.wanderCooldown) else REST_DURATION;
      var timer := (if resting then old(c.wanderTimer) else 0.0) + delta;
      && c.wanderCooldown == cooldown && c.wanderTimer == timer
      && (consumed <==> !(cooldown <= 0.0 || timer >= cooldown))
      && (!consumed ==>
            c.energy == Min(NEED_MAX, old(c.energy) + ENERGY_REST_AMOUNT)
            && c.taskType == TaskType.Idle && c.targetX == -1 && c.targetY == -1)
      && (consumed ==> c.energy == old(c.energy) && c.taskType == TaskType.Resting)
      && (consumed && !resting ==> c.targetX == Trunc(old(c.x)) && c.targetY == Trunc(old(c.y)))
      && (consumed && resting ==> c.targetX == old(c.targetX) && c.targetY == old(c.targetY))
  {
    if !c.IsTired() && c.taskType != TaskType.Resting {
      return false;
    }
    if c.taskType != TaskType.Resting {
      c.SetTask(TaskType.Resting, Trunc(c.x), Trunc(c.y));
      c.ResetWanderCooldown(REST_DURATION);
    }
    var done := c.ShouldPickNewWanderTarget(delta);
    if done {
      c.Rest();
      c.ClearTask();
      return false;
    }
    return true;
  }

  /**
   * The collection step shared by miners and growers, stated on the
   * building's buffer: on arrival the oldest item moves into the empty
   * carry slot and the task is cleared; otherwise the building is
   * untouched and the colonist is on its way.
   */
  predicate PickedUp(c: Colonist, oldBuffer: seq<Item>, buffer: seq<Item>, arrived: bool,
                              kind: TaskType, tx: int, ty: int)
    reads c
  {
    && oldBuffer != []
    && (arrived ==>
          buffer == oldBuffer[1..] && c.carriedItem == Some(oldBuffer[0])
          && c.taskType == TaskType.Idle && c.targetX == -1 && c.targetY == -1)
    && (!arrived ==>
          buffer == oldBuffer && c.carriedItem == None
          && c.taskType == kind && c.targetX == tx && c.targetY == ty)
  }

  /**
   * Hauling. A carrying colonist heads for the stockpile (declining when
   * there is none) and on arrival drops its item there. An empty-handed
   * colonist heads for the first miner with output, or else the first
   * food grower with output, and on arrival takes its oldest item; with
   * no output anywhere it declines.
   */
  method HandleHauling(world: World, c: Colonist, delta: real)
    returns (consumed: bool, ghost arrived: bool, ghost mi: Option<nat>, ghost gi: Option<nat>)
    modifies c, world.stockpileTile, (set m | m in world.miners), (set g | g in world.foodGrowers)
    ensures KeepsStatus(c) && KeepsNeedsAndTimers(c)
    ensures old(c.carriedItem).Some? ==> mi.None? && gi.None?
    ensures old(c.carriedItem).None? ==> mi == old(FirstMinerWithOutput(world.miners))
    ensures old(c.carriedItem).None? && mi.None? ==> gi == old(FirstGrowerWithOutput(world.foodGrowers))
    ensures mi.Some? ==> gi.None? && mi.value < |world.miners|
    ensures gi.Some? ==> gi.value < |world.foodGrowers|
    ensures consumed <==> (old(c.carriedItem).Some? && world.stockpileTile != null) || mi.Some? || gi.Some?
    ensures !consumed ==> unchanged(c)
    ensures forall m :: m in world.miners && (mi.None? || m != world.miners[mi.value]) ==> unchanged(m)
    ensures forall g :: g in world.foodGrowers && (gi.None? || g != world.foodGrowers[gi.value]) ==> unchanged(g)
    ensures old(c.carriedItem).None? && world.stockpileTile != null ==> unchanged(world.stockpileTile)
    ensures old(c.carriedItem).Some? && world.stockpileTile != null ==>
      var s := world.stockpileTile;
      && (arrived ==>
            s.groundItems == old(s.groundItems) + [old(c.carriedItem).value] && c.carriedItem == None
            && c.taskType == TaskType.Idle && c.targetX == -1 && c.targetY == -1)
      && (!arrived ==>
            unchanged(s) && c.carriedItem == old(c.carriedItem)
            && c.taskType == TaskType.MoveToStockpile && c.targetX == s.x && c.targetY == s.y)
    ensures mi.Some? ==>
      var m := world.miners[mi.value];
      PickedUp(c, old(m.outputBuffer), m.outputBuffer, arrived, TaskType.MoveToMiner, m.x, m.y)
    ensures gi.Some? ==>
      var g := world.foodGrowers[gi.value];
      PickedUp(c, old(g.outputBuffer), g.outputBuffer, arrived, TaskType.MoveToFoodGrower, g.x, g.y)
  {
    arrived, mi, gi := false, None, None;
    if c.carriedItem.Some? {
      var stockpile := world.stockpileTile;
      if stockpile == null {
        return false, arrived, mi, gi;
      }
      arrived := GoDeliver(c, stockpile, delta);
      return true, arrived, mi, gi;
    }
    mi := FirstMinerWithOutput(world.miners);
    for i := 0 to |world.miners|
      invariant forall j :: 0 <= j < i ==> !world.miners[j].HasOutput()
      invariant unchanged(c)
    {
      var miner := world.miners[i];
      if !miner.HasOutput() {
        continue;
      }
      assert mi == Some(i);
      arrived := GoCollectFromMiner(c, miner, delta);
      return true, arrived, mi, gi;
    }
    gi := FirstGrowerWithOutput(world.foodGrowers);
    for i := 0 to |world.foodGrowers|
      invariant forall j :: 0 <= j < i ==> !world.foodGrowers[j].HasOutput()
      invariant unchanged(c)
    {
      var grower := world.foodGrowers[i];
      if !grower.HasOutput() {
        continue;
      }
      assert gi == Some(i);
      arrived := GoCollectFromGrower(c, grower, delta);
      return true, arrived, mi, gi;
    }
    return false, arrived, mi, gi;
  }

  /**
   * Wandering always acts. When a new target is due (the wander timer ran
   * out or the colonist is idle) it picks a random tile of the grid and a
   * cooldown in [2,4) seconds; it then steps toward the target at 60% speed
   * and clears the task on arrival.
   */
  method HandleWander(world: World, c: Colonist, delta: real) returns (ghost picked: bool, ghost arrived: bool)
    requires world.Valid()
    modifies c
    ensures KeepsStatus(c) && c.carriedItem == old(c.carriedItem)
    ensures c.hunger == old(c.hunger) && c.energy == old(c.energy) && c.mood == old(c.mood)
    ensures picked <==>
      old(c.wanderCooldown) <= 0.0 || old(c.wanderTimer) + delta >= old(c.wanderCooldown) || old(c.taskType) == TaskType.Idle
    ensures picked ==> 2.0 <= c.wanderCooldown < 4.0 && c.wanderTimer == 0.0
    ensures !picked ==> c.wanderCooldown == old(c.wanderCooldown) && c.wanderTimer == old(c.wanderTimer) + delta
    ensures arrived ==> c.taskType == TaskType.Idle && c.targetX == -1 && c.targetY == -1
    ensures !arrived && picked ==>
      c.taskType == TaskType.Wander
      && 0 <= c.targetX && (c.targetX < world.width || c.targetX == 0)
      && 0 <= c.targetY && (c.targetY < world.height || c.targetY == 0)
    ensures !arrived && !picked ==>
      c.taskType == old(c.taskType) && c.targetX == old(c.targetX) && c.targetY == old(c.targetY)
  {
    var due := c.ShouldPickNewWanderTarget(delta);
    var pick := due || c.taskType == TaskType.Idle;
    picked := pick;
    if pick {
      var tx: int := *;
      if !(0 <= tx < world.width) {
        tx := 0;
      }
      var ty: int := *;
      if !(0 <= ty < world.height) {
        ty := 0;
      }
      c.SetTask(TaskType.Wander, tx, ty);
      var cooldown: real := *;
      if !(2.0 <= cooldown < 4.0) {
        cooldown := 2.0;
      }
      c.ResetWanderCooldown(cooldown);
    }
    c.MoveTowardTarget(delta, MOVE_SPEED * 0.6);
    var atTarget := c.IsAtTarget();
    arrived := atTarget;
    if atTarget {
      c.ClearTask();
    }
  }

  /** Whether the colonist takes part in the task loop at all. */
  predicate Active(c: Colonist)
    reads c
  {
    !c.dead && !c.aiDisabled
  }

  /**
   * The end of the chain: hauling, and wandering when hauling declines.
   * miner0 and grower0 are the first miner and food grower with output
   * when the step begins. Wandering is reached exactly when there is
   * nothing to haul. No need changes.
   */
  method HaulOrWander(world: World, c: Colonist, delta: real, ghost miner0: Option<nat>, ghost grower0: Option<nat>)
    returns (ghost wandered: bool)
    requires world.Valid()
    requires miner0 == FirstMinerWithOutput(world.miners) && grower0 == FirstGrowerWithOutput(world.foodGrowers)
    modifies c, world.stockpileTile, (set m | m in world.miners), (set g | g in world.foodGrowers)
    ensures KeepsStatus(c)
    ensures c.hunger == old(c.hunger) && c.energy == old(c.energy) && c.mood == old(c.mood)
    ensures wandered <==>
      && (old(c.carriedItem).Some? ==> world.stockpileTile == null)
      && (old(c.carriedItem).None? ==> miner0.None? && grower0.None?)
  {
    var consumed: bool;
    ghost var arrived: bool, mi: Option<nat>, gi: Option<nat>, picked: bool;
    consumed, arrived, mi, gi := HandleHauling(world, c, delta);
    wandered := !consumed;
    if consumed {
      return;
    }
    picked, arrived := HandleWander(world, c, delta);
  }

  /**
   * The chain after hunger has declined: rest, then hauling, then
   * wandering. ran lists the handlers tried, starting with rest.
   */
  method RestThenWork(world: World, c: Colonist, delta: real, ghost miner0: Option<nat>, ghost grower0: Option<nat>)
    returns (ghost ran: seq<Handler>)
    requires world.Valid()
    requires miner0 == FirstMinerWithOutput(world.miners) && grower0 == FirstGrowerWithOutput(world.foodGrowers)
    modifies c, world.stockpileTile, (set m | m in world.miners), (set g | g in world.foodGrowers)
    ensures KeepsStatus(c)
    ensures ran == [RestHandler] || ran == [RestHandler, HaulingHandler] || ran == [RestHandler, HaulingHandler, WanderHandler]
    ensures |ran| == 1 ==> c.taskType == TaskType.Resting && c.energy == old(c.energy)
    ensures !old(c.IsTired()) && old(c.taskType) != TaskType.Resting ==> |ran| >= 2
    ensures |ran| >= 2 && (old(c.IsTired()) || old(c.taskType) == TaskType.Resting) ==>
      c.energy == Min(NEED_MAX, old(c.energy) + ENERGY_REST_AMOUNT)
    ensures |ran| >= 2 && !old(c.IsTired()) && old(c.taskType) != TaskType.Resting ==> c.energy == old(c.energy)
    ensures |ran| == 3 ==>
      && (old(c.carriedItem).Some? ==> world.stockpileTile == null)
      && (old(c.carriedItem).None? ==> miner0.None? && grower0.None?)
    ensures c.hunger == old(c.hunger) && c.mood == old(c.mood)
  {
    ran := [RestHandler];
    var consumed := HandleRest(c, delta);
    if consumed {
      return;
    }
    var wandered := HaulOrWander(world, c, delta, miner0, grower0);
    ran := if wandered then [RestHandler, HaulingHandler, WanderHandler] else [RestHandler, HaulingHandler];
  }

  /**
   * One colonist's turn. An inactive colonist (dead or under direct
   * control) is skipped. Otherwise the handlers are tried in chain order
   * and ran records those that were tried: the last one acted, the ones
   * before it declined. Hunger acts exactly for a hungry colonist; rest
   * acts for a tired or resting one unless its rest has just finished;
   * hauling is passed over only when there is nothing to haul; wandering
   * always acts. No need is ever lowered.
   */
  method UpdateColonist(world: World, c: Colonist, delta: real) returns (ghost ran: seq<Handler>)
    requires world.Valid()
    modifies c, world.TileSet(), world.stockpileTile, (set m | m in world.miners), (set g | g in world.foodGrowers)
    ensures KeepsStatus(c)
    ensures !old(Active(c)) ==> ran == [] && unchanged(c)
    ensures old(Active(c)) ==> 1 <= |ran| <= |Chain| && ran == Chain[..|ran|]
    ensures |ran| == 1 <==> old(Active(c)) && old(c.IsHungry())
    ensures |ran| == 2 ==> c.taskType == TaskType.Resting && c.energy == old(c.energy)
    ensures old(Active(c)) && !old(c.IsHungry()) && !old(c.IsTired()) && old(c.taskType) != TaskType.Resting ==>
      |ran| >= 3
    ensures |ran| >= 3 && (old(c.IsTired()) || old(c.taskType) == TaskType.Resting) ==>
      c.energy == Min(NEED_MAX, old(c.energy) + ENERGY_REST_AMOUNT)
    ensures |ran| == 4 ==>
      && (old(c.carriedItem).Some? ==> world.stockpileTile == null)
      && (old(c.carriedItem).None? ==>
            old(FirstMinerWithOutput(world.miners)).None? && old(FirstGrowerWithOutput(world.foodGrowers)).None?)
    ensures old(c.hunger) <= NEED_MAX ==> old(c.hunger) <= c.hunger <= NEED_MAX
    ensures old(c.energy) <= NEED_MAX ==> old(c.energy) <= c.energy <= NEED_MAX
    ensures old(c.mood) <= NEED_MAX ==> old(c.mood) <= c.mood <= NEED_MAX
  {
    ran := [];
    if c.dead || c.aiDisabled {
      return;
    }
    ghost var miner0 := FirstMinerWithOutput(world.miners);
    ghost var grower0 := FirstGrowerWithOutput(world.foodGrowers);
    var consumed: bool;
    ghost var foodTile: Tile?, arrived: bool;
    consumed, foodTile, arrived := HandleHunger(world, c, delta);
    if consumed {
      ran := [HungerHandler];
      return;
    }
    var rest := RestThenWork(world, c, delta, miner0, grower0);
    ran := [HungerHandler] + rest;
    assert |ran| == 2 || |ran| == 3 || ran == Chain;
  }

  /**
   * One tick of the task loop over every colonist in list order. Nobody
   * dies, revives or changes control; inactive colonists are untouched;
   * no need of any colonist is lowered. runs[i] is the handler trace of
   * the i-th colonist's turn; when no colonist is listed twice, that
   * turn ended at the hunger handler exactly when the colonist was active
   * and hungry when the tick began.
   */
  method Update(world: World, delta: real) returns (ghost runs: seq<seq<Handler>>)
    requires world.Valid()
    modifies (set c | c in world.colonists), world.TileSet(), world.stockpileTile,
      (set m | m in world.miners), (set g | g in world.foodGrowers)
    ensures forall c :: c in world.colonists ==> KeepsStatus(c)
    ensures forall c :: c in world.colonists && !old(Active(c)) ==> unchanged(c)
    ensures |runs| == |world.colonists|
    ensures forall i :: 0 <= i < |runs| ==>
      (runs[i] == [] <==> !old(Active(world.colonists[i])))
      && |runs[i]| <= |Chain| && runs[i] == Chain[..|runs[i]|]
    ensures forall c :: c in world.colonists && old(c.hunger) <= NEED_MAX ==> old(c.hunger) <= c.hunger <= NEED_MAX
    ensures forall c :: c in world.colonists && old(c.energy) <= NEED_MAX ==> old(c.energy) <= c.energy <= NEED_MAX
    ensures forall c :: c in world.colonists && old(c.mood) <= NEED_MAX ==> old(c.mood) <= c.mood <= NEED_MAX
    ensures NoDuplicates(world.colonists) ==> forall i :: 0 <= i < |runs| ==>
      (|runs[i]| == 1 <==> old(Active(world.colonists[i])) && old(world.colonists[i].IsHungry()))
  {
    runs := [];
    for i := 0 to |world.colonists|
      invariant forall c :: c in world.colonists ==> KeepsStatus(c)
      invariant forall c :: c in world.colonists && !old(Active(c)) ==> unchanged(c)
      invariant |runs| == i
      invariant forall j :: 0 <= j < i ==>
        (runs[j] == [] <==> !old(Active(world.colonists[j]))) && |runs[j]| <= |Chain| && runs[j] == Chain[..|runs[j]|]
      invariant forall c :: c in world.colonists && old(c.hunger) <= NEED_MAX ==> old(c.hunger) <= c.hunger <= NEED_MAX
      invariant forall c :: c in world.colonists && old(c.energy) <= NEED_MAX ==> old(c.energy) <= c.energy <= NEED_MAX
      invariant forall c :: c in world.colonists && old(c.mood) <= NEED_MAX ==> old(c.mood) <= c.mood <= NEED_MAX
      invariant NoDuplicates(world.colonists) ==>
        forall k :: i <= k < |world.colonists| ==> world.colonists[k].hunger == old(world.colonists[k].hunger)
      invariant NoDuplicates(world.colonists) ==> forall j :: 0 <= j < i ==>
        (|runs[j]| == 1 <==> old(Active(world.colonists[j])) && old(world.colonists[j].IsHungry()))
    {
      var c := world.colonists[i];
      label Before:
      var ran := UpdateColonist(world, c, delta);
      forall c' | c' in world.colonists && c' != c ensures unchanged@Before(c') { }
      runs := runs + [ran];
    }
  }
}
