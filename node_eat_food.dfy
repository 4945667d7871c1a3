/**
 * The eat-food behaviour: its priority grows with hunger (and holds at
 * 80 while a haul is under way); its step walks to the nearest FOOD tile
 * and eats there, or, with no FOOD on the ground, carries food from a
 * food grower to the stockpile and eats it there.
 */
module EatFoodNode {

  import opened Common
  import opened Ecs
  import opened DataComponents
  import opened AIComponents
  import opened NeedsComponents
  import opened NeedTiers
  import opened BuildingComponents
  import opened BuildingProduction
  import opened Tiles
  import opened Colonists
  import opened Worlds
  import opened NodeQueries
  import opened NodeSteps

  const MOVE_SPEED: real := 2.2

  /**
   * 0 without needs; 80 while hauling; otherwise 100 when starving
   * (hunger at most 0.1), 80 when urgently hungry (up to 0.3), 50 when
   * hungry (up to 0.6) and 0 when fed.
   */
  function EatFoodPriority(e: Entity): (p: real)
    reads e, e.needs, e.ai
    ensures e.needs == null ==> p == 0.0
    ensures e.needs != null && e.ai != null && e.ai.taskType == TaskType.Hauling ==> p == 80.0
    ensures e.needs != null && (e.ai == null || e.ai.taskType != TaskType.Hauling) ==>
      && (p == 100.0 <==> e.needs.hunger <= 0.1)
      && (p == 80.0 <==> 0.1 < e.needs.hunger <= 0.3)
      && (p == 50.0 <==> 0.3 < e.needs.hunger <= 0.6)
      && (p == 0.0 <==> e.needs.hunger > 0.6)
  {
    if e.needs == null then 0.0
    else if e.ai != null && e.ai.taskType == TaskType.Hauling then 80.0
    else
      HungerBands(e.needs.hunger);
      match e.needs.HungerTier()
      case Starving => 100.0
      case UrgentlyHungry => 80.0
      case Hungry => 50.0
      case Fed => 0.0
  }

  /** A hungrier agent never gets a lower eating priority, when neither is hauling. */
  lemma EatFoodPriorityMonotone(e1: Entity, e2: Entity)
    requires e1.needs != null && e2.needs != null
    requires e1.ai == null || e1.ai.taskType != TaskType.Hauling
    requires e2.ai == null || e2.ai.taskType != TaskType.Hauling
    requires e1.needs.hunger <= e2.needs.hunger
    ensures EatFoodPriority(e1) >= EatFoodPriority(e2)
  {
    HungerBands(e1.needs.hunger);
    HungerBands(e2.needs.hunger);
  }

  /**
   * Eating at FOOD tile t: on arrival one FOOD is gone from t, a meal is
   * eaten and the task cleared; otherwise t and the needs are as before
   * and the agent is heading for t.
   */
  twostate predicate AteAtTile(ai: AIComponent, needs: NeedsComponent, t: Tile, arrived: bool)
    reads ai, needs, t
  {
    if arrived then
      && t.groundItems == WithoutFirstOfKind(old(t.groundItems), ItemType.Food)
      && CountOf(t.groundItems, ItemType.Food) == CountOf(old(t.groundItems), ItemType.Food) - 1
      && needs.hunger == Min(FULL, old(needs.hunger) + EAT_AMOUNT)
      && needs.mood == Min(FULL, old(needs.mood) + MOOD_BOOST)
      && Cleared(ai)
    else
      && t.groundItems == old(t.groundItems) && needs.hunger == old(needs.hunger) && needs.mood == old(needs.mood)
      && Tasked(ai, TaskType.MoveToFood, t.x, t.y)
  }

  /**
   * Eating carried FOOD at stockpile s: on arrival the food was dropped
   * and the earliest FOOD of s taken back and eaten, so every count of s
   * is as before, the hands are empty and the task cleared; otherwise s,
   * the hands and the needs are as before and the agent hauls toward s.
   */
  twostate predicate AteAtStockpile(ai: AIComponent, inv: InventoryComponent, needs: NeedsComponent, s: Tile,
                                    arrived: bool)
    reads ai, inv, needs, s
  {
    if arrived then
      && old(inv.carriedItem).Some?
      && s.groundItems == WithoutFirstOfKind(old(s.groundItems) + [old(inv.carriedItem).value], ItemType.Food)
      && (forall u :: CountOf(s.groundItems, u) == CountOf(old(s.groundItems), u))
      && inv.carriedItem == None
      && needs.hunger == Min(FULL, old(needs.hunger) + EAT_AMOUNT)
      && needs.mood == Min(FULL, old(needs.mood) + MOOD_BOOST)
      && Cleared(ai)
    else
      && s.groundItems == old(s.groundItems) && inv.carriedItem == old(inv.carriedItem)
      && needs.hunger == old(needs.hunger) && needs.mood == old(needs.mood)
      && Tasked(ai, TaskType.Hauling, s.x, s.y)
  }

  /**
   * Fetching from the grower with building bc at position bp: on arrival
   * its oldest output is taken; with an inventory it is carried (whatever
   * was held is replaced) and the task is HAULING at the grower's tile,
   * without one the task is cleared. Otherwise the grower and the hands
   * are as before and the agent is heading for the grower.
   */
  twostate predicate FetchedFood(ai: AIComponent, inv: InventoryComponent?, bp: PositionComponent,
                                 bc: BuildingComponent, arrived: bool)
    reads ai, inv, bp, bc
  {
    if arrived then
      && old(bc.outputBuffer) != [] && bc.outputBuffer == old(bc.outputBuffer)[1..]
      && (inv != null ==>
            inv.carriedItem == Some(old(bc.outputBuffer)[0]) && Tasked(ai, TaskType.Hauling, Trunc(bp.x), Trunc(bp.y)))
      && (inv == null ==> Cleared(ai))
    else
      && bc.outputBuffer == old(bc.outputBuffer) && (inv != null ==> inv.carriedItem == old(inv.carriedItem))
      && Tasked(ai, TaskType.MoveToFoodGrower, Trunc(old(bp.x)), Trunc(old(bp.y)))
  }

  /** Walks to FOOD tile t; on arrival takes one FOOD from it, eats, and clears the task. */
  method EatAtTile(ai: AIComponent, pos: PositionComponent, needs: NeedsComponent, t: Tile, delta: real)
    returns (ghost arrived: bool)
    requires HoldsFood(t)
    modifies ai, pos, needs`hunger, needs`mood, t`groundItems
    ensures KeepsTimers(ai)
    ensures AteAtTile(ai, needs, t, arrived)
  {
    ai.SetTask(TaskType.MoveToFood, t.x, t.y);
    ai.MoveTowardTarget(pos, delta, MOVE_SPEED);
    var atTarget := ai.IsAtTarget(pos.x, pos.y);
    arrived := atTarget;
    if atTarget {
      var food := t.TakeFirstItem(ItemType.Food);
      if food.Some? {
        needs.Eat();
      }
      ai.ClearTask();
    }
  }

  /** Carries held FOOD to stockpile s and eats there on arrival. */
  method DeliverAndEat(ai: AIComponent, pos: PositionComponent, inv: InventoryComponent, needs: NeedsComponent,
                       s: Tile, delta: real)
    returns (ghost arrived: bool)
    requires inv.carriedItem.Some? && inv.carriedItem.value.itemType == ItemType.Food
    modifies ai, pos, inv, needs`hunger, needs`mood, s`groundItems
    ensures KeepsTimers(ai)
    ensures AteAtStockpile(ai, inv, needs, s, arrived)
  {
    ai.SetTask(TaskType.Hauling, s.x, s.y);
    ai.MoveTowardTarget(pos, delta, MOVE_SPEED);
    var atTarget := ai.IsAtTarget(pos.x, pos.y);
    arrived := atTarget;
    if atTarget {
      DropAndEat(inv, needs, s);
      ai.ClearTask();
    }
  }

  /**
   * Drops held FOOD on s, takes the earliest FOOD of s back out and eats
   * it: the take always succeeds, and every count of s ends as it was.
   */
  method DropAndEat(inv: InventoryComponent, needs: NeedsComponent, s: Tile)
    requires inv.carriedItem.Some? && inv.carriedItem.value.itemType == ItemType.Food
    modifies inv, needs`hunger, needs`mood, s`groundItems
    ensures s.groundItems == WithoutFirstOfKind(old(s.groundItems) + [old(inv.carriedItem).value], ItemType.Food)
    ensures forall u :: CountOf(s.groundItems, u) == CountOf(old(s.groundItems), u)
    ensures inv.carriedItem == None
    ensures needs.hunger == Min(FULL, old(needs.hunger) + EAT_AMOUNT)
    ensures needs.mood == Min(FULL, old(needs.mood) + MOOD_BOOST)
  {
    var item := inv.carriedItem.value;
    s.AddItem(item);
    inv.carriedItem := None;
    var food := s.TakeFirstItem(ItemType.Food);
    if food.Some? {
      needs.Eat();
    }
    forall u ensures CountOf(s.groundItems, u) == CountOf(old(s.groundItems), u) {
      AddThenTakeRestoresCounts(old(s.groundItems), item, u);
    }
  }

  /** Walks to the grower with building bc at position bp and picks up its output on arrival. */
  method CollectFood(ai: AIComponent, pos: PositionComponent, inv: InventoryComponent?, bp: PositionComponent,
                     bc: BuildingComponent, delta: real)
    returns (ghost arrived: bool)
    requires bc.HasOutput()
    modifies ai, pos, inv, bc`outputBuffer
    ensures KeepsTimers(ai)
    ensures FetchedFood(ai, inv, bp, bc, arrived)
  {
    ai.SetTask(TaskType.MoveToFoodGrower, Trunc(bp.x), Trunc(bp.y));
    ai.MoveTowardTarget(pos, delta, MOVE_SPEED);
    var atTarget := ai.IsAtTarget(pos.x, pos.y);
    arrived := atTarget;
    if atTarget {
      var output := bc.TakeOutput();
      if output.Some? && inv != null {
        inv.carriedItem := output;
        ai.SetTask(TaskType.Hauling, Trunc(bp.x), Trunc(bp.y));
      } else {
        ai.ClearTask();
      }
    }
  }

  /**
   * The food-grower fallback over the placed buildings of the registry:
   * the first whose type names a food grower (any letter case, with or
   * without the underscore) and that has output. With none the step
   * declines and touches nothing.
   */
  method FetchFromGrower(e: Entity, ecs: ECSWorld, delta: real)
    returns (handled: bool, ghost growers: seq<Entity>, ghost gi: Option<nat>, ghost arrived: bool)
    requires e.ai != null && e.pos != null
    modifies e.ai, e.pos, e.inv, BuildingsOf(ecs.entities)
    ensures KeepsTimers(e.ai)
    ensures growers == old(With(ecs.entities, PlacedBuildingKinds))
    ensures forall b :: b in growers ==> b.building != null && b.pos != null
    ensures gi == old(FirstOffering(growers, FoodGrowerAnyCase))
    ensures handled <==> gi.Some?
    ensures gi.None? ==>
      && unchanged(e.ai) && unchanged(e.pos) && (e.inv != null ==> unchanged(e.inv))
      && forall b :: b in BuildingsOf(ecs.entities) ==> unchanged(b)
    ensures gi.Some? ==>
      gi.value < |growers| && FetchedFood(e.ai, e.inv, growers[gi.value].pos, growers[gi.value].building, arrived)
  {
    var buildings := With(ecs.entities, PlacedBuildingKinds);
    forall b | b in buildings ensures b in ecs.entities && b.building != null && b.pos != null {
      PlacedSelected(ecs.entities, b);
    }
    growers, gi, arrived := buildings, None, false;
    var i := 0;
    while i < |buildings| && !Offers(buildings[i], FoodGrowerAnyCase)
      invariant 0 <= i <= |buildings|
      invariant forall j :: 0 <= j < i ==> !Offers(buildings[j], FoodGrowerAnyCase)
    {
      i := i + 1;
    }
    if i == |buildings| {
      return false, growers, gi, arrived;
    }
    gi := Some(i);
    var g := buildings[i];
    assert g.building in BuildingsOf(ecs.entities);
    arrived := CollectFood(e.ai, e.pos, e.inv, g.pos, g.building, delta);
    handled := true;
  }

  /**
   * Carried FOOD: with no stockpile it is dropped, the task cleared and
   * the step declines; otherwise it is carried to the stockpile and eaten
   * there on arrival.
   */
  method EatCarried(e: Entity, world: World, delta: real) returns (handled: bool, ghost arrived: bool)
    requires CanEat(e) && Carries(e, ItemType.Food)
    modifies e.ai, e.pos, e.inv, e.needs, world.stockpileTile
    ensures KeepsTimers(e.ai)
    ensures world.stockpileTile == null ==>
      && !handled && e.inv.carriedItem == None && Cleared(e.ai)
      && unchanged(e.needs) && unchanged(e.pos)
    ensures world.stockpileTile != null ==>
      handled && AteAtStockpile(e.ai, e.inv, e.needs, world.stockpileTile, arrived)
  {
    var stockpile := world.stockpileTile;
    arrived := false;
    if stockpile == null {
      e.inv.carriedItem := None;
      e.ai.ClearTask();
      return false, arrived;
    }
    arrived := DeliverAndEat(e.ai, e.pos, e.inv, e.needs, stockpile, delta);
    handled := true;
  }

  /** The agent holds the needs, the task record and the position the step works on. */
  predicate CanEat(e: Entity)
    reads e
  {
    e.needs != null && e.ai != null && e.pos != null
  }

  /**
   * The choices after the ground: carried FOOD is eaten at the stockpile
   * (or dropped when there is none); otherwise the first food grower with
   * output is fetched from.
   */
  method EatWithoutGroundFood(e: Entity, ecs: ECSWorld, world: World, delta: real)
    returns (handled: bool, ghost growers: seq<Entity>, ghost gi: Option<nat>, ghost arrived: bool)
    requires world.Valid() && CanEat(e)
    modifies e.ai, e.pos, e.inv, e.needs, world.stockpileTile, BuildingsOf(ecs.entities)
    ensures KeepsTimers(e.ai)
    ensures AteWithoutGround(e, ecs, world, handled, growers, gi, arrived)
  {
    growers, gi, arrived := [], None, false;
    var inv := e.inv;
    if inv != null && inv.carriedItem.Some? && inv.carriedItem.value.itemType == ItemType.Food {
      handled, arrived := EatCarried(e, world, delta);
      return handled, growers, gi, arrived;
    }
    handled, growers, gi, arrived := FetchFromGrower(e, ecs, delta);
  }

  /**
   * What eating from the ground did: with foodTile set, the agent went
   * for that FOOD tile of the map and ate there on arrival, and no other
   * tile changed.
   */
  twostate predicate AteFromGround(e: Entity, world: World, new foodTile: Tile?, arrived: bool)
    reads *
  {
    && unchanged(e) && unchanged(world) && world.Valid() && old(e.pos) != null
    && (foodTile != null ==>
          && world.InBounds(foodTile.x, foodTile.y) && foodTile == world.tiles[foodTile.x][foodTile.y]
          && old(allocated(foodTile))
          && e.ai != null && e.needs != null && old(allocated(e.ai)) && old(allocated(e.needs))
          && AteAtTile(e.ai, e.needs, foodTile, arrived)
          && forall t :: t in world.TileSet() && t != foodTile ==> unchanged(t))
  }

  /**
   * What the step did with carried FOOD and none on the ground: with no
   * stockpile the food was dropped, the task cleared and the step
   * declined; otherwise the agent carried it to the stockpile and ate it
   * there on arrival.
   */
  twostate predicate AteCarried(e: Entity, world: World, handled: bool, arrived: bool)
    reads *
  {
    && old(e.ai) == e.ai && old(e.inv) == e.inv && old(e.needs) == e.needs
    && old(world.stockpileTile) == world.stockpileTile
    && e.ai != null && e.needs != null && e.inv != null
    && (world.stockpileTile == null ==>
          !handled && e.inv.carriedItem == None && Cleared(e.ai) && unchanged(e.needs))
    && (world.stockpileTile != null ==>
          handled && AteAtStockpile(e.ai, e.inv, e.needs, world.stockpileTile, arrived))
  }

  /**
   * What the step did with no FOOD on the ground or in hand: it fetched
   * from the first placed food grower with output (gi among growers), and
   * declined, touching nothing, when none has any.
   */
  twostate predicate FetchedFromGrower(e: Entity, ecs: ECSWorld, handled: bool, new growers: seq<Entity>,
                                       new gi: Option<nat>, arrived: bool)
    reads *
  {
    && old(e.ai) == e.ai && old(e.inv) == e.inv && old(e.needs) == e.needs && old(e.pos) == e.pos
    && e.ai != null && e.needs != null && e.pos != null
    && growers == old(With(ecs.entities, PlacedBuildingKinds)) && old(allocated(growers))
    && gi == old(FirstOffering(growers, FoodGrowerAnyCase))
    && (handled <==> gi.Some?) && unchanged(e.needs)
    && (gi.None? ==>
          && unchanged(e.ai) && unchanged(e.pos) && (e.inv != null ==> unchanged(e.inv))
          && BuildingsOf(ecs.entities) == old(BuildingsOf(ecs.entities))
          && forall b :: b in old(BuildingsOf(ecs.entities)) ==> unchanged(b))
    && (gi.Some? ==>
          gi.value < |growers| && old(growers[gi.value].building) != null && old(growers[gi.value].pos) != null
          && FetchedFood(e.ai, e.inv, old(growers[gi.value].pos), old(growers[gi.value].building), arrived))
  }

  /**
   * What the step did with no FOOD on the ground: carried FOOD was dealt
   * with (AteCarried), and otherwise the food growers were tried
   * (FetchedFromGrower). No tile but the stockpile changed.
   */
  twostate predicate AteWithoutGround(e: Entity, ecs: ECSWorld, world: World, handled: bool,
                                      new growers: seq<Entity>, new gi: Option<nat>, arrived: bool)
    reads *
  {
    && old(world.stockpileTile) == world.stockpileTile
    && (forall t :: t in world.TileSet() && t != world.stockpileTile ==> unchanged(t))
    && (old(Carries(e, ItemType.Food)) ==> gi.None? && AteCarried(e, world, handled, arrived))
    && (!old(Carries(e, ItemType.Food)) ==> FetchedFromGrower(e, ecs, handled, growers, gi, arrived))
  }

  /**
   * What one eat-food step did to agent e, given the ghost record of its
   * choices. Without needs, a task record or a position it declined and
   * touched nothing. Otherwise foodTile is the map's FOOD tile nearest
   * to the agent (World.NearestFoodTile); with one it ate from the ground
   * (AteFromGround), and with none it fell back to carried food and the
   * food growers (AteWithoutGround). The agent's timers and AI switch are
   * never changed.
   */
  twostate predicate EatStepped(e: Entity, ecs: ECSWorld, world: World, handled: bool, new foodTile: Tile?,
                                new growers: seq<Entity>, new gi: Option<nat>, arrived: bool)
    reads *
  {
    && unchanged(e) && unchanged(world) && unchanged(ecs) && world.Valid()
    && KeepsControl(e)
    && (e.ai != null ==> KeepsTimers(e.ai))
    && (!CanEat(e) ==> !handled && Untouched(e, ecs.entities, world))
    && (CanEat(e) ==>
          && foodTile == old(world.NearestFoodTile(e.pos.x, e.pos.y))
          && (foodTile != null ==> handled && AteFromGround(e, world, foodTile, arrived))
          && (foodTile == null ==> AteWithoutGround(e, ecs, world, handled, growers, gi, arrived)))
  }

  /**
   * The step for an agent able to eat: the FOOD tile the world finds
   * nearest to it when there is one, and only when there is none carried
   * food and then the food growers.
   */
  method EatWhenAble(e: Entity, ecs: ECSWorld, world: World, delta: real)
    returns (handled: bool, ghost foodTile: Tile?, ghost growers: seq<Entity>, ghost gi: Option<nat>,
             ghost arrived: bool)
    requires world.Valid() && CanEat(e)
    modifies e.ai, e.pos, e.inv, e.needs, world.TileSet(), world.stockpileTile, BuildingsOf(ecs.entities)
    ensures KeepsTimers(e.ai)
    ensures foodTile == old(world.NearestFoodTile(e.pos.x, e.pos.y))
    ensures foodTile != null ==> handled && AteFromGround(e, world, foodTile, arrived)
    ensures foodTile == null ==> AteWithoutGround(e, ecs, world, handled, growers, gi, arrived)
  {
    gi, growers, arrived := None, [], false;
    var t := world.NearestFoodTile(e.pos.x, e.pos.y);
    foodTile := t;
    if t != null {
      arrived := EatAtTile(e.ai, e.pos, e.needs, t, delta);
      return true, foodTile, growers, gi, arrived;
    }
    handled, growers, gi, arrived := EatWithoutGroundFood(e, ecs, world, delta);
  }

  /**
   * One step of the eat-food behaviour (EatStepped). It declines,
   * touching nothing, without needs, a task record or a position.
   * Otherwise it eats from the nearest FOOD tile when there is one, and
   * only when there is none turns to carried food and then to the food
   * growers.
   */
  method ExecuteEatFood(e: Entity, ecs: ECSWorld, world: World, delta: real)
    returns (handled: bool, ghost foodTile: Tile?, ghost growers: seq<Entity>, ghost gi: Option<nat>,
             ghost arrived: bool)
    requires world.Valid()
    modifies e.ai, e.pos, e.inv, e.needs, world.TileSet(), world.stockpileTile, BuildingsOf(ecs.entities)
    ensures EatStepped(e, ecs, world, handled, foodTile, growers, gi, arrived)
  {
    if e.needs == null || e.ai == null || e.pos == null {
      return false, null, [], None, false;
    }
    handled, foodTile, growers, gi, arrived := EatWhenAble(e, ecs, world, delta);
  }
}
