/**
 * The haul behaviour, for agents with the hauler job enabled: deliver
 * whatever is carried to the stockpile, or fetch from the nearest
 * building with output. A haul that has not arrived after five seconds
 * counts as stuck: the agent is handed to the stuck recovery and the
 * step declines.
 */
module HaulNode {

  import opened Common
  import opened Ecs
  import opened DataComponents
  import opened AIComponents
  import opened BuildingComponents
  import opened BuildingProduction
  import opened WorkSettings
  import opened Tiles
  import opened Worlds
  import opened NodeQueries
  import opened NodeSteps

  const MOVE_SPEED: real := 2.2
  /** Seconds a haul may take before the agent counts as stuck. */
  const STUCK_TIMEOUT_SECONDS: real := 5.0

  /**
   * 0 without work settings or with the hauler job off; otherwise 50
   * while carrying, and else 50 exactly when some building of the
   * registry has output.
   */
  function HaulPriority(e: Entity, es: seq<Entity>): (p: real)
    reads e, e.ws, e.inv, es, With(es, BuildingKinds), BuildingsOf(With(es, BuildingKinds))
    ensures p == 50.0 || p == 0.0
    ensures p == 50.0 <==>
      && e.ws != null && e.ws.GetPriority(ColonistRole.Hauler) != 0
      && ((e.inv != null && e.inv.carriedItem.Some?) || AnyOffers(With(es, BuildingKinds), AnyBuilding))
  {
    if e.ws == null || e.ws.GetPriority(ColonistRole.Hauler) == 0 then 0.0
    else if e.inv != null && e.inv.carriedItem.Some? then 50.0
    else if AnyOffers(With(es, BuildingKinds), AnyBuilding) then 50.0
    else 0.0
  }

  /** The priority as the source computes it, with an early-exit scan of the buildings. */
  method GetPriority(e: Entity, ecs: ECSWorld) returns (p: real)
    ensures p == HaulPriority(e, ecs.entities)
  {
    var ws := e.ws;
    if ws == null || ws.GetPriority(ColonistRole.Hauler) == 0 {
      return 0.0;
    }
    var inv := e.inv;
    if inv != null && inv.carriedItem.Some? {
      return 50.0;
    }
    var found := ScanAnyOffers(With(ecs.entities, BuildingKinds), AnyBuilding);
    p := if found then 50.0 else 0.0;
  }

  /**
   * Hauling to the building with component bc at position bp: on arrival
   * its oldest output is in the hands, the task cleared and the stuck
   * timer reset; otherwise the buffer and the hands are as before, the
   * task is HAULING at the floor of the building's coordinates and the
   * stuck timer has grown by delta.
   */
  twostate predicate Fetched(ai: AIComponent, inv: InventoryComponent, bp: PositionComponent,
                             bc: BuildingComponent, delta: real, arrived: bool)
    reads ai, inv, bp, bc
  {
    if arrived then
      && old(bc.outputBuffer) != [] && bc.outputBuffer == old(bc.outputBuffer)[1..]
      && inv.carriedItem == Some(old(bc.outputBuffer)[0]) && Cleared(ai) && ai.stuckTimer == 0.0
    else
      && bc.outputBuffer == old(bc.outputBuffer) && inv.carriedItem == old(inv.carriedItem)
      && Tasked(ai, TaskType.Hauling, old(bp.x).Floor, old(bp.y).Floor)
      && ai.stuckTimer == old(ai.stuckTimer) + delta
  }

  /** The wander timer and cooldown and the disabled flag are as before. */
  twostate predicate KeepsWander(ai: AIComponent)
    reads ai
  {
    ai.wanderTimer == old(ai.wanderTimer) && ai.wanderCooldown == old(ai.wanderCooldown)
    && ai.aiDisabled == old(ai.aiDisabled)
  }

  /**
   * The delivery half: heads for stockpile s and adds delta to the stuck
   * timer. Past the timeout the agent goes to the stuck recovery and the
   * step declines with the item still in hand; otherwise it moves, and on
   * arrival drops the item on s and resets the stuck timer.
   */
  method HaulDeliver(ai: AIComponent, pos: PositionComponent, inv: InventoryComponent, s: Tile, delta: real)
    returns (handled: bool, ghost arrived: bool)
    requires inv.carriedItem.Some?
    modifies ai, pos, inv, s`groundItems
    ensures ai.aiDisabled == old(ai.aiDisabled)
    ensures handled <==> old(ai.stuckTimer) + delta <= STUCK_TIMEOUT_SECONDS
    ensures !handled ==> s.groundItems == old(s.groundItems) && unchanged(inv)
    ensures handled ==>
      && KeepsWander(ai) && Delivered(ai, inv, s, arrived)
      && ai.stuckTimer == (if arrived then 0.0 else old(ai.stuckTimer) + delta)
  {
    arrived := false;
    ai.SetTask(TaskType.MoveToStockpile, s.x, s.y);
    ai.stuckTimer := ai.stuckTimer + delta;
    if ai.stuckTimer > STUCK_TIMEOUT_SECONDS {
      ai.RecoverFromStuck(pos);
      return false, arrived;
    }
    ai.MoveAlongPath(pos, delta, MOVE_SPEED);
    var atTarget := ai.IsAtTarget(pos.x, pos.y);
    arrived := atTarget;
    if atTarget {
      s.AddItem(inv.carriedItem.value);
      inv.carriedItem := None;
      ai.ClearTask();
      ai.stuckTimer := 0.0;
    }
    handled := true;
  }

  /**
   * The pickup half: heads for the building with component bc at
   * position bp and adds delta to the stuck timer. Past the timeout the
   * agent goes to the stuck recovery and the step declines; otherwise it
   * moves, and on arrival takes the building's oldest output.
   */
  method HaulFetch(ai: AIComponent, pos: PositionComponent, inv: InventoryComponent, bp: PositionComponent,
                   bc: BuildingComponent, delta: real)
    returns (handled: bool, ghost arrived: bool)
    requires bc.HasOutput()
    modifies ai, pos, inv, bc`outputBuffer
    ensures ai.aiDisabled == old(ai.aiDisabled)
    ensures handled <==> old(ai.stuckTimer) + delta <= STUCK_TIMEOUT_SECONDS
    ensures !handled ==> unchanged(bc) && unchanged(inv)
    ensures handled ==> KeepsWander(ai) && Fetched(ai, inv, bp, bc, delta, arrived)
  {
    arrived := false;
    ai.SetTask(TaskType.Hauling, bp.x.Floor, bp.y.Floor);
    ai.stuckTimer := ai.stuckTimer + delta;
    if ai.stuckTimer > STUCK_TIMEOUT_SECONDS {
      ai.RecoverFromStuck(pos);
      return false, arrived;
    }
    ai.MoveAlongPath(pos, delta, MOVE_SPEED);
    var atTarget := ai.IsAtTarget(pos.x, pos.y);
    arrived := atTarget;
    if atTarget {
      var output := bc.TakeOutput();
      if output.Some? {
        inv.carriedItem := output;
      }
      ai.ClearTask();
      ai.stuckTimer := 0.0;
    }
    handled := true;
  }

  /**
   * The pickup choice over the placed buildings: the one with output at
   * the smallest squared distance from the agent, the first in registry
   * order on ties. With none the step declines and touches nothing.
   */
  method HaulFromNearest(e: Entity, ecs: ECSWorld, delta: real)
    returns (handled: bool, ghost placed: seq<Entity>, nearest: Option<nat>, ghost arrived: bool)
    requires CanWork(e) && e.inv.carriedItem.None?
    modifies e.ai, e.pos, e.inv, BuildingsOf(ecs.entities)
    ensures e.ai.aiDisabled == old(e.ai.aiDisabled)
    ensures placed == old(With(ecs.entities, PlacedBuildingKinds))
    ensures forall b :: b in placed ==> b.building != null && b.pos != null
    ensures nearest.None? <==> !old(AnyOffers(placed, AnyBuilding))
    ensures nearest.Some? ==>
      nearest.value < |placed| && old(NearestAt(placed, OfferingSet(placed, AnyBuilding), e.pos.x, e.pos.y, nearest.value))
    ensures nearest.None? ==>
      && !handled && unchanged(e.ai) && unchanged(e.pos) && unchanged(e.inv)
      && forall b :: b in BuildingsOf(ecs.entities) ==> unchanged(b)
    ensures nearest.Some? ==>
      && (handled <==> old(e.ai.stuckTimer) + delta <= STUCK_TIMEOUT_SECONDS)
      && (!handled ==> unchanged(placed[nearest.value].building) && unchanged(e.inv))
      && (handled ==>
            KeepsWander(e.ai) && Fetched(e.ai, e.inv, placed[nearest.value].pos, placed[nearest.value].building, delta, arrived))
  {
    var buildings := With(ecs.entities, PlacedBuildingKinds);
    forall b | b in buildings ensures b in ecs.entities && b.building != null && b.pos != null {
      PlacedSelected(ecs.entities, b);
    }
    placed, arrived := buildings, false;
    nearest := ScanNearestOffering(buildings, e.pos.x, e.pos.y);
    if nearest.None? {
      return false, placed, nearest, arrived;
    }
    var b := buildings[nearest.value];
    assert b.building in BuildingsOf(ecs.entities);
    handled, arrived := HaulFetch(e.ai, e.pos, e.inv, b.pos, b.building, delta);
  }

  /**
   * What one haul step did to agent e, given the placed buildings it
   * looked among and the one it picked (nearest). Without a task record,
   * a position or an inventory it declined and touched nothing. Carrying
   * an item it takes it to the stockpile (declining when there is none);
   * empty-handed it goes for the nearest building with output and takes
   * the oldest item on arrival. Either way it gives up, touching nothing
   * more, once stuck longer than STUCK_TIMEOUT_SECONDS.
   */
  twostate predicate HaulStepped(e: Entity, ecs: ECSWorld, world: World, delta: real, handled: bool, new placed: seq<Entity>, new nearest: Option<nat>, arrived: bool)
    reads *
  {
    && unchanged(e) && unchanged(world) && unchanged(ecs) && old(allocated(placed))
    && KeepsControl(e)
    && (!CanWork(e) ==> !handled && CarryUntouched(e, ecs.entities, world))
    && (CanWork(e) && old(e.inv.carriedItem).Some? ==>
       && nearest.None?
       && (world.stockpileTile == null ==> !handled && CarryUntouched(e, ecs.entities, world))
       && (world.stockpileTile != null ==>
       && (handled <==> old(e.ai.stuckTimer) + delta <= STUCK_TIMEOUT_SECONDS)
       && (!handled ==> world.stockpileTile.groundItems == old(world.stockpileTile.groundItems) && unchanged(e.inv))
       && (handled ==> Delivered(e.ai, e.inv, world.stockpileTile, arrived))))
    && (CanWork(e) && old(e.inv.carriedItem).None? ==>
       && placed == old(With(ecs.entities, PlacedBuildingKinds))
       && (forall b :: b in placed ==> old(b.building) != null && old(b.pos) != null)
       && (nearest.None? <==> !old(AnyOffers(placed, AnyBuilding)))
       && (nearest.None? ==> !handled && CarryUntouched(e, ecs.entities, world))
       && (nearest.Some? ==>
       && nearest.value < |placed|
       && old(NearestAt(placed, OfferingSet(placed, AnyBuilding), e.pos.x, e.pos.y, nearest.value))
       && (handled <==> old(e.ai.stuckTimer) + delta <= STUCK_TIMEOUT_SECONDS)
       && (!handled ==> unchanged(old(placed[nearest.value].building)) && unchanged(e.inv))
       && (handled ==> Fetched(e.ai, e.inv, old(placed[nearest.value].pos), old(placed[nearest.value].building), delta, arrived))))
  }

  /**
   * One step of the haul behaviour. It declines, touching nothing,
   * without a task record, a position or an inventory, and when carrying
   * with no stockpile or when empty-handed with no building holding
   * output. Otherwise it delivers or fetches; either declines when the
   * haul times out.
   */
  method ExecuteHaul(e: Entity, ecs: ECSWorld, world: World, delta: real)
    returns (handled: bool, ghost placed: seq<Entity>, nearest: Option<nat>, ghost arrived: bool)
    modifies e.ai, e.pos, e.inv, world.stockpileTile, BuildingsOf(ecs.entities)
    ensures HaulStepped(e, ecs, world, delta, handled, placed, nearest, arrived)
  {
    nearest, arrived, placed := None, false, [];
    var ai, pos, inv := e.ai, e.pos, e.inv;
    if ai == null || pos == null || inv == null {
      return false, placed, nearest, arrived;
    }
    if inv.carriedItem.Some? {
      var stockpile := world.stockpileTile;
      if stockpile == null {
        return false, placed, nearest, arrived;
      }
      handled, arrived := HaulDeliver(ai, pos, inv, stockpile, delta);
      return handled, placed, nearest, arrived;
    }
    handled, placed, nearest, arrived := HaulFromNearest(e, ecs, delta);
  }
}
