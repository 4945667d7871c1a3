/**
 * What every behaviour node leaves alone, stated once: the task-record
 * fields a step does not own, and the "touched nothing" frame of a node
 * that declines.
 */
module NodeSteps {

  import opened Common
  import opened Ecs
  import opened DataComponents
  import opened AIComponents
  import opened NeedsComponents
  import opened BuildingComponents
  import opened BuildingProduction
  import opened Tiles
  import opened Worlds

  /** The wander timer, the cooldown, the stuck timer and the disabled flag are as before. */
  twostate predicate KeepsTimers(ai: AIComponent)
    reads ai
  {
    && ai.wanderTimer == old(ai.wanderTimer) && ai.wanderCooldown == old(ai.wanderCooldown)
    && ai.stuckTimer == old(ai.stuckTimer) && ai.aiDisabled == old(ai.aiDisabled)
  }

  /** A node never takes an agent away from the behaviour tree. */
  twostate predicate KeepsControl(e: Entity)
    reads e, e.ai
  {
    e.ai == old(e.ai) && (e.ai != null ==> e.ai.aiDisabled == old(e.ai.aiDisabled))
  }

  /** The agent is cleared: IDLE with no target. */
  predicate Cleared(ai: AIComponent)
    reads ai
  {
    ai.taskType == TaskType.Idle && ai.targetX == -1 && ai.targetY == -1
  }

  /** The task record names kind and the target tile (tx, ty). */
  predicate Tasked(ai: AIComponent, kind: TaskType, tx: int, ty: int)
    reads ai
  {
    ai.taskType == kind && ai.targetX == tx && ai.targetY == ty
  }

  /** The agent holds the task record, the position and the inventory a carrying step works with. */
  predicate CanWork(e: Entity)
    reads e
  {
    e.ai != null && e.pos != null && e.inv != null
  }

  /** The agent holds the task record and the position a moving step works with. */
  predicate CanMove(e: Entity)
    reads e
  {
    e.ai != null && e.pos != null
  }

  /** e carries an item of kind t. */
  predicate Carries(e: Entity, t: ItemType)
    reads e, e.inv
  {
    e.inv != null && e.inv.carriedItem.Some? && e.inv.carriedItem.value.itemType == t
  }

  /**
   * Nothing a node may change has changed: the agent's own components,
   * every tile of the world and the stockpile, and every building of the
   * registry.
   */
  twostate predicate Untouched(e: Entity, es: seq<Entity>, world: World)
    reads e, e.ai, e.pos, e.inv, e.needs, e.sleep, world, world.TileSet(), world.stockpileTile, es, BuildingsOf(es)
  {
    AgentUntouched(e) && SurroundingsUntouched(es, world)
  }

  /** The agent's own components are the same records, with the same contents. */
  twostate predicate AgentUntouched(e: Entity)
    reads e, e.ai, e.pos, e.inv, e.needs, e.sleep
  {
    && e.ai == old(e.ai) && e.pos == old(e.pos) && e.inv == old(e.inv) && e.needs == old(e.needs)
    && e.sleep == old(e.sleep)
    && (e.ai != null ==> unchanged(e.ai))
    && (e.pos != null ==> unchanged(e.pos))
    && (e.inv != null ==> unchanged(e.inv))
    && (e.needs != null ==> unchanged(e.needs))
    && (e.sleep != null ==> unchanged(e.sleep))
  }

  /** The tiles, the stockpile and every building of the registry are as they were. */
  twostate predicate SurroundingsUntouched(es: seq<Entity>, world: World)
    reads world, world.TileSet(), world.stockpileTile, es, BuildingsOf(es)
  {
    && world.stockpileTile == old(world.stockpileTile)
    && (world.stockpileTile != null ==> unchanged(world.stockpileTile))
    && (forall t :: t in world.TileSet() ==> unchanged(t))
    && (forall b :: b in BuildingsOf(es) ==> old(allocated(b)) && unchanged(b))
  }

  /**
   * What a declining carrying step leaves alone: the agent's task
   * record, position and inventory, the stockpile and every building.
   */
  twostate predicate CarryUntouched(e: Entity, es: seq<Entity>, world: World)
    reads e, e.ai, e.pos, e.inv, world, world.stockpileTile, es, BuildingsOf(es)
  {
    && e.ai == old(e.ai) && e.pos == old(e.pos) && e.inv == old(e.inv)
    && world.stockpileTile == old(world.stockpileTile)
    && (e.ai != null ==> unchanged(e.ai))
    && (e.pos != null ==> unchanged(e.pos))
    && (e.inv != null ==> unchanged(e.inv))
    && (world.stockpileTile != null ==> unchanged(world.stockpileTile))
    && (forall b :: b in BuildingsOf(es) ==> old(allocated(b)) && unchanged(b))
  }

  /**
   * Delivering the carried item to stockpile s: on arrival the item is
   * appended to s, so its kind's count there rises by one while every
   * other count stays, the hands are empty and the task cleared;
   * otherwise s and the hands are as before and the agent is heading
   * for s.
   */
  twostate predicate Delivered(ai: AIComponent, inv: InventoryComponent, s: Tile, arrived: bool)
    reads ai, inv, s
  {
    if arrived then
      && old(inv.carriedItem).Some?
      && s.groundItems == old(s.groundItems) + [old(inv.carriedItem).value]
      && (forall u :: CountOf(s.groundItems, u) ==
            CountOf(old(s.groundItems), u) + (if u == old(inv.carriedItem).value.itemType then 1 else 0))
      && inv.carriedItem == None && Cleared(ai)
    else
      && s.groundItems == old(s.groundItems) && inv.carriedItem == old(inv.carriedItem)
      && Tasked(ai, TaskType.MoveToStockpile, s.x, s.y)
  }

  /**
   * Collecting from the building with component bc at position bp under
   * task kind: on arrival its oldest output moves into the hands and the
   * task is cleared; otherwise the buffer and the hands are as before
   * and the agent is heading for the building's tile.
   */
  twostate predicate Collected(ai: AIComponent, inv: InventoryComponent, bp: PositionComponent,
                               bc: BuildingComponent, kind: TaskType, arrived: bool)
    reads ai, inv, bp, bc
  {
    if arrived then
      && old(bc.outputBuffer) != [] && bc.outputBuffer == old(bc.outputBuffer)[1..]
      && inv.carriedItem == Some(old(bc.outputBuffer)[0]) && Cleared(ai)
    else
      && bc.outputBuffer == old(bc.outputBuffer) && inv.carriedItem == old(inv.carriedItem)
      && Tasked(ai, kind, Trunc(old(bp.x)), Trunc(old(bp.y)))
  }

  /** Walks to stockpile s at the given speed and drops the carried item there on arrival. */
  method DeliverCarried(ai: AIComponent, pos: PositionComponent, inv: InventoryComponent, s: Tile,
                        speed: real, delta: real)
    returns (ghost arrived: bool)
    requires inv.carriedItem.Some?
    modifies ai, pos, inv, s`groundItems
    ensures KeepsTimers(ai)
    ensures Delivered(ai, inv, s, arrived)
  {
    ai.SetTask(TaskType.MoveToStockpile, s.x, s.y);
    ai.MoveTowardTarget(pos, delta, speed);
    var atTarget := ai.IsAtTarget(pos.x, pos.y);
    arrived := atTarget;
    if atTarget {
      s.AddItem(inv.carriedItem.value);
      inv.carriedItem := None;
      ai.ClearTask();
    }
  }

  /**
   * Walks, under task kind, to the building with component bc at
   * position bp and takes its oldest output into the hands on arrival.
   */
  method CollectOutput(ai: AIComponent, pos: PositionComponent, inv: InventoryComponent, bp: PositionComponent,
                       bc: BuildingComponent, kind: TaskType, speed: real, delta: real)
    returns (ghost arrived: bool)
    requires bc.HasOutput()
    modifies ai, pos, inv, bc`outputBuffer
    ensures KeepsTimers(ai)
    ensures Collected(ai, inv, bp, bc, kind, arrived)
  {
    ai.SetTask(kind, Trunc(bp.x), Trunc(bp.y));
    ai.MoveTowardTarget(pos, delta, speed);
    var atTarget := ai.IsAtTarget(pos.x, pos.y);
    arrived := atTarget;
    if atTarget {
      var output := bc.TakeOutput();
      if output.Some? {
        inv.carriedItem := output;
      }
      ai.ClearTask();
    }
  }
}
