/**
 * The wander behaviour, the fallback of every agent: when its wander
 * cooldown is over (or it is idle) it picks a uniformly random tile of
 * the map and a new cooldown of two to four seconds, then moves toward
 * its target and goes idle on arrival.
 */
module WanderNode {

  import opened Common
  import opened Ecs
  import opened DataComponents
  import opened AIComponents
  import opened Worlds
  import opened NodeSteps

  const MOVE_SPEED: real := 1.3
  /** A new wander cooldown lies in [MIN_COOLDOWN, MIN_COOLDOWN + COOLDOWN_SPREAD). */
  const MIN_COOLDOWN: real := 2.0
  const COOLDOWN_SPREAD: real := 2.0

  /**
   * The uniform draws in [0, 1) a wander step may use, one per random
   * choice: the target's column, its row and the cooldown.
   */
  datatype WanderDraws = WanderDraws(x: real, y: real, cooldown: real)

  predicate Uniform(d: WanderDraws)
  {
    0.0 <= d.x < 1.0 && 0.0 <= d.y < 1.0 && 0.0 <= d.cooldown < 1.0
  }

  /** A draw in [0, 1) scaled by a positive length stays within [0, length). */
  lemma ScaledWithin(r: real, size: int)
    requires 0.0 <= r < 1.0 && size > 0
    ensures 0.0 <= r * size as real < size as real
  {
    var s := size as real;
    assert s - r * s == (1.0 - r) * s;
  }

  /** The coordinate a draw r in [0, 1) picks along a side of the given length. */
  function WanderCoordinate(r: real, size: int): (t: int)
    requires 0.0 <= r < 1.0
    ensures size > 0 ==> 0 <= t < size
    ensures size == 0 ==> t == 0
  {
    if size > 0 then ScaledWithin(r, size); Trunc(r * size as real)
    else Trunc(r * size as real)
  }

  /** The cooldown a draw r in [0, 1) picks: between two seconds and four, four excluded. */
  function WanderCooldown(r: real): (c: real)
    requires 0.0 <= r < 1.0
    ensures MIN_COOLDOWN <= c < MIN_COOLDOWN + COOLDOWN_SPREAD
  {
    MIN_COOLDOWN + r * COOLDOWN_SPREAD
  }

  /**
   * What one wander step did to agent e, given whether it picked a new
   * destination (picked) and whether it arrived. It acts exactly when the
   * agent has a task record and a position; a new destination is drawn
   * when the cooldown has run out or the agent is idle, and the agent
   * goes idle on arrival.
   */
  twostate predicate WanderStepped(e: Entity, world: World, draws: WanderDraws, delta: real, handled: bool, picked: bool, arrived: bool)
    reads *
  {
    && unchanged(e) && Uniform(draws)
    && KeepsControl(e)
    && (handled <==> CanMove(e))
    && (!CanMove(e) ==>
       !picked && (e.ai != null ==> unchanged(e.ai)) && (e.pos != null ==> unchanged(e.pos)))
    && (CanMove(e) ==>
       && (picked <==>
       || old(e.ai.wanderCooldown) <= 0.0
       || old(e.ai.wanderTimer) + delta >= old(e.ai.wanderCooldown)
       || old(e.ai.taskType) == TaskType.Idle)
       && e.ai.stuckTimer == old(e.ai.stuckTimer)
       && e.ai.wanderCooldown == (if picked then WanderCooldown(draws.cooldown) else old(e.ai.wanderCooldown))
       && e.ai.wanderTimer == (if picked then 0.0 else old(e.ai.wanderTimer) + delta)
       && (arrived ==> Cleared(e.ai))
       && (!arrived && picked ==>
       Tasked(e.ai, TaskType.Wander, WanderCoordinate(draws.x, world.width), WanderCoordinate(draws.y, world.height)))
       && (!arrived && !picked ==> Tasked(e.ai, old(e.ai.taskType), old(e.ai.targetX), old(e.ai.targetY))))
  }

  /**
   * One step of the wander behaviour. It declines, touching nothing,
   * exactly when the agent has no task record or no position. Otherwise
   * it advances the wander timer and, when the cooldown is over or the
   * agent is idle, sets a WANDER task to the drawn tile with a fresh
   * cooldown and timer; then it moves, and clears the task on arrival.
   */
  method ExecuteWander(e: Entity, world: World, draws: WanderDraws, delta: real)
    returns (handled: bool, picked: bool, ghost arrived: bool)
    requires Uniform(draws)
    modifies e.ai, e.pos
    ensures WanderStepped(e, world, draws, delta, handled, picked, arrived)
  {
    picked, arrived := false, false;
    var ai, pos := e.ai, e.pos;
    if ai == null || pos == null {
      return false, picked, arrived;
    }
    var pick := ai.ShouldPickNewWanderTarget(delta);
    if pick || ai.taskType == TaskType.Idle {
      picked := true;
      var tx := WanderCoordinate(draws.x, world.width);
      var ty := WanderCoordinate(draws.y, world.height);
      ai.SetTask(TaskType.Wander, tx, ty);
      ai.ResetWanderCooldown(WanderCooldown(draws.cooldown));
    }
    ai.MoveTowardTarget(pos, delta, MOVE_SPEED);
    var atTarget := ai.IsAtTarget(pos.x, pos.y);
    arrived := atTarget;
    if atTarget {
      ai.ClearTask();
    }
    handled := true;
  }
}
