/**
 * The agent's task record: the task kind, its target tile, the wander
 * timer and cooldown, and the flag that takes the agent away from the
 * behaviour tree.
 */
module AIComponents {

  import opened Common
  import opened DataComponents

  /** Squared distance under which an agent counts as standing on its target tile's centre. */
  const ARRIVAL_DIST_SQ: real := 0.02
  /** Squared form of the snap distance 0.05 of the movement step. */
  const SNAP_DIST_SQ: real := 0.0025

  class AIComponent {
    var taskType: TaskType
    var targetX: int
    var targetY: int
    var wanderTimer: real
    var wanderCooldown: real
    var aiDisabled: bool
    /** Seconds spent on the current haul without arriving (not declared in the shown class). */
    var stuckTimer: real

    constructor ()
      ensures taskType == TaskType.Idle && targetX == -1 && targetY == -1
      ensures wanderTimer == 0.0 && wanderCooldown == 0.0 && !aiDisabled && stuckTimer == 0.0
    {
      taskType := TaskType.Idle;
      targetX := -1;
      targetY := -1;
      wanderTimer := 0.0;
      wanderCooldown := 0.0;
      aiDisabled := false;
      stuckTimer := 0.0;
    }

    predicate HasTarget()
      reads this
    {
      targetX >= 0 && targetY >= 0
    }

    /** Squared distance from (x, y) to the centre of the target tile. */
    function DistSqToTarget(x: real, y: real): real
      reads this
    {
      var dx := x - (targetX as real + 0.5);
      var dy := y - (targetY as real + 0.5);
      dx * dx + dy * dy
    }

    predicate IsAtTarget(x: real, y: real)
      reads this
    {
      HasTarget() && DistSqToTarget(x, y) < ARRIVAL_DIST_SQ
    }

    method SetTask(kind: TaskType, tx: int, ty: int)
      modifies this
      ensures taskType == kind && targetX == tx && targetY == ty
      ensures wanderTimer == old(wanderTimer) && wanderCooldown == old(wanderCooldown)
      ensures aiDisabled == old(aiDisabled) && stuckTimer == old(stuckTimer)
    {
      taskType := kind;
      targetX := tx;
      targetY := ty;
    }

    method ClearTask()
      modifies this
      ensures taskType == TaskType.Idle && targetX == -1 && targetY == -1
      ensures forall x: real, y: real :: !IsAtTarget(x, y)
      ensures wanderTimer == old(wanderTimer) && wanderCooldown == old(wanderCooldown)
      ensures aiDisabled == old(aiDisabled) && stuckTimer == old(stuckTimer)
    {
      taskType := TaskType.Idle;
      targetX := -1;
      targetY := -1;
    }

    /**
     * One movement step toward the target tile's centre. Without a target
     * nothing moves; within the snap distance the agent lands exactly on
     * the centre. The straight step of length speed * delta divides by a
     * square root, so its landing point is left unspecified.
     */
    method MoveTowardTarget(pos: PositionComponent, delta: real, speed: real)
      modifies pos
      ensures !HasTarget() ==> pos.x == old(pos.x) && pos.y == old(pos.y)
      ensures HasTarget() && DistSqToTarget(old(pos.x), old(pos.y)) < SNAP_DIST_SQ ==>
        pos.x == targetX as real + 0.5 && pos.y == targetY as real + 0.5 && IsAtTarget(pos.x, pos.y)
    {
      if targetX < 0 || targetY < 0 {
        return;
      }
      var tcx := targetX as real + 0.5;
      var tcy := targetY as real + 0.5;
      if DistSqToTarget(pos.x, pos.y) < SNAP_DIST_SQ {
        pos.x, pos.y := tcx, tcy;
        return;
      }
      pos.x, pos.y := *, *;
    }

    /**
     * The path-following movement step that also takes the world; it is
     * not part of this model, so where the agent lands is left open.
     */
    method MoveAlongPath(pos: PositionComponent, delta: real, speed: real)
      modifies pos
    {
      pos.x, pos.y := *, *;
    }

    /**
     * Recovery after being stuck too long; it is not part of this model,
     * so its effect on the task record and the position is left open.
     */
    method RecoverFromStuck(pos: PositionComponent)
      modifies this, pos
      ensures aiDisabled == old(aiDisabled)
    {
      taskType, targetX, targetY, stuckTimer := *, *, *, *;
      pos.x, pos.y := *, *;
    }

    method ShouldPickNewWanderTarget(delta: real) returns (pick: bool)
      modifies this
      ensures wanderTimer == old(wanderTimer) + delta
      ensures pick <==> wanderCooldown <= 0.0 || wanderTimer >= wanderCooldown || taskType == TaskType.Idle
      ensures taskType == old(taskType) && targetX == old(targetX) && targetY == old(targetY)
      ensures wanderCooldown == old(wanderCooldown) && aiDisabled == old(aiDisabled) && stuckTimer == old(stuckTimer)
    {
      wanderTimer := wanderTimer + delta;
      pick := wanderCooldown <= 0.0 || wanderTimer >= wanderCooldown || taskType == TaskType.Idle;
    }

    method ResetWanderCooldown(seconds: real)
      modifies this
      ensures wanderCooldown == seconds && wanderTimer == 0.0
      ensures taskType == old(taskType) && targetX == old(targetX) && targetY == old(targetY)
      ensures aiDisabled == old(aiDisabled) && stuckTimer == old(stuckTimer)
    {
      wanderCooldown := seconds;
      wanderTimer := 0.0;
    }
  }

  /** Standing at the target's centre is arriving; a negative target coordinate never arrives. */
  lemma ArrivalAtCentre(ai: AIComponent, x: real, y: real)
    ensures ai.HasTarget() && x == ai.targetX as real + 0.5 && y == ai.targetY as real + 0.5 ==> ai.IsAtTarget(x, y)
    ensures ai.targetX < 0 || ai.targetY < 0 ==> !ai.IsAtTarget(x, y)
  {
  }
}
