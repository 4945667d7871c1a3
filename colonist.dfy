/**
 * The colonist of the pre-component world: needs on a 0-100 scale, a
 * death flag, a position, a one-slot carry, a task record with a target
 * tile, a wander timer and a table of skills.
 */
module Colonists {

  import opened Common

  const HUNGER_DECAY_PER_SECOND: real := 2.0
  const ENERGY_DECAY_PER_SECOND: real := 1.2
  const MOOD_DECAY_PER_SECOND: real := 0.5
  const HUNGER_EAT_AMOUNT: real := 40.0
  const ENERGY_REST_AMOUNT: real := 30.0
  const MOOD_BOOST_AMOUNT: real := 15.0
  /** The top of every need scale. */
  const NEED_MAX: real := 100.0
  /** Squared distance under which a colonist counts as standing on its target tile's centre. */
  const ARRIVAL_DIST_SQ: real := 0.02
  /** Squared form of the snap distance 0.05 of the movement step. */
  const SNAP_DIST_SQ: real := 0.0025

  /**
   * Mood after one needs step, given the already decayed hunger and
   * energy: it falls three times as fast when either need is below 20,
   * rises slowly (capped at 100) when both are above 60, and otherwise
   * falls at the base rate; it never falls below 0.
   */
  function MoodAfter(mood: real, hunger: real, energy: real, delta: real): real
  {
    if hunger < 20.0 || energy < 20.0 then Max(0.0, mood - MOOD_DECAY_PER_SECOND * 3.0 * delta)
    else if hunger > 60.0 && energy > 60.0 then Min(NEED_MAX, mood + MOOD_DECAY_PER_SECOND * 0.5 * delta)
    else Max(0.0, mood - MOOD_DECAY_PER_SECOND * delta)
  }

  /**
   * For a non-negative step a mood in [0,100] stays there, only well-fed,
   * rested colonists gain mood, and a colonist low on either need loses it.
   */
  lemma MoodAfterInRange(mood: real, hunger: real, energy: real, delta: real)
    requires delta >= 0.0
    ensures 0.0 <= mood <= NEED_MAX ==> 0.0 <= MoodAfter(mood, hunger, energy, delta) <= NEED_MAX
    ensures mood >= 0.0 && MoodAfter(mood, hunger, energy, delta) > mood ==> hunger > 60.0 && energy > 60.0
    ensures hunger < 20.0 || energy < 20.0 ==> MoodAfter(mood, hunger, energy, delta) <= Max(0.0, mood)
  {
  }

  /** Squared distance from (x, y) to the centre of tile (tx, ty). */
  function DistSqToCentre(x: real, y: real, tx: int, ty: int): real
  {
    var dx := x - (tx as real + 0.5);
    var dy := y - (ty as real + 0.5);
    dx * dx + dy * dy
  }

  class Colonist {
    const name: string
    const age: int
    var hunger: real
    var energy: real
    var mood: real
    var dead: bool
    var x: real
    var y: real
    var aiDisabled: bool
    var carriedItem: Option<Item>
    var taskType: TaskType
    var targetX: int
    var targetY: int
    var wanderTimer: real
    var wanderCooldown: real
    var skills: map<string, int>

    constructor (name0: string, age0: int, x0: real, y0: real)
      ensures name == name0 && age == age0 && x == x0 && y == y0
      ensures hunger == NEED_MAX && energy == NEED_MAX && mood == NEED_MAX && !dead
      ensures !aiDisabled && carriedItem == None
      ensures taskType == TaskType.Idle && targetX == -1 && targetY == -1
      ensures wanderTimer == 0.0 && wanderCooldown == 0.0
      ensures GetSkill("mining") == 1 && GetSkill("hauling") == 1
      ensures forall s :: s != "mining" && s != "hauling" ==> GetSkill(s) == 0
    {
      name, age, x, y := name0, age0, x0, y0;
      hunger, energy, mood := NEED_MAX, NEED_MAX, NEED_MAX;
      dead := false;
      aiDisabled := false;
      carriedItem := None;
      taskType := TaskType.Idle;
      targetX, targetY := -1, -1;
      wanderTimer, wanderCooldown := 0.0, 0.0;
      skills := map["mining" := 1, "hauling" := 1];
    }

    /**
     * One needs step of delta seconds. A dead colonist is left alone; a
     * living one loses hunger and energy (never below 0), has its mood
     * moved by MoodAfter, and dies once hunger reaches 0. Death is never
     * undone.
     */
    method UpdateNeeds(delta: real)
      modifies this`hunger, this`energy, this`mood, this`dead
      ensures NeedsStepped(this, delta)
      ensures old(dead) ==> dead
      ensures !old(dead) ==> hunger >= 0.0 && energy >= 0.0
      ensures delta >= 0.0 && 0.0 <= old(mood) <= NEED_MAX ==> 0.0 <= mood <= NEED_MAX
    {
      if dead {
        return;
      }
      hunger := Max(0.0, hunger - HUNGER_DECAY_PER_SECOND * delta);
      energy := Max(0.0, energy - ENERGY_DECAY_PER_SECOND * delta);
      if hunger < 20.0 || energy < 20.0 {
        mood := Max(0.0, mood - MOOD_DECAY_PER_SECOND * 3.0 * delta);
      } else if hunger > 60.0 && energy > 60.0 {
        mood := Min(NEED_MAX, mood + MOOD_DECAY_PER_SECOND * 0.5 * delta);
      } else {
        mood := Max(0.0, mood - MOOD_DECAY_PER_SECOND * delta);
      }
      if hunger <= 0.0 {
        dead := true;
      }
      if delta >= 0.0 {
        MoodAfterInRange(old(mood), hunger, energy, delta);
      }
    }

    predicate IsHungry()
      reads this
    {
      hunger <= 35.0
    }

    predicate IsTired()
      reads this
    {
      energy <= 25.0
    }

    /** A meal: hunger and mood rise, each capped at 100. */
    method Eat()
      modifies this`hunger, this`mood
      ensures hunger == Min(NEED_MAX, old(hunger) + HUNGER_EAT_AMOUNT)
      ensures mood == Min(NEED_MAX, old(mood) + MOOD_BOOST_AMOUNT)
      ensures old(hunger) <= NEED_MAX ==> old(hunger) <= hunger <= NEED_MAX
      ensures old(mood) <= NEED_MAX ==> old(mood) <= mood <= NEED_MAX
    {
      hunger := Min(NEED_MAX, hunger + HUNGER_EAT_AMOUNT);
      mood := Min(NEED_MAX, mood + MOOD_BOOST_AMOUNT);
    }

    /** A rest: energy rises, capped at 100. */
    method Rest()
      modifies this`energy
      ensures energy == Min(NEED_MAX, old(energy) + ENERGY_REST_AMOUNT)
      ensures old(energy) <= NEED_MAX ==> old(energy) <= energy <= NEED_MAX
    {
      energy := Min(NEED_MAX, energy + ENERGY_REST_AMOUNT);
    }

    /** The level of a known skill, 0 for an unknown one. */
    function GetSkill(skill: string): (level: int)
      reads this
      ensures skill in skills ==> level == skills[skill]
      ensures skill !in skills ==> level == 0
    {
      if skill in skills then skills[skill] else 0
    }

    method SetTask(kind: TaskType, tx: int, ty: int)
      modifies this`taskType, this`targetX, this`targetY
      ensures taskType == kind && targetX == tx && targetY == ty
    {
      taskType, targetX, targetY := kind, tx, ty;
    }

    /** Back to IDLE with no target, after which the colonist is at no target. */
    method ClearTask()
      modifies this`taskType, this`targetX, this`targetY
      ensures taskType == TaskType.Idle && targetX == -1 && targetY == -1
      ensures !IsAtTarget()
    {
      taskType, targetX, targetY := TaskType.Idle, -1, -1;
    }

    predicate HasTarget()
      reads this
    {
      targetX >= 0 && targetY >= 0
    }

    /** On the target tile's centre, within squared distance 0.02; never without a target. */
    predicate IsAtTarget()
      reads this
    {
      HasTarget() && DistSqToCentre(x, y, targetX, targetY) < ARRIVAL_DIST_SQ
    }

    /**
     * One movement step toward the target tile's centre. Without a target
     * nothing moves; within the snap distance the colonist lands exactly
     * on the centre. The straight step divides by a square root, so its
     * landing point is left unspecified.
     */
    method MoveTowardTarget(delta: real, speed: real)
      modifies this`x, this`y
      ensures !HasTarget() ==> x == old(x) && y == old(y)
      ensures HasTarget() && DistSqToCentre(old(x), old(y), targetX, targetY) < SNAP_DIST_SQ ==>
        x == targetX as real + 0.5 && y == targetY as real + 0.5 && IsAtTarget()
    {
      if targetX < 0 || targetY < 0 {
        return;
      }
      if DistSqToCentre(x, y, targetX, targetY) < SNAP_DIST_SQ {
        x, y := targetX as real + 0.5, targetY as real + 0.5;
        return;
      }
      x, y := *, *;
    }

    method ResetWanderCooldown(seconds: real)
      modifies this`wanderCooldown, this`wanderTimer
      ensures wanderCooldown == seconds && wanderTimer == 0.0
    {
      wanderCooldown := seconds;
      wanderTimer := 0.0;
    }

    /** Advances the wander timer; a new target is due when the cooldown ran out or the colonist is idle. */
    method ShouldPickNewWanderTarget(delta: real) returns (pick: bool)
      modifies this`wanderTimer
      ensures wanderTimer == old(wanderTimer) + delta
      ensures pick <==> wanderCooldown <= 0.0 || wanderTimer >= wanderCooldown || taskType == TaskType.Idle
    {
      wanderTimer := wanderTimer + delta;
      pick := wanderCooldown <= 0.0 || wanderTimer >= wanderCooldown || taskType == TaskType.Idle;
    }

    method SetPosition(x0: real, y0: real)
      modifies this`x, this`y
      ensures x == x0 && y == y0
    {
      x, y := x0, y0;
    }
  }

  /**
   * One needs step of c, compared with the state before: a dead colonist
   * is unchanged; a living one has decayed hunger and energy, its mood
   * moved by MoodAfter, and is dead exactly when hunger reached 0.
   */
  twostate predicate NeedsStepped(c: Colonist, delta: real)
    reads c
  {
    if old(c.dead) then
      c.dead && c.hunger == old(c.hunger) && c.energy == old(c.energy) && c.mood == old(c.mood)
    else
      && c.hunger == Max(0.0, old(c.hunger) - HUNGER_DECAY_PER_SECOND * delta)
      && c.energy == Max(0.0, old(c.energy) - ENERGY_DECAY_PER_SECOND * delta)
      && c.mood == MoodAfter(old(c.mood), c.hunger, c.energy, delta)
      && (c.dead <==> c.hunger <= 0.0)
  }

  /** A cleared task record is at no target, wherever the colonist stands. */
  lemma NoTargetNeverArrives(c: Colonist)
    ensures c.targetX < 0 || c.targetY < 0 ==> !c.IsAtTarget()
    ensures c.HasTarget() && c.x == c.targetX as real + 0.5 && c.y == c.targetY as real + 0.5 ==> c.IsAtTarget()
  {
  }
}
