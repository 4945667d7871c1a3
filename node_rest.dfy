/**
 * The rest behaviour: its priority grows with exhaustion (and holds at
 * 90 while resting); its step starts a rest of REST_DURATION seconds on
 * the agent's current tile, and when the rest is over restores energy,
 * fully in a bed the agent owns and by half on the ground.
 */
module RestNode {

  import opened Common
  import opened Ecs
  import opened DataComponents
  import opened AIComponents
  import opened NeedsComponents
  import opened NeedTiers
  import opened NodeSteps

  /** Seconds a rest lasts. */
  const REST_DURATION: real := 3.0

  /**
   * 0 without needs; 90 while resting; otherwise 95 when collapsed
   * (energy at most 0.1), 75 when exhausted (up to 0.3), 20 when tired
   * (up to 0.6) and 0 when rested.
   */
  function RestPriority(e: Entity): (p: real)
    reads e, e.needs, e.ai
    ensures e.needs == null ==> p == 0.0
    ensures e.needs != null && e.ai != null && e.ai.taskType == TaskType.Resting ==> p == 90.0
    ensures e.needs != null && (e.ai == null || e.ai.taskType != TaskType.Resting) ==>
      && (p == 95.0 <==> e.needs.energy <= 0.1)
      && (p == 75.0 <==> 0.1 < e.needs.energy <= 0.3)
      && (p == 20.0 <==> 0.3 < e.needs.energy <= 0.6)
      && (p == 0.0 <==> e.needs.energy > 0.6)
  {
    if e.needs == null then 0.0
    else if e.ai != null && e.ai.taskType == TaskType.Resting then 90.0
    else
      EnergyBands(e.needs.energy);
      match e.needs.EnergyTier()
      case Collapsed => 95.0
      case Exhausted => 75.0
      case Tired => 20.0
      case Rested => 0.0
  }

  /** A more tired agent never gets a lower resting priority, when neither is resting. */
  lemma RestPriorityMonotone(e1: Entity, e2: Entity)
    requires e1.needs != null && e2.needs != null
    requires e1.ai == null || e1.ai.taskType != TaskType.Resting
    requires e2.ai == null || e2.ai.taskType != TaskType.Resting
    requires e1.needs.energy <= e2.needs.energy
    ensures RestPriority(e1) >= RestPriority(e2)
  {
    EnergyBands(e1.needs.energy);
    EnergyBands(e2.needs.energy);
  }

  /** The bed components held by the entities of es. */
  ghost function BedsOf(es: seq<Entity>): set<BedComponent>
    reads es
  {
    set x | x in es && x.bed != null :: x.bed
  }

  /** x is a bed owned by the entity with the given id. */
  predicate BedOwnedBy(x: Entity, id: int)
    reads x, x.bed
  {
    x.bed != null && x.bed.ownerEntityId == id
  }

  /** Some bed of the registry is owned by the entity with the given id. */
  predicate OwnsBed(es: seq<Entity>, id: int)
    reads es, BedsOf(es)
  {
    exists i :: 0 <= i < |es| && BedOwnedBy(es[i], id)
  }

  /** The agent holds the needs, the task record and the position the step works on. */
  predicate CanRest(e: Entity)
    reads e
  {
    e.needs != null && e.ai != null && e.pos != null
  }

  /**
   * The energy a finished rest restores: a full rest in an owned bed,
   * half of one on the ground.
   */
  function RestGain(inBed: bool): (g: real)
    ensures g > 0.0 && g <= REST_AMOUNT
    ensures inBed <==> g == REST_AMOUNT
  {
    if inBed then REST_AMOUNT else REST_AMOUNT * 0.5
  }

  /**
   * The closing part of a rest: scans the registry's beds for one the
   * agent owns, restores energy accordingly, records the sleep quality
   * and clears the task.
   */
  method FinishRest(e: Entity, ecs: ECSWorld) returns (inBed: bool)
    requires CanRest(e)
    modifies e.ai, e.needs`energy, e.sleep
    ensures inBed <==> OwnsBed(With(ecs.entities, [BedKind]), e.id)
    ensures e.needs.energy == Min(FULL, old(e.needs.energy) + RestGain(inBed))
    ensures e.sleep != null ==> e.sleep.lastSleepQuality == (if inBed then InBed else OnGround)
    ensures Cleared(e.ai) && KeepsTimers(e.ai)
  {
    var beds := With(ecs.entities, [BedKind]);
    var i := 0;
    while i < |beds| && !BedOwnedBy(beds[i], e.id)
      invariant 0 <= i <= |beds|
      invariant forall j :: 0 <= j < i ==> !BedOwnedBy(beds[j], e.id)
    {
      i := i + 1;
    }
    inBed := i < |beds|;
    assert inBed <==> OwnsBed(beds, e.id);
    var sq := e.sleep;
    if inBed {
      e.needs.Rest();
      if sq != null {
        sq.lastSleepQuality := InBed;
      }
    } else {
      e.needs.RestPartial(REST_AMOUNT * 0.5);
      if sq != null {
        sq.lastSleepQuality := OnGround;
      }
    }
    e.ai.ClearTask();
  }

  /**
   * What one rest step did to agent e, given whether it began resting
   * (started), whether the rest ran out (finished) and whether it slept
   * in its own bed (inBed). Without needs, a task record or a position it
   * declined and touched nothing; otherwise it keeps resting until the
   * rest's duration has passed, and then regains energy (more in a bed),
   * records its sleep quality and goes idle.
   */
  twostate predicate RestStepped(e: Entity, ecs: ECSWorld, delta: real, handled: bool, started: bool, finished: bool, inBed: bool)
    reads *
  {
    && unchanged(e)
    && KeepsControl(e)
    && (!CanRest(e) ==>
       && !handled
       && (e.ai != null ==> unchanged(e.ai)) && (e.needs != null ==> unchanged(e.needs))
       && (e.sleep != null ==> unchanged(e.sleep)))
    && (CanRest(e) ==>
       && (started <==> old(e.ai.taskType) != TaskType.Resting)
       && e.ai.stuckTimer == old(e.ai.stuckTimer)
       && e.ai.wanderCooldown == (if started then REST_DURATION else old(e.ai.wanderCooldown))
       && e.ai.wanderTimer == (if started then 0.0 else old(e.ai.wanderTimer)) + delta
       && (finished <==> e.ai.wanderCooldown <= 0.0 || e.ai.wanderTimer >= e.ai.wanderCooldown)
       && (started ==> (finished <==> delta >= REST_DURATION))
       && handled == !finished
       && e.needs.hunger == old(e.needs.hunger) && e.needs.mood == old(e.needs.mood)
       && e.needs.health == old(e.needs.health))
    && (CanRest(e) && finished ==>
       && (inBed <==> OwnsBed(With(ecs.entities, [BedKind]), e.id))
       && e.needs.energy == Min(FULL, old(e.needs.energy) + RestGain(inBed))
       && (e.sleep != null ==> e.sleep.lastSleepQuality == (if inBed then InBed else OnGround))
       && Cleared(e.ai))
    && (CanRest(e) && !finished ==>
       && e.needs.energy == old(e.needs.energy) && (e.sleep != null ==> unchanged(e.sleep))
       && e.ai.taskType == TaskType.Resting
       && (started ==> e.ai.targetX == Trunc(old(e.pos.x)) && e.ai.targetY == Trunc(old(e.pos.y)))
       && (!started ==> e.ai.targetX == old(e.ai.targetX) && e.ai.targetY == old(e.ai.targetY)))
  }

  /**
   * One step of the rest behaviour. It declines, touching nothing,
   * without needs, a task record or a position. A rest that is not yet
   * under way starts on the agent's current tile with a REST_DURATION
   * cooldown and a reset timer. The timer then advances by delta; once
   * it reaches the cooldown the rest finishes (energy restored, sleep
   * quality recorded, task cleared) and the step declines so that the
   * next behaviour can act; until then resting uses the step. A freshly
   * started rest therefore finishes at once exactly when delta is at
   * least REST_DURATION.
   */
  method ExecuteRest(e: Entity, ecs: ECSWorld, delta: real)
    returns (handled: bool, ghost started: bool, ghost finished: bool, ghost inBed: bool)
    modifies e.ai, e.needs, e.sleep
    ensures RestStepped(e, ecs, delta, handled, started, finished, inBed)
  {
    started, finished, inBed := false, false, false;
    var needs, ai, pos := e.needs, e.ai, e.pos;
    if needs == null || ai == null || pos == null {
      return false, started, finished, inBed;
    }
    if ai.taskType != TaskType.Resting {
      started := true;
      ai.SetTask(TaskType.Resting, Trunc(pos.x), Trunc(pos.y));
      ai.ResetWanderCooldown(REST_DURATION);
    }
    var pick := ai.ShouldPickNewWanderTarget(delta);
    finished := pick;
    if pick {
      inBed := FinishRest(e, ecs);
      return false, started, finished, inBed;
    }
    handled := true;
  }
}
