/**
 * The socialise behaviour: an agent that is neither hungry nor tired
 * walks toward the nearest living colonist other than itself and the
 * leader, and stands still once within SOCIAL_RANGE of them.
 */
module SocializeNode {

  import opened Common
  import opened Ecs
  import opened DataComponents
  import opened AIComponents
  import opened NeedsComponents
  import opened NodeQueries
  import opened NodeSteps

  const MOVE_SPEED: real := 1.5
  /** Distance within which two agents count as socialising. */
  const SOCIAL_RANGE: real := 2.0

  /**
   * 0 without needs or when hungry or tired; otherwise 10 exactly when
   * the registry holds a partner (alive, not the agent, not the leader).
   */
  function SocializePriority(e: Entity, es: seq<Entity>): (p: real)
    reads e, e.needs, es, With(es, PersonKinds), HealthsOf(With(es, PersonKinds))
    ensures p == 10.0 || p == 0.0
    ensures p == 10.0 <==>
      e.needs != null && !e.needs.IsHungry() && !e.needs.IsTired() && AnyPartner(e, With(es, PersonKinds))
  {
    if e.needs == null || e.needs.IsHungry() || e.needs.IsTired() then 0.0
    else if AnyPartner(e, With(es, PersonKinds)) then 10.0
    else 0.0
  }

  /** The priority as the source computes it, with an early-exit scan of the people. */
  method GetPriority(e: Entity, ecs: ECSWorld) returns (p: real)
    ensures p == SocializePriority(e, ecs.entities)
  {
    var needs := e.needs;
    if needs == null || needs.IsHungry() || needs.IsTired() {
      return 0.0;
    }
    var found := ScanAnyPartner(e, With(ecs.entities, PersonKinds));
    p := if found then 10.0 else 0.0;
  }

  /**
   * What one socialise step did to agent e, given the people it looked
   * among and the partner it picked (nearest). Without a task record or a
   * position it declined and touched nothing; otherwise it picked the
   * nearest other living person, idled beside one within SOCIAL_RANGE and
   * set off toward one further away, and it acts whenever its priority
   * was positive.
   */
  twostate predicate SocializeStepped(e: Entity, ecs: ECSWorld, delta: real, handled: bool, new people: seq<Entity>, new nearest: Option<nat>)
    reads *
  {
    && unchanged(e)
    && old(allocated(people))
    && KeepsControl(e)
    && people == With(ecs.entities, PersonKinds)
    && (forall o :: o in people ==> o.pos != null && o.health != null)
    && (!CanMove(e) ==> !handled && nearest.None?)
    && (!CanMove(e) || nearest.None? ==>
       (e.ai != null ==> unchanged(e.ai)) && (e.pos != null ==> unchanged(e.pos)))
    && (CanMove(e) ==>
       && (nearest.None? <==> !old(AnyPartner(e, people)))
       && (handled <==> nearest.Some?)
       && KeepsTimers(e.ai))
    && (CanMove(e) && old(SocializePriority(e, ecs.entities)) > 0.0 ==> handled)
    && (CanMove(e) && nearest.Some? ==>
       && nearest.value < |people|
       && old(NearestAt(people, PartnerSet(e, people), e.pos.x, e.pos.y, nearest.value)))
    && (CanMove(e) && nearest.Some? && old(DistTo(people[nearest.value], e.pos.x, e.pos.y)) < SOCIAL_RANGE * SOCIAL_RANGE ==>
       Cleared(e.ai) && unchanged(e.pos))
    && (CanMove(e) && nearest.Some? && old(DistTo(people[nearest.value], e.pos.x, e.pos.y)) >= SOCIAL_RANGE * SOCIAL_RANGE ==>
       Tasked(e.ai, TaskType.Wander, Trunc(old(people[nearest.value].pos.x)), Trunc(old(people[nearest.value].pos.y))))
  }

  /**
   * One step of the socialise behaviour. It declines, touching nothing,
   * without a task record or a position, or when no partner is in the
   * registry. Otherwise it picks the nearest partner (the first in
   * registry order on ties): within SOCIAL_RANGE it clears the task and
   * stays put, else it sets a WANDER task to the partner's tile (its
   * coordinates truncated toward zero) and moves. Either way the step is
   * handled, so a positive priority always leads to a handled step.
   */
  method ExecuteSocialize(e: Entity, ecs: ECSWorld, delta: real)
    returns (handled: bool, ghost people: seq<Entity>, nearest: Option<nat>)
    modifies e.ai, e.pos
    ensures SocializeStepped(e, ecs, delta, handled, people, nearest)
  {
    var persons := With(ecs.entities, PersonKinds);
    forall o | o in persons ensures allocated(o) && o.pos != null && o.health != null {
      PersonSelected(ecs.entities, o);
    }
    people, nearest := persons, None;
    var ai, pos := e.ai, e.pos;
    if ai == null || pos == null {
      return false, people, nearest;
    }
    nearest := ScanNearestPartner(e, persons, pos.x, pos.y);
    if nearest.None? {
      return false, people, nearest;
    }
    var target := persons[nearest.value].pos;
    var dist := SqDist(pos.x, pos.y, target.x, target.y);
    if dist < SOCIAL_RANGE * SOCIAL_RANGE {
      ai.ClearTask();
      return true, people, nearest;
    }
    ai.SetTask(TaskType.Wander, Trunc(target.x), Trunc(target.y));
    ai.MoveAlongPath(pos, delta, MOVE_SPEED);
    handled := true;
  }
}
