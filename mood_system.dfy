/**
 * The mood system: a mood is not written by the needs but derived from
 * them. Each tick every living entity with needs, a mood and a health
 * record gets a target mood, 50 plus the offsets of the thought workers
 * (hunger, sleep, health, company) clamped to [0, 100], and its mood
 * moves toward that target by at most five points per second.
 */
module MoodSystems {

  import opened Common
  import opened Ecs
  import opened DataComponents
  import opened AIComponents
  import opened NeedsComponents
  import opened NeedTiers
  import opened MoodComponents
  import opened NodeQueries

  /** The mood with no thought at all. */
  const BASE_MOOD: real := 50.0
  /** Mood points gained or lost per second on the way to the target. */
  const MOOD_SPEED: real := 5.0
  /** Distance within which another colonist counts as company. */
  const SOCIAL_RANGE: real := 3.0
  /** The offset for company while wandering. */
  const COMPANY_BOOST: real := 8.0
  /** The offset while socialising. */
  const SOCIALIZING_BOOST: real := 15.0

  /** The component kinds the mood system steps. */
  const MoodKinds: seq<Kind> := [NeedsKind, MoodKind, HealthKind]

  /** The thought workers: each observes an entity and returns a mood offset. */
  datatype ThoughtWorker = HungerThought | SleepThought | HealthThought | SocialThought

  /** The workers the system builds, in order. */
  const DefaultWorkers: seq<ThoughtWorker> := [HungerThought, SleepThought, HealthThought, SocialThought]

  /** The offset for each hunger tier. */
  function HungerTierOffset(c: HungerCategory): (o: real)
    ensures o <= 0.0
  {
    match c
    case Fed => 0.0
    case Hungry => -5.0
    case UrgentlyHungry => -15.0
    case Starving => -40.0
  }

  /** The offset for each energy tier. */
  function EnergyTierOffset(c: EnergyCategory): (o: real)
    ensures o <= 0.0
  {
    match c
    case Rested => 0.0
    case Tired => -3.0
    case Exhausted => -12.0
    case Collapsed => -30.0
  }

  /** A more severe tier never gives a higher offset, for hunger and for energy alike. */
  lemma TierOffsetsMonotone(a: HungerCategory, b: HungerCategory, c: EnergyCategory, d: EnergyCategory)
    ensures a.Severity() <= b.Severity() ==> HungerTierOffset(b) <= HungerTierOffset(a)
    ensures c.Severity() <= d.Severity() ==> EnergyTierOffset(d) <= EnergyTierOffset(c)
  {
  }

  /** The hunger thought: nothing without needs, else the offset of the hunger tier. */
  function HungerThoughtOffset(e: Entity): (o: real)
    reads e, e.needs
    ensures e.needs == null ==> o == 0.0
    ensures -40.0 <= o <= 0.0
  {
    if e.needs == null then 0.0 else HungerTierOffset(e.needs.HungerTier())
  }

  /** The sleep thought: nothing without needs, else the offset of the energy tier. */
  function SleepThoughtOffset(e: Entity): (o: real)
    reads e, e.needs
    ensures e.needs == null ==> o == 0.0
    ensures -30.0 <= o <= 0.0
  {
    if e.needs == null then 0.0 else EnergyTierOffset(e.needs.EnergyTier())
  }

  /** The offset for a health level: 0 above 0.8, -5 above 0.5, -15 above 0.2, else -30. */
  function HealthLevelOffset(h: real): (o: real)
    ensures o == 0.0 || o == -5.0 || o == -15.0 || o == -30.0
  {
    if h > 0.8 then 0.0
    else if h > 0.5 then -5.0
    else if h > 0.2 then -15.0
    else -30.0
  }

  /** More health never gives a lower offset. */
  lemma HealthOffsetMonotone(a: real, b: real)
    requires a <= b
    ensures HealthLevelOffset(a) <= HealthLevelOffset(b)
  {
  }

  /** The health thought: nothing without needs, else the offset of the needs' health. */
  function HealthThoughtOffset(e: Entity): (o: real)
    reads e, e.needs
    ensures e.needs == null ==> o == 0.0
    ensures -30.0 <= o <= 0.0
  {
    if e.needs == null then 0.0 else HealthLevelOffset(e.needs.health)
  }

  /** other is company for an agent at (px, py): a partner within SOCIAL_RANGE. */
  predicate Company(e: Entity, other: Entity, px: real, py: real)
    reads other, other.health, other.pos
  {
    IsPartner(e, other) && other.pos != null && SqDist(px, py, other.pos.x, other.pos.y) <= SOCIAL_RANGE * SOCIAL_RANGE
  }

  /** Some person of the registry es (an entity with a position, a health record and an identity) is company for e at (px, py). */
  predicate AnyCompany(e: Entity, es: seq<Entity>, px: real, py: real)
    reads es, HealthsOf(es), PositionsOf(es)
  {
    exists i :: 0 <= i < |es| && es[i].HasAll(PersonKinds) && Company(e, es[i], px, py)
  }

  /**
   * The social thought over the registry es: 15 while socialising
   * (wherever the agent is); while wandering with a position, 8 exactly
   * when a living colonist other than the agent and the leader is within
   * SOCIAL_RANGE; 0 in every other case.
   */
  function SocialThoughtOffset(e: Entity, es: seq<Entity>): (o: real)
    reads e, e.ai, e.pos, es, HealthsOf(es), PositionsOf(es)
    ensures o == 0.0 || o == COMPANY_BOOST || o == SOCIALIZING_BOOST
    ensures o == SOCIALIZING_BOOST <==> e.ai != null && e.ai.taskType == TaskType.Socializing
    ensures o == COMPANY_BOOST <==>
      && e.ai != null && e.ai.taskType == TaskType.Wander && e.pos != null
      && AnyCompany(e, es, e.pos.x, e.pos.y)
  {
    if e.ai == null then 0.0
    else if e.ai.taskType == TaskType.Socializing then SOCIALIZING_BOOST
    else if e.ai.taskType != TaskType.Wander then 0.0
    else if e.pos == null then 0.0
    else if AnyCompany(e, es, e.pos.x, e.pos.y) then COMPANY_BOOST
    else 0.0
  }

  /** The social thought as the worker computes it, with an early-exit scan of the people. */
  method ScanSocialOffset(e: Entity, ecs: ECSWorld) returns (o: real)
    ensures o == SocialThoughtOffset(e, ecs.entities)
  {
    var ai := e.ai;
    if ai == null {
      return 0.0;
    }
    if ai.taskType == TaskType.Socializing {
      return SOCIALIZING_BOOST;
    }
    if ai.taskType != TaskType.Wander {
      return 0.0;
    }
    var pos := e.pos;
    if pos == null {
      return 0.0;
    }
    var people := With(ecs.entities, PersonKinds);
    for i := 0 to |people|
      invariant forall j :: 0 <= j < i ==> !Company(e, people[j], pos.x, pos.y)
    {
      var other := people[i];
      if other == e {
        continue;
      }
      var health := other.health;
      if health == null || health.dead {
        continue;
      }
      if other.leader != null {
        continue;
      }
      var otherPos := other.pos;
      if otherPos == null {
        continue;
      }
      if SqDist(pos.x, pos.y, otherPos.x, otherPos.y) <= SOCIAL_RANGE * SOCIAL_RANGE {
        assert Company(e, other, pos.x, pos.y);
        WithSelects(ecs.entities, PersonKinds, other);
        var w :| 0 <= w < |ecs.entities| && ecs.entities[w] == other;
        assert ecs.entities[w].HasAll(PersonKinds) && Company(e, ecs.entities[w], pos.x, pos.y);
        return COMPANY_BOOST;
      }
    }
    forall w | 0 <= w < |ecs.entities| && ecs.entities[w].HasAll(PersonKinds)
      ensures !Company(e, ecs.entities[w], pos.x, pos.y)
    {
      WithSelects(ecs.entities, PersonKinds, ecs.entities[w]);
    }
    return 0.0;
  }

  /** The offset worker w gives e, the social worker looking at the registry es. */
  function WorkerOffset(w: ThoughtWorker, e: Entity, es: seq<Entity>): (o: real)
    reads e, e.needs, e.ai, e.pos, es, HealthsOf(es), PositionsOf(es)
    ensures w != SocialThought ==> o <= 0.0
  {
    match w
    case HungerThought => HungerThoughtOffset(e)
    case SleepThought => SleepThoughtOffset(e)
    case HealthThought => HealthThoughtOffset(e)
    case SocialThought => SocialThoughtOffset(e, es)
  }

  /** The sum of the offsets of the workers ws. */
  function TotalOffset(ws: seq<ThoughtWorker>, e: Entity, es: seq<Entity>): real
    reads e, e.needs, e.ai, e.pos, es, HealthsOf(es), PositionsOf(es)
  {
    if ws == [] then 0.0 else TotalOffset(ws[..|ws| - 1], e, es) + WorkerOffset(ws[|ws| - 1], e, es)
  }

  /** The target mood for a total offset: BASE_MOOD plus the offset, clamped to [0, 100]. */
  function Target(offset: real): (t: real)
    ensures 0.0 <= t <= 100.0
    ensures 0.0 <= BASE_MOOD + offset <= 100.0 ==> t == BASE_MOOD + offset
  {
    Max(0.0, Min(100.0, BASE_MOOD + offset))
  }

  /**
   * With the default workers the offsets sum to between -100 and 15, so
   * the target lies in [0, 65].
   */
  lemma {:induction false} DefaultTargetBounds(e: Entity, es: seq<Entity>)
    ensures -100.0 <= TotalOffset(DefaultWorkers, e, es) <= 15.0
    ensures 0.0 <= Target(TotalOffset(DefaultWorkers, e, es)) <= 65.0
  {
    var ws := DefaultWorkers;
    assert ws[..3][..2][..1][..0] == [];
    assert TotalOffset(ws[..1], e, es) == HungerThoughtOffset(e) by {
      assert ws[..1][..0] == [];
    }
    assert ws[..3][..2] == ws[..2] && ws[..2][..1] == ws[..1] && ws[..4] == ws;
    assert TotalOffset(ws[..2], e, es) == TotalOffset(ws[..1], e, es) + SleepThoughtOffset(e);
    assert TotalOffset(ws[..3], e, es) == TotalOffset(ws[..2], e, es) + HealthThoughtOffset(e);
    assert TotalOffset(ws, e, es) == TotalOffset(ws[..3], e, es) + SocialThoughtOffset(e, es);
  }

  /**
   * One step of mood m toward target over delta seconds: up or down by
   * at most MOOD_SPEED·delta, stopping at the target.
   */
  function Approach(m: real, target: real, delta: real): (r: real)
    ensures m <= target ==> m + Min(0.0, MOOD_SPEED * delta) <= r <= target
    ensures m >= target ==> target <= r <= m - Min(0.0, MOOD_SPEED * delta)
  {
    var speed := MOOD_SPEED * delta;
    if m < target then Min(target, m + speed)
    else if m > target then Max(target, m - speed)
    else m
  }

  /**
   * For a non-negative delta a step never overshoots, moves by at most
   * MOOD_SPEED·delta, never moves away from the target, stays put at the
   * target, and keeps a mood in [0, 100] there when the target is.
   */
  lemma ApproachProperties(m: real, target: real, delta: real)
    requires delta >= 0.0
    ensures var r := Approach(m, target, delta);
      && (m <= target ==> m <= r <= target)
      && (m >= target ==> target <= r <= m)
      && -MOOD_SPEED * delta <= r - m <= MOOD_SPEED * delta
      && (m == target ==> r == m)
      && (0.0 <= m <= 100.0 && 0.0 <= target <= 100.0 ==> 0.0 <= r <= 100.0)
  {
  }

  /** The target mood for e: BASE_MOOD plus the default workers' offsets, the social one looking at reg, clamped. */
  function TargetIn(reg: seq<Entity>, e: Entity): real
    reads e, e.needs, e.ai, e.pos, reg, HealthsOf(reg), PositionsOf(reg)
  {
    Target(TotalOffset(DefaultWorkers, e, reg))
  }

  /** The target of every entity of es, in order. */
  ghost function TargetsIn(reg: seq<Entity>, es: seq<Entity>): (ts: seq<real>)
    reads es, NeedsOf(es), AIsOf(es), PositionsOf(es), reg, HealthsOf(reg), PositionsOf(reg)
    ensures |ts| == |es|
  {
    if es == [] then [] else TargetsIn(reg, es[..|es| - 1]) + [TargetIn(reg, es[|es| - 1])]
  }

  /** Entry k of TargetsIn is the target of es[k]. */
  lemma {:induction false} TargetsInAt(reg: seq<Entity>, es: seq<Entity>, k: nat)
    requires k < |es|
    ensures TargetsIn(reg, es)[k] == TargetIn(reg, es[k])
  {
    if k < |es| - 1 {
      TargetsInAt(reg, es[..|es| - 1], k);
    }
  }

  /** The mood es[k] holds (0 without a mood record). */
  function MoodAt(es: seq<Entity>, k: nat): real
    requires k < |es|
    reads es[k], es[k].mood
  {
    if es[k].mood == null then 0.0 else es[k].mood.mood
  }

  /** The mood of every entity of es, in order. */
  ghost function MoodsIn(es: seq<Entity>): (ms: seq<real>)
    reads es, MoodsOf(es)
    ensures |ms| == |es|
  {
    if es == [] then [] else MoodsIn(es[..|es| - 1]) + [MoodAt(es, |es| - 1)]
  }

  /** Entry k of MoodsIn is the mood of es[k]. */
  lemma {:induction false} MoodsInAt(es: seq<Entity>, k: nat)
    requires k < |es|
    ensures MoodsIn(es)[k] == MoodAt(es, k)
  {
    if k < |es| - 1 {
      MoodsInAt(es[..|es| - 1], k);
    }
  }

  /**
   * The tick's effect on one entity whose mood was before: a living one
   * has taken one Approach step toward target, a dead one kept its mood.
   */
  predicate MovedToward(e: Entity, before: real, target: real, delta: real)
    reads e, e.mood, e.health
  {
    e.mood != null && e.health != null ==>
      e.mood.mood == if e.health.dead then before else Approach(before, target, delta)
  }

  /**
   * Part way through a tick: the first i candidates have moved from their
   * moods toward their targets, the rest still hold their moods.
   */
  predicate Advanced(candidates: seq<Entity>, i: nat, targets: seq<real>, moods: seq<real>, delta: real)
    requires i <= |candidates| == |targets| == |moods|
    reads candidates, MoodsOf(candidates), HealthsOf(candidates)
  {
    && (forall k :: 0 <= k < i ==> MovedToward(candidates[k], moods[k], targets[k], delta))
    && (forall k :: i <= k < |candidates| ==> MoodAt(candidates, k) == moods[k])
  }

  /**
   * The system, with the worker list built on its first tick; the social
   * worker keeps the registry it was built with, whatever registry later
   * ticks are given.
   */
  class MoodSystem {
    var workers: Option<seq<ThoughtWorker>>
    /** The registry the social worker looks at; set together with the workers. */
    var socialRegistry: ECSWorld?

    /** The workers are either not built yet or the default list over some registry. */
    ghost predicate Valid()
      reads this
    {
      (workers.None? <==> socialRegistry == null) && (workers.Some? ==> workers.value == DefaultWorkers)
    }

    constructor ()
      ensures Valid() && workers.None?
    {
      workers := None;
      socialRegistry := null;
    }

    /** The target mood for e under the current workers. */
    method TargetFor(e: Entity) returns (target: real)
      requires Valid() && workers.Some?
      ensures target == old(TargetIn(socialRegistry.entities, e))
    {
      var ws := workers.value;
      var es := socialRegistry.entities;
      var total := 0.0;
      for j := 0 to |ws|
        invariant total == TotalOffset(ws[..j], e, es)
      {
        assert ws[..j + 1][..j] == ws[..j];
        total := total + WorkerOffset(ws[j], e, es);
      }
      assert ws[..|ws|] == ws;
      target := Target(total);
    }

    /**
     * One entity's step: a living entity with a mood has it moved one
     * Approach step toward its target; any other is left as it was.
     */
    method StepMood(e: Entity, delta: real)
      requires Valid() && workers.Some?
      modifies e.mood
      ensures e.mood != null && e.health != null && !e.health.dead ==>
        e.mood.mood == Approach(old(e.mood.mood), old(TargetIn(socialRegistry.entities, e)), delta)
      ensures e.mood != null && (e.health == null || e.health.dead) ==> e.mood.mood == old(e.mood.mood)
    {
      var health, mood := e.health, e.mood;
      if health == null || mood == null || health.dead {
        return;
      }
      var target := TargetFor(e);
      mood.mood := Approach(mood.mood, target, delta);
    }

    /**
     * The loop body of a tick: candidate i's mood takes its step toward
     * the target it had when the tick began; no target changes.
     */
    method StepCandidate(candidates: seq<Entity>, i: nat, ghost reg: seq<Entity>, ghost targets: seq<real>, delta: real)
      requires Valid() && workers.Some? && socialRegistry.entities == reg
      requires i < |candidates| && TargetsIn(reg, candidates) == targets
      modifies candidates[i].mood
      ensures TargetsIn(reg, candidates) == targets
      ensures MovedToward(candidates[i], old(MoodAt(candidates, i)), targets[i], delta)
      ensures candidates[i].mood != null && delta >= 0.0 && 0.0 <= old(candidates[i].mood.mood) <= 100.0 ==>
        0.0 <= candidates[i].mood.mood <= 100.0
    {
      var e := candidates[i];
      ghost var before := if e.mood == null then 0.0 else e.mood.mood;
      StepMood(e, delta);
      ghost var frame := (NeedsOf(candidates), AIsOf(candidates), PositionsOf(candidates), HealthsOf(reg), PositionsOf(reg));
      TargetsInAt(reg, candidates, i);
      if delta >= 0.0 {
        DefaultTargetBounds(e, reg);
        ApproachProperties(before, targets[i], delta);
      }
    }

    /** The first tick's set-up: the default workers, the social one over ecs. */
    method BuildWorkers(ecs: ECSWorld)
      modifies this`workers, this`socialRegistry
      ensures Valid() && workers == Some(DefaultWorkers) && socialRegistry == ecs
    {
      workers := Some(DefaultWorkers);
      socialRegistry := ecs;
    }

    /** One more candidate moved: the loop step of a tick, when no two candidates share a mood record. */
    method Advance(candidates: seq<Entity>, i: nat, ghost reg: seq<Entity>, ghost targets: seq<real>, ghost moods: seq<real>, delta: real)
      requires Valid() && workers.Some? && socialRegistry.entities == reg
      requires i < |candidates| == |moods| && TargetsIn(reg, candidates) == targets
      requires DistinctMoods(candidates) ==> Advanced(candidates, i, targets, moods, delta)
      modifies candidates[i].mood
      ensures TargetsIn(reg, candidates) == targets
      ensures DistinctMoods(candidates) ==> Advanced(candidates, i + 1, targets, moods, delta)
      ensures candidates[i].mood != null && delta >= 0.0 && 0.0 <= old(candidates[i].mood.mood) <= 100.0 ==>
        0.0 <= candidates[i].mood.mood <= 100.0
    {
      StepCandidate(candidates, i, reg, targets, delta);
      if DistinctMoods(candidates) {
        forall k | 0 <= k < i
          ensures MovedToward(candidates[k], moods[k], targets[k], delta)
        {
          assert candidates[k].mood != candidates[i].mood;
        }
        forall k | i < k < |candidates|
          ensures MoodAt(candidates, k) == moods[k]
        {
          assert candidates[i].mood != candidates[k].mood;
        }
      }
    }

    /**
     * The stepping pass of a tick: each candidate in turn is moved toward
     * its target. No target changes, and for a non-negative delta every
     * mood within [0, 100] stays there.
     */
    method StepCandidates(candidates: seq<Entity>, ghost reg: seq<Entity>, ghost targets: seq<real>, ghost moods: seq<real>, delta: real)
      requires Valid() && workers.Some? && socialRegistry.entities == reg
      requires |candidates| == |moods| && TargetsIn(reg, candidates) == targets
      requires DistinctMoods(candidates) ==> Advanced(candidates, 0, targets, moods, delta)
      modifies MoodsOf(candidates)
      ensures TargetsIn(reg, candidates) == targets
      ensures DistinctMoods(candidates) ==> Advanced(candidates, |candidates|, targets, moods, delta)
      ensures delta >= 0.0 ==>
        forall m :: m in MoodsOf(candidates) && 0.0 <= old(m.mood) <= 100.0 ==> 0.0 <= m.mood <= 100.0
    {
      for i := 0 to |candidates|
        invariant TargetsIn(reg, candidates) == targets
        invariant delta >= 0.0 ==>
          forall m :: m in MoodsOf(candidates) && 0.0 <= old(m.mood) <= 100.0 ==> 0.0 <= m.mood <= 100.0
        invariant DistinctMoods(candidates) ==> Advanced(candidates, i, targets, moods, delta)
      {
        assert candidates[i].mood != null ==> candidates[i].mood in MoodsOf(candidates);
        Advance(candidates, i, reg, targets, moods, delta);
      }
    }

    /**
     * One tick. On the first the workers are built over ecs. Then every
     * living entity holding needs, a mood and a health record, in registry
     * order, has its mood moved one Approach step toward its target; dead
     * ones are skipped. For a non-negative delta every mood that was
     * within [0, 100] still is.
     */
    method Update(ecs: ECSWorld, delta: real)
      requires Valid()
      modifies this, MoodsOf(ecs.entities)
      ensures Valid() && workers.Some?
      ensures old(socialRegistry) == null ==> socialRegistry == ecs
      ensures old(socialRegistry) != null ==> socialRegistry == old(socialRegistry)
      ensures delta >= 0.0 ==>
        forall m :: m in MoodsOf(ecs.entities) && 0.0 <= old(m.mood) <= 100.0 ==> 0.0 <= m.mood <= 100.0
      ensures DistinctMoods(With(ecs.entities, MoodKinds)) ==>
        forall k :: 0 <= k < |With(ecs.entities, MoodKinds)| ==>
          MovedToward(With(ecs.entities, MoodKinds)[k], old(MoodsIn(With(ecs.entities, MoodKinds)))[k],
            TargetsIn(socialRegistry.entities, With(ecs.entities, MoodKinds))[k], delta)
    {
      var candidates := With(ecs.entities, MoodKinds);
      ghost var moods := MoodsIn(candidates);
      ghost var records := MoodsOf(candidates);
      if workers.None? {
        workers := Some(DefaultWorkers);
        socialRegistry := ecs;
      }
      assert With(ecs.entities, MoodKinds) == candidates && MoodsOf(candidates) == records;
      assert MoodsIn(candidates) == moods;
      forall m | m in records ensures m in MoodsOf(ecs.entities) {
        var x :| x in candidates && x.mood == m;
        WithSelects(ecs.entities, MoodKinds, x);
      }
      StepAll(candidates, delta);
      assert With(ecs.entities, MoodKinds) == candidates;
    }

    /**
     * The stepping half of a tick, once the workers exist: every candidate
     * moves toward the target read from the social registry.
     */
    method StepAll(candidates: seq<Entity>, delta: real)
      requires Valid() && workers.Some?
      modifies MoodsOf(candidates)
      ensures delta >= 0.0 ==>
        forall m :: m in MoodsOf(candidates) && 0.0 <= old(m.mood) <= 100.0 ==> 0.0 <= m.mood <= 100.0
      ensures DistinctMoods(candidates) ==>
        forall k :: 0 <= k < |candidates| ==>
          MovedToward(candidates[k], old(MoodsIn(candidates))[k], TargetsIn(socialRegistry.entities, candidates)[k], delta)
    {
      ghost var reg := socialRegistry.entities;
      ghost var targets := TargetsIn(reg, candidates);
      ghost var moods := MoodsIn(candidates);
      forall k | 0 <= k < |candidates| ensures MoodAt(candidates, k) == moods[k] {
        MoodsInAt(candidates, k);
      }
      StepCandidates(candidates, reg, targets, moods, delta);
    }
  }
}
