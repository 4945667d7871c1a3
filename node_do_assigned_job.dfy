/**
 * The assigned-job behaviour: it works through the agent's active jobs,
 * highest priority first, and runs the first job that can act. Haulers
 * move any building output to the stockpile; miners and farmers collect
 * from buildings of their own type; every job first delivers whatever
 * the agent already carries.
 */
module DoAssignedJobNode {

  import opened Common
  import opened Ecs
  import opened DataComponents
  import opened AIComponents
  import opened BuildingComponents
  import opened BuildingProduction
  import opened WorkSettings
  import opened Tiles
  import opened Worlds
  import opened NodeQueries
  import opened NodeSteps

  const MOVE_SPEED: real := 2.0

  /** The building type names the miner and farmer jobs collect from. */
  const MINER_TYPE: string := "MINER"
  const FOOD_GROWER_TYPE: string := "FOOD_GROWER"

  /** The buildings a job collects from: any for haulers, its own type for miners and farmers; other jobs have none. */
  function JobFilter(role: ColonistRole): (f: Option<BuildingFilter>)
    ensures f.Some? <==> role in {ColonistRole.Hauler, ColonistRole.Miner, ColonistRole.Farmer}
  {
    match role
    case Hauler => Some(AnyBuilding)
    case Miner => Some(TypeIs(MINER_TYPE))
    case Farmer => Some(TypeIs(FOOD_GROWER_TYPE))
    case _ => None
  }

  /** The task kind of a pickup: toward a food grower for farmers, toward a miner otherwise. */
  function PickupTask(role: ColonistRole): (t: TaskType)
    ensures t == TaskType.MoveToFoodGrower <==> role == ColonistRole.Farmer
    ensures t == TaskType.MoveToMiner <==> role != ColonistRole.Farmer
  {
    if role == ColonistRole.Farmer then TaskType.MoveToFoodGrower else TaskType.MoveToMiner
  }

  /** The agent carries something. */
  predicate Carrying(e: Entity)
    reads e, e.inv
  {
    e.inv != null && e.inv.carriedItem.Some?
  }

  /**
   * Whether a job has work, judged over the registry's buildings bs: a
   * hauler has work while carrying or when any building has output;
   * miners and farmers when a building of their type has output; other
   * jobs never.
   */
  predicate HasWorkAvailable(role: ColonistRole, e: Entity, bs: seq<Entity>)
    reads e, e.inv, bs, BuildingsOf(bs)
  {
    match role
    case Hauler => Carrying(e) || AnyOffers(bs, AnyBuilding)
    case Miner => AnyOffers(bs, TypeIs(MINER_TYPE))
    case Farmer => AnyOffers(bs, TypeIs(FOOD_GROWER_TYPE))
    case _ => false
  }

  /** Some job of jobs has work. */
  predicate AnyWork(jobs: seq<ColonistRole>, e: Entity, bs: seq<Entity>)
    reads e, e.inv, bs, BuildingsOf(bs)
  {
    exists i :: 0 <= i < |jobs| && HasWorkAvailable(jobs[i], e, bs)
  }

  /**
   * 50 when some active job has work over the registry's buildings, 0
   * otherwise, and 0 without work settings.
   */
  function DoAssignedJobPriority(e: Entity, es: seq<Entity>): (p: real)
    reads e, e.ws, e.inv, es, With(es, BuildingKinds), BuildingsOf(With(es, BuildingKinds))
    ensures p == 50.0 || p == 0.0
    ensures p == 50.0 <==>
      e.ws != null && AnyWork(e.ws.GetActiveJobsSorted(), e, With(es, BuildingKinds))
  {
    if e.ws == null then 0.0
    else if AnyWork(e.ws.GetActiveJobsSorted(), e, With(es, BuildingKinds)) then 50.0
    else 0.0
  }

  /**
   * The priority of the job behaviour is positive exactly when an
   * active job (a role of positive priority) has work.
   */
  lemma DoAssignedJobPriorityPositive(e: Entity, es: seq<Entity>)
    requires e.ws != null
    ensures DoAssignedJobPriority(e, es) > 0.0 <==>
      exists r :: e.ws.GetPriority(r) > 0 && HasWorkAvailable(r, e, With(es, BuildingKinds))
  {
    var jobs := e.ws.GetActiveJobsSorted();
    var bs := With(es, BuildingKinds);
    if DoAssignedJobPriority(e, es) > 0.0 {
      var i :| 0 <= i < |jobs| && HasWorkAvailable(jobs[i], e, bs);
      ActiveJobsSortedSpec(e.ws.priorities, jobs[i]);
    }
    if r :| e.ws.GetPriority(r) > 0 && HasWorkAvailable(r, e, bs) {
      ActiveJobsSortedSpec(e.ws.priorities, r);
      var i :| 0 <= i < |jobs| && jobs[i] == r;
    }
  }

  /** Whether one job has work: the scans of the source, with early exit. */
  method HasWorkNow(role: ColonistRole, e: Entity, bs: seq<Entity>) returns (work: bool)
    ensures work == HasWorkAvailable(role, e, bs)
  {
    match role {
      case Hauler =>
        if e.inv != null && e.inv.carriedItem.Some? {
          return true;
        }
        work := ScanAnyOffers(bs, AnyBuilding);
      case Miner =>
        work := ScanAnyOffers(bs, TypeIs(MINER_TYPE));
      case Farmer =>
        work := ScanAnyOffers(bs, TypeIs(FOOD_GROWER_TYPE));
      case _ =>
        work := false;
    }
  }

  /** The priority as the source computes it: a scan over the active jobs. */
  method GetPriority(e: Entity, ecs: ECSWorld) returns (p: real)
    ensures p == DoAssignedJobPriority(e, ecs.entities)
  {
    var ws := e.ws;
    if ws == null {
      return 0.0;
    }
    var jobs := ws.GetActiveJobsSorted();
    if jobs == [] {
      return 0.0;
    }
    var bs := With(ecs.entities, BuildingKinds);
    SelectedFrom(ecs.entities, BuildingKinds);
    forall k | 0 <= k < |bs| ensures allocated(bs[k]) {
      assert bs[k] in ecs.entities;
    }
    for i := 0 to |jobs|
      invariant forall k :: 0 <= k < |bs| ==> allocated(bs[k])
      invariant forall j :: 0 <= j < i ==> !HasWorkAvailable(jobs[j], e, bs)
    {
      var work := HasWorkNow(jobs[i], e, bs);
      if work {
        return 50.0;
      }
    }
    return 0.0;
  }

  /**
   * Whether role's job step acts now, judged over the placed buildings:
   * it must be a hauler, miner or farmer job and the agent must hold its
   * components; then a carrying agent needs a stockpile, an empty-handed
   * one a placed building the job collects from that has output.
   */
  predicate JobActs(role: ColonistRole, e: Entity, placed: seq<Entity>, world: World)
    reads e, e.inv, world, placed, BuildingsOf(placed)
  {
    && JobFilter(role).Some? && CanWork(e)
    && if e.inv.carriedItem.Some? then world.stockpileTile != null
       else AnyOffers(placed, JobFilter(role).value)
  }

  /**
   * One job's step (the source's per-role dispatch). A carrying agent
   * delivers to the stockpile whatever the job; an empty-handed one
   * collects from the first placed building in registry order that the
   * job accepts and that has output. The step acts exactly when JobActs
   * held before it, and a step that declines changes nothing.
   */
  method ExecuteJob(role: ColonistRole, e: Entity, ecs: ECSWorld, world: World, delta: real)
    returns (handled: bool, ghost placed: seq<Entity>, ghost bi: Option<nat>, ghost arrived: bool)
    modifies e.ai, e.pos, e.inv, world.stockpileTile, BuildingsOf(ecs.entities)
    ensures placed == old(With(ecs.entities, PlacedBuildingKinds))
    ensures forall b :: b in placed ==> b.building != null && b.pos != null
    ensures handled <==> old(JobActs(role, e, placed, world))
    ensures !handled ==> CarryUntouched(e, ecs.entities, world)
    ensures e.ai != null ==> KeepsTimers(e.ai)
    ensures handled && old(Carrying(e)) ==>
      bi.None? && Delivered(e.ai, e.inv, world.stockpileTile, arrived)
    ensures handled && !old(Carrying(e)) ==>
      && bi == old(FirstOffering(placed, JobFilter(role).value)) && bi.Some? && bi.value < |placed|
      && Collected(e.ai, e.inv, placed[bi.value].pos, placed[bi.value].building, PickupTask(role), arrived)
  {
    var buildings := With(ecs.entities, PlacedBuildingKinds);
    placed := buildings;
    forall b | b in buildings ensures b in ecs.entities && b.building != null && b.pos != null {
      PlacedSelected(ecs.entities, b);
    }
    bi, arrived := None, false;
    var filter := JobFilter(role);
    if filter.None? || e.ai == null || e.pos == null || e.inv == null {
      return false, placed, bi, arrived;
    }
    if e.inv.carriedItem.Some? {
      handled, arrived := DeliverJob(e, ecs, world, delta);
    } else {
      handled, bi, arrived := CollectJob(e.ai, e.pos, e.inv, ecs, buildings, filter.value, PickupTask(role), delta);
    }
  }

  /**
   * The carrying half of a job step: with a stockpile the agent walks
   * there and drops its item on arrival; without one the step declines
   * and changes nothing.
   */
  method DeliverJob(e: Entity, ecs: ECSWorld, world: World, delta: real) returns (handled: bool, ghost arrived: bool)
    requires CanWork(e) && e.inv.carriedItem.Some?
    modifies e.ai, e.pos, e.inv, world.stockpileTile
    ensures handled <==> old(world.stockpileTile) != null
    ensures !handled ==> CarryUntouched(e, ecs.entities, world)
    ensures KeepsTimers(e.ai)
    ensures handled ==> Delivered(e.ai, e.inv, world.stockpileTile, arrived)
  {
    var stockpile := world.stockpileTile;
    if stockpile == null {
      return false, false;
    }
    arrived := DeliverCarried(e.ai, e.pos, e.inv, stockpile, MOVE_SPEED, delta);
    handled := true;
  }

  /**
   * The empty-handed half of a job step: the agent heads for the first
   * building of placed, in order, that filter f accepts and that has
   * output, and takes one item on arrival; with no such building the
   * step declines and changes nothing.
   */
  method CollectJob(ai: AIComponent, pos: PositionComponent, inv: InventoryComponent, ecs: ECSWorld,
                    placed: seq<Entity>, f: BuildingFilter, kind: TaskType, delta: real)
    returns (handled: bool, ghost bi: Option<nat>, ghost arrived: bool)
    requires forall b :: b in placed ==> b in ecs.entities && b.building != null && b.pos != null
    modifies ai, pos, inv, BuildingsOf(ecs.entities)
    ensures bi == old(FirstOffering(placed, f))
    ensures handled <==> bi.Some?
    ensures !handled ==> unchanged(ai, pos, inv) && forall b :: b in BuildingsOf(ecs.entities) ==> unchanged(b)
    ensures KeepsTimers(ai)
    ensures handled ==> bi.value < |placed| && Collected(ai, inv, placed[bi.value].pos, placed[bi.value].building, kind, arrived)
  {
    arrived := false;
    var found := ScanFirstOffering(placed, f);
    bi := found;
    if found.None? {
      return false, bi, arrived;
    }
    var b := placed[found.value];
    var bp, bc := b.pos, b.building;
    assert bc in BuildingsOf(ecs.entities);
    assert bc.outputBuffer == old(bc.outputBuffer) && bp.x == old(bp.x) && bp.y == old(bp.y);
    arrived := CollectOutput(ai, pos, inv, bp, bc, kind, MOVE_SPEED, delta);
    assert b.pos == bp && b.building == bc;
    handled := true;
  }

  /**
   * What one assigned-job step did to agent e, given its active jobs in
   * priority order, the job that acted (k), the placed buildings and the
   * one it collected from (bi). The first job able to act does: carrying,
   * it delivers to the stockpile; empty-handed, it collects from the first
   * building offering that job's output. With no job able to act the
   * step declines and nothing the job would touch changes.
   */
  twostate predicate JobStepped(e: Entity, ecs: ECSWorld, world: World, delta: real, handled: bool, jobs: seq<ColonistRole>, k: nat, new placed: seq<Entity>, new bi: Option<nat>, arrived: bool)
    reads *
  {
    && unchanged(e) && unchanged(world) && unchanged(ecs) && old(allocated(placed))
    && KeepsControl(e)
    && placed == old(With(ecs.entities, PlacedBuildingKinds))
    && (forall b :: b in placed ==> old(b.building) != null && old(b.pos) != null)
    && (e.ws == null ==> !handled && CarryUntouched(e, ecs.entities, world))
    && (e.ws != null ==> jobs == old(e.ws.GetActiveJobsSorted()))
    && (e.ws != null ==>
       (handled <==> exists j :: 0 <= j < |jobs| && old(JobActs(jobs[j], e, placed, world))))
    && (handled ==>
       && k < |jobs| && old(JobActs(jobs[k], e, placed, world))
       && forall j :: 0 <= j < k ==> !old(JobActs(jobs[j], e, placed, world)))
    && (!handled ==> CarryUntouched(e, ecs.entities, world))
    && (handled && old(Carrying(e)) ==> Delivered(e.ai, e.inv, world.stockpileTile, arrived))
    && (handled && !old(Carrying(e)) ==>
       && bi == old(FirstOffering(placed, JobFilter(jobs[k]).value)) && bi.Some? && bi.value < |placed|
       && Collected(e.ai, e.inv, old(placed[bi.value].pos), old(placed[bi.value].building), PickupTask(jobs[k]), arrived))
  }

  /**
   * One step of the job behaviour: without work settings it declines;
   * otherwise it runs the first active job, in priority order, whose step
   * acts, and declines, changing nothing, when none does. Since a job
   * step that declines changes nothing, trying the jobs in turn until one
   * acts is the same as running that first acting job.
   */
  method ExecuteDoAssignedJob(e: Entity, ecs: ECSWorld, world: World, delta: real)
    returns (handled: bool, jobs: seq<ColonistRole>, k: nat, ghost placed: seq<Entity>, ghost bi: Option<nat>,
             ghost arrived: bool)
    modifies e.ai, e.pos, e.inv, world.stockpileTile, BuildingsOf(ecs.entities)
    ensures JobStepped(e, ecs, world, delta, handled, jobs, k, placed, bi, arrived)
  {
    jobs, k, bi, arrived := [], 0, None, false;
    var buildings := With(ecs.entities, PlacedBuildingKinds);
    placed := buildings;
    forall b | b in buildings ensures b in ecs.entities && b.building != null && b.pos != null {
      PlacedSelected(ecs.entities, b);
    }
    var ws := e.ws;
    if ws == null {
      return false, jobs, k, placed, bi, arrived;
    }
    jobs := ws.GetActiveJobsSorted();
    while k < |jobs| && !JobActs(jobs[k], e, buildings, world)
      invariant 0 <= k <= |jobs|
      invariant forall j :: 0 <= j < k ==> !JobActs(jobs[j], e, buildings, world)
    {
      k := k + 1;
    }
    if k == |jobs| {
      return false, jobs, k, placed, bi, arrived;
    }
    ghost var placed';
    handled, placed', bi, arrived := ExecuteJob(jobs[k], e, ecs, world, delta);
  }
}
