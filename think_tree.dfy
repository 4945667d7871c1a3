/**
 * The think tree that drives every colonist: a root over an ordered list
 * of behaviour nodes. Each tick the root asks every child for its
 * priority, keeps the first child with the strictly highest positive
 * priority, and runs that child's step.
 */
module ThinkTree {

  import opened Common
  import opened Ecs
  import opened DataComponents
  import opened AIComponents
  import opened NeedsComponents
  import opened BuildingComponents
  import opened BuildingProduction
  import opened WorkSettings
  import opened Worlds
  import opened Tiles
  import opened NodeQueries
  import opened NodeSteps
  import EatFoodNode
  import RestNode
  import DoAssignedJobNode
  import HaulNode
  import SocializeNode
  import WanderNode

  /** The behaviour nodes a tree can hold. */
  datatype NodeKind = EatFood | Rest | DoAssignedJob | Haul | Socialize | Wander

  /** The root's own priority: a tree is always available. */
  const ROOT_PRIORITY: real := 1.0

  /** The colonist tree's children, in order. */
  const ColonistTree: seq<NodeKind> := [EatFood, Rest, DoAssignedJob, Haul, Socialize, NodeKind.Wander]

  /** The priority node k gives agent e over the registry es; never above 100, and always 1 for wandering. */
  function PriorityOf(k: NodeKind, e: Entity, es: seq<Entity>): (p: real)
    reads e, e.needs, e.ai, e.ws, e.inv, es
    reads With(es, BuildingKinds), BuildingsOf(With(es, BuildingKinds))
    reads With(es, PersonKinds), HealthsOf(With(es, PersonKinds))
    ensures 0.0 <= p <= 100.0
    ensures k == NodeKind.Wander ==> p == 1.0
  {
    match k
    case EatFood => EatFoodNode.EatFoodPriority(e)
    case Rest => RestNode.RestPriority(e)
    case DoAssignedJob => DoAssignedJobNode.DoAssignedJobPriority(e, es)
    case Haul => HaulNode.HaulPriority(e, es)
    case Socialize => SocializeNode.SocializePriority(e, es)
    case Wander => 1.0
  }

  /** The priorities the children ks give agent e, in order. */
  function Priorities(ks: seq<NodeKind>, e: Entity, es: seq<Entity>): (ps: seq<real>)
    reads e, e.needs, e.ai, e.ws, e.inv, es
    reads With(es, BuildingKinds), BuildingsOf(With(es, BuildingKinds))
    reads With(es, PersonKinds), HealthsOf(With(es, PersonKinds))
    ensures |ps| == |ks|
    ensures forall i :: 0 <= i < |ks| ==> ps[i] == PriorityOf(ks[i], e, es)
  {
    if ks == [] then [] else Priorities(ks[..|ks| - 1], e, es) + [PriorityOf(ks[|ks| - 1], e, es)]
  }

  /**
   * The child the root picks from priorities ps: the first with the
   * highest priority, and none when no priority is positive.
   */
  function Best(ps: seq<real>): (r: Option<nat>)
    ensures r.None? <==> forall i :: 0 <= i < |ps| ==> ps[i] <= 0.0
    ensures r.Some? ==>
      && r.value < |ps| && ps[r.value] > 0.0
      && (forall j :: 0 <= j < |ps| ==> ps[j] <= ps[r.value])
      && (forall j :: 0 <= j < r.value ==> ps[j] < ps[r.value])
  {
    if ps == [] then None
    else
      var b := Best(ps[..|ps| - 1]);
      var bestPriority := if b.Some? then ps[b.value] else 0.0;
      if ps[|ps| - 1] > bestPriority then Some(|ps| - 1) else b
  }

  /** The choices a node's step made, one variant per node kind (see the nodes' Stepped predicates). */
  datatype NodeTrace =
    | EatTrace(foodTile: Tile?, growers: seq<Entity>, gi: Option<nat>, ate: bool)
    | RestTrace(started: bool, finished: bool, inBed: bool)
    | JobTrace(jobs: seq<ColonistRole>, k: nat, placed: seq<Entity>, bi: Option<nat>, delivered: bool)
    | HaulTrace(buildings: seq<Entity>, nearest: Option<nat>, reached: bool)
    | SocializeTrace(people: seq<Entity>, partner: Option<nat>)
    | WanderTrace(picked: bool, arrived: bool)

  /** What node k's step did to agent e, as that node's own Stepped predicate states it. */
  twostate predicate Stepped(k: NodeKind, e: Entity, ecs: ECSWorld, world: World, draws: WanderNode.WanderDraws,
                             delta: real, handled: bool, new trace: NodeTrace)
    reads *
  {
    match k
    case EatFood =>
      trace.EatTrace? && EatFoodNode.EatStepped(e, ecs, world, handled, trace.foodTile, trace.growers, trace.gi, trace.ate)
    case Rest =>
      trace.RestTrace? && RestNode.RestStepped(e, ecs, delta, handled, trace.started, trace.finished, trace.inBed)
    case DoAssignedJob =>
      trace.JobTrace?
      && DoAssignedJobNode.JobStepped(e, ecs, world, delta, handled, trace.jobs, trace.k, trace.placed, trace.bi, trace.delivered)
    case Haul =>
      trace.HaulTrace? && HaulNode.HaulStepped(e, ecs, world, delta, handled, trace.buildings, trace.nearest, trace.reached)
    case Socialize =>
      trace.SocializeTrace? && SocializeNode.SocializeStepped(e, ecs, delta, handled, trace.people, trace.partner)
    case Wander =>
      trace.WanderTrace? && WanderNode.WanderStepped(e, world, draws, delta, handled, trace.picked, trace.arrived)
  }

  /**
   * Runs node k's step for agent e: what it did is that node's Stepped
   * predicate, over the choices recorded in trace. Every step leaves the
   * agent under the tree's control.
   */
  method RunNode(k: NodeKind, e: Entity, ecs: ECSWorld, world: World, draws: WanderNode.WanderDraws, delta: real)
    returns (handled: bool, ghost trace: NodeTrace)
    requires world.Valid() && WanderNode.Uniform(draws)
    modifies e.ai, e.pos, e.inv, e.needs, e.sleep, world.TileSet(), world.stockpileTile, BuildingsOf(ecs.entities)
    ensures Stepped(k, e, ecs, world, draws, delta, handled, trace)
    ensures KeepsControl(e)
  {
    match k {
      case EatFood =>
        ghost var foodTile, growers, gi, arrived;
        handled, foodTile, growers, gi, arrived := EatFoodNode.ExecuteEatFood(e, ecs, world, delta);
        trace := EatTrace(foodTile, growers, gi, arrived);
      case Rest =>
        ghost var started, finished, inBed;
        handled, started, finished, inBed := RestNode.ExecuteRest(e, ecs, delta);
        trace := RestTrace(started, finished, inBed);
      case DoAssignedJob =>
        var jobs, i;
        ghost var placed, bi, arrived;
        handled, jobs, i, placed, bi, arrived := DoAssignedJobNode.ExecuteDoAssignedJob(e, ecs, world, delta);
        trace := JobTrace(jobs, i, placed, bi, arrived);
      case Haul =>
        var nearest;
        ghost var placed, arrived;
        handled, placed, nearest, arrived := HaulNode.ExecuteHaul(e, ecs, world, delta);
        trace := HaulTrace(placed, nearest, arrived);
      case Socialize =>
        var nearest;
        ghost var people;
        handled, people, nearest := SocializeNode.ExecuteSocialize(e, ecs, delta);
        trace := SocializeTrace(people, nearest);
      case Wander =>
        var picked;
        ghost var arrived;
        handled, picked, arrived := WanderNode.ExecuteWander(e, world, draws, delta);
        trace := WanderTrace(picked, arrived);
    }
  }

  class ThinkTreeRoot {
    var children: seq<NodeKind>

    constructor ()
      ensures children == []
    {
      children := [];
    }

    /** The root's own priority: positive, so the root is always a valid choice, and as low as wandering. */
    function GetPriority(): (p: real)
      ensures 0.0 < p <= 100.0
      ensures p == 1.0
    {
      ROOT_PRIORITY
    }

    /** Appends a child; returns the root itself so that calls can be chained. */
    method AddChild(k: NodeKind) returns (root: ThinkTreeRoot)
      modifies this
      ensures children == old(children) + [k] && root == this
    {
      children := children + [k];
      root := this;
    }

    /**
     * One tick of the tree for agent e: the child picked is Best of the
     * children's priorities before the tick; with none picked the step
     * declines and nothing changes, otherwise the step is the picked
     * child's (Stepped, over the choices recorded in trace).
     */
    method Execute(e: Entity, ecs: ECSWorld, world: World, draws: WanderNode.WanderDraws, delta: real, ghost prios: seq<real>)
      returns (handled: bool, best: Option<nat>, ghost trace: NodeTrace)
      requires world.Valid() && WanderNode.Uniform(draws)
      requires prios == Priorities(children, e, ecs.entities)
      modifies e.ai, e.pos, e.inv, e.needs, e.sleep, world.TileSet(), world.stockpileTile, BuildingsOf(ecs.entities)
      ensures best == Best(prios)
      ensures KeepsControl(e)
      ensures best.None? ==> !handled && Untouched(e, ecs.entities, world)
      ensures best.Some? ==> Stepped(old(children)[best.value], e, ecs, world, draws, delta, handled, trace)
    {
      var kids := children;
      best, trace := None, WanderTrace(false, false);
      var bestPriority := 0.0;
      for i := 0 to |kids|
        invariant best == Best(prios[..i])
        invariant bestPriority == if best.Some? then prios[best.value] else 0.0
      {
        var p := PriorityOf(kids[i], e, ecs.entities);
        assert prios[..i + 1][..i] == prios[..i];
        if p > bestPriority {
          bestPriority := p;
          best := Some(i);
        }
      }
      assert prios[..|kids|] == prios;
      if best.None? {
        assert Untouched(e, ecs.entities, world);
        return false, best, WanderTrace(false, false);
      }
      handled, trace := RunNode(kids[best.value], e, ecs, world, draws, delta);
    }
  }

  /** The default colonist tree: eat, rest, assigned job, haul, socialise, wander, in that order. */
  method CreateColonistTree() returns (root: ThinkTreeRoot)
    ensures fresh(root) && root.children == ColonistTree
  {
    root := new ThinkTreeRoot();
    root := root.AddChild(EatFood);
    root := root.AddChild(Rest);
    root := root.AddChild(DoAssignedJob);
    root := root.AddChild(Haul);
    root := root.AddChild(Socialize);
    root := root.AddChild(NodeKind.Wander);
  }

  /** The colonist tree always picks some child: wandering is always available. */
  lemma ColonistTreeAlwaysPicks(e: Entity, es: seq<Entity>)
    ensures Best(Priorities(ColonistTree, e, es)).Some?
  {
    var ps := Priorities(ColonistTree, e, es);
    assert ps[5] == 1.0;
  }

  /** A starving agent that is not hauling always eats: no other node reaches 100. */
  lemma StarvingAgentEats(e: Entity, es: seq<Entity>)
    requires e.needs != null && e.needs.hunger <= 0.1
    requires e.ai == null || e.ai.taskType != TaskType.Hauling
    ensures Best(Priorities(ColonistTree, e, es)) == Some(0)
  {
    var ps := Priorities(ColonistTree, e, es);
    assert ps[0] == 100.0;
  }

  /**
   * A collapsed agent (energy at most 0.1) that is not starving rests:
   * resting at 95 beats everything but eating at 100, and the agent is
   * not about to eat at 100.
   */
  lemma CollapsedAgentRests(e: Entity, es: seq<Entity>)
    requires e.needs != null && e.needs.energy <= 0.1
    requires EatFoodNode.EatFoodPriority(e) < 100.0
    ensures Best(Priorities(ColonistTree, e, es)) == Some(1)
  {
    var ps := Priorities(ColonistTree, e, es);
    assert ps[1] >= 90.0;
    assert ps[0] <= 80.0;
    assert ps[2] <= 50.0 && ps[3] <= 50.0 && ps[4] <= 10.0;
  }

  /**
   * In the colonist tree the haul node is never picked: whenever it
   * would bid 50, the assigned-job node before it bids 50 too, and the
   * first of equal bids wins.
   */
  lemma HaulNeverPicked(e: Entity, es: seq<Entity>)
    requires e.ws != null ==> e.ws.Valid()
    ensures Best(Priorities(ColonistTree, e, es)) != Some(3)
  {
    var ps := Priorities(ColonistTree, e, es);
    if ps[3] > 0.0 {
      assert ps[3] == 50.0;
      var bs := With(es, BuildingKinds);
      assert e.ws.GetPriority(ColonistRole.Hauler) > 0;
      DoAssignedJobNode.DoAssignedJobPriorityPositive(e, es);
      assert DoAssignedJobNode.HasWorkAvailable(ColonistRole.Hauler, e, bs);
      assert ps[2] == 50.0;
    }
  }
}
