/**
 * The AI system: once per tick it runs the colonist think tree for every
 * entity with a task record, needs, a position, an inventory and a
 * health record, skipping the leader (driven by the player), the dead
 * and agents whose AI is disabled. One tree, built when the system is,
 * serves every entity.
 */
module AITaskSystems {

  import opened Common
  import opened Ecs
  import opened DataComponents
  import opened AIComponents
  import opened NeedsComponents
  import opened BuildingProduction
  import opened Worlds
  import opened NodeQueries
  import opened NodeSteps
  import opened ThinkTree
  import WanderNode

  /** The component kinds an entity needs to be considered at all. */
  const AgentKinds: seq<Kind> := [AIKind, NeedsKind, PositionKind, InventoryKind, HealthKind]

  /** x is driven by the tree: not the leader, alive, and with its AI enabled. */
  predicate Eligible(x: Entity)
    reads x, x.health, x.ai
  {
    x.leader == null && x.health != null && !x.health.dead && x.ai != null && !x.ai.aiDisabled
  }

  /** For each entity of xs, whether the tree drives it. */
  ghost function EligibleFlags(xs: seq<Entity>): (r: seq<bool>)
    reads xs, HealthsOf(xs), AIsOf(xs)
    ensures |r| == |xs| && forall k :: 0 <= k < |xs| ==> r[k] == Eligible(xs[k])
  {
    seq(|xs|, k requires 0 <= k < |xs| reads xs, HealthsOf(xs), AIsOf(xs) => Eligible(xs[k]))
  }

  /**
   * The component sets of a registry whose entity records are untouched
   * are the ones it had before.
   */
  twostate lemma FootprintKept(es: seq<Entity>)
    requires forall x :: x in es ==> unchanged(x)
    ensures AIsOf(es) == old(AIsOf(es)) && PositionsOf(es) == old(PositionsOf(es))
    ensures InventoriesOf(es) == old(InventoriesOf(es)) && NeedsOf(es) == old(NeedsOf(es))
    ensures SleepsOf(es) == old(SleepsOf(es)) && BuildingsOf(es) == old(BuildingsOf(es))
  {
  }

  class AITaskSystem {
    const colonistTree: ThinkTreeRoot

    constructor ()
      ensures fresh(colonistTree) && colonistTree.children == ColonistTree
    {
      var tree := CreateColonistTree();
      colonistTree := tree;
    }

    /**
     * The eligibility test and the tree run for one candidate e: the tree
     * runs exactly when e is eligible, and no entity's eligibility changes.
     * When it runs, the child picked is Best of the tree's priorities for
     * e, and that child's step is what happened to e (Stepped, with the
     * wander draws used and the choices recorded in trace).
     */
    method RunAgent(e: Entity, ecs: ECSWorld, world: World, delta: real, ghost xs: seq<Entity>)
      returns (ran: bool, handled: bool, best: Option<nat>, ghost draws: WanderNode.WanderDraws, ghost trace: NodeTrace)
      requires world.Valid() && e in ecs.entities
      requires forall k :: 0 <= k < |xs| ==> xs[k] in ecs.entities
      modifies AIsOf(ecs.entities), PositionsOf(ecs.entities), InventoriesOf(ecs.entities)
      modifies NeedsOf(ecs.entities), SleepsOf(ecs.entities)
      modifies world.TileSet(), world.stockpileTile, BuildingsOf(ecs.entities)
      ensures ran == old(Eligible(e))
      ensures ran ==> best == old(Best(Priorities(colonistTree.children, e, ecs.entities)))
      ensures ran && best.Some? ==>
        Stepped(old(colonistTree.children)[best.value], e, ecs, world, draws, delta, handled, trace)
      ensures forall a :: a in old(AIsOf(ecs.entities)) ==> a.aiDisabled == old(a.aiDisabled)
      ensures forall h :: h in old(HealthsOf(ecs.entities)) ==> unchanged(h)
      ensures forall x :: x in ecs.entities ==> unchanged(x)
      ensures forall k :: 0 <= k < |xs| ==> Eligible(xs[k]) == old(Eligible(xs[k]))
    {
      ran, handled, best, draws, trace := false, false, None, WanderNode.WanderDraws(0.0, 0.0, 0.0), WanderTrace(false, false);
      if e.leader != null {
        return;
      }
      var ai, health := e.ai, e.health;
      if health == null || health.dead || ai == null || ai.aiDisabled {
        return;
      }
      var drawn: WanderNode.WanderDraws := *;
      if !WanderNode.Uniform(drawn) {
        drawn := WanderNode.WanderDraws(0.0, 0.0, 0.0);
      }
      draws := drawn;
      handled, best, trace := Drive(colonistTree, e, ecs, world, drawn, delta);
      ran := true;
    }

    /**
     * One tree run for e: the picked child's step is what happened to e,
     * and it leaves every entity record, every AI switch and every health
     * record of the registry as it found them.
     */
    static method Drive(tree: ThinkTreeRoot, e: Entity, ecs: ECSWorld, world: World, draws: WanderNode.WanderDraws, delta: real)
      returns (handled: bool, best: Option<nat>, ghost trace: NodeTrace)
      requires world.Valid() && WanderNode.Uniform(draws) && e in ecs.entities
      modifies AIsOf(ecs.entities), PositionsOf(ecs.entities), InventoriesOf(ecs.entities)
      modifies NeedsOf(ecs.entities), SleepsOf(ecs.entities)
      modifies world.TileSet(), world.stockpileTile, BuildingsOf(ecs.entities)
      ensures best == old(Best(Priorities(tree.children, e, ecs.entities)))
      ensures best.Some? ==> Stepped(old(tree.children)[best.value], e, ecs, world, draws, delta, handled, trace)
      ensures forall x :: x in ecs.entities ==> unchanged(x)
      ensures forall a :: a in old(AIsOf(ecs.entities)) ==> a.aiDisabled == old(a.aiDisabled)
      ensures forall h :: h in old(HealthsOf(ecs.entities)) ==> unchanged(h)
    {
      ghost var healths := HealthsOf(ecs.entities);
      handled, best, trace := tree.Execute(e, ecs, world, draws, delta, Priorities(tree.children, e, ecs.entities));
      assert forall h :: h in healths ==> unchanged(h);
    }

    /**
     * One tick: the candidates are the registry's entities holding every
     * kind of AgentKinds, taken in registry order, and the tree runs for
     * the k-th of them (ran[k]) exactly when it is eligible at the start
     * of the tick. No tree run
     * changes who is eligible: nodes keep the AI enabled and never touch
     * health records or leader slots.
     */
    method Update(ecs: ECSWorld, world: World, delta: real) returns (ghost ran: seq<bool>)
      requires world.Valid()
      modifies AIsOf(ecs.entities), PositionsOf(ecs.entities), InventoriesOf(ecs.entities)
      modifies NeedsOf(ecs.entities), SleepsOf(ecs.entities)
      modifies world.TileSet(), world.stockpileTile, BuildingsOf(ecs.entities)
      ensures ran == old(EligibleFlags(With(ecs.entities, AgentKinds)))
      ensures forall a :: a in old(AIsOf(ecs.entities)) ==> a.aiDisabled == old(a.aiDisabled)
    {
      var agents := With(ecs.entities, AgentKinds);
      SelectedFrom(ecs.entities, AgentKinds);
      forall k | 0 <= k < |agents| ensures allocated(agents[k]) {
        assert agents[k] in ecs.entities;
      }
      ghost var flags := EligibleFlags(agents);
      ran := [];
      for i := 0 to |agents|
        invariant ran == flags[..i]
        invariant forall k :: i <= k < |agents| ==> Eligible(agents[k]) == flags[k]
        invariant forall a :: a in old(AIsOf(ecs.entities)) ==> a.aiDisabled == old(a.aiDisabled)
        invariant forall x :: x in ecs.entities ==> unchanged(x)
      {
        FootprintKept(ecs.entities);
        var r, handled, best, draws, trace := RunAgent(agents[i], ecs, world, delta, agents);
        assert r == flags[i];
        assert flags[..i + 1] == flags[..i] + [flags[i]];
        ran := ran + [r];
      }
      assert flags[..|agents|] == flags;
    }
  }
}
