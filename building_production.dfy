/**
 * Periodic production of the component buildings: each built building
 * accumulates time and, once its interval has passed and its buffer has
 * room, adds one item of its produced kind and announces it on the event
 * bus.
 */
module BuildingProduction {

  import opened Common
  import opened Ecs
  import opened BuildingComponents
  import opened GameEventBus

  /** The enum constant name of an item kind, as the event payload carries it. */
  function ItemTypeName(t: ItemType): string
  {
    match t
    case Food => "FOOD"
    case Stone => "STONE"
    case Wood => "WOOD"
  }

  /** Whether a tick of delta seconds produces: the timer reaches the interval and the buffer has room. */
  predicate Produces(timer: real, delta: real, interval: real, count: nat, max: int)
  {
    timer + delta >= interval && count < max
  }

  /** The log message of a produced item. */
  function ProducedMessage(t: ItemType, buildingType: string): string
  {
    "PRODUCED: " + ItemTypeName(t) + " from " + buildingType
  }

  /** What a production tick reads of one building before it runs. */
  datatype Pending = Pending(built: bool, timer: real, interval: real, count: nat, max: int, kind: ItemType, buildingType: string)

  /** Whether a building in state p produces in a tick of delta seconds. */
  predicate Producing(p: Pending, delta: real)
  {
    p.built && Produces(p.timer, delta, p.interval, p.count, p.max)
  }

  /** The state of bc that a production tick reads. */
  function PendingOf(bc: BuildingComponent): Pending
    reads bc
  {
    Pending(bc.built, bc.timer, bc.productionInterval, |bc.outputBuffer|, bc.maxOutput, bc.producedItemType, bc.buildingType)
  }

  /**
   * The invocations a pass over buildings in states ps makes: each one
   * that produces fires RESOURCE_PRODUCED with its item kind's name to
   * every handler hs, in order.
   */
  function ProductionTrace(hs: seq<HandlerId>, ps: seq<Pending>, delta: real): seq<Invocation>
    decreases |ps|
  {
    if ps == [] then []
    else
      var p := ps[|ps| - 1];
      ProductionTrace(hs, ps[..|ps| - 1], delta)
        + if Producing(p, delta) then Calls(hs, EventType.ResourceProduced, ItemTypeName(p.kind)) else []
  }

  /** The event log after a pass over buildings in states ps: one message per building that produces, in order. */
  function ProductionLog(log: seq<string>, ps: seq<Pending>, delta: real): seq<string>
    decreases |ps|
  {
    if ps == [] then log
    else
      var p := ps[|ps| - 1];
      var before := ProductionLog(log, ps[..|ps| - 1], delta);
      if Producing(p, delta) then Appended(before, ProducedMessage(p.kind, p.buildingType), MAX_LOG) else before
  }

  /** How many of the buildings in states ps produce. */
  function ProducingCount(ps: seq<Pending>, delta: real): (n: nat)
    ensures n <= |ps|
    decreases |ps|
  {
    if ps == [] then 0 else ProducingCount(ps[..|ps| - 1], delta) + if Producing(ps[|ps| - 1], delta) then 1 else 0
  }

  /**
   * A pass fires one RESOURCE_PRODUCED per handler for every building
   * that produces, each carrying that building's item kind, and no
   * other event; with none producing it fires nothing and logs nothing.
   */
  lemma {:induction false} ProductionTraceShape(hs: seq<HandlerId>, ps: seq<Pending>, delta: real, log: seq<string>)
    ensures |ProductionTrace(hs, ps, delta)| == |hs| * ProducingCount(ps, delta)
    ensures forall c :: c in ProductionTrace(hs, ps, delta) ==>
      c.eventType == EventType.ResourceProduced && c.handler in hs
      && exists p :: p in ps && Producing(p, delta) && c.payload == ItemTypeName(p.kind)
    ensures ProducingCount(ps, delta) == 0 <==> forall p :: p in ps ==> !Producing(p, delta)
    ensures ProducingCount(ps, delta) == 0 ==> ProductionTrace(hs, ps, delta) == [] && ProductionLog(log, ps, delta) == log
    decreases |ps|
  {
    if ps != [] {
      var rest := ps[..|ps| - 1];
      var p := ps[|ps| - 1];
      ProductionTraceShape(hs, rest, delta, log);
      assert ps == rest + [p];
      forall c | c in ProductionTrace(hs, ps, delta)
        ensures c.eventType == EventType.ResourceProduced && c.handler in hs
        ensures exists q :: q in ps && Producing(q, delta) && c.payload == ItemTypeName(q.kind)
      {
        if c in ProductionTrace(hs, rest, delta) {
          var q :| q in rest && Producing(q, delta) && c.payload == ItemTypeName(q.kind);
          assert q in ps;
        } else {
          var calls := Calls(hs, EventType.ResourceProduced, ItemTypeName(p.kind));
          var i :| 0 <= i < |calls| && calls[i] == c;
          assert p in ps;
        }
      }
      if Producing(p, delta) {
        calc {
          |ProductionTrace(hs, ps, delta)|;
          |hs| * ProducingCount(rest, delta) + |hs|;
          |hs| * (ProducingCount(rest, delta) + 1);
        }
      }
    }
  }

  /** Extending a pass by one more building adds exactly that building's events and message. */
  lemma ProductionNext(hs: seq<HandlerId>, ps: seq<Pending>, p: Pending, delta: real, log: seq<string>)
    ensures ProductionTrace(hs, ps + [p], delta) == ProductionTrace(hs, ps, delta)
      + if Producing(p, delta) then Calls(hs, EventType.ResourceProduced, ItemTypeName(p.kind)) else []
    ensures ProductionLog(log, ps + [p], delta) ==
      if Producing(p, delta) then Appended(ProductionLog(log, ps, delta), ProducedMessage(p.kind, p.buildingType), MAX_LOG)
      else ProductionLog(log, ps, delta)
  {
    assert (ps + [p])[..|ps|] == ps;
  }

  /** A pass keeps the log within MAX_LOG entries. */
  lemma {:induction false} ProductionLogBounded(log: seq<string>, ps: seq<Pending>, delta: real)
    requires |log| <= MAX_LOG
    ensures |ProductionLog(log, ps, delta)| <= MAX_LOG
    decreases |ps|
  {
    if ps != [] {
      ProductionLogBounded(log, ps[..|ps| - 1], delta);
    }
  }

  /** The building components held by the entities of es. */
  ghost function BuildingsOf(es: seq<Entity>): set<BuildingComponent>
    reads es
  {
    set e | e in es && e.building != null :: e.building
  }

  /** The building components of the entities of es, in order. */
  ghost function BuildingList(es: seq<Entity>): seq<BuildingComponent>
    reads es
    decreases |es|
  {
    if es == [] then [] else (if es[0].building != null then [es[0].building] else []) + BuildingList(es[1..])
  }

  /** The building components in order are those of the entities selected for BuildingKind. */
  lemma {:induction false} BuildingListSelected(es: seq<Entity>)
    ensures |BuildingList(es)| == |With(es, [BuildingKind])|
    ensures forall j :: 0 <= j < |BuildingList(es)| ==> BuildingList(es)[j] == With(es, [BuildingKind])[j].building
    decreases |es|
  {
    if es != [] {
      BuildingListSelected(es[1..]);
      HasAllSingle(es[0], BuildingKind);
    }
  }

  /** No component is listed twice in bcs. */
  predicate Unshared(bcs: seq<BuildingComponent>)
  {
    forall i, j :: 0 <= i < j < |bcs| ==> bcs[i] != bcs[j]
  }

  /** No building component is held at two positions of the list. */
  ghost predicate DistinctBuildings(es: seq<Entity>)
    reads es
  {
    forall i, j :: 0 <= i < j < |es| && es[i].building != null ==> es[i].building != es[j].building
  }

  /** Selecting entities keeps building components unshared. */
  lemma {:induction false} WithKeepsDistinctBuildings(es: seq<Entity>, kinds: seq<Kind>)
    requires DistinctBuildings(es)
    ensures DistinctBuildings(With(es, kinds))
  {
    if es != [] {
      assert DistinctBuildings(es[1..]) by {
        forall i, j | 0 <= i < j < |es[1..]| && es[1..][i].building != null
          ensures es[1..][i].building != es[1..][j].building
        {
          assert es[1..][i] == es[i + 1] && es[1..][j] == es[j + 1];
        }
      }
      WithKeepsDistinctBuildings(es[1..], kinds);
      if es[0].HasAll(kinds) {
        var rest := With(es[1..], kinds);
        forall j | 0 <= j < |rest| && es[0].building != null
          ensures es[0].building != rest[j].building
        {
          WithSelects(es[1..], kinds, rest[j]);
          var k :| 0 <= k < |es[1..]| && es[1..][k] == rest[j];
          assert es[k + 1] == rest[j];
        }
        assert With(es, kinds) == [es[0]] + rest;
      }
    }
  }

  /**
   * One production tick of bc, compared with the state before: unbuilt
   * buildings are untouched; a built one either produced one item of its
   * kind and restarted its timer, or only advanced its timer by delta.
   */
  twostate predicate Ticked(bc: BuildingComponent, delta: real)
    reads bc
  {
    && bc.built == old(bc.built)
    && bc.productionInterval == old(bc.productionInterval)
    && bc.maxOutput == old(bc.maxOutput)
    && bc.producedItemType == old(bc.producedItemType)
    && bc.buildingType == old(bc.buildingType)
    && bc.pollutionRate == old(bc.pollutionRate)
    && if !old(bc.built) then
         bc.timer == old(bc.timer) && bc.outputBuffer == old(bc.outputBuffer)
       else if Produces(old(bc.timer), delta, old(bc.productionInterval), |old(bc.outputBuffer)|, old(bc.maxOutput)) then
         bc.timer == 0.0 && bc.outputBuffer == old(bc.outputBuffer) + [Item(old(bc.producedItemType))]
       else
         bc.timer == old(bc.timer) + delta && bc.outputBuffer == old(bc.outputBuffer)
  }

  /**
   * The components of the entities selected for BuildingKind are exactly
   * the registry's building components, and unshared when the registry's are.
   */
  lemma SelectedBuildings(es: seq<Entity>, bcs: seq<BuildingComponent>)
    requires |bcs| == |With(es, [BuildingKind])|
    requires forall j :: 0 <= j < |bcs| ==> bcs[j] == With(es, [BuildingKind])[j].building
    ensures (set b | b in bcs) == BuildingsOf(es)
    ensures DistinctBuildings(es) ==> Unshared(bcs)
  {
    var list := With(es, [BuildingKind]);
    forall e ensures e in list <==> e in es && e.building != null {
      WithSelects(es, [BuildingKind], e);
      HasAllSingle(e, BuildingKind);
    }
    forall b ensures b in bcs <==> b in BuildingsOf(es) {
      if b in bcs {
        var j :| 0 <= j < |bcs| && bcs[j] == b;
        assert list[j] in list;
        WithSelects(es, [BuildingKind], list[j]);
        HasAllSingle(list[j], BuildingKind);
      }
      if b in BuildingsOf(es) {
        var e :| e in es && e.building == b;
        assert e in list;
        var j :| 0 <= j < |list| && list[j] == e;
        assert bcs[j] == b;
      }
    }
    if DistinctBuildings(es) {
      WithKeepsDistinctBuildings(es, [BuildingKind]);
      forall i, j | 0 <= i < j < |bcs| ensures bcs[i] != bcs[j] {
        assert bcs[i] == list[i].building;
      }
    }
  }

  class BuildingProductionSystem {
    var events: GameEvents?

    constructor ()
      ensures events == null
    {
      events := null;
    }

    method SetEvents(e: GameEvents?)
      modifies this`events
      ensures events == e
    {
      events := e;
    }

    /**
     * One building's tick. A produced item fires RESOURCE_PRODUCED with the
     * item kind's name and logs a message, once, when events are set.
     */
    method Tick(bc: BuildingComponent, delta: real) returns (produced: bool)
      modifies bc, events
      ensures Ticked(bc, delta)
      ensures !old(bc.built) ==> unchanged(bc)
      ensures produced <==> Producing(old(PendingOf(bc)), delta)
      ensures |old(bc.outputBuffer)| <= bc.maxOutput ==> |bc.outputBuffer| <= bc.maxOutput
      ensures events != null && produced ==>
        events.trace == old(events.trace)
          + Calls(events.HandlersFor(EventType.ResourceProduced), EventType.ResourceProduced, ItemTypeName(old(bc.producedItemType)))
        && events.eventLog == Appended(old(events.eventLog), ProducedMessage(old(bc.producedItemType), old(bc.buildingType)), MAX_LOG)
      ensures events != null && !produced ==> unchanged(events)
      ensures events != null ==> events.listeners == old(events.listeners)
      ensures events != null && old(events.Valid()) ==> events.Valid()
    {
      produced := false;
      if !bc.built {
        return;
      }
      bc.timer := bc.timer + delta;
      if bc.timer >= bc.productionInterval && |bc.outputBuffer| < bc.maxOutput {
        bc.timer := 0.0;
        var itemType := bc.producedItemType;
        bc.outputBuffer := bc.outputBuffer + [Item(itemType)];
        produced := true;
        if events != null {
          events.FireAndLog(EventType.ResourceProduced, ItemTypeName(itemType), ProducedMessage(itemType, bc.buildingType));
        }
      }
    }

    /**
     * Ticks each component of bcs, in order. The bus, when set, sees the
     * events and log messages of the buildings that produced, in list
     * order, judged from the states ps the pass found them in; with no
     * component listed twice those are their states before the pass and
     * each has ticked once.
     */
    method TickAll(bcs: seq<BuildingComponent>, delta: real) returns (ghost ps: seq<Pending>)
      modifies (set b | b in bcs), events
      ensures forall b :: b in bcs ==> b.built == old(b.built)
      ensures forall b :: b in bcs && !old(b.built) ==> unchanged(b)
      ensures forall b :: b in bcs && |old(b.outputBuffer)| <= b.maxOutput ==> |b.outputBuffer| <= b.maxOutput
      ensures Unshared(bcs) ==> forall b :: b in bcs ==> Ticked(b, delta)
      ensures events != null ==> events.listeners == old(events.listeners)
      ensures events != null && old(events.Valid()) ==> events.Valid()
      ensures |ps| == |bcs|
      ensures Unshared(bcs) ==> forall k :: 0 <= k < |bcs| ==> ps[k] == old(PendingOf(bcs[k]))
      ensures events != null ==>
        && events.trace == old(events.trace) + ProductionTrace(events.HandlersFor(EventType.ResourceProduced), ps, delta)
        && events.eventLog == ProductionLog(old(events.eventLog), ps, delta)
    {
      ps := [];
      for i := 0 to |bcs|
        invariant forall b :: b in bcs ==> b.built == old(b.built) && b.maxOutput == old(b.maxOutput)
        invariant forall b :: b in bcs && !old(b.built) ==> unchanged(b)
        invariant forall b :: b in bcs && |old(b.outputBuffer)| <= b.maxOutput ==> |b.outputBuffer| <= b.maxOutput
        invariant Unshared(bcs) ==>
          (forall j :: 0 <= j < i ==> Ticked(bcs[j], delta)) && (forall j :: i <= j < |bcs| ==> unchanged(bcs[j]))
        invariant events != null ==> events.listeners == old(events.listeners)
        invariant events != null && old(events.Valid()) ==> events.Valid()
        invariant |ps| == i
        invariant Unshared(bcs) ==> forall k :: 0 <= k < i ==> ps[k] == old(PendingOf(bcs[k]))
        invariant events != null ==>
          && events.trace == old(events.trace) + ProductionTrace(events.HandlersFor(EventType.ResourceProduced), ps, delta)
          && events.eventLog == ProductionLog(old(events.eventLog), ps, delta)
      {
        ps := TickNext(bcs[i], delta, ps, if events != null then old(events.trace) else [],
                       if events != null then old(events.eventLog) else []);
      }
      if Unshared(bcs) {
        forall b | b in bcs ensures Ticked(b, delta) {
          var j :| 0 <= j < |bcs| && bcs[j] == b;
        }
      }
    }

    /**
     * The tick of bc within a pass that has found the states ps so far:
     * the bus advances by exactly bc's events and message, judged from
     * the state bc is found in.
     */
    method TickNext(bc: BuildingComponent, delta: real, ghost ps: seq<Pending>, ghost trace0: seq<Invocation>, ghost log0: seq<string>)
      returns (ghost ps': seq<Pending>)
      requires events != null ==>
        && events.trace == trace0 + ProductionTrace(events.HandlersFor(EventType.ResourceProduced), ps, delta)
        && events.eventLog == ProductionLog(log0, ps, delta)
      modifies bc, events
      ensures Ticked(bc, delta)
      ensures !old(bc.built) ==> unchanged(bc)
      ensures |old(bc.outputBuffer)| <= bc.maxOutput ==> |bc.outputBuffer| <= bc.maxOutput
      ensures events != null ==> events.listeners == old(events.listeners)
      ensures events != null && old(events.Valid()) ==> events.Valid()
      ensures ps' == ps + [old(PendingOf(bc))]
      ensures events != null ==>
        && events.trace == trace0 + ProductionTrace(events.HandlersFor(EventType.ResourceProduced), ps', delta)
        && events.eventLog == ProductionLog(log0, ps', delta)
    {
      ghost var p := PendingOf(bc);
      var _ := Tick(bc, delta);
      if events != null {
        ProductionNext(events.HandlersFor(EventType.ResourceProduced), ps, p, delta, log0);
      }
      ps' := ps + [p];
    }

    /** The building components of the registry's building entities, in registry order. */
    method CollectBuildings(ecs: ECSWorld) returns (bcs: seq<BuildingComponent>)
      ensures bcs == BuildingList(ecs.entities)
      ensures forall j :: 0 <= j < |bcs| ==> old(allocated(bcs[j]))
      ensures (set b | b in bcs) == BuildingsOf(ecs.entities)
      ensures DistinctBuildings(ecs.entities) ==> Unshared(bcs)
    {
      var list := ecs.GetEntitiesWith([BuildingKind]);
      bcs := [];
      for i := 0 to |list|
        modifies {}
        invariant |bcs| == i
        invariant forall j :: 0 <= j < i ==> bcs[j] == list[j].building && old(allocated(bcs[j]))
      {
        WithSelects(ecs.entities, [BuildingKind], list[i]);
        HasAllSingle(list[i], BuildingKind);
        assert old(allocated(list[i])) && old(list[i].building) == list[i].building;
        bcs := bcs + [list[i].building];
      }
      SelectedBuildings(ecs.entities, bcs);
      BuildingListSelected(ecs.entities);
    }

    /**
     * Ticks every building entity in registry order. Unbuilt buildings are
     * untouched and no buffer within its cap goes above it. The bus, when
     * set, sees one RESOURCE_PRODUCED per handler and one log message for
     * every building that produced, in registry order, judged from the
     * states ps the pass found the buildings bcs in. When no building
     * component is shared, those are their states before the tick and
     * every building has ticked exactly once.
     */
    method Update(ecs: ECSWorld, delta: real) returns (ghost bcs: seq<BuildingComponent>, ghost ps: seq<Pending>)
      modifies BuildingsOf(ecs.entities), events
      ensures forall b :: b in BuildingsOf(ecs.entities) ==> b.built == old(b.built)
      ensures forall b :: b in BuildingsOf(ecs.entities) && !old(b.built) ==> unchanged(b)
      ensures forall b :: b in BuildingsOf(ecs.entities) && |old(b.outputBuffer)| <= b.maxOutput ==>
        |b.outputBuffer| <= b.maxOutput
      ensures DistinctBuildings(ecs.entities) ==> forall b :: b in BuildingsOf(ecs.entities) ==> Ticked(b, delta)
      ensures events != null ==> events.listeners == old(events.listeners)
      ensures events != null && old(events.Valid()) ==> events.Valid()
      ensures bcs == old(BuildingList(ecs.entities)) && |ps| == |bcs|
      ensures old(DistinctBuildings(ecs.entities)) ==>
        forall k :: 0 <= k < |bcs| ==> old(allocated(bcs[k])) && ps[k] == old(PendingOf(bcs[k]))
      ensures events != null ==>
        && events.trace == old(events.trace) + ProductionTrace(events.HandlersFor(EventType.ResourceProduced), ps, delta)
        && events.eventLog == ProductionLog(old(events.eventLog), ps, delta)
    {
      var list := CollectBuildings(ecs);
      bcs := list;
      ghost var all := BuildingsOf(ecs.entities);
      ps := TickAll(list, delta);
      assert BuildingsOf(ecs.entities) == all;
    }
  }
}
