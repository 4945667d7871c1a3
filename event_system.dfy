/**
 * Random colony events: every 30 to 60 seconds one of five events strikes
 * the living colonists (an entity with needs and a health record that is
 * not dead) — a food blessing, a heat wave, a beautiful sunset, food
 * spoilage or one colonist's exhaustion — and a message goes into a log
 * that keeps the five newest entries. Nothing happens when no colonist
 * is alive. The random draws are chosen nondeterministically within the
 * ranges the generator guarantees.
 */
module EventSystems {

  import opened Common
  import opened Tiles
  import opened Worlds
  import opened Ecs
  import opened DataComponents
  import opened NeedsComponents
  import opened GameEventBus

  const MIN_INTERVAL: real := 30.0
  const MAX_INTERVAL: real := 60.0
  /** The event log keeps this many of the newest messages. */
  const EVENT_LOG_LIMIT: nat := 5
  /** Hunger lost by every living colonist in a heat wave. */
  const HEAT_WAVE_HUNGER: real := 0.15
  /** Energy gained by every living colonist at a beautiful sunset. */
  const SUNSET_ENERGY: real := 0.1
  /** Energy lost by the exhausted colonist. */
  const EXHAUSTION_ENERGY: real := 0.25

  /** The kinds an entity needs to be struck by an event. */
  const ColonistKinds: seq<Kind> := [NeedsKind, HealthKind]

  const BLESSING_MESSAGE: string := "EVENT: Bountiful harvest! 3 food added to stockpile."
  const HEAT_WAVE_MESSAGE: string := "EVENT: Heat wave! All colonists lost hunger."
  const SUNSET_MESSAGE: string := "EVENT: Beautiful sunset. All colonists feel refreshed."
  const SPOILAGE_MESSAGE: string := "EVENT: Food spoilage! 1 food lost from stockpile."

  /** The five events; an exhaustion names the index of its victim among the living. */
  datatype RandomEvent = FoodBlessing | HeatWave | MoralBoost | FoodSpoilage | Exhaustion(target: nat)

  /** The event a roll in [0, 5) selects; the exhausted victim is chosen by a second draw. */
  function EventFor(roll: int, target: nat): (ev: RandomEvent)
    requires 0 <= roll < 5
    ensures RollOf(ev) == roll
    ensures ev.Exhaustion? ==> ev.target == target
  {
    if roll == 0 then FoodBlessing
    else if roll == 1 then HeatWave
    else if roll == 2 then MoralBoost
    else if roll == 3 then FoodSpoilage
    else Exhaustion(target)
  }

  /** The roll that selects an event. */
  function RollOf(ev: RandomEvent): (roll: int)
  {
    match ev
    case FoodBlessing => 0
    case HeatWave => 1
    case MoralBoost => 2
    case FoodSpoilage => 3
    case Exhaustion(_) => 4
  }

  /** Every event is selected by exactly one roll, so all five are equally likely. */
  lemma EveryEventHasOneRoll(ev: RandomEvent)
    ensures 0 <= RollOf(ev) < 5
    ensures EventFor(RollOf(ev), if ev.Exhaustion? then ev.target else 0) == ev
  {
  }

  /** The time until the next event for a uniform draw u in [0, 1). */
  function Interval(u: real): (r: real)
    requires 0.0 <= u < 1.0
    ensures MIN_INTERVAL <= r < MAX_INTERVAL
    ensures (r - MIN_INTERVAL) / (MAX_INTERVAL - MIN_INTERVAL) == u
  {
    MIN_INTERVAL + u * (MAX_INTERVAL - MIN_INTERVAL)
  }

  /** The name an exhaustion message uses: the identity's name, else a generic one. */
  function ColonistName(e: Entity): string
    reads e, e.identity
  {
    if e.identity != null then e.identity.name else "A colonist"
  }

  /** The message an exhaustion of the colonist called name logs. */
  function ExhaustionMessage(name: string): (m: string)
    ensures "EVENT: " + name <= m
  {
    var head := "EVENT: " + name;
    var m := head + " feels exhausted! Lost 25 energy.";
    assert m[..|head|] == head;
    m
  }

  /** The members of cs whose health record says they are alive, in order. */
  function Living(cs: seq<Entity>): (r: seq<Entity>)
    reads cs, HealthsOf(cs)
    ensures |r| <= |cs|
    ensures forall k :: 0 <= k < |r| ==> r[k] in cs && r[k].health != null && !r[k].health.dead
  {
    if cs == [] then []
    else
      var last := cs[|cs| - 1];
      assert last.health != null ==> last.health in HealthsOf(cs);
      var front := Living(cs[..|cs| - 1]);
      assert forall y :: y in front ==> y in cs;
      if last.health != null && !last.health.dead then front + [last] else front
  }

  /** Living keeps every alive member of cs. */
  lemma {:induction false} LivingComplete(cs: seq<Entity>, x: Entity)
    requires x in cs && x.health != null && !x.health.dead
    ensures x in Living(cs)
  {
    if cs[|cs| - 1] != x {
      assert x in cs[..|cs| - 1];
      LivingComplete(cs[..|cs| - 1], x);
    }
  }

  /** The colonists events strike: exactly the entities with needs and a health record that is not dead. */
  function LivingColonists(es: seq<Entity>): seq<Entity>
    reads es, With(es, ColonistKinds), HealthsOf(With(es, ColonistKinds))
  {
    Living(With(es, ColonistKinds))
  }

  lemma LivingColonistsSpec(es: seq<Entity>, x: Entity)
    ensures x in LivingColonists(es) <==> x in es && x.needs != null && x.health != null && !x.health.dead
  {
    var cs := With(es, ColonistKinds);
    WithSelects(es, ColonistKinds, x);
    if x in LivingColonists(es) {
      assert x in cs;
      assert x.Has(ColonistKinds[0]) && x.Has(ColonistKinds[1]);
    }
    if x in es && x.needs != null && x.health != null && !x.health.dead {
      assert x.Has(ColonistKinds[0]) && x.Has(ColonistKinds[1]);
      assert x.HasAll(ColonistKinds);
      LivingComplete(cs, x);
    }
  }

  class EventSystem {
    var timer: real
    var nextEventAt: real
    var eventLog: seq<string>

    /** The next event is due 30 to 60 seconds after the last, and the log holds at most five messages. */
    ghost predicate Valid()
      reads this
    {
      MIN_INTERVAL <= nextEventAt < MAX_INTERVAL && |eventLog| <= EVENT_LOG_LIMIT
    }

    constructor ()
      ensures Valid() && timer == 0.0 && eventLog == []
    {
      var first := RandomInterval();
      timer := 0.0;
      eventLog := [];
      nextEventAt := first;
    }

    /** A fresh time until the next event, drawn uniformly from [30, 60). */
    static method RandomInterval() returns (r: real)
      ensures MIN_INTERVAL <= r < MAX_INTERVAL
    {
      var u: real := *;
      if !(0.0 <= u < 1.0) {
        u := 0.0;
      }
      r := Interval(u);
    }

    /** Appends message as the newest entry, dropping the oldest beyond five. */
    method Log(message: string)
      modifies this`eventLog
      ensures eventLog == Appended(old(eventLog), message, EVENT_LOG_LIMIT)
    {
      eventLog := eventLog + [message];
      if |eventLog| > EVENT_LOG_LIMIT {
        eventLog := eventLog[1..];
      }
    }

    /** Three food appear on the stockpile tile, when there is one. */
    method FoodBlessingEvent(world: World)
      modifies this`eventLog, world.stockpileTile
      ensures world.stockpileTile != null ==>
        world.stockpileTile.groundItems == old(world.stockpileTile.groundItems) + [Item(ItemType.Food), Item(ItemType.Food), Item(ItemType.Food)]
      ensures eventLog == Appended(old(eventLog), BLESSING_MESSAGE, EVENT_LOG_LIMIT)
    {
      var stockpile := world.stockpileTile;
      if stockpile != null {
        for i := 0 to 3
          modifies stockpile
          invariant stockpile.groundItems == old(stockpile.groundItems) + seq(i, _ => Item(ItemType.Food))
        {
          stockpile.AddItem(Item(ItemType.Food));
        }
      }
      Log(BLESSING_MESSAGE);
    }

    /** The first food on the stockpile tile, if any, is lost. */
    method FoodSpoilageEvent(world: World)
      modifies this`eventLog, world.stockpileTile
      ensures world.stockpileTile != null ==>
        world.stockpileTile.groundItems == WithoutFirstOfKind(old(world.stockpileTile.groundItems), ItemType.Food)
      ensures eventLog == Appended(old(eventLog), SPOILAGE_MESSAGE, EVENT_LOG_LIMIT)
    {
      var stockpile := world.stockpileTile;
      if stockpile != null {
        var _ := stockpile.TakeFirstItem(ItemType.Food);
      }
      Log(SPOILAGE_MESSAGE);
    }

    /** Every colonist in alive loses 0.15 hunger, never going below 0; nothing else of their needs changes. */
    static method ScorchAll(alive: seq<Entity>)
      requires forall k :: 0 <= k < |alive| ==> alive[k].needs != null
      modifies NeedsOf(alive)
      ensures DistinctNeeds(alive) ==>
        forall k :: 0 <= k < |alive| ==> alive[k].needs.hunger == Max(0.0, old(alive[k].needs.hunger) - HEAT_WAVE_HUNGER)
      ensures forall n :: n in NeedsOf(alive) ==>
        n.energy == old(n.energy) && n.mood == old(n.mood) && n.health == old(n.health)
    {
      for i := 0 to |alive|
        invariant DistinctNeeds(alive) ==>
          forall k :: 0 <= k < i ==> alive[k].needs.hunger == Max(0.0, old(alive[k].needs.hunger) - HEAT_WAVE_HUNGER)
        invariant DistinctNeeds(alive) ==>
          forall k :: i <= k < |alive| ==> alive[k].needs.hunger == old(alive[k].needs.hunger)
        invariant forall n :: n in NeedsOf(alive) ==>
          n.energy == old(n.energy) && n.mood == old(n.mood) && n.health == old(n.health)
      {
        var n := alive[i].needs;
        assert n in NeedsOf(alive);
        n.hunger := Max(0.0, n.hunger - HEAT_WAVE_HUNGER);
      }
    }

    /** A heat wave: every living colonist loses hunger, and the message is logged. */
    method HeatWaveEvent(alive: seq<Entity>)
      requires forall k :: 0 <= k < |alive| ==> alive[k].needs != null
      modifies this`eventLog, NeedsOf(alive)
      ensures DistinctNeeds(alive) ==>
        forall k :: 0 <= k < |alive| ==> alive[k].needs.hunger == Max(0.0, old(alive[k].needs.hunger) - HEAT_WAVE_HUNGER)
      ensures forall n :: n in NeedsOf(alive) ==>
        n.energy == old(n.energy) && n.mood == old(n.mood) && n.health == old(n.health)
      ensures eventLog == Appended(old(eventLog), HEAT_WAVE_MESSAGE, EVENT_LOG_LIMIT)
    {
      ScorchAll(alive);
      Log(HEAT_WAVE_MESSAGE);
    }

    /** Every colonist in alive gains 0.1 energy, never going above 1; nothing else of their needs changes. */
    static method RefreshAll(alive: seq<Entity>)
      requires forall k :: 0 <= k < |alive| ==> alive[k].needs != null
      modifies NeedsOf(alive)
      ensures DistinctNeeds(alive) ==>
        forall k :: 0 <= k < |alive| ==> alive[k].needs.energy == Min(FULL, old(alive[k].needs.energy) + SUNSET_ENERGY)
      ensures forall n :: n in NeedsOf(alive) ==>
        n.hunger == old(n.hunger) && n.mood == old(n.mood) && n.health == old(n.health)
    {
      for i := 0 to |alive|
        invariant DistinctNeeds(alive) ==>
          forall k :: 0 <= k < i ==> alive[k].needs.energy == Min(FULL, old(alive[k].needs.energy) + SUNSET_ENERGY)
        invariant DistinctNeeds(alive) ==>
          forall k :: i <= k < |alive| ==> alive[k].needs.energy == old(alive[k].needs.energy)
        invariant forall n :: n in NeedsOf(alive) ==>
          n.hunger == old(n.hunger) && n.mood == old(n.mood) && n.health == old(n.health)
      {
        var n := alive[i].needs;
        assert n in NeedsOf(alive);
        n.energy := Min(FULL, n.energy + SUNSET_ENERGY);
      }
    }

    /** A beautiful sunset: every living colonist gains energy, and the message is logged. */
    method MoralBoostEvent(alive: seq<Entity>)
      requires forall k :: 0 <= k < |alive| ==> alive[k].needs != null
      modifies this`eventLog, NeedsOf(alive)
      ensures DistinctNeeds(alive) ==>
        forall k :: 0 <= k < |alive| ==> alive[k].needs.energy == Min(FULL, old(alive[k].needs.energy) + SUNSET_ENERGY)
      ensures forall n :: n in NeedsOf(alive) ==>
        n.hunger == old(n.hunger) && n.mood == old(n.mood) && n.health == old(n.health)
      ensures eventLog == Appended(old(eventLog), SUNSET_MESSAGE, EVENT_LOG_LIMIT)
    {
      RefreshAll(alive);
      Log(SUNSET_MESSAGE);
    }

    /** One colonist, drawn uniformly from alive, loses 0.25 energy (never below 0); no other needs record changes. */
    method ExhaustionEvent(alive: seq<Entity>) returns (target: nat)
      requires |alive| > 0 && forall k :: 0 <= k < |alive| ==> alive[k].needs != null
      modifies this`eventLog, NeedsOf(alive)
      ensures target < |alive|
      ensures alive[target].needs.energy == Max(0.0, old(alive[target].needs.energy) - EXHAUSTION_ENERGY)
      ensures forall n :: n in NeedsOf(alive) ==>
        n.hunger == old(n.hunger) && n.mood == old(n.mood) && n.health == old(n.health)
        && (n != alive[target].needs ==> n.energy == old(n.energy))
      ensures eventLog == Appended(old(eventLog), ExhaustionMessage(ColonistName(alive[target])), EVENT_LOG_LIMIT)
    {
      var k: int := *;
      if !(0 <= k < |alive|) {
        k := 0;
      }
      target := k;
      var n := alive[k].needs;
      assert n in NeedsOf(alive);
      n.energy := Max(0.0, n.energy - EXHAUSTION_ENERGY);
      var name := ColonistName(alive[k]);
      Log(ExhaustionMessage(name));
    }

    /**
     * What event ev did to the living colonists alive, the stockpile and
     * the log: a blessing adds three food to the stockpile, a spoilage
     * takes its first food, a heat wave scorches every living colonist, a
     * sunset refreshes them, an exhaustion drains the energy of its one
     * victim; each logs its own message.
     */
    twostate predicate Struck(ev: RandomEvent, alive: seq<Entity>, world: World)
      reads this`eventLog, world, world.stockpileTile, alive, NeedsOf(alive), IdentitiesOf(alive)
    {
      && (forall k :: 0 <= k < |alive| ==> alive[k].needs != null && old(alive[k].needs) == alive[k].needs)
      && old(world.stockpileTile) == world.stockpileTile
      && match ev
        case FoodBlessing =>
          && (world.stockpileTile != null ==>
                world.stockpileTile.groundItems
                == old(world.stockpileTile.groundItems) + [Item(ItemType.Food), Item(ItemType.Food), Item(ItemType.Food)])
          && eventLog == Appended(old(eventLog), BLESSING_MESSAGE, EVENT_LOG_LIMIT)
        case FoodSpoilage =>
          && (world.stockpileTile != null ==>
                world.stockpileTile.groundItems == WithoutFirstOfKind(old(world.stockpileTile.groundItems), ItemType.Food))
          && eventLog == Appended(old(eventLog), SPOILAGE_MESSAGE, EVENT_LOG_LIMIT)
        case HeatWave =>
          && (DistinctNeeds(alive) ==>
                forall k :: 0 <= k < |alive| ==>
                  alive[k].needs.hunger == Max(0.0, old(alive[k].needs.hunger) - HEAT_WAVE_HUNGER))
          && eventLog == Appended(old(eventLog), HEAT_WAVE_MESSAGE, EVENT_LOG_LIMIT)
        case MoralBoost =>
          && (DistinctNeeds(alive) ==>
                forall k :: 0 <= k < |alive| ==>
                  alive[k].needs.energy == Min(FULL, old(alive[k].needs.energy) + SUNSET_ENERGY))
          && eventLog == Appended(old(eventLog), SUNSET_MESSAGE, EVENT_LOG_LIMIT)
        case Exhaustion(target) =>
          && target < |alive|
          && alive[target].needs.energy == Max(0.0, old(alive[target].needs.energy) - EXHAUSTION_ENERGY)
          && (forall n :: n in NeedsOf(alive) && n != alive[target].needs ==> n.energy == old(n.energy))
          && eventLog == Appended(old(eventLog), ExhaustionMessage(ColonistName(alive[target])), EVENT_LOG_LIMIT)
    }

    /** The event a roll in [0, 5) selects strikes the living colonists alive (or the stockpile) and logs its message. */
    method Strike(alive: seq<Entity>, world: World, roll: int) returns (ev: RandomEvent)
      requires |alive| > 0 && forall k :: 0 <= k < |alive| ==> alive[k].needs != null
      requires 0 <= roll < 5
      modifies this`eventLog, world.stockpileTile, if roll == 0 || roll == 3 then {} else NeedsOf(alive)
      ensures RollOf(ev) == roll
      ensures |old(eventLog)| <= EVENT_LOG_LIMIT ==> |eventLog| <= EVENT_LOG_LIMIT
      ensures ev.HeatWave? || ev.MoralBoost? || ev.Exhaustion? ==>
        world.stockpileTile == null || unchanged(world.stockpileTile)
      ensures Struck(ev, alive, world)
    {
      if roll == 0 {
        FoodBlessingEvent(world);
        ev := FoodBlessing;
      } else if roll == 1 {
        HeatWaveEvent(alive);
        ev := HeatWave;
      } else if roll == 2 {
        MoralBoostEvent(alive);
        ev := MoralBoost;
      } else if roll == 3 {
        FoodSpoilageEvent(world);
        ev := FoodSpoilage;
      } else {
        var target := ExhaustionEvent(alive);
        ev := Exhaustion(target);
      }
    }

    /**
     * With no living colonist nothing happens; otherwise a uniform roll
     * picks one of the five events, which strikes the living colonists
     * (or the stockpile) and logs its message.
     */
    method TriggerRandomEvent(ecs: ECSWorld, world: World) returns (alive: seq<Entity>, fired: Option<RandomEvent>)
      modifies this`eventLog, NeedsOf(ecs.entities), world.stockpileTile
      ensures alive == old(LivingColonists(ecs.entities))
      ensures forall k :: 0 <= k < |alive| ==> alive[k].needs != null && alive[k].needs in NeedsOf(ecs.entities)
      ensures fired.None? <==> alive == []
      ensures fired.None? ==> eventLog == old(eventLog)
      ensures |old(eventLog)| <= EVENT_LOG_LIMIT ==> |eventLog| <= EVENT_LOG_LIMIT
      ensures fired.None? || fired.value.FoodBlessing? || fired.value.FoodSpoilage? ==>
        forall n :: n in NeedsOf(ecs.entities) ==> unchanged(n)
      ensures fired.None? ==> world.stockpileTile == null || unchanged(world.stockpileTile)
      ensures fired.Some? ==> Struck(fired.value, alive, world)
    {
      var candidates := With(ecs.entities, ColonistKinds);
      alive := [];
      for i := 0 to |candidates|
        invariant alive == Living(candidates[..i])
      {
        assert candidates[..i + 1][..i] == candidates[..i];
        var h := candidates[i].health;
        if h != null && !h.dead {
          alive := alive + [candidates[i]];
        }
      }
      assert candidates[..|candidates|] == candidates;
      forall k | 0 <= k < |alive| ensures alive[k] in ecs.entities && alive[k].needs != null {
        LivingColonistsSpec(ecs.entities, alive[k]);
      }
      if alive == [] {
        return alive, None;
      }
      assert NeedsOf(alive) <= NeedsOf(ecs.entities);
      var roll: int := *;
      if !(0 <= roll < 5) {
        roll := 0;
      }
      var ev := Strike(alive, world, roll);
      fired := Some(ev);

    }

    /**
     * One tick: the timer advances by delta; once it reaches the time of
     * the next event the timer restarts from 0, a new interval is drawn
     * and a random event is triggered, which fires exactly when some
     * colonist is alive and otherwise leaves the log, the stockpile and
     * every needs record as they were. The log never exceeds five messages.
     */
    method Update(ecs: ECSWorld, world: World, delta: real) returns (fired: Option<RandomEvent>)
      requires Valid()
      modifies this, NeedsOf(ecs.entities), world.stockpileTile
      ensures Valid()
      ensures old(timer) + delta < old(nextEventAt) ==>
        timer == old(timer) + delta && nextEventAt == old(nextEventAt) && fired.None?
      ensures old(timer) + delta >= old(nextEventAt) ==>
        timer == 0.0 && (fired.None? <==> old(LivingColonists(ecs.entities)) == [])
      ensures fired.None? ==>
        eventLog == old(eventLog)
        && (world.stockpileTile == null || unchanged(world.stockpileTile))
        && forall n :: n in NeedsOf(ecs.entities) ==> unchanged(n)
    {
      if timer + delta >= nextEventAt {
        timer := 0.0;
        var u: real := *;
        if !(0.0 <= u < 1.0) {
          u := 0.0;
        }
        nextEventAt := Interval(u);
        ghost var cs := With(ecs.entities, ColonistKinds);
        assert cs == old(With(ecs.entities, ColonistKinds));
        assert HealthsOf(cs) == old(HealthsOf(cs));
        assert Living(cs) == old(Living(cs));
        var _, ev := TriggerRandomEvent(ecs, world);
        fired := ev;
      } else {
        timer := timer + delta;
        fired := None;
      }
    }
  }
}
