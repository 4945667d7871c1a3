/**
 * The aging system: each tick it removes bodies that have lain dead for
 * 30 seconds (dropping what they carried), ages every living entity,
 * kills those that reach their natural maximum age, and raises a
 * succession alarm when the one who dies of old age is the leader. It
 * also lists the successors a colony can choose from and hands the
 * leadership over.
 */
module AgingSystems {

  import opened Common
  import opened Tiles
  import opened Worlds
  import opened Ecs
  import opened DataComponents
  import opened AIComponents
  import opened AgingComponents
  import opened LeaderComponents
  import opened NeedsSystems

  /** Seconds after death before the body is removed. */
  const DESPAWN_SECONDS: real := 30.0
  /** The youngest age at which an entity may lead. */
  const ADULT_AGE: real := 16.0
  /** The share of each stat a successor inherits. */
  const INHERITED_SHARE: real := 0.6

  const DespawnKinds: seq<Kind> := [HealthKind]
  const AgerKinds: seq<Kind> := [AgingKind, HealthKind]
  const CandidateKinds: seq<Kind> := [IdentityKind, HealthKind, AgingKind]

  /** The decimal digit for d. */
  function Digit(d: nat): char
    requires d < 10
  {
    "0123456789"[d]
  }

  /** The value of the decimal digit c. */
  function DigitValue(c: char): nat
  {
    if '0' <= c <= '9' then (c - '0') as nat else 0
  }

  /** The decimal numeral of n, without leading zeros. */
  function NatToString(n: nat): (s: string)
    ensures |s| >= 1 && forall i :: 0 <= i < |s| ==> '0' <= s[i] <= '9'
    ensures |s| > 1 ==> s[0] != '0'
  {
    if n < 10 then [Digit(n)] else NatToString(n / 10) + [Digit(n % 10)]
  }

  /** The value of a string of decimal digits. */
  function NumeralValue(s: string): nat
  {
    if s == [] then 0 else 10 * NumeralValue(s[..|s| - 1]) + DigitValue(s[|s| - 1])
  }

  /** Each digit reads back as itself. */
  lemma DigitRoundTrip(d: nat)
    requires d < 10
    ensures DigitValue(Digit(d)) == d
  {
  }

  /** Reading back a numeral gives the number written. */
  lemma {:induction false} NatToStringRoundTrip(n: nat)
    ensures NumeralValue(NatToString(n)) == n
  {
    if n < 10 {
      DigitRoundTrip(n);
    } else {
      var q, r := n / 10, n % 10;
      assert n == 10 * q + r;
      NatToStringRoundTrip(q);
      DigitRoundTrip(r);
      var s := NatToString(n);
      assert s == NatToString(q) + [Digit(r)];
      assert s[..|s| - 1] == NatToString(q);
      assert NumeralValue(s) == 10 * NumeralValue(s[..|s| - 1]) + DigitValue(s[|s| - 1]);
    }
  }

  /** Java's decimal form of an int: a minus sign before negative values. */
  function IntToString(i: int): (s: string)
    ensures i >= 0 ==> s == NatToString(i)
    ensures i < 0 ==> s == "-" + NatToString(-i)
  {
    if i < 0 then "-" + NatToString(-i) else NatToString(i)
  }

  /** The name shown for an entity: its identity's name, or "Unknown" without one. */
  function NameOf(e: Entity): string
    reads e, e.identity
  {
    if e.identity != null then e.identity.name else "Unknown"
  }

  /** The alarm text when the leader called name dies of old age at the given whole age. */
  function OldAgeMessage(name: string, age: int): (m: string)
    ensures "Leader " + name <= m && m[|m| - 1] == '!'
  {
    var head := "Leader " + name;
    var m := head + " has died of old age at " + IntToString(age) + "!";
    assert m == head + (" has died of old age at " + IntToString(age) + "!");
    m
  }

  /**
   * Whether x may succeed the leader: not the leader itself, alive, and
   * adult.
   */
  predicate Eligible(x: Entity)
    reads x, x.health, x.aging
  {
    x.leader == null && x.health != null && !x.health.dead && x.aging != null && x.aging.ageYears >= ADULT_AGE
  }

  /** The eligible entities among cs, in their order. */
  function FilterEligible(cs: seq<Entity>): (r: seq<Entity>)
    reads cs, HealthsOf(cs), AgingsOf(cs)
    ensures |r| <= |cs|
    ensures forall i :: 0 <= i < |r| ==> r[i] in cs && Eligible(r[i])
  {
    if cs == [] then []
    else
      var last := cs[|cs| - 1];
      assert last.health != null ==> last.health in HealthsOf(cs);
      assert last.aging != null ==> last.aging in AgingsOf(cs);
      var rest := FilterEligible(cs[..|cs| - 1]);
      if Eligible(last) then rest + [last] else rest
  }

  /** Every eligible entity of cs is kept. */
  lemma {:induction false} FilterEligibleComplete(cs: seq<Entity>, x: Entity)
    requires x in cs && Eligible(x)
    ensures x in FilterEligible(cs)
  {
    if x != cs[|cs| - 1] {
      assert x in cs[..|cs| - 1];
      FilterEligibleComplete(cs[..|cs| - 1], x);
    }
  }

  /** The successor candidates of a registry: the entities with identity, health and age records that are eligible. */
  function SuccessorCandidates(es: seq<Entity>): seq<Entity>
    reads es, With(es, CandidateKinds), HealthsOf(With(es, CandidateKinds)), AgingsOf(With(es, CandidateKinds))
  {
    FilterEligible(With(es, CandidateKinds))
  }

  /** The candidates are exactly the living, non-leader adults of the registry that have identity, health and age records. */
  lemma SuccessorCandidatesSpec(es: seq<Entity>, x: Entity)
    ensures x in SuccessorCandidates(es) <==>
      x in es && x.identity != null && x.health != null && x.aging != null && Eligible(x)
  {
    WithSelects(es, CandidateKinds, x);
    if x in With(es, CandidateKinds) && Eligible(x) {
      FilterEligibleComplete(With(es, CandidateKinds), x);
    }
    assert x.HasAll(CandidateKinds) <==> x.identity != null && x.health != null && x.aging != null by {
      if x.identity != null && x.health != null && x.aging != null {
        forall i | 0 <= i < |CandidateKinds| ensures x.Has(CandidateKinds[i]) {
        }
      } else {
        assert !x.Has(CandidateKinds[0]) || !x.Has(CandidateKinds[1]) || !x.Has(CandidateKinds[2]);
      }
    }
  }

  /** A stat the successor inherits from the old leader's value s, with the flat bonus b. */
  function Inherit(s: real, b: real): (r: real)
    ensures r - b / (1.0 - INHERITED_SHARE) == INHERITED_SHARE * (s - b / (1.0 - INHERITED_SHARE))
  {
    INHERITED_SHARE * s + b
  }

  /**
   * Inheritance moves every stat toward the level b/0.4 where it would
   * stay put: a stat above that level shrinks, one below it grows, and
   * neither crosses it.
   */
  lemma InheritTowardsFixedPoint(s: real, b: real)
    ensures var fix := b / (1.0 - INHERITED_SHARE);
      && (s >= fix ==> fix <= Inherit(s, b) <= s)
      && (s <= fix ==> s <= Inherit(s, b) <= fix)
  {
  }

  /** What the despawn pass reads of an entity's health record. */
  datatype Clock = Clock(dead: bool, deathTimer: real)

  /** The clock of e; an entity without a health record has none to speak of. */
  function ClockOf(e: Entity): Clock
    reads e, e.health
  {
    if e.health == null then Clock(false, 0.0) else Clock(e.health.dead, e.health.deathTimer)
  }

  /** The clock of every entity of es, in order. */
  ghost function ClocksIn(es: seq<Entity>): (cs: seq<Clock>)
    reads es, HealthsOf(es)
    ensures |cs| == |es|
  {
    if es == [] then [] else ClocksIn(es[..|es| - 1]) + [ClockOf(es[|es| - 1])]
  }

  /** Entry k of ClocksIn is the clock of es[k]. */
  lemma {:induction false} ClocksInAt(es: seq<Entity>, k: nat)
    requires k < |es|
    ensures ClocksIn(es)[k] == ClockOf(es[k])
  {
    if k < |es| - 1 {
      ClocksInAt(es[..|es| - 1], k);
    }
  }

  /** Whether a body whose clock was c is removed in a tick of delta. */
  predicate DespawnDue(c: Clock, delta: real)
  {
    c.dead && c.deathTimer + delta >= DESPAWN_SECONDS
  }

  /** The bodies of bs removed by the despawn pass, by the clocks cs they started it with, in order. */
  function DueBodies(bs: seq<Entity>, cs: seq<Clock>, delta: real): seq<Entity>
    requires |bs| == |cs|
  {
    if bs == [] then []
    else DueBodies(bs[..|bs| - 1], cs[..|cs| - 1], delta) + if DespawnDue(cs[|cs| - 1], delta) then [bs[|bs| - 1]] else []
  }

  /** A body is removed exactly when it is one of bs whose starting clock made it due. */
  lemma {:induction false} DueBodiesMembers(bs: seq<Entity>, cs: seq<Clock>, delta: real)
    requires |bs| == |cs|
    ensures forall x :: x in DueBodies(bs, cs, delta) <==> exists k :: 0 <= k < |bs| && bs[k] == x && DespawnDue(cs[k], delta)
  {
    if bs != [] {
      var n := |bs| - 1;
      DueBodiesMembers(bs[..n], cs[..n], delta);
      forall x ensures x in DueBodies(bs, cs, delta) <==> exists k :: 0 <= k < |bs| && bs[k] == x && DespawnDue(cs[k], delta) {
        if x in DueBodies(bs, cs, delta) && x !in DueBodies(bs[..n], cs[..n], delta) {
          assert bs[n] == x && DespawnDue(cs[n], delta);
        }
        if exists k :: 0 <= k < |bs| && bs[k] == x && DespawnDue(cs[k], delta) {
          var k :| 0 <= k < |bs| && bs[k] == x && DespawnDue(cs[k], delta);
          if k < n {
            assert bs[..n][k] == x && cs[..n][k] == cs[k];
          }
        }
      }
    }
  }

  /** The death timer of a body whose clock was c once the despawn pass has run: a dead body's grows by delta. */
  function TimerAfter(c: Clock, delta: real): real
  {
    if c.dead then c.deathTimer + delta else c.deathTimer
  }

  /** The despawn pass's effect on a body whose clock was before: it stays as dead as it was, and its timer is TimerAfter. */
  predicate TimerAdvanced(e: Entity, before: Clock, delta: real)
    reads e, e.health
  {
    e.health != null ==> e.health.dead == before.dead && e.health.deathTimer == TimerAfter(before, delta)
  }

  /**
   * Part way through the despawn pass: the first i bodies have their
   * timers advanced and the due ones among them are removed, in order;
   * the rest still hold their starting clocks.
   */
  predicate DespawnedUpTo(bs: seq<Entity>, i: nat, cs: seq<Clock>, removed: seq<Entity>, delta: real)
    requires i <= |bs| == |cs|
    reads bs, HealthsOf(bs)
  {
    && removed == DueBodies(bs[..i], cs[..i], delta)
    && (forall k :: 0 <= k < i ==> TimerAdvanced(bs[k], cs[k], delta))
    && (forall k :: i <= k < |bs| ==> ClockOf(bs[k]) == cs[k])
  }

  /** Once the despawn pass is over, the bodies removed are exactly the due ones and every body's timer has advanced. */
  lemma DespawnOutcome(bs: seq<Entity>, cs: seq<Clock>, removed: seq<Entity>, delta: real)
    requires |bs| == |cs| && DespawnedUpTo(bs, |bs|, cs, removed, delta)
    requires forall k :: 0 <= k < |bs| ==> bs[k].health != null
    ensures removed == DueBodies(bs, cs, delta)
    ensures forall k :: 0 <= k < |bs| ==> bs[k].health.deathTimer == TimerAfter(cs[k], delta)
  {
    assert bs[..|bs|] == bs && cs[..|cs|] == cs;
  }

  /**
   * Part way through the despawn pass over a registry that held es: the
   * registry has lost exactly the entities removed, each of them one of
   * es and dead.
   */
  predicate Removing(ecs: ECSWorld, es: seq<Entity>, removed: seq<Entity>)
    reads ecs, removed, HealthsOf(removed)
  {
    && ecs.entities == RemoveAll(es, removed)
    && forall k :: 0 <= k < |removed| ==> removed[k] in es && removed[k].health != null && removed[k].health.dead
  }

  /** What the aging pass reads of an entity's age and health records. */
  datatype AgeState = AgeState(dead: bool, ageYears: real, maxAge: real, accumulator: real)

  /** The age state of e; an entity lacking either record has none to speak of. */
  function AgeStateOf(e: Entity): AgeState
    reads e, e.aging, e.health
  {
    if e.aging == null || e.health == null then AgeState(false, 0.0, 0.0, 0.0)
    else AgeState(e.health.dead, e.aging.ageYears, e.aging.maxAge, e.aging.yearAccumulator)
  }

  /** The age state of every entity of es, in order. */
  ghost function AgeStatesIn(es: seq<Entity>): (vs: seq<AgeState>)
    reads es, AgingsOf(es), HealthsOf(es)
    ensures |vs| == |es|
  {
    if es == [] then [] else AgeStatesIn(es[..|es| - 1]) + [AgeStateOf(es[|es| - 1])]
  }

  /** Entry k of AgeStatesIn is the age state of es[k]. */
  lemma {:induction false} AgeStatesInAt(es: seq<Entity>, k: nat)
    requires k < |es|
    ensures AgeStatesIn(es)[k] == AgeStateOf(es[k])
  {
    if k < |es| - 1 {
      AgeStatesInAt(es[..|es| - 1], k);
    }
  }

  /** The age after delta more seconds: one year more exactly when the accumulator fills. */
  function YearsAfter(v: AgeState, delta: real): (y: real)
    ensures v.ageYears <= y <= v.ageYears + 1.0
    ensures y != v.ageYears <==> v.accumulator + delta >= SECONDS_PER_YEAR
  {
    if v.accumulator + delta >= SECONDS_PER_YEAR then v.ageYears + 1.0 else v.ageYears
  }

  /** Whether an entity in state v dies of old age in a tick of delta: it is alive and its new age reaches its maximum. */
  predicate DiesOfAge(v: AgeState, delta: real)
  {
    !v.dead && YearsAfter(v, delta) >= v.maxAge
  }

  /**
   * The aging pass's effect on one entity whose state was before: the
   * maximum age never changes; a dead one keeps its age; a living one
   * has its new age, and is dead exactly when it died of old age.
   */
  predicate Aged(e: Entity, before: AgeState, delta: real)
    reads e, e.aging, e.health
  {
    e.aging != null && e.health != null ==>
      && e.aging.maxAge == before.maxAge
      && if before.dead then
           e.health.dead && e.aging.ageYears == before.ageYears && e.aging.yearAccumulator == before.accumulator
         else
           e.aging.ageYears == YearsAfter(before, delta) && (e.health.dead <==> DiesOfAge(before, delta))
  }

  /** No two of es share an age record or a health record, so each ages exactly once. */
  predicate DistinctAgers(es: seq<Entity>)
    reads es
  {
    DistinctAgings(es) && DistinctHealths(es)
  }

  /**
   * Part way through the aging pass: the first i agers have aged from
   * their starting states, and died[k] says whether the k-th died of old
   * age; the rest still hold their starting states.
   */
  predicate AgedUpTo(agers: seq<Entity>, i: nat, vs: seq<AgeState>, died: seq<bool>, delta: real)
    requires i <= |agers| == |vs| && |died| == i
    reads agers, AgingsOf(agers), HealthsOf(agers)
  {
    && (forall k :: 0 <= k < i ==> Aged(agers[k], vs[k], delta) && (died[k] <==> DiesOfAge(vs[k], delta)))
    && (forall k :: i <= k < |agers| ==> AgeStateOf(agers[k]) == vs[k])
  }

  /** Every entity the aging pass selects from reg holds age and health records and, when reg lies within es, is one of es. */
  lemma AgersSelected(reg: seq<Entity>, es: seq<Entity>)
    requires forall x :: x in reg ==> x in es
    ensures forall k :: 0 <= k < |With(reg, AgerKinds)| ==>
      var x := With(reg, AgerKinds)[k];
      x in es && x.aging != null && x.health != null
  {
    var agers := With(reg, AgerKinds);
    forall k | 0 <= k < |agers|
      ensures agers[k] in es && agers[k].aging != null && agers[k].health != null
    {
      WithSelects(reg, AgerKinds, agers[k]);
      assert agers[k].Has(AgerKinds[0]) && agers[k].Has(AgerKinds[1]);
    }
  }

  /** Every entity the despawn pass selects from reg is one of reg and holds a health record. */
  lemma BodiesSelected(reg: seq<Entity>)
    ensures forall k :: 0 <= k < |With(reg, DespawnKinds)| ==>
      var x := With(reg, DespawnKinds)[k];
      x in reg && x.health != null
  {
    var bodies := With(reg, DespawnKinds);
    forall k | 0 <= k < |bodies| ensures bodies[k] in reg && bodies[k].health != null {
      WithSelects(reg, DespawnKinds, bodies[k]);
      assert bodies[k].Has(DespawnKinds[0]);
    }
  }

  /**
   * The outcome of the aging pass over agers, from the states before:
   * died has one flag per ager and every flagged ager is dead; when no
   * two agers share an age or health record, each one has Aged from its
   * state in before and its flag says exactly whether it died of old age.
   */
  predicate AgedAll(agers: seq<Entity>, before: map<Entity, AgeState>, died: seq<bool>, delta: real)
    reads agers, AgingsOf(agers), HealthsOf(agers)
  {
    && |died| == |agers|
    && (forall k :: 0 <= k < |agers| && died[k] ==> agers[k].health != null && agers[k].health.dead)
    && (DistinctAgers(agers) ==>
          forall k :: 0 <= k < |agers| ==>
            && agers[k] in before
            && Aged(agers[k], before[agers[k]], delta)
            && (died[k] <==> DiesOfAge(before[agers[k]], delta)))
  }

  /**
   * The position of the last of the first |died| agers that died of old
   * age while leading, if any: the one whose alarm message stands.
   */
  function LastLeaderDeath(agers: seq<Entity>, died: seq<bool>): (r: Option<nat>)
    requires |died| <= |agers|
    reads agers
    ensures r.Some? ==> r.value < |died|
    decreases |died|
  {
    if died == [] then None
    else if died[|died| - 1] && agers[|died| - 1].leader != null then Some(|died| - 1)
    else LastLeaderDeath(agers, died[..|died| - 1])
  }

  /**
   * LastLeaderDeath finds nothing exactly when no flagged ager leads, and
   * otherwise a flagged leader after which no flagged ager leads.
   */
  lemma {:induction false} LastLeaderDeathIsLast(agers: seq<Entity>, died: seq<bool>)
    requires |died| <= |agers|
    ensures LastLeaderDeath(agers, died).None? <==> forall k :: 0 <= k < |died| && died[k] ==> agers[k].leader == null
    ensures LastLeaderDeath(agers, died).Some? ==>
      var j := LastLeaderDeath(agers, died).value;
      && died[j] && agers[j].leader != null
      && forall k :: j < k < |died| && died[k] ==> agers[k].leader == null
    decreases |died|
  {
    if died != [] {
      var n := |died| - 1;
      LastLeaderDeathIsLast(agers, died[..n]);
      if !(died[n] && agers[n].leader != null) {
        forall k | 0 <= k < n && died[k] ensures died[..n][k] {
        }
      }
    }
  }

  /** One more flag: the last leader death is this ager when it died leading, and the earlier one otherwise. */
  lemma LastLeaderNext(agers: seq<Entity>, died: seq<bool>, d: bool)
    requires |died| < |agers|
    ensures LastLeaderDeath(agers, died + [d])
            == if d && agers[|died|].leader != null then Some(|died|) else LastLeaderDeath(agers, died)
  {
    assert (died + [d])[..|died|] == died;
  }

  /** The alarm message msg names the last leader flagged in died and the whole age it died at. */
  predicate LeaderMessage(agers: seq<Entity>, died: seq<bool>, msg: string)
    requires |died| <= |agers|
    reads agers, AgingsOf(agers), IdentitiesOf(agers)
  {
    var last := LastLeaderDeath(agers, died);
    last.Some? ==>
      agers[last.value].aging != null && msg == OldAgeMessage(NameOf(agers[last.value]), Trunc(agers[last.value].aging.ageYears))
  }

  /** Entity records left untouched keep the age and health records they hold. */
  twostate lemma AgeRecordsKept(es: seq<Entity>)
    requires forall x :: x in es ==> unchanged(x)
    ensures AgingsOf(es) == old(AgingsOf(es)) && HealthsOf(es) == old(HealthsOf(es))
  {
  }

  /** Entity records whose age records and death flags are untouched keep their age state. */
  twostate lemma AgeStatesKept(es: seq<Entity>)
    requires forall x :: x in es ==> unchanged(x)
    requires forall x :: x in es && x.health != null ==> x.health.dead == old(x.health.dead)
    requires forall x :: x in es && x.aging != null ==> unchanged(x.aging)
    ensures forall x :: x in es ==> AgeStateOf(x) == old(AgeStateOf(x))
  {
  }

  class AgingSystem {
    var successionNeeded: bool
    var deathMessage: string

    constructor ()
      ensures !successionNeeded && deathMessage == ""
    {
      successionNeeded := false;
      deathMessage := "";
    }

    /** Raises the succession alarm for a leader who died of anything but old age. */
    method TriggerSuccession(message: string)
      modifies this
      ensures successionNeeded && deathMessage == message
    {
      successionNeeded := true;
      deathMessage := message;
    }

    /**
     * The despawn step for one entity with a health record: a living one
     * is left alone; a dead one's timer grows by delta, and once it reaches
     * 30 seconds the entity is to be removed and its carried item, if it
     * has an inventory and a position, goes to the tile under it (and is
     * lost when no tile lies there).
     */
    static method DespawnStep(e: Entity, world: World, delta: real) returns (remove: bool)
      requires world.Valid() && e.health != null
      modifies e.health`deathTimer, e.inv, world.TileSet()
      ensures !old(e.health.dead) ==> !remove && e.health.deathTimer == old(e.health.deathTimer)
      ensures old(e.health.dead) ==> e.health.deathTimer == old(e.health.deathTimer) + delta
      ensures remove <==> old(e.health.dead) && e.health.deathTimer >= DESPAWN_SECONDS
      ensures !(remove && old(HasDrop(e))) ==>
        (e.inv != null ==> unchanged(e.inv)) && forall t :: t in world.TileSet() ==> unchanged(t)
      ensures remove && old(HasDrop(e)) ==>
        && e.inv.carriedItem.None?
        && var under := TileUnder(world, e.pos);
           && (under != null ==> under.groundItems == old(under.groundItems) + [old(e.inv.carriedItem).value])
           && forall t :: t in world.TileSet() && t != under ==> unchanged(t)
    {
      var health := e.health;
      if !health.dead {
        return false;
      }
      health.deathTimer := health.deathTimer + delta;
      if health.deathTimer < DESPAWN_SECONDS {
        return false;
      }
      var inv, pos := e.inv, e.pos;
      if inv != null && inv.carriedItem.Some? && pos != null {
        var tile := TileUnder(world, pos);
        if tile != null {
          tile.AddItem(inv.carriedItem.value);
        }
        inv.carriedItem := None;
      }
      remove := true;
    }

    /**
     * The despawn step for one entity e of es followed, when it is due,
     * by its removal from the registry, which is then recorded in removed.
     */
    static method DespawnOne(ecs: ECSWorld, e: Entity, world: World, delta: real, ghost es: seq<Entity>, removed: seq<Entity>)
      returns (removed': seq<Entity>)
      requires world.Valid() && e in es && e.health != null
      requires Removing(ecs, es, removed)
      modifies ecs`entities, e.health`deathTimer, e.inv, world.TileSet()
      ensures removed' == if DespawnDue(old(ClockOf(e)), delta) then removed + [e] else removed
      ensures TimerAdvanced(e, old(ClockOf(e)), delta)
      ensures Removing(ecs, es, removed')
    {
      var remove := DespawnStep(e, world, delta);
      assert remove <==> DespawnDue(old(ClockOf(e)), delta);
      assert Removing(ecs, es, removed);
      removed' := removed;
      if remove {
        removed' := RemoveDead(ecs, e, es, removed);
      }
    }

    /** Removes the dead entity e of es from the registry and records it in removed. */
    static method RemoveDead(ecs: ECSWorld, e: Entity, ghost es: seq<Entity>, removed: seq<Entity>)
      returns (removed': seq<Entity>)
      requires e in es && e.health != null && e.health.dead
      requires Removing(ecs, es, removed)
      modifies ecs`entities
      ensures removed' == removed + [e]
      ensures Removing(ecs, es, removed')
    {
      ecs.RemoveEntity(e);
      removed' := removed + [e];
      assert removed'[..|removed'| - 1] == removed;
    }

    /**
     * The despawn pass: every entity with a health record, in registry
     * order, takes its despawn step, and those due are removed from the
     * registry on the spot. Every entity removed was dead.
     */
    static method Despawn(ecs: ECSWorld, world: World, delta: real)
      returns (removed: seq<Entity>, ghost bodies: seq<Entity>, ghost clocks: seq<Clock>)
      requires world.Valid()
      modifies ecs`entities, HealthsOf(ecs.entities)`deathTimer, InventoriesOf(ecs.entities), world.TileSet()
      ensures Removing(ecs, old(ecs.entities), removed)
      ensures forall x :: x in old(ecs.entities) ==> unchanged(x)
      ensures forall x :: x in old(ecs.entities) && x.health != null ==> x.health.dead == old(x.health.dead)
      ensures forall x :: x in old(ecs.entities) && x.aging != null ==> unchanged(x.aging)
      ensures bodies == old(With(ecs.entities, DespawnKinds)) && clocks == old(ClocksIn(With(ecs.entities, DespawnKinds)))
      ensures forall k :: 0 <= k < |bodies| ==> bodies[k].health != null
      ensures old(DistinctHealths(With(ecs.entities, DespawnKinds))) ==>
        && removed == DueBodies(bodies, clocks, delta)
        && forall k :: 0 <= k < |bodies| ==> bodies[k].health.deathTimer == TimerAfter(clocks[k], delta)
    {
      ghost var es := ecs.entities;
      var selected := With(ecs.entities, DespawnKinds);
      bodies, clocks := selected, ClocksIn(selected);
      BodiesSelected(es);
      removed := DespawnAll(ecs, selected, world, delta);
    }

    /** The loop of the despawn pass over bodies, all of them registered in ecs. */
    static method DespawnAll(ecs: ECSWorld, bodies: seq<Entity>, world: World, delta: real) returns (removed: seq<Entity>)
      requires world.Valid()
      requires forall k :: 0 <= k < |bodies| ==> bodies[k] in ecs.entities && bodies[k].health != null
      modifies ecs`entities, HealthsOf(ecs.entities)`deathTimer, InventoriesOf(ecs.entities), world.TileSet()
      ensures Removing(ecs, old(ecs.entities), removed)
      ensures forall x :: x in old(ecs.entities) ==> unchanged(x)
      ensures forall x :: x in old(ecs.entities) && x.health != null ==> x.health.dead == old(x.health.dead)
      ensures forall x :: x in old(ecs.entities) && x.aging != null ==> unchanged(x.aging)
      ensures DistinctHealths(bodies) ==>
        && removed == DueBodies(bodies, old(ClocksIn(bodies)), delta)
        && forall k :: 0 <= k < |bodies| ==> bodies[k].health.deathTimer == TimerAfter(old(ClocksIn(bodies))[k], delta)
    {
      ghost var cs := ClocksIn(bodies);
      forall k | 0 <= k < |bodies| ensures ClockOf(bodies[k]) == cs[k] {
        ClocksInAt(bodies, k);
      }
      removed := DespawnFrom(ecs, bodies, world, delta, cs);
      if DistinctHealths(bodies) {
        DespawnOutcome(bodies, cs, removed, delta);
      }
    }

    /** The loop of the despawn pass, from clocks cs that every body still holds. */
    static method DespawnFrom(ecs: ECSWorld, bodies: seq<Entity>, world: World, delta: real, ghost cs: seq<Clock>)
      returns (removed: seq<Entity>)
      requires world.Valid() && |bodies| == |cs|
      requires forall k :: 0 <= k < |bodies| ==> bodies[k] in ecs.entities && bodies[k].health != null
      requires DistinctHealths(bodies) ==> DespawnedUpTo(bodies, 0, cs, [], delta)
      modifies ecs`entities, HealthsOf(ecs.entities)`deathTimer, InventoriesOf(ecs.entities), world.TileSet()
      ensures Removing(ecs, old(ecs.entities), removed)
      ensures DistinctHealths(bodies) ==> DespawnedUpTo(bodies, |bodies|, cs, removed, delta)
    {
      ghost var es := ecs.entities;
      removed := [];
      for i := 0 to |bodies|
        invariant Removing(ecs, es, removed)
        invariant DistinctHealths(bodies) ==> DespawnedUpTo(bodies, i, cs, removed, delta)
      {
        var e := bodies[i];
        assert e.health in HealthsOf(es);
        assert e.inv != null ==> e.inv in InventoriesOf(es);
        removed := DespawnNext(ecs, bodies, i, world, delta, es, removed, cs);
      }
    }

    /** The despawn step of bodies[i] within the pass; with distinct health records the pass advances by exactly this body. */
    static method DespawnNext(ecs: ECSWorld, bodies: seq<Entity>, i: nat, world: World, delta: real, ghost es: seq<Entity>,
                              removed: seq<Entity>, ghost cs: seq<Clock>)
      returns (removed': seq<Entity>)
      requires world.Valid() && i < |bodies| == |cs|
      requires forall k :: 0 <= k < |bodies| ==> bodies[k].health != null
      requires bodies[i] in es
      requires Removing(ecs, es, removed)
      requires DistinctHealths(bodies) ==> DespawnedUpTo(bodies, i, cs, removed, delta)
      modifies ecs`entities, bodies[i].health`deathTimer, bodies[i].inv, world.TileSet()
      ensures Removing(ecs, es, removed')
      ensures DistinctHealths(bodies) ==> DespawnedUpTo(bodies, i + 1, cs, removed', delta)
    {
      removed' := DespawnOne(ecs, bodies[i], world, delta, es, removed);
      if DistinctHealths(bodies) {
        assert bodies[..i + 1][..i] == bodies[..i] && cs[..i + 1][..i] == cs[..i];
        forall k | 0 <= k < |bodies| && k != i ensures bodies[k].health != bodies[i].health {
        }
      }
    }

    /**
     * The aging step for one entity with age and health records: a dead
     * one is left alone; a living one ages by delta and dies when its age
     * reaches its maximum. When the one who dies is the leader, the
     * succession alarm is raised with the old-age message.
     */
    method AgeStep(e: Entity, delta: real, ghost gone: seq<Entity>) returns (diedOfAge: bool)
      requires e.aging != null && e.health != null
      requires forall k :: 0 <= k < |gone| ==> gone[k].health != null && gone[k].health.dead
      modifies this, e.aging`ageYears, e.aging`yearAccumulator, e.health`dead
      ensures old(e.health.dead) ==> !diedOfAge && unchanged(e.aging) && e.health.dead
      ensures !old(e.health.dead) ==>
        && (old(e.aging.yearAccumulator) + delta >= SECONDS_PER_YEAR ==> e.aging.ageYears == old(e.aging.ageYears) + 1.0)
        && (old(e.aging.yearAccumulator) + delta < SECONDS_PER_YEAR ==> e.aging.ageYears == old(e.aging.ageYears))
        && (diedOfAge <==> e.aging.ShouldDieOfOldAge())
      ensures e.health.dead <==> old(e.health.dead) || diedOfAge
      ensures forall k :: 0 <= k < |gone| ==> gone[k].health != null && gone[k].health.dead
      ensures diedOfAge && e.leader != null ==>
        successionNeeded && deathMessage == OldAgeMessage(NameOf(e), Trunc(e.aging.ageYears))
      ensures !(diedOfAge && e.leader != null) ==>
        successionNeeded == old(successionNeeded) && deathMessage == old(deathMessage)
      ensures Aged(e, old(AgeStateOf(e)), delta)
      ensures diedOfAge <==> DiesOfAge(old(AgeStateOf(e)), delta)
    {
      var health := e.health;
      if health.dead {
        return false;
      }
      var aging := e.aging;
      var yearPassed := aging.Tick(delta);
      if !aging.ShouldDieOfOldAge() {
        return false;
      }
      health.dead := true;
      var name := NameOf(e);
      if e.leader != null {
        successionNeeded := true;
        deathMessage := OldAgeMessage(name, Trunc(aging.ageYears));
      }
      diedOfAge := true;
    }

    /**
     * The aging pass over agers (the entities with age and health
     * records): each takes its aging step in order. died[k] says whether
     * the k-th died of old age at its step; every such entity is dead
     * when the pass ends, and the succession alarm is up exactly when it
     * was up before or one of them is the leader.
     */
    method AgeAll(agers: seq<Entity>, ghost es: seq<Entity>, delta: real, ghost gone: seq<Entity>) returns (ghost died: seq<bool>)
      requires forall k :: 0 <= k < |gone| ==> gone[k].health != null && gone[k].health.dead
      requires forall k :: 0 <= k < |agers| ==> agers[k] in es
      requires forall k :: 0 <= k < |agers| ==> agers[k].aging != null && agers[k].health != null
      modifies this, AgingsOf(es), HealthsOf(es)`dead
      ensures |died| == |agers|
      ensures forall k :: 0 <= k < |agers| && died[k] ==> agers[k].health.dead
      ensures forall k :: 0 <= k < |gone| ==> gone[k].health != null && gone[k].health.dead
      ensures successionNeeded <==> old(successionNeeded) || exists k :: 0 <= k < |agers| && died[k] && agers[k].leader != null
      ensures (forall k :: 0 <= k < |agers| && died[k] ==> agers[k].leader == null) ==> deathMessage == old(deathMessage)
      ensures DistinctAgers(agers) ==>
        forall k :: 0 <= k < |agers| ==>
          Aged(agers[k], old(AgeStateOf(agers[k])), delta) && (died[k] <==> DiesOfAge(old(AgeStateOf(agers[k])), delta))
      ensures DistinctAgers(agers) ==> LeaderMessage(agers, died, deathMessage)
    {
      ghost var vs := AgeStatesIn(agers);
      forall k | 0 <= k < |agers| ensures AgeStateOf(agers[k]) == vs[k] {
        AgeStatesInAt(agers, k);
      }
      died := AgeFrom(agers, es, delta, gone, vs);
    }

    /** The loop of the aging pass, from states vs that every ager still holds. */
    method AgeFrom(agers: seq<Entity>, ghost es: seq<Entity>, delta: real, ghost gone: seq<Entity>, ghost vs: seq<AgeState>)
      returns (ghost died: seq<bool>)
      requires |agers| == |vs|
      requires forall k :: 0 <= k < |gone| ==> gone[k].health != null && gone[k].health.dead
      requires forall k :: 0 <= k < |agers| ==> agers[k] in es
      requires forall k :: 0 <= k < |agers| ==> agers[k].aging != null && agers[k].health != null
      requires DistinctAgers(agers) ==> AgedUpTo(agers, 0, vs, [], delta)
      modifies this, AgingsOf(es), HealthsOf(es)`dead
      ensures |died| == |agers|
      ensures forall k :: 0 <= k < |agers| && died[k] ==> agers[k].health.dead
      ensures forall k :: 0 <= k < |gone| ==> gone[k].health != null && gone[k].health.dead
      ensures successionNeeded <==> old(successionNeeded) || exists k :: 0 <= k < |agers| && died[k] && agers[k].leader != null
      ensures (forall k :: 0 <= k < |agers| && died[k] ==> agers[k].leader == null) ==> deathMessage == old(deathMessage)
      ensures DistinctAgers(agers) ==> AgedUpTo(agers, |agers|, vs, died, delta)
      ensures DistinctAgers(agers) ==> LeaderMessage(agers, died, deathMessage)
    {
      died := [];
      for i := 0 to |agers|
        invariant |died| == i
        invariant forall k :: 0 <= k < |gone| ==> gone[k].health != null && gone[k].health.dead
        invariant forall k :: 0 <= k < i && died[k] ==> agers[k].health.dead
        invariant successionNeeded <==> old(successionNeeded) || exists k :: 0 <= k < i && died[k] && agers[k].leader != null
        invariant (forall k :: 0 <= k < i && died[k] ==> agers[k].leader == null) ==> deathMessage == old(deathMessage)
        invariant DistinctAgers(agers) ==> AgedUpTo(agers, i, vs, died, delta)
        invariant DistinctAgers(agers) ==> LeaderMessage(agers, died, deathMessage)
      {
        var e := agers[i];
        assert e in es;
        assert e.aging in AgingsOf(es) && e.health in HealthsOf(es);
        var d := AgeOne(agers, i, delta, gone, vs, died, old(successionNeeded), old(deathMessage));
        died := died + [d];
      }
    }

    /**
     * The aging step of agers[i] within the aging pass. With distinct
     * records the pass has advanced by exactly this entity.
     */
    method AgeOne(agers: seq<Entity>, i: nat, delta: real, ghost gone: seq<Entity>, ghost vs: seq<AgeState>, ghost died: seq<bool>,
                  ghost succession: bool, ghost message: string)
      returns (diedOfAge: bool)
      requires i < |agers| == |vs| && |died| == i
      requires forall k :: 0 <= k < |agers| ==> agers[k].aging != null && agers[k].health != null
      requires forall k :: 0 <= k < |gone| ==> gone[k].health != null && gone[k].health.dead
      requires forall k :: 0 <= k < i && died[k] ==> agers[k].health.dead
      requires DistinctAgers(agers) ==> AgedUpTo(agers, i, vs, died, delta)
      requires successionNeeded <==> succession || exists k :: 0 <= k < i && died[k] && agers[k].leader != null
      requires (forall k :: 0 <= k < i && died[k] ==> agers[k].leader == null) ==> deathMessage == message
      requires DistinctAgers(agers) ==> LeaderMessage(agers, died, deathMessage)
      modifies this, agers[i].aging`ageYears, agers[i].aging`yearAccumulator, agers[i].health`dead
      ensures forall k :: 0 <= k < |gone| ==> gone[k].health != null && gone[k].health.dead
      ensures forall k :: 0 <= k < i + 1 && (died + [diedOfAge])[k] ==> agers[k].health.dead
      ensures successionNeeded <==> succession || exists k :: 0 <= k < i + 1 && (died + [diedOfAge])[k] && agers[k].leader != null
      ensures (forall k :: 0 <= k < i + 1 && (died + [diedOfAge])[k] ==> agers[k].leader == null) ==> deathMessage == message
      ensures DistinctAgers(agers) ==> AgedUpTo(agers, i + 1, vs, died + [diedOfAge], delta)
      ensures DistinctAgers(agers) ==> LeaderMessage(agers, died + [diedOfAge], deathMessage)
    {
      ghost var last := LastLeaderDeath(agers, died);
      ghost var name, years := "", 0.0;
      if DistinctAgers(agers) && last.Some? {
        name, years := NameOf(agers[last.value]), agers[last.value].aging.ageYears;
      }
      diedOfAge := AgeStep(agers[i], delta, gone);
      if DistinctAgers(agers) {
        forall k | 0 <= k < |agers| && k != i
          ensures agers[k].aging != agers[i].aging && agers[k].health != agers[i].health
        {
        }
        LastLeaderNext(agers, died, diedOfAge);
        if last.Some? && !(diedOfAge && agers[i].leader != null) {
          assert NameOf(agers[last.value]) == name && agers[last.value].aging.ageYears == years;
        }
      }
    }

    /**
     * One tick of the aging system: the alarm is lowered, the despawn pass
     * runs over the bodies (the entities with a health record, whose
     * clocks it starts from), removing the due ones, then the aging pass
     * runs over the entities still registered that hold age and health
     * records. The alarm ends up raised exactly when a leader died of old
     * age in this tick, with the message naming the last such leader; the
     * message is left as it was otherwise.
     */
    method Update(ecs: ECSWorld, world: World, delta: real)
      returns (removed: seq<Entity>, agers: seq<Entity>, ghost died: seq<bool>, ghost before: map<Entity, AgeState>,
               ghost bodies: seq<Entity>, ghost clocks: seq<Clock>)
      requires world.Valid()
      modifies this, ecs`entities, HealthsOf(ecs.entities), InventoriesOf(ecs.entities), AgingsOf(ecs.entities)
      modifies world.TileSet()
      ensures Removing(ecs, old(ecs.entities), removed)
      ensures agers == With(ecs.entities, AgerKinds) && |died| == |agers|
      ensures successionNeeded <==> exists k :: 0 <= k < |agers| && died[k] && agers[k].leader != null
      ensures !successionNeeded ==> deathMessage == old(deathMessage)
      ensures forall x :: x in old(ecs.entities) ==> x in before && before[x] == old(AgeStateOf(x))
      ensures AgedAll(agers, before, died, delta)
      ensures DistinctAgers(agers) ==> LeaderMessage(agers, died, deathMessage)
      ensures bodies == old(With(ecs.entities, DespawnKinds)) && clocks == old(ClocksIn(With(ecs.entities, DespawnKinds)))
      ensures old(DistinctHealths(With(ecs.entities, DespawnKinds))) ==>
        && removed == DueBodies(bodies, clocks, delta)
        && forall k :: 0 <= k < |bodies| ==> bodies[k].health != null && bodies[k].health.deathTimer == TimerAfter(clocks[k], delta)
    {
      ghost var es := ecs.entities;
      before := map x | x in es :: AgeStateOf(x);
      removed, bodies, clocks := Despawn(ecs, world, delta);
      AgeRecordsKept(es);
      AgeStatesKept(es);
      agers, died := AgeRemaining(ecs, es, delta, removed, before, bodies);
    }

    /**
     * The aging pass once the despawn pass has removed the entities in
     * gone from es, with the alarm lowered first (the despawn pass does
     * not touch it, so lowering it here is lowering it at the start of
     * the tick).
     */
    method AgeRemaining(ecs: ECSWorld, ghost es: seq<Entity>, delta: real, ghost gone: seq<Entity>,
                        ghost before: map<Entity, AgeState>, ghost bodies: seq<Entity>)
      returns (agers: seq<Entity>, ghost died: seq<bool>)
      requires Removing(ecs, es, gone)
      requires forall x :: x in es ==> x in before && AgeStateOf(x) == before[x]
      requires forall k :: 0 <= k < |bodies| ==> bodies[k].health != null
      modifies this, AgingsOf(es), HealthsOf(es)`dead
      ensures Removing(ecs, es, gone)
      ensures forall k :: 0 <= k < |bodies| ==>
        bodies[k].health == old(bodies[k].health) && bodies[k].health.deathTimer == old(bodies[k].health.deathTimer)
      ensures agers == With(ecs.entities, AgerKinds) && |died| == |agers|
      ensures successionNeeded <==> exists k :: 0 <= k < |agers| && died[k] && agers[k].leader != null
      ensures !successionNeeded ==> deathMessage == old(deathMessage)
      ensures AgedAll(agers, before, died, delta)
      ensures DistinctAgers(agers) ==> LeaderMessage(agers, died, deathMessage)
    {
      successionNeeded := false;
      RemoveAllWithin(es, gone);
      agers, died := AgeRegistry(ecs, es, delta, gone, before);
    }

    /**
     * The ageing pass over what the registry holds after despawning:
     * every entity with age and health records ages once, in registry
     * order, and the dead stay dead.
     */
    method AgeRegistry(ecs: ECSWorld, ghost es: seq<Entity>, delta: real, ghost gone: seq<Entity>,
                       ghost before: map<Entity, AgeState>)
      returns (agers: seq<Entity>, ghost died: seq<bool>)
      requires forall x :: x in ecs.entities ==> x in es
      requires forall x :: x in es ==> x in before && AgeStateOf(x) == before[x]
      requires forall k :: 0 <= k < |gone| ==> gone[k].health != null && gone[k].health.dead
      modifies this, AgingsOf(es), HealthsOf(es)`dead
      ensures agers == With(ecs.entities, AgerKinds) && |died| == |agers|
      ensures forall k :: 0 <= k < |gone| ==> gone[k].health != null && gone[k].health.dead
      ensures successionNeeded <==> old(successionNeeded) || exists k :: 0 <= k < |agers| && died[k] && agers[k].leader != null
      ensures (forall k :: 0 <= k < |agers| && died[k] ==> agers[k].leader == null) ==> deathMessage == old(deathMessage)
      ensures forall k :: 0 <= k < |agers| ==> agers[k] in es
      ensures AgedAll(agers, before, died, delta)
      ensures DistinctAgers(agers) ==> LeaderMessage(agers, died, deathMessage)
    {
      agers := With(ecs.entities, AgerKinds);
      AgersSelected(ecs.entities, es);
      died := AgeAll(agers, es, delta, gone);
    }

    /** The successor candidates, gathered in registry order. */
    method GetSuccessorCandidates(ecs: ECSWorld) returns (candidates: seq<Entity>)
      ensures candidates == SuccessorCandidates(ecs.entities)
    {
      var cs := With(ecs.entities, CandidateKinds);
      candidates := [];
      for i := 0 to |cs|
        invariant candidates == FilterEligible(cs[..i])
      {
        assert cs[..i + 1][..i] == cs[..i];
        var e := cs[i];
        if e.leader != null {
          continue;
        }
        var health := e.health;
        if health == null || health.dead {
          continue;
        }
        var aging := e.aging;
        if aging != null && aging.ageYears >= ADULT_AGE {
          candidates := candidates + [e];
        }
      }
      assert cs[..|cs|] == cs;
    }
  }

  /**
   * The successor's new leader record: each stat is inherited from the
   * outgoing record when there is one, and the default otherwise.
   */
  method SuccessorRecord(oldLC: LeaderComponent?) returns (lc: LeaderComponent)
    ensures fresh(lc)
    ensures oldLC != null ==>
      && lc.charisma == Inherit(oldLC.charisma, 2.0) && lc.engineering == Inherit(oldLC.engineering, 2.0)
      && lc.science == Inherit(oldLC.science, 1.0) && lc.combat == Inherit(oldLC.combat, 1.0)
    ensures oldLC == null ==> lc.charisma == 5.0 && lc.engineering == 5.0 && lc.science == 4.0 && lc.combat == 3.0
  {
    lc := new LeaderComponent();
    if oldLC != null {
      lc.charisma := Inherit(oldLC.charisma, 2.0);
      lc.engineering := Inherit(oldLC.engineering, 2.0);
      lc.science := Inherit(oldLC.science, 1.0);
      lc.combat := Inherit(oldLC.combat, 1.0);
    }
  }

  /**
   * Hands the leadership to successor: it receives a new leader record,
   * whose stats are inherited from the old leader's record when there is
   * one (60% of each, plus 2 charisma, 2 engineering, 1 science and
   * 1 combat) and are the defaults otherwise; the old leader loses its
   * record; and the successor's AI is disabled and its task cleared,
   * since the player now drives it.
   */
  method PromoteToLeader(successor: Entity, oldLeader: Entity?)
    modifies successor, oldLeader, successor.ai
    ensures successor.leader != null && fresh(successor.leader)
    ensures oldLeader != null && old(oldLeader.leader) != null ==>
      && successor.leader.charisma == Inherit(old(oldLeader.leader.charisma), 2.0)
      && successor.leader.engineering == Inherit(old(oldLeader.leader.engineering), 2.0)
      && successor.leader.science == Inherit(old(oldLeader.leader.science), 1.0)
      && successor.leader.combat == Inherit(old(oldLeader.leader.combat), 1.0)
    ensures oldLeader == null || old(oldLeader.leader) == null ==>
      && successor.leader.charisma == 5.0 && successor.leader.engineering == 5.0
      && successor.leader.science == 4.0 && successor.leader.combat == 3.0
    ensures oldLeader != null && oldLeader != successor ==> oldLeader.leader == null
    ensures oldLeader != null && oldLeader != successor ==>
      forall k :: k != LeaderKind ==> oldLeader.Get(k) == old(oldLeader.Get(k))
    ensures forall k :: k != LeaderKind ==> successor.Get(k) == old(successor.Get(k))
    ensures successor.ai != null ==>
      successor.ai.aiDisabled && successor.ai.taskType == TaskType.Idle
      && successor.ai.targetX == -1 && successor.ai.targetY == -1
  {
    var ai := successor.ai;
    var oldLC := if oldLeader != null then oldLeader.leader else null;
    var newLC := SuccessorRecord(oldLC);
    if oldLeader != null {
      oldLeader.Remove(LeaderKind);
    }
    assert successor.Get(AIKind) == old(successor.Get(AIKind));
    successor.Add(LeaderC(newLC));
    assert successor.Get(AIKind) == old(successor.Get(AIKind));
    if ai != null {
      ai.aiDisabled := true;
      ai.ClearTask();
    }
  }
}
