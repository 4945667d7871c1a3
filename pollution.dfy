/**
 * The planet-wide pollution meter: built buildings add their pollution
 * rate every second, nature removes a little, the meter stays within
 * [0, 100], and above 20 it slowly drains the health of every living
 * entity with needs.
 */
module PollutionSystems {

  import opened Common
  import opened Ecs
  import opened DataComponents
  import opened NeedsComponents
  import opened BuildingComponents
  import opened BuildingProduction

  /** The uninhabitable end of the meter. */
  const MAX_POLLUTION: real := 100.0
  /** Pollution removed by nature per second. */
  const NATURAL_DECAY: real := 0.05
  /** Above this level pollution harms health. */
  const HARM_THRESHOLD: real := 20.0
  /** Health drained per second at full severity. */
  const DRAIN_RATE: real := 0.002

  /** The kinds the health drain steps, and the kind that pollutes. */
  const DrainKinds: seq<Kind> := [NeedsKind, HealthKind]
  const PolluterKinds: seq<Kind> := [BuildingKind]

  /** The pollution per second of the built buildings among bs; entities without a building add nothing. */
  function BuiltPollution(bs: seq<Entity>): real
    reads bs, BuildingsOf(bs)
  {
    if bs == [] then 0.0
    else
      var last := bs[|bs| - 1];
      assert last.building != null ==> last.building in BuildingsOf(bs);
      BuiltPollution(bs[..|bs| - 1])
      + (if last.building != null && last.building.built then last.building.pollutionRate else 0.0)
  }

  /** Buildings that are not built add nothing: with none built the rate is 0. */
  lemma {:induction false} UnbuiltAddNothing(bs: seq<Entity>)
    requires forall k :: 0 <= k < |bs| ==> bs[k].building == null || !bs[k].building.built
    ensures BuiltPollution(bs) == 0.0
  {
    if bs != [] {
      UnbuiltAddNothing(bs[..|bs| - 1]);
    }
  }

  /** With every rate non-negative, the total is non-negative too. */
  lemma {:induction false} BuiltPollutionNonNegative(bs: seq<Entity>)
    requires forall k :: 0 <= k < |bs| && bs[k].building != null ==> bs[k].building.pollutionRate >= 0.0
    ensures BuiltPollution(bs) >= 0.0
  {
    if bs != [] {
      BuiltPollutionNonNegative(bs[..|bs| - 1]);
    }
  }

  /** The meter after delta seconds at rate per second: decayed by nature, then clamped to [0, MAX_POLLUTION]. */
  function NextPollution(p: real, rate: real, delta: real): (r: real)
    ensures 0.0 <= r <= MAX_POLLUTION
    ensures 0.0 <= p + rate * delta - NATURAL_DECAY * delta <= MAX_POLLUTION ==>
      r == p + rate * delta - NATURAL_DECAY * delta
  {
    Max(0.0, Min(MAX_POLLUTION, p + rate * delta - NATURAL_DECAY * delta))
  }

  /** Below the natural decay rate the meter never rises; above it, it never falls. */
  lemma NextPollutionDirection(p: real, rate: real, delta: real)
    requires 0.0 <= p <= MAX_POLLUTION && delta >= 0.0
    ensures rate <= NATURAL_DECAY ==> NextPollution(p, rate, delta) <= p
    ensures rate >= NATURAL_DECAY ==> NextPollution(p, rate, delta) >= p
  {
    assert rate <= NATURAL_DECAY ==> rate * delta <= NATURAL_DECAY * delta;
    assert rate >= NATURAL_DECAY ==> rate * delta >= NATURAL_DECAY * delta;
  }

  /** How far the meter is above the harm threshold, as a fraction of the rest of the scale. */
  function Severity(p: real): (s: real)
    requires p > HARM_THRESHOLD
    ensures p <= MAX_POLLUTION ==> 0.0 < s <= 1.0
  {
    (p - HARM_THRESHOLD) / (MAX_POLLUTION - HARM_THRESHOLD)
  }

  /** The health drained from each living entity over delta seconds at meter reading p: severity·DRAIN_RATE·delta. */
  function DrainAmount(p: real, delta: real): (a: real)
    requires p > HARM_THRESHOLD
    ensures p <= MAX_POLLUTION && delta >= 0.0 ==> 0.0 <= a <= DRAIN_RATE * delta
  {
    Severity(p) * DRAIN_RATE * delta
  }

  /** The labels, from mildest to worst. */
  const Labels: seq<string> := ["Pristine", "Clean", "Polluted", "Degraded", "Critical", "Uninhabitable"]

  /** The label for a meter reading, by the thresholds 10, 30, 50, 75 and 90. */
  function SeverityLabel(p: real): (l: string)
    ensures l in Labels
  {
    if p < 10.0 then "Pristine"
    else if p < 30.0 then "Clean"
    else if p < 50.0 then "Polluted"
    else if p < 75.0 then "Degraded"
    else if p < 90.0 then "Critical"
    else "Uninhabitable"
  }

  /** The position of a label in Labels, 0 the mildest. */
  function LabelRank(name: string): (n: nat)
    requires name in Labels
    ensures n < |Labels| && Labels[n] == name
  {
    if name == Labels[0] then 0
    else if name == Labels[1] then 1
    else if name == Labels[2] then 2
    else if name == Labels[3] then 3
    else if name == Labels[4] then 4
    else 5
  }

  /** The label never gets milder as pollution rises. */
  lemma LabelMonotone(a: real, b: real)
    requires a <= b
    ensures LabelRank(SeverityLabel(a)) <= LabelRank(SeverityLabel(b))
  {
  }

  /** The health the needs record of es[k] holds (0 without one). */
  function HealthAt(es: seq<Entity>, k: nat): real
    requires k < |es|
    reads es, NeedsOf(es)
  {
    if es[k].needs == null then 0.0 else es[k].needs.health
  }

  /**
   * The drain's effect on one entity whose health was before: a living
   * one has lost amount health (never below 0), a dead one nothing.
   */
  predicate DrainedFrom(e: Entity, before: real, amount: real)
    reads e, e.needs, e.health
  {
    e.needs != null && e.health != null ==>
      e.needs.health == if e.health.dead then before else Max(0.0, before - amount)
  }

  class PollutionSystem {
    var globalPollution: real
    var planetaryHealth: real

    /** The meter is in range and the planet's health is its complement. */
    ghost predicate Valid()
      reads this
    {
      0.0 <= globalPollution <= MAX_POLLUTION && planetaryHealth == MAX_POLLUTION - globalPollution
    }

    constructor ()
      ensures Valid() && globalPollution == 0.0 && planetaryHealth == MAX_POLLUTION
    {
      globalPollution := 0.0;
      planetaryHealth := MAX_POLLUTION;
    }

    /** The pollution rate of the registry's built buildings, summed in registry order. */
    method PollutionRate(ecs: ECSWorld) returns (rate: real)
      ensures rate == old(BuiltPollution(With(ecs.entities, PolluterKinds)))
    {
      var buildings := With(ecs.entities, PolluterKinds);
      rate := 0.0;
      for i := 0 to |buildings|
        invariant rate == BuiltPollution(buildings[..i])
      {
        assert buildings[..i + 1][..i] == buildings[..i];
        var bc := buildings[i].building;
        if bc == null || !bc.built {
          continue;
        }
        rate := rate + bc.pollutionRate;
      }
      assert buildings[..|buildings|] == buildings;
    }

    /** The drain for one entity: a living one loses the given amount of health (never below 0); a dead one nothing. */
    static method Drain(e: Entity, amount: real)
      requires e.needs != null && e.health != null
      modifies e.needs`health
      ensures !e.health.dead ==> e.needs.health == Max(0.0, old(e.needs.health) - amount)
      ensures e.health.dead ==> e.needs.health == old(e.needs.health)
    {
      if e.health.dead {
        return;
      }
      e.needs.Damage(amount);
    }

    /**
     * One tick: the meter moves by the built buildings' rate less nature's
     * decay over delta seconds and is clamped to [0, 100]; the planet's
     * health follows. At or below the harm threshold no health changes;
     * above it every living entity with needs and a health record loses
     * severity·DRAIN_RATE·delta health.
     */
    method Update(ecs: ECSWorld, delta: real)
      modifies this, NeedsOf(ecs.entities)
      ensures Valid()
      ensures globalPollution == NextPollution(old(globalPollution), old(BuiltPollution(With(ecs.entities, PolluterKinds))), delta)
      ensures globalPollution <= HARM_THRESHOLD ==> forall n :: n in NeedsOf(ecs.entities) ==> unchanged(n)
      ensures forall n :: n in NeedsOf(ecs.entities) ==> n.hunger == old(n.hunger) && n.energy == old(n.energy) && n.mood == old(n.mood)
      ensures delta >= 0.0 ==> forall n :: n in NeedsOf(ecs.entities) ==> n.health <= old(n.health) || n.health == 0.0
      ensures globalPollution > HARM_THRESHOLD && DistinctNeeds(With(ecs.entities, DrainKinds)) ==>
        forall k :: 0 <= k < |With(ecs.entities, DrainKinds)| ==>
          DrainedFrom(With(ecs.entities, DrainKinds)[k], old(HealthAt(With(ecs.entities, DrainKinds), k)),
            DrainAmount(globalPollution, delta))
    {
      ghost var drained := With(ecs.entities, DrainKinds);
      forall x | x in drained ensures x in ecs.entities {
        WithSelects(ecs.entities, DrainKinds, x);
      }
      var rate := PollutionRate(ecs);
      globalPollution := NextPollution(globalPollution, rate, delta);
      planetaryHealth := MAX_POLLUTION - globalPollution;
      if globalPollution > HARM_THRESHOLD {
        var amount := DrainAmount(globalPollution, delta);
        assert With(ecs.entities, DrainKinds) == drained;
        forall k | 0 <= k < |drained| ensures HealthAt(drained, k) == old(HealthAt(drained, k)) {
          assert drained[k] in ecs.entities;
        }
        DrainAll(ecs, amount);
        assert With(ecs.entities, DrainKinds) == drained;
        assert DistinctNeeds(drained) ==> forall k :: 0 <= k < |drained| ==> DrainedFrom(drained[k], old(HealthAt(drained, k)), amount);
      }
    }

    /**
     * The drain pass: every living entity with needs and a health record,
     * in registry order, loses amount health (never below 0). Only health
     * changes, and it never rises unless it was below 0.
     */
    static method DrainAll(ecs: ECSWorld, amount: real)
      modifies NeedsOf(ecs.entities)
      ensures forall n :: n in NeedsOf(ecs.entities) ==> n.hunger == old(n.hunger) && n.energy == old(n.energy) && n.mood == old(n.mood)
      ensures amount >= 0.0 ==> forall n :: n in NeedsOf(ecs.entities) ==> n.health <= old(n.health) || n.health == 0.0
      ensures DistinctNeeds(With(ecs.entities, DrainKinds)) ==>
        forall k :: 0 <= k < |With(ecs.entities, DrainKinds)| ==>
          DrainedFrom(With(ecs.entities, DrainKinds)[k], old(HealthAt(With(ecs.entities, DrainKinds), k)), amount)
    {
      var drained := With(ecs.entities, DrainKinds);
      forall k | 0 <= k < |drained| ensures drained[k] in ecs.entities && drained[k].needs != null && drained[k].health != null {
        WithSelects(ecs.entities, DrainKinds, drained[k]);
        assert drained[k].Has(DrainKinds[0]) && drained[k].Has(DrainKinds[1]);
      }
      for i := 0 to |drained|
        invariant forall n :: n in NeedsOf(ecs.entities) ==> n.hunger == old(n.hunger) && n.energy == old(n.energy) && n.mood == old(n.mood)
        invariant amount >= 0.0 ==> forall n :: n in NeedsOf(ecs.entities) ==> n.health <= old(n.health) || n.health == 0.0
        invariant DistinctNeeds(drained) ==> forall k :: 0 <= k < i ==> DrainedFrom(drained[k], old(HealthAt(drained, k)), amount)
        invariant DistinctNeeds(drained) ==> forall k :: i <= k < |drained| ==> HealthAt(drained, k) == old(HealthAt(drained, k))
      {
        var e := drained[i];
        assert e in ecs.entities;
        assert e.needs in NeedsOf(ecs.entities);
        Drain(e, amount);
      }
    }
  }
}
