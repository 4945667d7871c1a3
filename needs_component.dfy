/**
 * An agent's needs. The whole model uses one scale for needs: [0,1],
 * where 1 is fully satisfied. The class as shown keeps its values on a
 * 0-100 scale; its constants appear here divided by 100.
 */
module NeedsComponents {

  import opened Common
  import opened NeedTiers

  /** A fully satisfied need. */
  const FULL: real := 1.0
  /** Hunger lost per second. */
  const HUNGER_DECAY: real := 0.02
  /** Energy lost per second. */
  const ENERGY_DECAY: real := 0.012
  /** Hunger regained by one meal. */
  const EAT_AMOUNT: real := 0.4
  /** Energy regained by one full rest. */
  const REST_AMOUNT: real := 0.3
  /** Mood regained by one meal. */
  const MOOD_BOOST: real := 0.15
  /** At or below this hunger the agent counts as hungry. */
  const HUNGRY_AT: real := 0.35
  /** At or below this energy the agent counts as tired. */
  const TIRED_AT: real := 0.25

  class NeedsComponent {
    var hunger: real
    var energy: real
    var mood: real
    /** Health on the same scale (not declared in the shown class). */
    var health: real

    constructor ()
      ensures hunger == FULL && energy == FULL && mood == FULL && health == FULL
    {
      hunger := FULL;
      energy := FULL;
      mood := FULL;
      health := FULL;
    }

    predicate IsHungry()
      reads this
    {
      hunger <= HUNGRY_AT
    }

    predicate IsTired()
      reads this
    {
      energy <= TIRED_AT
    }

    function HungerTier(): HungerCategory
      reads this
    {
      HungerFromLevel(hunger)
    }

    function EnergyTier(): EnergyCategory
      reads this
    {
      EnergyFromLevel(energy)
    }

    method Eat()
      modifies this`hunger, this`mood
      ensures hunger == Min(FULL, old(hunger) + EAT_AMOUNT)
      ensures mood == Min(FULL, old(mood) + MOOD_BOOST)
      ensures old(hunger) <= FULL ==> old(hunger) <= hunger <= FULL
      ensures old(mood) <= FULL ==> old(mood) <= mood <= FULL
    {
      hunger := Min(FULL, hunger + EAT_AMOUNT);
      mood := Min(FULL, mood + MOOD_BOOST);
    }

    method Rest()
      modifies this`energy
      ensures energy == Min(FULL, old(energy) + REST_AMOUNT)
      ensures old(energy) <= FULL ==> old(energy) <= energy <= FULL
    {
      energy := Min(FULL, energy + REST_AMOUNT);
    }

    /** A partial rest of the given amount, capped like a full rest. */
    method RestPartial(amount: real)
      modifies this`energy
      ensures energy == Min(FULL, old(energy) + amount)
      ensures amount >= 0.0 && old(energy) <= FULL ==> old(energy) <= energy <= FULL
    {
      energy := Min(FULL, energy + amount);
    }

    /** Health loss, bounded below by 0. */
    method Damage(amount: real)
      modifies this`health
      ensures health == Max(0.0, old(health) - amount)
      ensures amount > 0.0 && old(health) > 0.0 ==> health < old(health)
    {
      health := Max(0.0, health - amount);
    }

    /** Health gain, bounded above by a full need. */
    method Heal(amount: real)
      modifies this`health
      ensures health == Min(FULL, old(health) + amount)
      ensures amount >= 0.0 && old(health) <= FULL ==> old(health) <= health <= FULL
    {
      health := Min(FULL, health + amount);
    }
  }

  /**
   * The hungry and tired flags sit inside the tier bands: an urgently
   * hungry or starving agent is hungry, and a hungry one is at least in
   * the Hungry tier; a collapsed agent is tired, and a tired one is at
   * least exhausted.
   */
  lemma FlagsWithinTiers(n: NeedsComponent)
    ensures n.HungerTier().Severity() >= 2 ==> n.IsHungry()
    ensures n.IsHungry() ==> n.HungerTier().Severity() >= 1
    ensures n.EnergyTier().Severity() == 3 ==> n.IsTired()
    ensures n.IsTired() ==> n.EnergyTier().Severity() >= 2
  {
  }
}
