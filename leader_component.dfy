/**
 * The leader's stats and the bonuses derived from them.
 */
module LeaderComponents {

  class LeaderComponent {
    var charisma: real
    var engineering: real
    var science: real
    var combat: real

    constructor ()
      ensures charisma == 5.0 && engineering == 5.0 && science == 4.0 && combat == 3.0
      ensures EfficiencyBonus() == 0.25
    {
      charisma := 5.0;
      engineering := 5.0;
      science := 4.0;
      combat := 3.0;
    }

    /** Colony efficiency: a tenth of the mean of charisma and engineering, rising with each. */
    function EfficiencyBonus(): (b: real)
      reads this
      ensures charisma >= 0.0 && engineering >= 0.0 ==> b >= 0.0
      ensures b * 40.0 == charisma + engineering
    {
      (charisma + engineering) / 40.0
    }

    /** Research speed: a tenth of science. */
    function ResearchBonus(): (b: real)
      reads this
      ensures science >= 0.0 ==> b >= 0.0
      ensures b * 10.0 == science
    {
      science / 10.0
    }

    /** Diplomacy: a tenth of charisma. */
    function DiplomacyModifier(): (b: real)
      reads this
      ensures charisma >= 0.0 ==> b >= 0.0
      ensures b * 10.0 == charisma
    {
      charisma / 10.0
    }

    /** Combat effectiveness: a tenth of combat. */
    function CombatModifier(): (b: real)
      reads this
      ensures combat >= 0.0 ==> b >= 0.0
      ensures b * 10.0 == combat
    {
      combat / 10.0
    }
  }

  /** Non-negative stats give non-negative bonuses. */
  lemma BonusesNonNegative(l: LeaderComponent)
    requires l.charisma >= 0.0 && l.engineering >= 0.0 && l.science >= 0.0 && l.combat >= 0.0
    ensures l.EfficiencyBonus() >= 0.0 && l.ResearchBonus() >= 0.0
    ensures l.DiplomacyModifier() >= 0.0 && l.CombatModifier() >= 0.0
  {
  }

  /** A stronger leader never gives a smaller bonus: every bonus rises with the stats it reads. */
  lemma BonusesMonotone(l: LeaderComponent, m: LeaderComponent)
    requires l.charisma <= m.charisma && l.engineering <= m.engineering
    requires l.science <= m.science && l.combat <= m.combat
    ensures l.EfficiencyBonus() <= m.EfficiencyBonus() && l.ResearchBonus() <= m.ResearchBonus()
    ensures l.DiplomacyModifier() <= m.DiplomacyModifier() && l.CombatModifier() <= m.CombatModifier()
  {
  }
}
