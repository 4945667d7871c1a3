/**
 * The tier enumerations that turn a need value in [0,1] into a category:
 * hunger tiers, energy tiers and the five-band need level.
 */
module NeedTiers {

  import opened Common

  /** Hunger tiers, from best to worst. */
  datatype HungerCategory = Fed | Hungry | UrgentlyHungry | Starving
  {
    /** Position in declaration order: 0 is the mildest tier, 3 the most severe. */
    function Severity(): nat
    {
      match this
      case Fed => 0
      case Hungry => 1
      case UrgentlyHungry => 2
      case Starving => 3
    }
  }

  /** Energy tiers, from best to worst. */
  datatype EnergyCategory = Rested | Tired | Exhausted | Collapsed
  {
    function Severity(): nat
    {
      match this
      case Rested => 0
      case Tired => 1
      case Exhausted => 2
      case Collapsed => 3
    }
  }

  function HungerFromLevel(level: real): HungerCategory
  {
    if level > 0.6 then Fed
    else if level > 0.3 then Hungry
    else if level > 0.1 then UrgentlyHungry
    else Starving
  }

  function EnergyFromLevel(level: real): EnergyCategory
  {
    if level > 0.6 then Rested
    else if level > 0.3 then Tired
    else if level > 0.1 then Exhausted
    else Collapsed
  }

  /** The hunger bands, each stated in both directions. */
  lemma HungerBands(level: real)
    ensures HungerFromLevel(level) == Fed <==> level > 0.6
    ensures HungerFromLevel(level) == Hungry <==> 0.3 < level <= 0.6
    ensures HungerFromLevel(level) == UrgentlyHungry <==> 0.1 < level <= 0.3
    ensures HungerFromLevel(level) == Starving <==> level <= 0.1
  {
  }

  /** The energy bands, each stated in both directions. */
  lemma EnergyBands(level: real)
    ensures EnergyFromLevel(level) == Rested <==> level > 0.6
    ensures EnergyFromLevel(level) == Tired <==> 0.3 < level <= 0.6
    ensures EnergyFromLevel(level) == Exhausted <==> 0.1 < level <= 0.3
    ensures EnergyFromLevel(level) == Collapsed <==> level <= 0.1
  {
  }

  /** A higher hunger level never gives a more severe tier. */
  lemma HungerMonotone(a: real, b: real)
    requires a <= b
    ensures HungerFromLevel(b).Severity() <= HungerFromLevel(a).Severity()
  {
  }

  /** A higher energy level never gives a more severe tier. */
  lemma EnergyMonotone(a: real, b: real)
    requires a <= b
    ensures EnergyFromLevel(b).Severity() <= EnergyFromLevel(a).Severity()
  {
  }

  /** Both enumerations share their breakpoints: the tiers line up index for index. */
  lemma TiersLineUp(level: real)
    ensures HungerFromLevel(level).Severity() == EnergyFromLevel(level).Severity()
  {
  }

  /** The five need bands, each carrying its (upper, lower) bounds. */
  datatype NeedLevel = Full | Satisfied | Low | Urgent | Critical
  {
    function UpperBound(): real
    {
      match this
      case Full => 1.0
      case Satisfied => 0.75
      case Low => 0.5
      case Urgent => 0.25
      case Critical => 0.05
    }

    function LowerBound(): real
    {
      match this
      case Full => 0.75
      case Satisfied => 0.5
      case Low => 0.25
      case Urgent => 0.05
      case Critical => 0.0
    }

    predicate IsUrgent() { this == Urgent || this == Critical }

    predicate IsCritical() { this == Critical }

    /** The next milder band, if any. */
    function Milder(): Option<NeedLevel>
    {
      match this
      case Full => None
      case Satisfied => Some(Full)
      case Low => Some(Satisfied)
      case Urgent => Some(Low)
      case Critical => Some(Urgent)
    }
  }

  function NeedFromRatio(ratio: real): NeedLevel
  {
    if ratio >= 0.75 then Full
    else if ratio >= 0.5 then Satisfied
    else if ratio >= 0.25 then Low
    else if ratio >= 0.05 then Urgent
    else Critical
  }

  /** For a ratio in [0,1] the chosen band contains it. */
  lemma NeedFromRatioWithinBounds(ratio: real)
    requires 0.0 <= ratio <= 1.0
    ensures NeedFromRatio(ratio).LowerBound() <= ratio <= NeedFromRatio(ratio).UpperBound()
  {
  }

  /** Each band's lower bound is the next band's upper bound: the bands tile [0,1]. */
  lemma NeedBandsContiguous(l: NeedLevel)
    ensures l.Milder().Some? ==> l.UpperBound() == l.Milder().value.LowerBound()
    ensures l.Milder().None? <==> l == Full
    ensures l == Critical ==> l.LowerBound() == 0.0
    ensures l == Full ==> l.UpperBound() == 1.0
  {
  }

  /** The urgency predicates, both directions, and criticality implies urgency. */
  lemma NeedUrgency(l: NeedLevel)
    ensures l.IsUrgent() <==> l == Urgent || l == Critical
    ensures l.IsCritical() <==> l == Critical
    ensures l.IsCritical() ==> l.IsUrgent()
  {
  }
}
