/**
 * Age in game-years, advanced from elapsed seconds.
 */
module AgingComponents {

  /** Game seconds per in-game year. */
  const SECONDS_PER_YEAR: real := 60.0

  class AgingComponent {
    var ageYears: real
    var maxAge: real
    var yearAccumulator: real

    constructor (startAge: real, maxAge0: real)
      ensures ageYears == startAge && maxAge == maxAge0 && yearAccumulator == 0.0
    {
      ageYears := startAge;
      maxAge := maxAge0;
      yearAccumulator := 0.0;
    }

    /** Adds delta seconds; returns whether a year passed (at most one per call). */
    method Tick(delta: real) returns (aged: bool)
      modifies this`ageYears, this`yearAccumulator
      ensures (ageYears, yearAccumulator) == Ticked(old(ageYears), old(yearAccumulator), delta)
      ensures aged <==> old(yearAccumulator) + delta >= SECONDS_PER_YEAR
      ensures aged ==> ageYears == old(ageYears) + 1.0 && yearAccumulator == old(yearAccumulator) + delta - SECONDS_PER_YEAR
      ensures !aged ==> ageYears == old(ageYears) && yearAccumulator == old(yearAccumulator) + delta
      ensures old(ageYears) <= ageYears <= old(ageYears) + 1.0
    {
      yearAccumulator := yearAccumulator + delta;
      if yearAccumulator >= SECONDS_PER_YEAR {
        yearAccumulator := yearAccumulator - SECONDS_PER_YEAR;
        ageYears := ageYears + 1.0;
        return true;
      }
      return false;
    }

    /** Elderly from four fifths of the lifespan on; with a non-negative lifespan, anyone due to die is elderly. */
    function IsElderly(): (r: bool)
      reads this
      ensures maxAge >= 0.0 && ageYears >= maxAge ==> r
      ensures r && maxAge >= 0.0 ==> ageYears >= 0.0
    {
      ageYears >= maxAge * 0.8
    }

    /** Due to die once the lifespan is reached; that age lies past the elderly threshold when the lifespan is non-negative. */
    function ShouldDieOfOldAge(): (r: bool)
      reads this
      ensures r && maxAge >= 0.0 ==> ageYears >= maxAge * 0.8
      ensures !r ==> ageYears < maxAge
    {
      ageYears >= maxAge
    }
  }

  /** An entity old enough to die is elderly, provided its lifespan is not negative. */
  lemma DyingImpliesElderly(a: AgingComponent)
    requires a.maxAge >= 0.0
    ensures a.ShouldDieOfOldAge() ==> a.IsElderly()
  {
  }

  /**
   * Without the non-negative lifespan the implication fails: a lifespan of
   * -10 years makes an age of -10 due to die, while the elderly threshold
   * lies at -8.
   */
  lemma NegativeLifespanNotElderly(a: AgingComponent)
    requires a.maxAge == -10.0 && a.ageYears == -10.0
    ensures a.ShouldDieOfOldAge() && !a.IsElderly()
  {
  }

  /**
   * The age and the accumulated seconds after one tick of delta seconds:
   * no second is lost, since the age in seconds plus the accumulator grows
   * by exactly delta, and the age grows by at most one year.
   */
  function Ticked(age: real, acc: real, delta: real): (r: (real, real))
    ensures r.0 * SECONDS_PER_YEAR + r.1 == age * SECONDS_PER_YEAR + acc + delta
    ensures age <= r.0 <= age + 1.0
    ensures r.0 == age + 1.0 <==> acc + delta >= SECONDS_PER_YEAR
  {
    if acc + delta >= SECONDS_PER_YEAR then (age + 1.0, acc + delta - SECONDS_PER_YEAR) else (age, acc + delta)
  }

  /** The age and the accumulated seconds after n ticks of delta seconds each. */
  function TickedTimes(age: real, acc: real, delta: real, n: nat): (real, real)
    decreases n
  {
    if n == 0 then (age, acc)
    else
      var s := Ticked(age, acc, delta);
      TickedTimes(s.0, s.1, delta, n - 1)
  }

  /**
   * Ticks lose no time: after n ticks of delta seconds, with ticks shorter
   * than a year starting from less than a year accumulated, the
   * accumulator still holds less than a year and the age in seconds plus
   * the accumulator has grown by exactly n times delta.
   */
  lemma {:induction false} TicksKeepTime(age: real, acc: real, delta: real, n: nat)
    requires 0.0 <= acc < SECONDS_PER_YEAR && 0.0 <= delta < SECONDS_PER_YEAR
    ensures 0.0 <= TickedTimes(age, acc, delta, n).1 < SECONDS_PER_YEAR
    ensures TickedTimes(age, acc, delta, n).0 * SECONDS_PER_YEAR + TickedTimes(age, acc, delta, n).1
            == age * SECONDS_PER_YEAR + acc + (n as real) * delta
    decreases n
  {
    if n > 0 {
      var s := Ticked(age, acc, delta);
      TicksKeepTime(s.0, s.1, delta, n - 1);
      assert (n as real) * delta == delta + ((n - 1) as real) * delta;
    }
  }

  /**
   * Ticking eventually brings death of old age: once n ticks of a positive
   * delta (shorter than a year) add up to a year more than the years
   * missing to maxAge, the age has reached maxAge.
   */
  lemma {:induction false} OldAgeIsReached(age: real, acc: real, delta: real, maxAge: real, n: nat)
    requires 0.0 <= acc < SECONDS_PER_YEAR && 0.0 < delta < SECONDS_PER_YEAR
    requires (n as real) * delta >= (maxAge - age + 1.0) * SECONDS_PER_YEAR
    ensures TickedTimes(age, acc, delta, n).0 >= maxAge
  {
    TicksKeepTime(age, acc, delta, n);
  }
}
