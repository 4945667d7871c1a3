/**
 * An agent's mood on a 0-100 scale and its bands.
 */
module MoodComponents {

  const DEFAULT_MOOD: real := 50.0

  class MoodComponent {
    var mood: real

    constructor ()
      ensures mood == DEFAULT_MOOD
      ensures IsNeutral()
    {
      mood := DEFAULT_MOOD;
    }

    predicate IsHappy() reads this { mood >= 60.0 }
    predicate IsNeutral() reads this { mood >= 30.0 && mood < 60.0 }
    predicate IsUnhappy() reads this { mood < 30.0 }
    predicate IsBroken() reads this { mood < 10.0 }
  }

  /** Exactly one of happy, neutral and unhappy holds; broken implies unhappy. */
  lemma MoodBandsPartition(m: MoodComponent)
    ensures m.IsHappy() || m.IsNeutral() || m.IsUnhappy()
    ensures !(m.IsHappy() && m.IsNeutral()) && !(m.IsHappy() && m.IsUnhappy()) && !(m.IsNeutral() && m.IsUnhappy())
    ensures m.IsBroken() ==> m.IsUnhappy()
  {
  }
}
