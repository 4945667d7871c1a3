/**
 * Named skill levels of an agent.
 */
module SkillsComponents {

  class SkillsComponent {
    var skills: map<string, int>

    constructor ()
      ensures skills == map["mining" := 1, "hauling" := 1]
      ensures GetSkill("mining") == 1 && GetSkill("hauling") == 1
      ensures forall s :: s != "mining" && s != "hauling" ==> GetSkill(s) == 0
    {
      skills := map["mining" := 1, "hauling" := 1];
    }

    /** The stored level of a present skill, 0 for an absent one. */
    function GetSkill(skill: string): (level: int)
      reads this
      ensures skill in skills ==> level == skills[skill]
      ensures skill !in skills ==> level == 0
    {
      if skill in skills then skills[skill] else 0
    }
  }
}
