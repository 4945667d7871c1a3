/**
 * Research: a fixed tree of 22 technologies over five eras, each
 * researched by accumulating seconds until its research time is reached.
 * One technology is researched at a time, and it may only be started
 * once every technology it lists as a prerequisite has been completed.
 */
module Research {

  import opened Common
  import opened GameEventBus

  class Technology {
    const id: string
    const name: string
    const description: string
    /** Seconds of research needed. */
    const researchTime: real
    const era: nat
    /** The ids of the technologies that must be completed first. */
    const prerequisites: seq<string>
    /** Seconds accumulated so far. */
    var progress: real
    var unlocked: bool

    constructor (id0: string, name0: string, description0: string, researchTime0: real, era0: nat, prerequisites0: seq<string>)
      ensures id == id0 && name == name0 && description == description0
      ensures researchTime == researchTime0 && era == era0 && prerequisites == prerequisites0
      ensures progress == 0.0 && !unlocked
    {
      id, name, description := id0, name0, description0;
      researchTime, era, prerequisites := researchTime0, era0, prerequisites0;
      progress, unlocked := 0.0, false;
    }

    /**
     * Adds delta seconds of research. An unlocked technology is left
     * alone; otherwise reaching the research time unlocks it with its
     * progress set to exactly that time. Unlocking is never undone, and
     * progress that was within the research time stays within it.
     */
    method AddProgress(delta: real)
      modifies this`progress, this`unlocked
      ensures old(unlocked) ==> unlocked && progress == old(progress)
      ensures !old(unlocked) && old(progress) + delta >= researchTime ==> unlocked && progress == researchTime
      ensures !old(unlocked) && old(progress) + delta < researchTime ==> !unlocked && progress == old(progress) + delta
      ensures old(progress) <= researchTime ==> progress <= researchTime
    {
      if unlocked {
        return;
      }
      progress := progress + delta;
      if progress >= researchTime {
        progress := researchTime;
        unlocked := true;
      }
    }

    /** The share of the research done: progress over research time, or 1 when no time is needed. */
    function ProgressRatio(): (r: real)
      reads this
      ensures researchTime <= 0.0 ==> r == 1.0
      ensures researchTime > 0.0 ==> r * researchTime == progress
      ensures researchTime > 0.0 && 0.0 <= progress <= researchTime ==> 0.0 <= r <= 1.0
    {
      if researchTime > 0.0 then
        var r := progress / researchTime;
        assert (r - 1.0) * researchTime == progress - researchTime;
        r
      else 1.0
    }

    method SetProgress(p: real)
      modifies this`progress
      ensures progress == p
    {
      progress := p;
    }

    method SetUnlocked(u: bool)
      modifies this`unlocked
      ensures unlocked == u
    {
      unlocked := u;
    }
  }

  /** The fixed description of a technology. */
  datatype TechSpec = TechSpec(id: string, name: string, description: string, researchTime: real, era: nat, prerequisites: seq<string>)

  /** The description of technology t. */
  function SpecOf(t: Technology): TechSpec
  {
    TechSpec(t.id, t.name, t.description, t.researchTime, t.era, t.prerequisites)
  }

  /** The tech tree, era by era. */
  const TechSpecs: seq<TechSpec> := [
    // Era 1: survival
    TechSpec("basic_farming", "Basic Farming", "Unlocks food grower buildings", 20.0, 1, []),
    TechSpec("basic_mining", "Basic Mining", "Unlocks miner buildings", 20.0, 1, []),
    TechSpec("basic_storage", "Basic Storage", "Unlocks stockpile designation", 20.0, 1, []),
    // Era 2: automation
    TechSpec("fast_mining", "Fast Mining", "Miners produce stone 50% faster", 30.0, 2, ["basic_mining"]),
    TechSpec("advanced_agriculture", "Advanced Agriculture", "Unlocks a second food grower", 45.0, 2, ["basic_farming"]),
    TechSpec("blueprints", "Blueprints", "Colonists auto-build from ghost placements", 40.0, 2, ["basic_storage"]),
    TechSpec("basic_bots", "Basic Bots", "Unlocks worker bots for hauling", 60.0, 2, ["blueprints"]),
    TechSpec("early_medicine", "Early Medicine", "Colonists heal faster; unlocks medic role", 35.0, 2, ["basic_farming"]),
    // Era 3: industrial
    TechSpec("smelter", "Smelting", "Unlocks the smelter building", 60.0, 3, ["fast_mining"]),
    TechSpec("conveyor", "Conveyor Belts", "Unlocks conveyor belt automation", 90.0, 3, ["basic_bots"]),
    TechSpec("androids", "Androids", "Unlocks android colonists (high pollution cost)", 120.0, 3, ["basic_bots", "smelter"]),
    TechSpec("eco_variants", "Eco-Friendly Machines", "Unlocks low-pollution building variants", 80.0, 3, ["smelter"]),
    TechSpec("pollution_management", "Pollution Management", "Unlocks scrubbers and pollution reduction tech", 90.0, 3, ["eco_variants"]),
    TechSpec("diplomacy", "Diplomacy", "Unlocks faction diplomacy actions", 70.0, 3, ["advanced_agriculture"]),
    // Era 4: space
    TechSpec("rocketry", "Rocketry", "Unlocks rocket construction", 150.0, 4, ["smelter", "androids"]),
    TechSpec("off_world_comms", "Off-World Communications", "Enables contact with remote colonies", 120.0, 4, ["rocketry"]),
    TechSpec("terraforming_probe", "Terraforming Probe", "Build a probe to prepare new worlds", 180.0, 4, ["off_world_comms"]),
    TechSpec("multi_colony", "Multi-Colony Management", "Manage multiple colonies simultaneously", 120.0, 4, ["off_world_comms"]),
    // Era 5: legacy
    TechSpec("advanced_terraforming", "Advanced Terraforming", "Full planetary ecosystem modification", 240.0, 5, ["terraforming_probe"]),
    TechSpec("colony_network", "Inter-Colony Networks", "Real-time resource sharing across colonies", 200.0, 5, ["multi_colony"]),
    TechSpec("planetary_stewardship", "Planetary Stewardship", "Reverse global pollution; restore biomes", 300.0, 5, ["advanced_terraforming", "colony_network"]),
    TechSpec("new_world_colonization", "New World Colonization", "Establish a self-sustaining colony on a new planet", 360.0, 5, ["planetary_stewardship"])
  ]

  /**
   * Every prerequisite in the tree names a technology listed earlier, so
   * the tree has no cycles and can be researched in list order. The era
   * lemmas below name the earlier technology each prerequisite refers to.
   */
  lemma PrerequisitesComeEarlier(i: nat, j: nat)
    requires i < |TechSpecs| && j < |TechSpecs[i].prerequisites|
    ensures exists k :: 0 <= k < i && TechSpecs[k].id == TechSpecs[i].prerequisites[j]
  {
    if i < 3 {
    } else if i < 8 {
      EraTwoPrerequisites(i, j);
    } else if i < 14 {
      EraThreePrerequisites(i, j);
    } else if i < 18 {
      EraFourPrerequisites(i, j);
    } else {
      EraFivePrerequisites(i, j);
    }
  }

  /** The era-2 technologies (indices 3 to 7) name earlier prerequisites. */
  lemma EraTwoPrerequisites(i: nat, j: nat)
    requires 3 <= i <= 7 && j < |TechSpecs[i].prerequisites|
    ensures exists k :: 0 <= k < i && TechSpecs[k].id == TechSpecs[i].prerequisites[j]
  {
    if i == 3 {
      assert TechSpecs[3].prerequisites[0] == TechSpecs[1].id;
    } else if i == 4 {
      assert TechSpecs[4].prerequisites[0] == TechSpecs[0].id;
    } else if i == 5 {
      assert TechSpecs[5].prerequisites[0] == TechSpecs[2].id;
    } else if i == 6 {
      assert TechSpecs[6].prerequisites[0] == TechSpecs[5].id;
    } else {
      assert TechSpecs[7].prerequisites[0] == TechSpecs[0].id;
    }
  }

  /** The era-3 technologies (indices 8 to 13) name earlier prerequisites. */
  lemma EraThreePrerequisites(i: nat, j: nat)
    requires 8 <= i <= 13 && j < |TechSpecs[i].prerequisites|
    ensures exists k :: 0 <= k < i && TechSpecs[k].id == TechSpecs[i].prerequisites[j]
  {
    if i == 8 {
      assert TechSpecs[8].prerequisites[0] == TechSpecs[3].id;
    } else if i == 9 {
      assert TechSpecs[9].prerequisites[0] == TechSpecs[6].id;
    } else if i == 10 {
      assert TechSpecs[10].prerequisites[0] == TechSpecs[6].id;
      assert TechSpecs[10].prerequisites[1] == TechSpecs[8].id;
    } else if i == 11 {
      assert TechSpecs[11].prerequisites[0] == TechSpecs[8].id;
    } else if i == 12 {
      assert TechSpecs[12].prerequisites[0] == TechSpecs[11].id;
    } else {
      assert TechSpecs[13].prerequisites[0] == TechSpecs[4].id;
    }
  }

  /** The era-4 technologies (indices 14 to 17) name earlier prerequisites. */
  lemma EraFourPrerequisites(i: nat, j: nat)
    requires 14 <= i <= 17 && j < |TechSpecs[i].prerequisites|
    ensures exists k :: 0 <= k < i && TechSpecs[k].id == TechSpecs[i].prerequisites[j]
  {
    if i == 14 {
      assert TechSpecs[14].prerequisites[0] == TechSpecs[8].id;
      assert TechSpecs[14].prerequisites[1] == TechSpecs[10].id;
    } else if i == 15 {
      assert TechSpecs[15].prerequisites[0] == TechSpecs[14].id;
    } else if i == 16 {
      assert TechSpecs[16].prerequisites[0] == TechSpecs[15].id;
    } else {
      assert TechSpecs[17].prerequisites[0] == TechSpecs[15].id;
    }
  }

  /** The era-5 technologies (indices 18 to 21) name earlier prerequisites. */
  lemma EraFivePrerequisites(i: nat, j: nat)
    requires 18 <= i <= 21 && j < |TechSpecs[i].prerequisites|
    ensures exists k :: 0 <= k < i && TechSpecs[k].id == TechSpecs[i].prerequisites[j]
  {
    if i == 18 {
      assert TechSpecs[18].prerequisites[0] == TechSpecs[16].id;
    } else if i == 19 {
      assert TechSpecs[19].prerequisites[0] == TechSpecs[17].id;
    } else if i == 20 {
      assert TechSpecs[20].prerequisites[0] == TechSpecs[18].id;
      assert TechSpecs[20].prerequisites[1] == TechSpecs[19].id;
    } else {
      assert TechSpecs[21].prerequisites[0] == TechSpecs[20].id;
    }
  }

  class ResearchSystem {
    var techTree: seq<Technology>
    var currentResearch: Technology?
    /** The bus research completions are announced on, when there is one. */
    const events: GameEvents?

    /** The tree holds exactly the technologies of TechSpecs, in order. */
    ghost predicate Valid()
      reads this
    {
      |techTree| == |TechSpecs| && (forall i :: 0 <= i < |techTree| ==> SpecOf(techTree[i]) == TechSpecs[i])
    }

    /** No technology of the tree has been unlocked yet. */
    ghost predicate Untouched()
      reads this, techTree
    {
      forall i :: 0 <= i < |techTree| ==> !techTree[i].unlocked
    }

    /** A research is under way: a current technology that is still locked. */
    predicate Busy()
      reads this, currentResearch
    {
      currentResearch != null && !currentResearch.unlocked
    }

    /** Some technology of the tree with this id is unlocked. */
    predicate Completed(techId: string)
      reads this, techTree
    {
      exists i :: 0 <= i < |techTree| && techTree[i].id == techId && techTree[i].unlocked
    }

    /** Every prerequisite of t is completed (true when t has none). */
    predicate PrereqsMet(t: Technology)
      reads this, techTree
    {
      forall j :: 0 <= j < |t.prerequisites| ==> Completed(t.prerequisites[j])
    }

    /** t may be started for the request: it matches the requested id (any, when none is given), is locked and has its prerequisites met. */
    predicate Picks(t: Technology, techId: Option<string>)
      reads this, techTree, t
    {
      (techId.None? || t.id == techId.value) && !t.unlocked && PrereqsMet(t)
    }

    /** The position of the first technology of the tree that may be started for the request, if any. */
    function FirstPick(techId: Option<string>, from: nat): (r: Option<nat>)
      reads this, techTree
      requires from <= |techTree|
      decreases |techTree| - from
      ensures r.Some? ==> from <= r.value < |techTree| && Picks(techTree[r.value], techId)
      ensures r.Some? ==> forall j :: from <= j < r.value ==> !Picks(techTree[j], techId)
      ensures r.None? ==> forall j :: from <= j < |techTree| ==> !Picks(techTree[j], techId)
    {
      if from == |techTree| then None
      else if Picks(techTree[from], techId) then Some(from)
      else FirstPick(techId, from + 1)
    }

    constructor (events0: GameEvents?)
      ensures events == events0 && currentResearch == null
      ensures Valid() && Untouched()
      ensures forall i :: 0 <= i < |techTree| ==> fresh(techTree[i]) && techTree[i].progress == 0.0
    {
      events := events0;
      currentResearch := null;
      techTree := [];
      new;
      BuildTechTree();
    }

    /** Appends one new, locked technology with no progress. */
    method AddTech(s: TechSpec)
      modifies this`techTree
      ensures |techTree| == |old(techTree)| + 1 && techTree[..|old(techTree)|] == old(techTree)
      ensures var t := techTree[|techTree| - 1]; fresh(t) && SpecOf(t) == s && t.progress == 0.0 && !t.unlocked
    {
      var t := new Technology(s.id, s.name, s.description, s.researchTime, s.era, s.prerequisites);
      techTree := techTree + [t];
    }

    /** Appends a new, locked technology without progress for each of specs, in order. */
    method AddTechs(specs: seq<TechSpec>)
      modifies this`techTree
      ensures |techTree| == |old(techTree)| + |specs| && techTree[..|old(techTree)|] == old(techTree)
      ensures forall i :: 0 <= i < |specs| ==> SpecOf(techTree[|old(techTree)| + i]) == specs[i]
      ensures forall i :: |old(techTree)| <= i < |techTree| ==> fresh(techTree[i]) && techTree[i].progress == 0.0 && !techTree[i].unlocked
    {
      ghost var n := |techTree|;
      for k := 0 to |specs|
        invariant |techTree| == n + k && techTree[..n] == old(techTree)
        invariant forall i :: 0 <= i < k ==> SpecOf(techTree[n + i]) == specs[i]
        invariant forall i :: n <= i < |techTree| ==> fresh(techTree[i]) && techTree[i].progress == 0.0 && !techTree[i].unlocked
      {
        AddTech(specs[k]);
      }
    }

    /** Fills the empty tree with the technologies of TechSpecs, in order, each new, locked and without progress. */
    method BuildTechTree()
      requires techTree == []
      modifies this`techTree
      ensures Valid() && Untouched()
      ensures forall i :: 0 <= i < |techTree| ==> fresh(techTree[i]) && techTree[i].progress == 0.0
    {
      AddTechs(TechSpecs);
    }

    /** Whether a technology with this id is unlocked, by scanning the tree in order. */
    method IsCompleted(techId: string) returns (b: bool)
      ensures b == Completed(techId)
    {
      for i := 0 to |techTree|
        invariant forall k :: 0 <= k < i ==> !(techTree[k].id == techId && techTree[k].unlocked)
      {
        if techTree[i].id == techId && techTree[i].unlocked {
          return true;
        }
      }
      return false;
    }

    /** The same question under its older name. */
    method IsTechUnlocked(techId: string) returns (b: bool)
      ensures b == Completed(techId)
    {
      b := IsCompleted(techId);
    }

    /** Whether every prerequisite of t is completed, checking them in order. */
    method PrerequisitesMet(t: Technology) returns (b: bool)
      ensures b == PrereqsMet(t)
    {
      for j := 0 to |t.prerequisites|
        invariant forall k :: 0 <= k < j ==> Completed(t.prerequisites[k])
      {
        var done := IsCompleted(t.prerequisites[j]);
        if !done {
          return false;
        }
      }
      return true;
    }

    /**
     * The scan both ways of starting a research share: the tree in order,
     * stopping at the first technology that matches the requested id (any
     * id when none is given), is locked, and has its prerequisites met.
     * The prerequisites are checked only once the other two tests pass.
     */
    method Scan(techId: Option<string>) returns (r: Option<nat>)
      ensures r == FirstPick(techId, 0)
    {
      for i := 0 to |techTree|
        invariant FirstPick(techId, 0) == FirstPick(techId, i)
      {
        var tech := techTree[i];
        if (techId.None? || tech.id == techId.value) && !tech.unlocked {
          var met := PrerequisitesMet(tech);
          if met {
            return Some(i);
          }
        }
      }
      return None;
    }

    /**
     * Starts the technology with this id: nothing happens while a research
     * is under way; otherwise the first technology with that id that is
     * locked and has its prerequisites met becomes the current research,
     * and with none the current research is left as it was.
     */
    method StartResearch(techId: string)
      modifies this`currentResearch
      ensures old(Busy()) ==> currentResearch == old(currentResearch)
      ensures !old(Busy()) && FirstPick(Some(techId), 0).Some? ==> currentResearch == techTree[FirstPick(Some(techId), 0).value]
      ensures !old(Busy()) && FirstPick(Some(techId), 0).None? ==> currentResearch == old(currentResearch)
    {
      if currentResearch != null && !currentResearch.unlocked {
        return;
      }
      var r := Scan(Some(techId));
      if r.Some? {
        currentResearch := techTree[r.value];
      }
    }

    /**
     * Starts the next research: nothing happens while a research is under
     * way; otherwise the first technology in tree order that is locked and
     * has its prerequisites met becomes the current research, and with
     * none the current research is left as it was.
     */
    method StartNextResearch()
      modifies this`currentResearch
      ensures old(Busy()) ==> currentResearch == old(currentResearch)
      ensures !old(Busy()) && FirstPick(None, 0).Some? ==> currentResearch == techTree[FirstPick(None, 0).value]
      ensures !old(Busy()) && FirstPick(None, 0).None? ==> currentResearch == old(currentResearch)
    {
      if currentResearch != null && !currentResearch.unlocked {
        return;
      }
      var r := Scan(None);
      if r.Some? {
        currentResearch := techTree[r.value];
      }
    }

    /**
     * One tick: a research under way gains delta seconds of progress; on
     * the tick it becomes unlocked, the research-completed event fires
     * with the technology's name (when there is a bus). Without a research
     * under way nothing changes.
     */
    method Update(delta: real)
      modifies currentResearch, events
      ensures !old(Busy()) ==> (currentResearch != null ==> unchanged(currentResearch)) && (events != null ==> unchanged(events))
      ensures old(Busy()) ==>
        && (old(currentResearch.progress) + delta >= currentResearch.researchTime ==>
              currentResearch.unlocked && currentResearch.progress == currentResearch.researchTime)
        && (old(currentResearch.progress) + delta < currentResearch.researchTime ==>
              !currentResearch.unlocked && currentResearch.progress == old(currentResearch.progress) + delta)
      ensures old(Busy()) && currentResearch.unlocked && events != null ==>
        events.trace == old(events.trace) + Calls(events.HandlersFor(EventType.ResearchCompleted), EventType.ResearchCompleted, currentResearch.name)
      ensures events != null && !(old(Busy()) && currentResearch.unlocked) ==> events.trace == old(events.trace)
      ensures events != null ==> events.listeners == old(events.listeners) && events.eventLog == old(events.eventLog)
    {
      var tech := currentResearch;
      if tech != null && !tech.unlocked {
        tech.AddProgress(delta);
        if tech.unlocked {
          var techName := tech.name;
          if events != null {
            events.Fire(EventType.ResearchCompleted, techName);
          }
        }
      }
    }
  }

  /** On a fresh tree no technology with a prerequisite has its prerequisites met, so only roots can be started. */
  lemma FreshTreeBlocksDependents(r: ResearchSystem, t: Technology)
    requires r.Untouched()
    ensures |t.prerequisites| > 0 ==> !r.PrereqsMet(t)
  {
    if |t.prerequisites| > 0 {
      assert !r.Completed(t.prerequisites[0]);
    }
  }

  /** On a fresh tree the next research picked is the first technology, an era-1 one without prerequisites. */
  lemma FreshTreeStartsFirst(r: ResearchSystem)
    requires r.Valid() && r.Untouched()
    ensures r.FirstPick(None, 0) == Some(0)
    ensures r.techTree[0].era == 1 && r.techTree[0].prerequisites == []
  {
    assert SpecOf(r.techTree[0]) == TechSpecs[0];
    assert r.Picks(r.techTree[0], None);
  }

  /** Once every prerequisite of t is completed and t is locked, t can be started by its id. */
  lemma PrerequisitesUnlockStart(r: ResearchSystem, t: Technology)
    requires t in r.techTree && !t.unlocked
    requires forall j :: 0 <= j < |t.prerequisites| ==> exists i :: 0 <= i < |r.techTree| && r.techTree[i].id == t.prerequisites[j] && r.techTree[i].unlocked
    ensures r.FirstPick(Some(t.id), 0).Some?
  {
    var i :| 0 <= i < |r.techTree| && r.techTree[i] == t;
    assert r.Picks(r.techTree[i], Some(t.id));
  }
}
