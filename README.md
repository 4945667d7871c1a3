# Syntropy colony simulation core in Dafny

Syntropy is a colony simulation. Colonists with needs (hunger, energy, health and mood) live on a tile grid. They eat, rest, haul the output of buildings to a stockpile, socialise and wander. A think tree picks what each colonist does on each tick. Around them run:

- a research tree gated by prerequisites;
- a pollution meter;
- aging with leader succession;
- random colony events;
- an event bus with a bounded log.

The code is midway through a move from an older object loop (`Colonist`, `Miner`, `FoodGrower`, `TaskSystem` and `World`) to an entity-component design (`Entity`, `ECSWorld`, components and systems). Both halves are modelled.

This project models that simulation core in the form the code has.

- **Components and systems that update fields in place** are Dafny classes. Their methods carry `modifies` frames and state the new state in `ensures`.
- **The registry.** An `Entity` holds one nullable slot per component class. `ECSWorld` holds the ordered list of entities. `With(es, kinds)` is the specification of the "entities holding every requested component" query, and the systems and behaviour nodes are proved against it.
- **Loops** (scans for the nearest building, partner or food tile, the A* search, bed assignment, the tech-tree scans) are `while`/`for` loops. Their invariants tie each loop to a specification function, such as `FirstPick`, `FirstOffering`, `ParentChain` or `UnownedBeds`.
- **Pure code** is datatypes, functions and lemmas: need tiers, thought-worker offsets, the heuristic, the key packing, terrain thresholds and the severity labels.
- **Numbers.** Java `float` is modelled as `real`. An `(int)` cast is `Trunc` (toward zero) and `Math.floor` is `Floor`.
- **Needs scale.** Needs use one scale, [0, 1]. The `NeedsComponent` class as shown keeps 0–100, and its constants are divided by 100.
- **Randomness and noise.** Random draws are either parameters constrained to the generator's range or nondeterministic choices within that range. The noise field is an input.

The main results:

- **Path search.** Every path it returns is made of legal 8-connected moves over passable tiles, never corner-cutting, ending at the goal and never revisiting the start. It is empty exactly in the source's failure cases, and at most 2000 nodes are polled.
- **Think tree.**
  - The root runs the first child of strictly highest positive priority.
  - A starving colonist always eats.
  - Haul is never chosen over DoAssignedJob.
  - Some child is always chosen.
- **Behaviour nodes.** Each node's step conserves items: whatever leaves a buffer or a tile arrives in the hands, and whatever leaves the hands arrives at the stockpile. Each node's priority function is related to its step.
- **Work priorities.** The job list is sorted by priority and is a permutation of the active jobs.
- **Bounds.** Need, mood and pollution values stay in range. Logs stay bounded.
- **Research.** It respects prerequisites, and the tree is acyclic: every prerequisite is listed earlier.
- **World generation.** The spawn search returns a free tile on the nearest ring that has one. Beds go to AI-run colonists in registry order.

## Model

| member | source | states |
|---|---|---|
| Ecs.IdCounter.ResetIdCounter | src/main/java/com/haraldsson/syntropy/ecs/Entity.java:41-43 | after a reset the next entity created gets id 0 |
| Ecs.Entity.constructor | src/main/java/com/haraldsson/syntropy/ecs/Entity.java:15-17 | a new entity takes the counter's current id, the counter moves on by one, and it holds no component |
| Ecs.Entity.Get | src/main/java/com/haraldsson/syntropy/ecs/Entity.java:28-31 | a component returned for class k is of class k (absent slot gives None) |
| Ecs.Entity.BareHasNone | src/main/java/com/haraldsson/syntropy/ecs/Entity.java:33-35 | a fresh entity answers has() false for every component class |
| Ecs.Entity.Add | src/main/java/com/haraldsson/syntropy/ecs/Entity.java:23-26 | the component is stored under its own class, replacing any previous one, and every other class's slot is unchanged |
| Ecs.Entity.Remove | src/main/java/com/haraldsson/syntropy/ecs/Entity.java:37-39 | afterwards the class is absent and every other class's slot is unchanged |
| Ecs.WithSelects | src/main/java/com/haraldsson/syntropy/ecs/ECSWorld.java:35-50 | an entity is selected exactly when it is registered and has every requested class; with no classes every entity is selected |
| Ecs.HasAllSingle | src/main/java/com/haraldsson/syntropy/ecs/ECSWorld.java:39-44 | asking for one class asks whether that class's slot is filled |
| Ecs.FirstIndex | src/main/java/com/haraldsson/syntropy/ecs/ECSWorld.java:23-25 | the index found holds x and no earlier index does |
| Ecs.RemoveFirstSpec | src/main/java/com/haraldsson/syntropy/ecs/ECSWorld.java:23-25 | list removal drops exactly the first occurrence, keeping the rest in order; a missing element leaves the list as it was |
| Ecs.ECSWorld.constructor | src/main/java/com/haraldsson/syntropy/ecs/ECSWorld.java:11 | a new registry is empty |
| Ecs.ECSWorld.CreateEntity | src/main/java/com/haraldsson/syntropy/ecs/ECSWorld.java:13-17 | a fresh bare entity with the next id is appended to the registry |
| Ecs.ECSWorld.AddEntity | src/main/java/com/haraldsson/syntropy/ecs/ECSWorld.java:19-21 | the entity is appended at the end |
| Ecs.ECSWorld.RemoveEntity | src/main/java/com/haraldsson/syntropy/ecs/ECSWorld.java:23-25 | the first occurrence of the entity is removed and the rest keep their order; an unregistered entity changes nothing |
| Ecs.ECSWorld.GetEntitiesWith | src/main/java/com/haraldsson/syntropy/ecs/ECSWorld.java:35-50 | the result lists, in registry order, exactly the entities holding every requested class |
| AIComponents.AIComponent.constructor | src/main/java/com/haraldsson/syntropy/ecs/components/AIComponent.java:7-12 | a new record is idle with target (-1, -1), zero timers and the AI enabled |
| AIComponents.AIComponent.SetTask | src/main/java/com/haraldsson/syntropy/ecs/components/AIComponent.java:14-18 | task kind and target become the arguments; timers and the disabled flag are kept |
| AIComponents.AIComponent.ClearTask | src/main/java/com/haraldsson/syntropy/ecs/components/AIComponent.java:20-24 | the record goes back to idle with target (-1, -1), so no point counts as arrived; timers and the flag are kept |
| AIComponents.AIComponent.MoveTowardTarget | src/main/java/com/haraldsson/syntropy/ecs/components/AIComponent.java:33-48 | without a target the position is unchanged; within 0.05 of the target centre the agent lands exactly on it |
| AIComponents.AIComponent.RecoverFromStuck | src/main/java/com/haraldsson/syntropy/ai/nodes/ThinkNode_Haul.java:50-52 | recovery does not switch the AI off |
| AIComponents.AIComponent.ShouldPickNewWanderTarget | src/main/java/com/haraldsson/syntropy/ecs/components/AIComponent.java:50-53 | the timer advances by delta, and a new target is due exactly when the cooldown is not positive, the timer reached it, or the agent is idle |
| AIComponents.AIComponent.ResetWanderCooldown | src/main/java/com/haraldsson/syntropy/ecs/components/AIComponent.java:55-58 | the cooldown becomes the given seconds and the timer restarts at 0; the task is kept |
| AIComponents.ArrivalAtCentre | src/main/java/com/haraldsson/syntropy/ecs/components/AIComponent.java:26-31 | standing on the target tile's centre counts as arrived, and a negative target coordinate never does |
| NeedsComponents.NeedsComponent.constructor | src/main/java/com/haraldsson/syntropy/ecs/components/NeedsComponent.java:13-15 | every need starts full |
| NeedsComponents.NeedsComponent.Eat | src/main/java/com/haraldsson/syntropy/ecs/components/NeedsComponent.java:20-23 | hunger gains the meal amount and mood the mood boost, each capped at full, so neither drops |
| NeedsComponents.NeedsComponent.Rest | src/main/java/com/haraldsson/syntropy/ecs/components/NeedsComponent.java:25-27 | energy gains the rest amount capped at full, so it never drops |
| NeedsComponents.NeedsComponent.RestPartial | src/main/java/com/haraldsson/syntropy/ai/nodes/ThinkNode_Rest.java:62 | energy gains the amount capped at full; a non-negative amount never lowers it |
| NeedsComponents.NeedsComponent.Damage | src/main/java/com/haraldsson/syntropy/ecs/systems/NeedsSystem.java:57 | health loses the amount with a floor of 0, and a positive amount strictly lowers positive health |
| NeedsComponents.NeedsComponent.Heal | src/main/java/com/haraldsson/syntropy/ecs/systems/NeedsSystem.java:62 | health gains the amount capped at full, never dropping for a non-negative amount |
| NeedsComponents.FlagsWithinTiers | src/main/java/com/haraldsson/syntropy/ecs/components/NeedsComponent.java:17-18 | the hungry flag (at most 35%) covers the urgently hungry and starving tiers and implies at least the Hungry tier; the tired flag (at most 25%) covers the collapsed tier and implies at least exhaustion |
| BuildingComponents.BuildingComponent.constructor | src/main/java/com/haraldsson/syntropy/ecs/components/BuildingComponent.java:19-24 | type, interval, cap and product are the arguments; the building starts built with an empty buffer |
| BuildingComponents.BuildingComponent.TakeOutput | src/main/java/com/haraldsson/syntropy/ecs/components/BuildingComponent.java:30-32 | the oldest buffered item is removed and returned, and an empty buffer yields nothing and stays empty |
| BuildingComponents.BuildingComponent.GetOutputCount | src/main/java/com/haraldsson/syntropy/ecs/components/BuildingComponent.java:34-36 | the count is zero exactly when the building has no output |
| AgingComponents.AgingComponent.constructor | src/main/java/com/haraldsson/syntropy/ecs/components/AgingComponent.java:19-22 | age and maximum age are the arguments, with an empty year accumulator |
| AgingComponents.AgingComponent.Tick | src/main/java/com/haraldsson/syntropy/ecs/components/AgingComponent.java:25-33 | the age and the accumulator become Ticked of their old values; a year passes exactly when the accumulated seconds reach 60; then the age rises by one and 60 seconds are consumed, otherwise only the seconds accumulate |
| AgingComponents.Ticked | src/main/java/com/haraldsson/syntropy/ecs/components/AgingComponent.java:25-33 | one tick loses no time: the age in seconds plus the accumulator grows by exactly delta, and the age rises by one exactly when the accumulator reaches 60 seconds, never by more |
| AgingComponents.TicksKeepTime | src/main/java/com/haraldsson/syntropy/ecs/components/AgingComponent.java:25-33 | over any number of ticks shorter than a year the accumulator stays below 60 seconds and the age in seconds plus the accumulator grows by the ticks' total |
| AgingComponents.OldAgeIsReached | src/main/java/com/haraldsson/syntropy/ecs/components/AgingComponent.java:25-41 | ticking with a positive delta eventually brings the age to the maximum age, so an entity that keeps ticking will die of old age |
| AgingComponents.AgingComponent.IsElderly | src/main/java/com/haraldsson/syntropy/ecs/components/AgingComponent.java:35-37 | with a non-negative lifespan, an entity that has reached its lifespan is elderly, and an elderly entity's age is not negative |
| AgingComponents.AgingComponent.ShouldDieOfOldAge | src/main/java/com/haraldsson/syntropy/ecs/components/AgingComponent.java:39-41 | an entity is due to die only once its age has reached the lifespan, which with a non-negative lifespan lies past the elderly threshold of four fifths |
| AgingComponents.DyingImpliesElderly | src/main/java/com/haraldsson/syntropy/ecs/components/AgingComponent.java:35-41 | with a non-negative lifespan, anyone due to die of old age is elderly |
| AgingComponents.NegativeLifespanNotElderly | src/main/java/com/haraldsson/syntropy/ecs/components/AgingComponent.java:35-41 | the non-negative lifespan is needed: with a lifespan of -10, an age of -10 is due to die but not elderly |
| LeaderComponents.LeaderComponent.constructor | src/main/java/com/haraldsson/syntropy/ecs/components/LeaderComponent.java:11-16 | stats start at charisma 5, engineering 5, science 4, combat 3, an efficiency bonus of 0.25 |
| LeaderComponents.LeaderComponent.EfficiencyBonus | src/main/java/com/haraldsson/syntropy/ecs/components/LeaderComponent.java:19-21 | forty times the bonus is charisma plus engineering, so it is non-negative when both stats are |
| LeaderComponents.LeaderComponent.ResearchBonus | src/main/java/com/haraldsson/syntropy/ecs/components/LeaderComponent.java:24-26 | ten times the bonus is science, so it is non-negative when science is |
| LeaderComponents.LeaderComponent.DiplomacyModifier | src/main/java/com/haraldsson/syntropy/ecs/components/LeaderComponent.java:29-31 | ten times the modifier is charisma, so it is non-negative when charisma is |
| LeaderComponents.LeaderComponent.CombatModifier | src/main/java/com/haraldsson/syntropy/ecs/components/LeaderComponent.java:34-36 | ten times the modifier is combat, so it is non-negative when combat is |
| LeaderComponents.BonusesNonNegative | src/main/java/com/haraldsson/syntropy/ecs/components/LeaderComponent.java:19-36 | non-negative stats give four non-negative bonuses |
| LeaderComponents.BonusesMonotone | src/main/java/com/haraldsson/syntropy/ecs/components/LeaderComponent.java:19-36 | a leader with stats at least as high never gives a smaller bonus of any kind |
| MoodComponents.MoodComponent.constructor | src/main/java/com/haraldsson/syntropy/ecs/components/MoodComponent.java:10-12 | mood starts at 50, which is neutral |
| MoodComponents.MoodBandsPartition | src/main/java/com/haraldsson/syntropy/ecs/components/MoodComponent.java:14-17 | every mood is exactly one of happy, neutral and unhappy, and broken implies unhappy |
| SkillsComponents.SkillsComponent.constructor | src/main/java/com/haraldsson/syntropy/ecs/components/SkillsComponent.java:10-13 | a new table has mining 1 and hauling 1 and every other skill at 0 |
| SkillsComponents.SkillsComponent.GetSkill | src/main/java/com/haraldsson/syntropy/ecs/components/SkillsComponent.java:15-17 | a present skill gives its level and an absent one 0 |
| DataComponents.PositionComponent.constructor | src/main/java/com/haraldsson/syntropy/ecs/components/PositionComponent.java:11-14 | the position is the given coordinates |
| DataComponents.InventoryComponent.constructor | src/main/java/com/haraldsson/syntropy/ai/nodes/ThinkNode_EatFood.java:57-61 | a new inventory carries nothing |
| DataComponents.HealthComponent.constructor | src/main/java/com/haraldsson/syntropy/ecs/components/HealthComponent.java:6-8 | a new record is alive, with no death event fired and a zero death timer |
| DataComponents.IdentityComponent.constructor | src/main/java/com/haraldsson/syntropy/ecs/components/IdentityComponent.java:9-12 | name and age are the arguments |
| DataComponents.RoleComponent.constructor | src/main/java/com/haraldsson/syntropy/ecs/components/RoleComponent.java:14-16 | the role is the argument |
| DataComponents.BedComponent.constructor | src/main/java/com/haraldsson/syntropy/ecs/components/BedComponent.java:10-11 | a new bed is unowned (owner -1) and unoccupied |
| DataComponents.SleepQualityComponent.constructor | src/main/java/com/haraldsson/syntropy/ecs/components/SleepQualityComponent.java:7 | no sleep has been recorded |
| WorkSettings.AllRolesListsEachRoleOnce | src/main/java/com/haraldsson/syntropy/ecs/components/WorkSettingsComponent.java:19-21 | the role list names every role exactly once |
| WorkSettings.ActiveInCounts | src/main/java/com/haraldsson/syntropy/ecs/components/WorkSettingsComponent.java:35-36 | filtering keeps each role of positive priority as often as it occurs and drops the rest |
| WorkSettings.InsertByPriorityElements | src/main/java/com/haraldsson/syntropy/ecs/components/WorkSettingsComponent.java:37 | insertion adds exactly the one element to the multiset |
| WorkSettings.InsertByPriorityKeepsOrder | src/main/java/com/haraldsson/syntropy/ecs/components/WorkSettingsComponent.java:37 | inserting into a list sorted by non-increasing priority keeps it sorted and adds exactly the one element |
| WorkSettings.HeadOutranks | src/main/java/com/haraldsson/syntropy/ecs/components/WorkSettingsComponent.java:37 | a head that outranks the inserted role and the rest of a sorted list outranks the whole insertion result |
| WorkSettings.ConsSorted | src/main/java/com/haraldsson/syntropy/ecs/components/WorkSettingsComponent.java:37 | a sorted list stays sorted under a head that outranks all of it |
| WorkSettings.SortByPriorityIsSortedPermutation | src/main/java/com/haraldsson/syntropy/ecs/components/WorkSettingsComponent.java:37 | the sort returns a permutation of its input in non-increasing priority |
| WorkSettings.ActiveJobsSortedSpec | src/main/java/com/haraldsson/syntropy/ecs/components/WorkSettingsComponent.java:34-40 | the active jobs hold every role with a positive priority exactly once and no other role, highest priority first |
| WorkSettings.WorkSettingsComponent.constructor | src/main/java/com/haraldsson/syntropy/ecs/components/WorkSettingsComponent.java:17-22 | every role is present with priority 0 |
| WorkSettings.WorkSettingsComponent.SetPriority | src/main/java/com/haraldsson/syntropy/ecs/components/WorkSettingsComponent.java:24-28 | a priority in 0..4 is stored for the job and nothing else changes; any other value is refused and the table is unchanged |
| NeedTiers.HungerBands | src/main/java/com/haraldsson/syntropy/entities/HungerCategory.java:10-15 | each hunger tier holds exactly for its band: fed above 0.6, hungry above 0.3, urgently hungry above 0.1, starving otherwise |
| NeedTiers.EnergyBands | src/main/java/com/haraldsson/syntropy/entities/EnergyCategory.java:10-15 | each energy tier holds exactly for its band: rested above 0.6, tired above 0.3, exhausted above 0.1, collapsed otherwise |
| NeedTiers.HungerMonotone | src/main/java/com/haraldsson/syntropy/entities/HungerCategory.java:10-15 | more hunger never gives a more severe tier |
| NeedTiers.EnergyMonotone | src/main/java/com/haraldsson/syntropy/entities/EnergyCategory.java:10-15 | more energy never gives a more severe tier |
| NeedTiers.TiersLineUp | src/main/java/com/haraldsson/syntropy/entities/EnergyCategory.java:10-15 | hunger and energy tiers share their breakpoints, so they line up index for index |
| NeedTiers.NeedFromRatioWithinBounds | src/main/java/com/haraldsson/syntropy/entities/NeedLevel.java:19-25 | for a ratio in [0, 1] the band chosen contains it |
| NeedTiers.NeedBandsContiguous | src/main/java/com/haraldsson/syntropy/entities/NeedLevel.java:4-9 | each band's lower bound is the next milder band's upper bound, so the bands tile [0, 1] |
| NeedTiers.NeedUrgency | src/main/java/com/haraldsson/syntropy/entities/NeedLevel.java:27-28 | a critical level is also urgent |
| NeedsSystems.NeedsSelected | src/main/java/com/haraldsson/syntropy/ecs/systems/NeedsSystem.java:28 | every selected entity is registered and holds needs and a health record |
| NeedsSystems.TileUnder | src/main/java/com/haraldsson/syntropy/ecs/systems/NeedsSystem.java:37 | the tile under a position is the one at its coordinates truncated toward zero, and there is none exactly when those lie off the map |
| NeedsSystems.DropOnDeath | src/main/java/com/haraldsson/syntropy/ecs/systems/NeedsSystem.java:32-43 | the drop is marked done; the first time, a body carrying an item with a position empties its hands and the item lands on the tile under it (lost off the map); nothing else changes |
| NeedsSystems.Decayed | src/main/java/com/haraldsson/syntropy/ecs/systems/NeedsSystem.java:52-53 | a decayed need is never negative, is either 0 or the old level minus the decay, and never rises |
| NeedsSystems.Regen | src/main/java/com/haraldsson/syntropy/ecs/systems/NeedsSystem.java:55-63 | a living entity's new health: for a non-negative delta and regeneration a health in [0, 1] stays there, starvation never raises it, no other tier lowers it, and it changes only when Starving or when Fed and Rested |
| NeedsSystems.DecayNeeds | src/main/java/com/haraldsson/syntropy/ecs/systems/NeedsSystem.java:51-63 | hunger and energy decay (never below 0) and mood is kept; health drops by the starvation damage when the new hunger tier is Starving, rises (capped) when the new tiers are Fed and Rested, only then changes, and equals Regen of the new levels |
| NeedsSystems.StepEntity | src/main/java/com/haraldsson/syntropy/ecs/systems/NeedsSystem.java:29-67 | a dead entity's needs are kept, it does its death drop, its timer grows by delta and it is due exactly when the timer reaches 30 seconds; a living one's needs decay, it is never due, and it is dead afterwards exactly when its health is at most 0; in all, the entity is Stepped from its starting vitals and is due exactly when those make it Due |
| NeedsSystems.RemoveFirstWithin | src/main/java/com/haraldsson/syntropy/ecs/systems/NeedsSystem.java:69-71 | removing never adds an entity |
| NeedsSystems.RemoveAllWithin | src/main/java/com/haraldsson/syntropy/ecs/systems/NeedsSystem.java:69-71 | whatever the removals leave was registered before |
| NeedsSystems.RemoveFirstDistinct | src/main/java/com/haraldsson/syntropy/ecs/systems/NeedsSystem.java:69-71 | on a list without duplicates, removing x leaves exactly the other entities, still without duplicates |
| NeedsSystems.RemoveAllSpec | src/main/java/com/haraldsson/syntropy/ecs/systems/NeedsSystem.java:69-71 | on a registry without duplicates, removing the collected entities leaves exactly the others |
| NeedsSystems.CollectedMembers | src/main/java/com/haraldsson/syntropy/ecs/systems/NeedsSystem.java:44-47 | an entity is collected exactly when it is a candidate whose starting vitals were dead with a timer that reaches 30 seconds after this tick's delta |
| NeedsSystems.StepAll | src/main/java/com/haraldsson/syntropy/ecs/systems/NeedsSystem.java:28-68 | every entity collected is a candidate and dead; when no two candidates share a needs or health record, each candidate is Stepped from the vitals it started the tick with and the entities collected are exactly Collected from those vitals, in candidate order |
| NeedsSystems.StepFrom | src/main/java/com/haraldsson/syntropy/ecs/systems/NeedsSystem.java:28-68 | the loop keeps the first i candidates Stepped and the rest at their starting vitals, and the collected list equal to Collected over the first i |
| NeedsSystems.StepOne | src/main/java/com/haraldsson/syntropy/ecs/systems/NeedsSystem.java:44-47 | the collected list grows by at most this candidate and everything collected is dead; with distinct records the pass advances by exactly this candidate: it is Stepped and collected exactly as Collected says, the others left as they were |
| NeedsSystems.RemoveCollected | src/main/java/com/haraldsson/syntropy/ecs/systems/NeedsSystem.java:69-71 | the collected entities are removed from the registry in order, first occurrences first |
| NeedsSystems.Update | src/main/java/com/haraldsson/syntropy/ecs/systems/NeedsSystem.java:26-72 | the registry loses exactly the entities collected, every one of them a selected dead entity with needs and a health record; when no two selected entities share a needs or health record, each is Stepped from its vitals at the start of the tick and the entities removed are exactly those that were dead with a timer reaching 30 seconds, in registry order |
| MoodSystems.HungerTierOffset | src/main/java/com/haraldsson/syntropy/systems/mood/HungerThoughtWorker.java:11-16 | a hunger tier never raises mood |
| MoodSystems.EnergyTierOffset | src/main/java/com/haraldsson/syntropy/systems/mood/SleepThoughtWorker.java:11-16 | an energy tier never raises mood |
| MoodSystems.TierOffsetsMonotone | src/main/java/com/haraldsson/syntropy/systems/mood/HungerThoughtWorker.java:11-16 | a more severe hunger or energy tier never gives a higher offset |
| MoodSystems.HungerThoughtOffset | src/main/java/com/haraldsson/syntropy/systems/mood/HungerThoughtWorker.java:8-17 | no offset without needs; otherwise between -40 and 0 |
| MoodSystems.SleepThoughtOffset | src/main/java/com/haraldsson/syntropy/systems/mood/SleepThoughtWorker.java:8-17 | no offset without needs; otherwise between -30 and 0 |
| MoodSystems.HealthLevelOffset | src/main/java/com/haraldsson/syntropy/systems/mood/HealthThoughtWorker.java:11-14 | the offset is one of 0, -5, -15 and -30 |
| MoodSystems.HealthOffsetMonotone | src/main/java/com/haraldsson/syntropy/systems/mood/HealthThoughtWorker.java:11-14 | more health never gives a lower offset |
| MoodSystems.HealthThoughtOffset | src/main/java/com/haraldsson/syntropy/systems/mood/HealthThoughtWorker.java:8-15 | no offset without needs; otherwise between -30 and 0 |
| MoodSystems.SocialThoughtOffset | src/main/java/com/haraldsson/syntropy/systems/mood/SocialThoughtWorker.java:23-49 | +15 exactly while socialising; +8 exactly while wandering with a position and a living non-leader colonist with a position and identity within range 3; 0 otherwise |
| MoodSystems.ScanSocialOffset | src/main/java/com/haraldsson/syntropy/systems/mood/SocialThoughtWorker.java:36-47 | the early-exit scan computes the social offset |
| MoodSystems.WorkerOffset | src/main/java/com/haraldsson/syntropy/systems/mood/ThoughtWorker.java:11 | every worker but the social one only lowers mood |
| MoodSystems.Target | src/main/java/com/haraldsson/syntropy/ecs/systems/MoodSystem.java:44 | the target lies in [0, 100] and is 50 plus the offset when that is already in range |
| MoodSystems.DefaultTargetBounds | src/main/java/com/haraldsson/syntropy/ecs/systems/MoodSystem.java:38-44 | with the four default workers the offsets sum to between -100 and 15, so the target lies in [0, 65] |
| MoodSystems.Approach | src/main/java/com/haraldsson/syntropy/ecs/systems/MoodSystem.java:46-51 | a step moves toward the target by at most 5 points per second and never passes it |
| MoodSystems.ApproachProperties | src/main/java/com/haraldsson/syntropy/ecs/systems/MoodSystem.java:46-51 | for a non-negative delta a step never overshoots, never moves away from the target, stays put at it, and keeps a mood in [0, 100] when the target is |
| MoodSystems.MoodSystem.constructor | src/main/java/com/haraldsson/syntropy/ecs/systems/MoodSystem.java:23 | the workers are not built yet |
| MoodSystems.MoodSystem.TargetFor | src/main/java/com/haraldsson/syntropy/ecs/systems/MoodSystem.java:38-44 | the target for an entity is 50 plus the default workers' offsets, clamped |
| MoodSystems.MoodSystem.StepMood | src/main/java/com/haraldsson/syntropy/ecs/systems/MoodSystem.java:35-51 | a living entity's mood takes one Approach step toward its target; a dead one's is kept |
| MoodSystems.MoodSystem.Update | src/main/java/com/haraldsson/syntropy/ecs/systems/MoodSystem.java:26-53 | the workers are built once, over the first registry seen, and kept; every mood in [0, 100] stays there for a non-negative delta; when no two candidates (entities with needs, mood and health) share a mood record, each living candidate's mood has taken exactly one Approach step from its value at the start of the tick toward its target read from the social registry, and each dead one's is unchanged |
| MoodSystems.MoodSystem.StepAll | src/main/java/com/haraldsson/syntropy/ecs/systems/MoodSystem.java:31-52 | the per-entity loop of a tick: with distinct mood records, each candidate ends MovedToward its target from its starting mood (one Approach step if living, unchanged if dead), and moods in [0, 100] stay there |
| MoodSystems.MoodSystem.StepCandidates | src/main/java/com/haraldsson/syntropy/ecs/systems/MoodSystem.java:31-52 | stepping the candidates in order changes no target, and after the loop every candidate has moved toward its target exactly once |
| AgingSystems.NatToString | src/main/java/com/haraldsson/syntropy/ecs/systems/AgingSystem.java:57 | the decimal form of a whole age is a non-empty string of digits without a leading zero |
| AgingSystems.DigitRoundTrip | src/main/java/com/haraldsson/syntropy/ecs/systems/AgingSystem.java:57 | each decimal digit reads back as its value |
| AgingSystems.NatToStringRoundTrip | src/main/java/com/haraldsson/syntropy/ecs/systems/AgingSystem.java:57 | reading the decimal form back gives the number written |
| AgingSystems.IntToString | src/main/java/com/haraldsson/syntropy/ecs/systems/AgingSystem.java:57 | a negative whole age is written with a minus sign before the digits of its magnitude |
| AgingSystems.OldAgeMessage | src/main/java/com/haraldsson/syntropy/ecs/systems/AgingSystem.java:57 | the old-age message starts with "Leader " and the name and ends with "!" |
| AgingSystems.FilterEligible | src/main/java/com/haraldsson/syntropy/ecs/systems/AgingSystem.java:79-85 | every candidate kept is a registered, living, non-leader adult and no more are returned than were examined |
| AgingSystems.FilterEligibleComplete | src/main/java/com/haraldsson/syntropy/ecs/systems/AgingSystem.java:79-85 | no eligible entity is skipped |
| AgingSystems.SuccessorCandidatesSpec | src/main/java/com/haraldsson/syntropy/ecs/systems/AgingSystem.java:75-88 | the candidates are exactly the registered living non-leaders aged 16 or more that hold identity, health and age records |
| AgingSystems.Inherit | src/main/java/com/haraldsson/syntropy/ecs/systems/AgingSystem.java:100-103 | an inherited stat keeps 60% of its distance from the level b/0.4 |
| AgingSystems.InheritTowardsFixedPoint | src/main/java/com/haraldsson/syntropy/ecs/systems/AgingSystem.java:99-103 | inheritance moves every stat toward the level where it would stay put, without crossing it |
| AgingSystems.AgingSystem.constructor | src/main/java/com/haraldsson/syntropy/ecs/systems/AgingSystem.java:18-19 | no succession is pending and the message is empty |
| AgingSystems.AgingSystem.TriggerSuccession | src/main/java/com/haraldsson/syntropy/ecs/systems/AgingSystem.java:67-70 | the succession alarm is raised with the given message |
| AgingSystems.DueBodiesMembers | src/main/java/com/haraldsson/syntropy/ecs/systems/AgingSystem.java:26-40 | a body is removed by the despawn pass exactly when it is one of the bodies examined and its starting clock was dead with a timer that reaches 30 seconds after delta |
| AgingSystems.YearsAfter | src/main/java/com/haraldsson/syntropy/ecs/systems/AgingSystem.java:48 | a tick adds at most one year, and adds one exactly when the year accumulator fills |
| AgingSystems.BodiesSelected | src/main/java/com/haraldsson/syntropy/ecs/systems/AgingSystem.java:26-27 | every entity the despawn pass visits is registered and holds a health record |
| AgingSystems.AgersSelected | src/main/java/com/haraldsson/syntropy/ecs/systems/AgingSystem.java:43-47 | every entity the aging pass visits is registered and holds age and health records |
| AgingSystems.AgingSystem.DespawnStep | src/main/java/com/haraldsson/syntropy/ecs/systems/AgingSystem.java:27-40 | a living body is left alone; a dead one's timer grows by delta; it is due exactly when the timer reaches 30 seconds, and then its carried item moves to the tile under it (lost when no tile lies there) |
| AgingSystems.AgingSystem.DespawnOne | src/main/java/com/haraldsson/syntropy/ecs/systems/AgingSystem.java:26-41 | one despawn step: the entity's timer advances as DespawnStep says, it is removed from the registry (and recorded) exactly when its starting clock was due, and only dead entities of the original registry are ever removed |
| AgingSystems.AgingSystem.RemoveDead | src/main/java/com/haraldsson/syntropy/ecs/systems/AgingSystem.java:39 | the registry loses the first occurrence of the dead entity, which is recorded as removed |
| AgingSystems.AgingSystem.DespawnNext | src/main/java/com/haraldsson/syntropy/ecs/systems/AgingSystem.java:26-41 | the despawn pass advances by exactly one body: when no two bodies share a health record, its timer advances and it joins the removed list exactly when it was due |
| AgingSystems.AgingSystem.DespawnFrom | src/main/java/com/haraldsson/syntropy/ecs/systems/AgingSystem.java:26-41 | the despawn loop: only dead registered entities are removed; when no two bodies share a health record, every body has its timer advanced and the removed list is exactly the due bodies in order |
| AgingSystems.AgingSystem.DespawnAll | src/main/java/com/haraldsson/syntropy/ecs/systems/AgingSystem.java:26-41 | every entity record, age record and death flag is left untouched and only dead registered entities are removed; when no two bodies share a health record, the removed list is exactly the due bodies in order and every timer has advanced |
| AgingSystems.AgingSystem.Despawn | src/main/java/com/haraldsson/syntropy/ecs/systems/AgingSystem.java:25-41 | the registry loses exactly the entities removed, all of them dead and previously registered; the bodies visited are the registered entities with a health record and their starting clocks; when no two bodies share a health record, the removed list is exactly the bodies whose starting clock was due, in registry order, and every dead body's timer grew by delta; no entity record, age record or death flag changes |
| AgingSystems.AgingSystem.AgeStep | src/main/java/com/haraldsson/syntropy/ecs/systems/AgingSystem.java:44-59 | a dead entity is skipped; a living one ages by a year exactly when its accumulator fills and dies exactly when its new age reaches its maximum, raising the alarm with the old-age message when it was the leader |
| AgingSystems.AgingSystem.AgeOne | src/main/java/com/haraldsson/syntropy/ecs/systems/AgingSystem.java:44-59 | the aging pass advances by exactly one entity, keeping the alarm and message bookkeeping of the entities before it; when no two agers share records, the message still names the last leader to die of old age so far |
| AgingSystems.AgingSystem.AgeFrom | src/main/java/com/haraldsson/syntropy/ecs/systems/AgingSystem.java:43-60 | the aging loop: every flagged ager ends dead and the alarm is raised exactly when a flagged ager is the leader; when no two agers share records, each has aged from its starting state, its flag says whether it died of old age, and the message is the old-age message of the last leader who died |
| AgingSystems.AgingSystem.AgeAll | src/main/java/com/haraldsson/syntropy/ecs/systems/AgingSystem.java:43-60 | when no two agers share records, each one ages from its state before the pass, its flag is set exactly when it died of old age, and the message names the last leader who died with that leader's whole age; every flagged one ends dead, and the alarm is raised exactly when one of them is the leader |
| AgingSystems.AgingSystem.AgeRegistry | src/main/java/com/haraldsson/syntropy/ecs/systems/AgingSystem.java:43-60 | the aging pass runs over exactly the registered entities with age and health records, in order; each ages from its recorded state before the tick, the dead stay dead, the alarm follows the leaders who died, and with distinct records the message names the last of them |
| AgingSystems.AgingSystem.AgeRemaining | src/main/java/com/haraldsson/syntropy/ecs/systems/AgingSystem.java:22-60 | the alarm is lowered first; then the aging pass runs over the entities the despawn pass left, the removals stay as they were, no body's health record or death timer changes, the alarm is up exactly when a leader died of old age, and with distinct records the message names the last of them |
| AgingSystems.AgingSystem.Update | src/main/java/com/haraldsson/syntropy/ecs/systems/AgingSystem.java:22-61 | after a tick only dead entities have been removed; when no two bodies share a health record, the removed list is exactly the bodies whose clock at the start of the tick was due (DueBodies), in registry order, and every body's timer is TimerAfter its starting clock; each remaining ager has aged from its state at the start of the tick and died exactly when its new age reached its maximum; the alarm is up exactly when a leader died of old age in this tick, the message is kept otherwise, and when no two agers share records it is the old-age message of the last leader who died (LeaderMessage) |
| AgingSystems.LastLeaderDeath | src/main/java/com/haraldsson/syntropy/ecs/systems/AgingSystem.java:54-57 | the index found is one of the agers examined |
| AgingSystems.LastLeaderDeathIsLast | src/main/java/com/haraldsson/syntropy/ecs/systems/AgingSystem.java:43-60 | no index is found exactly when no flagged ager is a leader; an index found is a flagged leader with no flagged leader after it |
| AgingSystems.LastLeaderNext | src/main/java/com/haraldsson/syntropy/ecs/systems/AgingSystem.java:43-60 | one more aging step moves the last leader death to this entity exactly when it died and is a leader, and leaves it as it was otherwise |
| AgingSystems.DespawnOutcome | src/main/java/com/haraldsson/syntropy/ecs/systems/AgingSystem.java:25-40 | a despawn pass that has run over every body removed exactly the due bodies and advanced every timer |
| AgingSystems.AgeStatesKept | src/main/java/com/haraldsson/syntropy/ecs/systems/AgingSystem.java:25-40 | an entity whose record, age record and death flag are untouched keeps its age state, so the despawn pass leaves every age state as it was |
| AgingSystems.AgingSystem.GetSuccessorCandidates | src/main/java/com/haraldsson/syntropy/ecs/systems/AgingSystem.java:75-88 | the list returned is the successor-candidate list of the current registry |
| AgingSystems.SuccessorRecord | src/main/java/com/haraldsson/syntropy/ecs/systems/AgingSystem.java:95-104 | the new leader record inherits 60% of each old stat plus 2, 2, 1 and 1, or takes the defaults 5, 5, 4, 3 without an old record |
| AgingSystems.PromoteToLeader | src/main/java/com/haraldsson/syntropy/ecs/systems/AgingSystem.java:93-115 | the successor gets a fresh leader record with the inherited or default stats, the old leader loses its record, every other slot is kept, and the successor's AI is disabled with its task cleared |
| BuildingProduction.WithKeepsDistinctBuildings | src/main/java/com/haraldsson/syntropy/ecs/systems/BuildingProductionSystem.java:22 | selecting building entities keeps their building components unshared |
| BuildingProduction.SelectedBuildings | src/main/java/com/haraldsson/syntropy/ecs/systems/BuildingProductionSystem.java:22-23 | the components of the selected building entities are exactly the registry's building components, unshared when the registry's are |
| BuildingProduction.BuildingProductionSystem.constructor | src/main/java/com/haraldsson/syntropy/ecs/systems/BuildingProductionSystem.java:14 | a new system has no event bus |
| BuildingProduction.BuildingProductionSystem.SetEvents | src/main/java/com/haraldsson/syntropy/ecs/systems/BuildingProductionSystem.java:16-18 | the event bus is the one given |
| BuildingProduction.BuildingProductionSystem.Tick | src/main/java/com/haraldsson/syntropy/ecs/systems/BuildingProductionSystem.java:23-34 | an unbuilt building is untouched; a built one either produces one item of its kind and restarts its timer (exactly when the timer reaches the interval and the buffer has room) or only advances its timer; a buffer within its cap stays within it; a production fires RESOURCE_PRODUCED with the item kind's name to every handler and logs "PRODUCED: <kind> from <building>" once when a bus is set, and the bus is untouched otherwise |
| BuildingProduction.BuildingProductionSystem.TickNext | src/main/java/com/haraldsson/syntropy/ecs/systems/BuildingProductionSystem.java:22-35 | one step of the pass: the building ticks as Tick says, the states found so far grow by its state before the step, and the bus has seen exactly the events and messages ProductionTrace and ProductionLog give for the longer list |
| BuildingProduction.BuildingProductionSystem.TickAll | src/main/java/com/haraldsson/syntropy/ecs/systems/BuildingProductionSystem.java:22-35 | every component listed keeps its built flag, unbuilt ones are untouched, and caps hold; when a bus is set its calls and log grow by exactly ProductionTrace and ProductionLog of the states the pass found the buildings in, in list order; with no component listed twice those are the states before the pass and each building has ticked exactly once |
| BuildingProduction.BuildingProductionSystem.CollectBuildings | src/main/java/com/haraldsson/syntropy/ecs/systems/BuildingProductionSystem.java:22-23 | the list is the registry's building components in registry order (BuildingList), unshared when the registry's are |
| BuildingProduction.BuildingProductionSystem.Update | src/main/java/com/haraldsson/syntropy/ecs/systems/BuildingProductionSystem.java:21-36 | over the registry's buildings in registry order: unbuilt ones untouched, no buffer above its cap, handlers kept; the bus, when set, gets one RESOURCE_PRODUCED per handler and one log message for each building that produced, in registry order, and nothing for the others; when no building record is shared, whether each produced is judged from its state at the start of the tick and each has ticked exactly once |
| BuildingProduction.BuildingListSelected | src/main/java/com/haraldsson/syntropy/ecs/systems/BuildingProductionSystem.java:22-23 | the building components in registry order are those of the entities selected for the building class, position by position |
| BuildingProduction.ProductionNext | src/main/java/com/haraldsson/syntropy/ecs/systems/BuildingProductionSystem.java:25-33 | one more building adds its RESOURCE_PRODUCED calls and its log message to the pass exactly when it produces, and nothing otherwise |
| BuildingProduction.ProductionTraceShape | src/main/java/com/haraldsson/syntropy/ecs/systems/BuildingProductionSystem.java:25-33 | a pass fires one RESOURCE_PRODUCED per handler for each producing building, every call carrying that building's item kind and no other event; none produce exactly when the count is zero, and then nothing is fired or logged |
| BuildingProduction.ProductionLogBounded | src/main/java/com/haraldsson/syntropy/ecs/systems/BuildingProductionSystem.java:30-31 | the production messages keep the event log within its 20-entry cap |
| BuildingProduction.ProducingCount | src/main/java/com/haraldsson/syntropy/ecs/systems/BuildingProductionSystem.java:25 | no more buildings produce than were visited |
| GameEventBus.Calls | src/main/java/com/haraldsson/syntropy/core/GameEvents.java:26-28 | one invocation per handler, in registration order, each with the event's kind and payload |
| GameEventBus.Appended | src/main/java/com/haraldsson/syntropy/core/GameEvents.java:38-41 | the new message is the newest entry, the log never grows beyond 20, and only the oldest entry is dropped when it would |
| GameEventBus.GameEvents.constructor | src/main/java/com/haraldsson/syntropy/core/GameEvents.java:15-16 | no handlers, an empty log and no invocations |
| GameEventBus.GameEvents.On | src/main/java/com/haraldsson/syntropy/core/GameEvents.java:19-21 | the handler is appended to its kind's list; other kinds keep theirs |
| GameEventBus.GameEvents.Fire | src/main/java/com/haraldsson/syntropy/core/GameEvents.java:23-30 | the kind's handlers are invoked once each in registration order; with none registered nothing happens |
| GameEventBus.GameEvents.Log | src/main/java/com/haraldsson/syntropy/core/GameEvents.java:38-41 | the message is appended and the log keeps at most the 20 newest entries |
| GameEventBus.GameEvents.FireAndLog | src/main/java/com/haraldsson/syntropy/core/GameEvents.java:33-36 | the handlers are invoked, then the message is logged |
| GameEventBus.GameEvents.ClearListeners | src/main/java/com/haraldsson/syntropy/core/GameEvents.java:48-50 | every kind is left without handlers; the log is kept |
| EventSystems.EventFor | src/main/java/com/haraldsson/syntropy/systems/EventSystem.java:45-52 | the roll selects the event whose roll it is; an exhaustion strikes the victim drawn |
| EventSystems.EveryEventHasOneRoll | src/main/java/com/haraldsson/syntropy/systems/EventSystem.java:45-52 | every event is selected by exactly one roll in 0..4, so the five are equally likely |
| EventSystems.Interval | src/main/java/com/haraldsson/syntropy/systems/EventSystem.java:106-108 | the time to the next event lies in [30, 60) and is the uniform draw rescaled, so the draw can be read back from it |
| EventSystems.ExhaustionMessage | src/main/java/com/haraldsson/syntropy/systems/EventSystem.java:94 | the exhaustion message starts with "EVENT: " and the colonist's name |
| EventSystems.Living | src/main/java/com/haraldsson/syntropy/systems/EventSystem.java:40-42 | only members of the list whose health record says they are alive are kept, in order |
| EventSystems.LivingComplete | src/main/java/com/haraldsson/syntropy/systems/EventSystem.java:40-42 | no living member is skipped |
| EventSystems.LivingColonistsSpec | src/main/java/com/haraldsson/syntropy/systems/EventSystem.java:39-42 | the colonists struck are exactly the registered entities with needs and a health record that is not dead |
| EventSystems.EventSystem.constructor | src/main/java/com/haraldsson/syntropy/systems/EventSystem.java:25-27 | the timer starts at 0 with an empty log and the first event due 30 to 60 seconds ahead |
| EventSystems.EventSystem.RandomInterval | src/main/java/com/haraldsson/syntropy/systems/EventSystem.java:106-108 | a drawn interval lies in [30, 60) |
| EventSystems.EventSystem.Log | src/main/java/com/haraldsson/syntropy/systems/EventSystem.java:97-100 | the message is appended and the log keeps at most the five newest entries |
| EventSystems.EventSystem.FoodBlessingEvent | src/main/java/com/haraldsson/syntropy/systems/EventSystem.java:55-62 | three food are added to the stockpile tile when there is one, and the blessing message is logged |
| EventSystems.EventSystem.FoodSpoilageEvent | src/main/java/com/haraldsson/syntropy/systems/EventSystem.java:81-86 | the stockpile tile loses its first food, if any, and the spoilage message is logged |
| EventSystems.EventSystem.ScorchAll | src/main/java/com/haraldsson/syntropy/systems/EventSystem.java:65-68 | every living colonist loses 0.15 hunger, never going below 0, and nothing else of their needs changes |
| EventSystems.EventSystem.HeatWaveEvent | src/main/java/com/haraldsson/syntropy/systems/EventSystem.java:64-70 | every living colonist loses hunger as above, and the heat-wave message is logged |
| EventSystems.EventSystem.RefreshAll | src/main/java/com/haraldsson/syntropy/systems/EventSystem.java:74-77 | every living colonist gains 0.1 energy, never going above 1, and nothing else of their needs changes |
| EventSystems.EventSystem.MoralBoostEvent | src/main/java/com/haraldsson/syntropy/systems/EventSystem.java:72-79 | every living colonist gains energy as above, and the sunset message is logged |
| EventSystems.EventSystem.ExhaustionEvent | src/main/java/com/haraldsson/syntropy/systems/EventSystem.java:88-95 | one colonist drawn from the living loses 0.25 energy (never below 0), no other needs record changes, and its named message is logged |
| EventSystems.EventSystem.Strike | src/main/java/com/haraldsson/syntropy/systems/EventSystem.java:45-52 | the event the roll selects is the one returned, and it has Struck: a blessing adds three food to the stockpile, spoilage removes its first food, a heat wave drains every living colonist's hunger, a sunset refreshes their energy, exhaustion drains one drawn colonist's energy, each logging its message with the log kept within five entries |
| EventSystems.EventSystem.TriggerRandomEvent | src/main/java/com/haraldsson/syntropy/systems/EventSystem.java:38-53 | the living colonists are gathered in registry order; with none nothing happens and nothing is logged; otherwise exactly one event fires and has Struck them as Strike states |
| EventSystems.EventSystem.Update | src/main/java/com/haraldsson/syntropy/systems/EventSystem.java:29-36 | before the due time only the timer advances and nothing fires; at it the timer restarts from 0, a new interval in [30, 60) is drawn and an event fires exactly when some colonist was alive, with nothing logged or changed when none was; the log never exceeds five entries |
| AITaskSystems.EligibleFlags | src/main/java/com/haraldsson/syntropy/ecs/systems/AITaskSystem.java:29-33 | one flag per candidate, set exactly when the candidate is not the leader, alive and with its AI enabled |
| AITaskSystems.FootprintKept | src/main/java/com/haraldsson/syntropy/ecs/systems/AITaskSystem.java:24-26 | while no entity record changes, the component sets of the registry are the ones it had |
| AITaskSystems.AITaskSystem.constructor | src/main/java/com/haraldsson/syntropy/ecs/systems/AITaskSystem.java:18-20 | the system owns a fresh colonist tree with the six default children |
| AITaskSystems.AITaskSystem.RunAgent | src/main/java/com/haraldsson/syntropy/ecs/systems/AITaskSystem.java:28-35 | the tree runs for a candidate exactly when it is eligible; then the child picked is Best of the tree's priorities for it and the agent was Stepped by that child; no entity's eligibility, record, AI switch or health changes |
| AITaskSystems.AITaskSystem.Drive | src/main/java/com/haraldsson/syntropy/ecs/systems/AITaskSystem.java:35 | the child picked is Best of the tree's priorities and the agent was Stepped by it; every entity record, AI switch and health record of the registry is as it was |
| AITaskSystems.AITaskSystem.Update | src/main/java/com/haraldsson/syntropy/ecs/systems/AITaskSystem.java:23-37 | the tree runs, in registry order, for exactly the candidates with task, needs, position, inventory and health records that were eligible at the start of the tick, and no AI switch changes |
| ThinkTree.PriorityOf | src/main/java/com/haraldsson/syntropy/ai/ThinkTreeRoot.java:33 | every node's priority lies in 0..100, and wandering always bids 1 |
| ThinkTree.Priorities | src/main/java/com/haraldsson/syntropy/ai/ThinkTreeRoot.java:32-38 | one priority per child, in child order |
| ThinkTree.Best | src/main/java/com/haraldsson/syntropy/ai/ThinkTreeRoot.java:29-38 | no child is picked exactly when no priority is positive; otherwise the pick is the first child with the highest priority |
| ThinkTree.RunNode | src/main/java/com/haraldsson/syntropy/ai/ThinkTreeRoot.java:41 | the agent was Stepped by the node: the node's own step predicate (eating, resting, job, haul, socialising or wandering outcome) holds over the choices recorded in the trace, and the agent stays under the tree's control |
| ThinkTree.ThinkTreeRoot.constructor | src/main/java/com/haraldsson/syntropy/ai/ThinkTreeRoot.java:15 | a new root has no children |
| ThinkTree.ThinkTreeRoot.GetPriority | src/main/java/com/haraldsson/syntropy/ai/ThinkTreeRoot.java:22-25 | the root's own priority is 1: positive, so the root is always valid, and within the 0..100 range of its children |
| ThinkTree.ThinkTreeRoot.AddChild | src/main/java/com/haraldsson/syntropy/ai/ThinkTreeRoot.java:17-20 | the child is appended and the root itself is returned for chaining |
| ThinkTree.ThinkTreeRoot.Execute | src/main/java/com/haraldsson/syntropy/ai/ThinkTreeRoot.java:28-44 | the child run is Best of the children's priorities and the agent was Stepped by it; with none, the step declines and changes nothing |
| ThinkTree.CreateColonistTree | src/main/java/com/haraldsson/syntropy/ai/ThinkTreeFactory.java:20-28 | the colonist tree holds eat, rest, assigned job, haul, socialise and wander, in that order |
| ThinkTree.ColonistTreeAlwaysPicks | src/main/java/com/haraldsson/syntropy/ai/ThinkTreeFactory.java:18 | the colonist tree always picks some child, since wandering always bids 1 |
| ThinkTree.StarvingAgentEats | src/main/java/com/haraldsson/syntropy/ai/ThinkTreeFactory.java:13 | a starving agent that is not hauling always eats |
| ThinkTree.CollapsedAgentRests | src/main/java/com/haraldsson/syntropy/ai/ThinkTreeFactory.java:14 | a collapsed agent that is not about to eat at 100 rests |
| ThinkTree.HaulNeverPicked | src/main/java/com/haraldsson/syntropy/ai/ThinkTreeFactory.java:15-16 | the haul node is never picked: whenever it would bid 50, the assigned-job node before it bids 50 too |
| RestNode.RestPriority | src/main/java/com/haraldsson/syntropy/ai/nodes/ThinkNode_Rest.java:19-30 | 0 without needs; 90 while resting; otherwise 95 when collapsed, 75 when exhausted, 20 when tired and 0 when rested |
| RestNode.RestPriorityMonotone | src/main/java/com/haraldsson/syntropy/ai/nodes/ThinkNode_Rest.java:24-29 | a more tired agent that is not resting never gets a lower resting priority |
| RestNode.RestGain | src/main/java/com/haraldsson/syntropy/ai/nodes/ThinkNode_Rest.java:56-64 | a rest always restores some energy, the full rest amount exactly in an owned bed and half of it on the ground |
| RestNode.FinishRest | src/main/java/com/haraldsson/syntropy/ai/nodes/ThinkNode_Rest.java:44-67 | the agent sleeps in a bed exactly when some bed of the registry has its id as owner; energy gains the matching amount capped at full, the sleep quality is recorded and the task cleared |
| RestNode.ExecuteRest | src/main/java/com/haraldsson/syntropy/ai/nodes/ThinkNode_Rest.java:33-70 | RestStepped: without needs, a task record or a position it declines and touches nothing; a rest not under way starts on the current tile with a 3-second cooldown; once the timer reaches the cooldown the rest finishes (energy regained, more in an owned bed, sleep quality recorded, task cleared) and the step declines, else resting uses the step |
| SocializeNode.SocializePriority | src/main/java/com/haraldsson/syntropy/ai/nodes/ThinkNode_Socialize.java:21-36 | 10 exactly when the agent has needs, is neither hungry nor tired, and the registry holds a living non-leader partner other than itself; 0 otherwise |
| SocializeNode.GetPriority | src/main/java/com/haraldsson/syntropy/ai/nodes/ThinkNode_Socialize.java:21-36 | the early-exit scan computes the socialising priority |
| SocializeNode.ExecuteSocialize | src/main/java/com/haraldsson/syntropy/ai/nodes/ThinkNode_Socialize.java:39-80 | SocializeStepped: without a task record, a position or a partner it declines and touches nothing; otherwise it picks the nearest partner (first on ties) and within range 2 clears the task, else sets a WANDER task to the partner's truncated tile and moves; a positive priority always leads to a handled step |
| WanderNode.ScaledWithin | src/main/java/com/haraldsson/syntropy/ai/nodes/ThinkNode_Wander.java:28-29 | a draw in [0, 1) times a positive side length stays within [0, length) |
| WanderNode.WanderCoordinate | src/main/java/com/haraldsson/syntropy/ai/nodes/ThinkNode_Wander.java:28-29 | a drawn coordinate lies on the map |
| WanderNode.WanderCooldown | src/main/java/com/haraldsson/syntropy/ai/nodes/ThinkNode_Wander.java:31 | a drawn cooldown lies in [2, 4) |
| WanderNode.ExecuteWander | src/main/java/com/haraldsson/syntropy/ai/nodes/ThinkNode_Wander.java:22-38 | WanderStepped: the step acts exactly when the agent has a task record and a position; then, when the cooldown is over or it is idle, it takes a WANDER task to a drawn tile of the map with a fresh cooldown, moves, and clears the task on arrival |
| NodeSteps.DeliverCarried | src/main/java/com/haraldsson/syntropy/ai/nodes/ThinkNode_DoAssignedJob.java:96-106 | the agent heads for the stockpile; on arrival the carried item is added there, raising its kind's count by one, the hands are empty and the task cleared; otherwise stockpile and hands are as before |
| NodeSteps.CollectOutput | src/main/java/com/haraldsson/syntropy/ai/nodes/ThinkNode_DoAssignedJob.java:113-119 | the agent heads for the building's tile; on arrival its oldest output moves into the hands and the task is cleared; otherwise buffer and hands are as before |
| NodeQueries.SelectedFrom | src/main/java/com/haraldsson/syntropy/ecs/ECSWorld.java:35-50 | every entity a registry selection holds is registered |
| NodeQueries.PlacedSelected | src/main/java/com/haraldsson/syntropy/ai/nodes/ThinkNode_DoAssignedJob.java:109 | a placed building selected from the registry holds a building and a position |
| NodeQueries.PersonSelected | src/main/java/com/haraldsson/syntropy/ai/nodes/ThinkNode_Socialize.java:28 | a person selected from the registry holds a position, a health and an identity record |
| NodeQueries.FirstOffering | src/main/java/com/haraldsson/syntropy/ai/nodes/ThinkNode_DoAssignedJob.java:145-147 | no index exactly when no entity offers output; otherwise the index of the first one that does |
| NodeQueries.ScanAnyOffers | src/main/java/com/haraldsson/syntropy/ai/nodes/ThinkNode_Haul.java:30-33 | the early-exit scan finds output exactly when some building offers it |
| NodeQueries.ScanFirstOffering | src/main/java/com/haraldsson/syntropy/ai/nodes/ThinkNode_DoAssignedJob.java:145-147 | the early-exit scan returns the first building offering output |
| NodeQueries.SqDist | src/main/java/com/haraldsson/syntropy/ai/nodes/ThinkNode_Haul.java:72-74 | a squared distance is never negative |
| NodeQueries.ScanNearestOffering | src/main/java/com/haraldsson/syntropy/ai/nodes/ThinkNode_Haul.java:66-79 | no result exactly when no building has output; otherwise the one nearest by squared distance, with every earlier one strictly farther |
| NodeQueries.ScanAnyPartner | src/main/java/com/haraldsson/syntropy/ai/nodes/ThinkNode_Socialize.java:28-34 | the early-exit scan finds a partner exactly when the registry holds a living non-leader other than the agent |
| NodeQueries.ScanNearestPartner | src/main/java/com/haraldsson/syntropy/ai/nodes/ThinkNode_Socialize.java:45-60 | no result exactly when there is no partner; otherwise the nearest one, with every earlier one strictly farther |
| EatFoodNode.EatFoodPriority | src/main/java/com/haraldsson/syntropy/ai/nodes/ThinkNode_EatFood.java:22-33 | 0 without needs; 80 while hauling; otherwise 100 when starving, 80 when urgently hungry, 50 when hungry and 0 when fed |
| EatFoodNode.EatFoodPriorityMonotone | src/main/java/com/haraldsson/syntropy/ai/nodes/ThinkNode_EatFood.java:27-32 | a hungrier agent that is not hauling never gets a lower eating priority |
| EatFoodNode.EatAtTile | src/main/java/com/haraldsson/syntropy/ai/nodes/ThinkNode_EatFood.java:46-52 | the agent heads for the food tile; on arrival one food is gone from it, a meal is eaten and the task cleared; otherwise the tile and the needs are as before |
| EatFoodNode.DeliverAndEat | src/main/java/com/haraldsson/syntropy/ai/nodes/ThinkNode_EatFood.java:65-73 | the agent hauls toward the stockpile; on arrival the food is dropped there, the earliest food taken back and eaten, and the task cleared; otherwise the stockpile, hands and needs are as before |
| EatFoodNode.DropAndEat | src/main/java/com/haraldsson/syntropy/ai/nodes/ThinkNode_EatFood.java:68-71 | dropping the carried food and taking the earliest food back always succeeds: every count on the stockpile ends as it was, the hands are empty and a meal is eaten |
| EatFoodNode.CollectFood | src/main/java/com/haraldsson/syntropy/ai/nodes/ThinkNode_EatFood.java:83-93 | the agent heads for the grower; on arrival its oldest output is carried with the task HAULING at the grower's tile, or the task is cleared without an inventory; otherwise grower and hands are as before |
| EatFoodNode.FetchFromGrower | src/main/java/com/haraldsson/syntropy/ai/nodes/ThinkNode_EatFood.java:77-98 | the agent fetches from the first placed building whose type names a food grower (any letter case, with or without the underscore) that has output; with none the step declines and touches nothing |
| EatFoodNode.EatCarried | src/main/java/com/haraldsson/syntropy/ai/nodes/ThinkNode_EatFood.java:57-75 | carried food with no stockpile is dropped, the task cleared and the step declines; otherwise it is carried to the stockpile and eaten there on arrival |
| EatFoodNode.EatWithoutGroundFood | src/main/java/com/haraldsson/syntropy/ai/nodes/ThinkNode_EatFood.java:56-98 | carried food is eaten at the stockpile or dropped without one; otherwise the first food grower with output is fetched from |
| EatFoodNode.EatWhenAble | src/main/java/com/haraldsson/syntropy/ai/nodes/ThinkNode_EatFood.java:43-98 | the tile used is World.NearestFoodTile from the agent's position; with one the agent walks there and eats on arrival, with none it eats carried food or fetches from a food grower |
| EatFoodNode.ExecuteEatFood | src/main/java/com/haraldsson/syntropy/ai/nodes/ThinkNode_EatFood.java:36-99 | EatStepped: without needs, a task record or a position the step declines and touches nothing; otherwise it eats at the nearest food tile when there is one, then carried food, then food fetched from the first food grower with output |
| HaulNode.HaulPriority | src/main/java/com/haraldsson/syntropy/ai/nodes/ThinkNode_Haul.java:21-35 | 0 without work settings or with the hauler job off; otherwise 50 exactly while carrying or when some building of the registry has output |
| HaulNode.GetPriority | src/main/java/com/haraldsson/syntropy/ai/nodes/ThinkNode_Haul.java:21-35 | the early-exit scan computes the haul priority |
| HaulNode.HaulDeliver | src/main/java/com/haraldsson/syntropy/ai/nodes/ThinkNode_Haul.java:45-61 | the stuck timer grows by delta; past five seconds the agent goes to stuck recovery and the step declines with the item in hand; otherwise it moves and on arrival drops the item on the stockpile and resets the timer |
| HaulNode.HaulFetch | src/main/java/com/haraldsson/syntropy/ai/nodes/ThinkNode_Haul.java:81-96 | the stuck timer grows; past the timeout the step declines leaving the building and hands as they were; otherwise on arrival the building's oldest output is carried, the task cleared and the timer reset |
| HaulNode.HaulFromNearest | src/main/java/com/haraldsson/syntropy/ai/nodes/ThinkNode_Haul.java:66-96 | the agent fetches from the placed building with output nearest by squared distance, the first in registry order on ties; with none the step declines and touches nothing |
| HaulNode.ExecuteHaul | src/main/java/com/haraldsson/syntropy/ai/nodes/ThinkNode_Haul.java:38-97 | HaulStepped: without a task record, position or inventory it declines and touches nothing; a carrying agent delivers to the stockpile (declining with none), an empty-handed one fetches the oldest item from the nearest building with output; either declines, touching nothing more, once stuck past the timeout |
| DoAssignedJobNode.JobFilter | src/main/java/com/haraldsson/syntropy/ai/nodes/ThinkNode_DoAssignedJob.java:81-88 | exactly the hauler, miner and farmer jobs collect from buildings |
| DoAssignedJobNode.PickupTask | src/main/java/com/haraldsson/syntropy/ai/nodes/ThinkNode_DoAssignedJob.java:149 | a pickup heads for a food grower exactly for farmers and for a miner otherwise |
| DoAssignedJobNode.DoAssignedJobPriority | src/main/java/com/haraldsson/syntropy/ai/nodes/ThinkNode_DoAssignedJob.java:24-37 | the priority is 50 exactly when the agent has work settings and some active job has work, and 0 otherwise |
| DoAssignedJobNode.DoAssignedJobPriorityPositive | src/main/java/com/haraldsson/syntropy/ai/nodes/ThinkNode_DoAssignedJob.java:24-37 | the priority is positive exactly when some role of positive priority has work |
| DoAssignedJobNode.HasWorkNow | src/main/java/com/haraldsson/syntropy/ai/nodes/ThinkNode_DoAssignedJob.java:53-79 | the early-exit scans decide whether the job has work: a hauler while carrying or when any building has output, miners and farmers when a building of their type has output, other jobs never |
| DoAssignedJobNode.GetPriority | src/main/java/com/haraldsson/syntropy/ai/nodes/ThinkNode_DoAssignedJob.java:24-37 | the scan over the active jobs computes the job priority |
| DoAssignedJobNode.ExecuteJob | src/main/java/com/haraldsson/syntropy/ai/nodes/ThinkNode_DoAssignedJob.java:81-160 | a job step acts exactly when its role collects, the agent holds its components and either carries with a stockpile present or finds a placed building of its filter with output; a step that declines changes nothing |
| DoAssignedJobNode.DeliverJob | src/main/java/com/haraldsson/syntropy/ai/nodes/ThinkNode_DoAssignedJob.java:132-143 | with a stockpile the agent heads there and drops its item on arrival; without one the step declines and changes nothing |
| DoAssignedJobNode.CollectJob | src/main/java/com/haraldsson/syntropy/ai/nodes/ThinkNode_DoAssignedJob.java:145-159 | the agent heads for the first placed building its filter accepts that has output, and takes one item on arrival; with none the step declines and changes nothing |
| DoAssignedJobNode.ExecuteDoAssignedJob | src/main/java/com/haraldsson/syntropy/ai/nodes/ThinkNode_DoAssignedJob.java:40-51 | JobStepped: without work settings it declines; otherwise it acts exactly when some active job can, and then the first such job in priority order delivers the carried item to the stockpile or collects from the first building offering that job's output; with none acting nothing changes |
| Pathfinding.DirsAreMoves | src/main/java/com/haraldsson/syntropy/world/Pathfinder.java:37 | each of the eight search directions moves to a neighbouring tile |
| Pathfinding.Heuristic | src/main/java/com/haraldsson/syntropy/world/Pathfinder.java:73-75 | the estimate is a non-negative multiple of 10 and is zero exactly at the goal |
| Pathfinding.HeuristicConsistent | src/main/java/com/haraldsson/syntropy/world/Pathfinder.java:73-75 | one move never changes the estimate by more than that move's cost (10 cardinal, 14 diagonal), so the estimate is consistent |
| Pathfinding.Key | src/main/java/com/haraldsson/syntropy/world/Pathfinder.java:77-79 | the key of two 32-bit coordinates fits in a signed 64-bit long |
| Pathfinding.KeyInjective | src/main/java/com/haraldsson/syntropy/world/Pathfinder.java:77-79 | two 32-bit coordinate pairs get the same key exactly when they are equal |
| Pathfinding.ParentChain | src/main/java/com/haraldsson/syntropy/world/Pathfinder.java:81-91 | the chain is empty at the start; otherwise it ends at the given position, never contains the start, links each waypoint to its recorded parent and uses only positions that have one |
| Pathfinding.ParentChainComplete | src/main/java/com/haraldsson/syntropy/world/Pathfinder.java:81-91 | when every recorded parent is the start or has a parent itself, the walk back from any recorded position reaches the start |
| Pathfinding.ReconstructPath | src/main/java/com/haraldsson/syntropy/world/Pathfinder.java:81-91 | the path is the parent chain from the goal back to the start, or empty when a position on the way has no parent |
| Pathfinding.MinTotalIndex | src/main/java/com/haraldsson/syntropy/world/Pathfinder.java:23-27 | the polled node has the least total of the open set, and it is the first such node |
| Pathfinding.RelaxedStep | src/main/java/com/haraldsson/syntropy/world/Pathfinder.java:63-67 | recording one strictly cheaper neighbour keeps costs only falling, parents pointing at the expanded node and the open set only growing |
| Pathfinding.Expand | src/main/java/com/haraldsson/syntropy/world/Pathfinder.java:48-68 | expanding a node records and queues exactly the passable neighbours reached without cutting a corner at a strictly cheaper cost, each with the expanded node as its parent, and keeps the search state |
| Pathfinding.RelaxKeepsInv | src/main/java/com/haraldsson/syntropy/world/Pathfinder.java:63-67 | recording a cheaper cost for a legal neighbour keeps every parent one legal move away and strictly cheaper, and every open node at a recorded cost |
| Pathfinding.FindPath | src/main/java/com/haraldsson/syntropy/world/Pathfinder.java:19-71 | empty when the goal is impassable or equals the start; at most 2000 polls; non-empty exactly when the goal was polled, and then a valid path of legal moves over passable tiles ending at the goal |
| Pathfinding.FoundPathValid | src/main/java/com/haraldsson/syntropy/world/Pathfinder.java:44-46 | rebuilding the path to a reached goal always succeeds and yields a valid path |
| Tiles.CountOf | src/main/java/com/haraldsson/syntropy/world/Tile.java:69-77 | a count of one kind never exceeds the number of items |
| Tiles.FirstOfKind | src/main/java/com/haraldsson/syntropy/world/Tile.java:83-92 | none exactly when no item has the kind; otherwise the index of the first item that does |
| Tiles.CountConcat | src/main/java/com/haraldsson/syntropy/world/Tile.java:69-77 | counting over two lists joined is the sum of the two counts |
| Tiles.CountPositiveIffPresent | src/main/java/com/haraldsson/syntropy/world/Tile.java:60-77 | a kind's count is positive exactly when some item of that kind lies on the ground |
| Tiles.CountWithoutAt | src/main/java/com/haraldsson/syntropy/world/Tile.java:87 | removing the item at an index lowers exactly its own kind's count by one |
| Tiles.AddThenTakeRestoresCounts | src/main/java/com/haraldsson/syntropy/world/Tile.java:79-92 | adding an item and then taking the first of its kind leaves every kind's count as before |
| Tiles.Tile.constructor | src/main/java/com/haraldsson/syntropy/world/Tile.java:18-22 | a new tile keeps its coordinates and terrain, is no stockpile, holds no items and no building |
| Tiles.Tile.HasItem | src/main/java/com/haraldsson/syntropy/world/Tile.java:60-67 | true exactly when some ground item has the kind, that is when its count is positive |
| Tiles.Tile.CountItems | src/main/java/com/haraldsson/syntropy/world/Tile.java:69-77 | the number of ground items of the kind |
| Tiles.Tile.AddItem | src/main/java/com/haraldsson/syntropy/world/Tile.java:79-81 | the item is appended; its kind's count rises by one and every other kind's count stays |
| Tiles.Tile.TakeFirstItem | src/main/java/com/haraldsson/syntropy/world/Tile.java:83-92 | the first item of the kind is removed and returned, lowering only that kind's count by one; nothing is returned and nothing changes exactly when there is none |
| Worlds.World.constructor | src/main/java/com/haraldsson/syntropy/world/World.java:21-25 | a new world keeps its size and tile grid and starts with no colonists, miners, growers or stockpile |
| Worlds.World.GetTile | src/main/java/com/haraldsson/syntropy/world/World.java:54-59 | no tile exactly outside the map; otherwise the tile at those coordinates |
| Worlds.World.AddColonist | src/main/java/com/haraldsson/syntropy/world/World.java:69-71 | the colonist is appended to the list |
| Worlds.World.AddMiner | src/main/java/com/haraldsson/syntropy/world/World.java:77-79 | the miner is appended to the list |
| Worlds.World.GetMiner | src/main/java/com/haraldsson/syntropy/world/World.java:81-83 | no miner exactly when the list is empty; otherwise the first one |
| Worlds.World.AddFoodGrower | src/main/java/com/haraldsson/syntropy/world/World.java:89-91 | the grower is appended to the list |
| Worlds.World.SetStockpileTile | src/main/java/com/haraldsson/syntropy/world/World.java:97-99 | the stockpile becomes the given tile |
| Worlds.World.ClampColonist | src/main/java/com/haraldsson/syntropy/world/World.java:40-44 | each coordinate is clamped to [0.1, side - 0.1], so the colonist ends inside the margin, and one already inside does not move |
| Worlds.World.Update | src/main/java/com/haraldsson/syntropy/world/World.java:27-38 | every colonist ends inside the margin; when no miner, grower or colonist is listed twice, every miner and grower steps exactly once, then every colonist's needs step once and it is clamped inside the margin |
| Worlds.World.UpdateMiners | src/main/java/com/haraldsson/syntropy/world/World.java:28-30 | when no miner is listed twice, every miner steps exactly once |
| Worlds.World.UpdateGrowers | src/main/java/com/haraldsson/syntropy/world/World.java:31-33 | when no grower is listed twice, every grower steps exactly once |
| Worlds.World.UpdateColonists | src/main/java/com/haraldsson/syntropy/world/World.java:34-37 | every colonist ends inside the margin; when no colonist is listed twice, every colonist's needs step exactly once and its position is its old one clamped inside the margin |
| Worlds.World.NearestStep | src/main/java/com/haraldsson/syntropy/world/World.java:105-115 | scanning one more tile keeps the best tile nearest among the scanned food tiles, first on ties |
| Worlds.World.NearestNextRow | src/main/java/com/haraldsson/syntropy/world/World.java:104-105 | finishing a row keeps the best-so-far property for the next row |
| Worlds.World.FindNearestFoodTile | src/main/java/com/haraldsson/syntropy/world/World.java:101-119 | the loop returns exactly World.NearestFoodTile: no tile when none holds food, otherwise the food tile whose centre is nearest, first in scan order on ties |
| Worlds.World.NearestFoodTile | src/main/java/com/haraldsson/syntropy/world/World.java:101-119 | no tile exactly when no tile holds food; otherwise an in-bounds food tile whose centre is nearest, and strictly nearer than every food tile scanned before it |
| Worlds.World.ScanFindsNearest | src/main/java/com/haraldsson/syntropy/world/World.java:101-119 | resumed from any state holding the nearest food tile seen so far, the scan ends at no tile exactly when none holds food, and otherwise at the nearest food tile, the earliest in scan order on ties |
| LegacyBuildings.Miner.constructor | src/main/java/com/haraldsson/syntropy/entities/Miner.java:15-17 | a new miner keeps its tile, with an empty buffer and a zero timer |
| LegacyBuildings.Miner.Update | src/main/java/com/haraldsson/syntropy/entities/Miner.java:19-26 | the timer gains delta; at 5 seconds with fewer than 5 items it resets and one STONE is appended; the buffer never exceeds 5 |
| LegacyBuildings.Miner.TakeOutput | src/main/java/com/haraldsson/syntropy/entities/Miner.java:32-37 | an empty buffer yields nothing and stays empty; otherwise the oldest item is removed and returned |
| LegacyBuildings.Miner.GetOutputCount | src/main/java/com/haraldsson/syntropy/entities/Miner.java:28-41 | the count is zero exactly when the miner has no output |
| LegacyBuildings.FoodGrower.constructor | src/main/java/com/haraldsson/syntropy/entities/FoodGrower.java:18-20 | a new grower keeps its tile, with an empty buffer and a zero timer |
| LegacyBuildings.FoodGrower.Update | src/main/java/com/haraldsson/syntropy/entities/FoodGrower.java:22-29 | the timer gains delta; at 10 seconds with fewer than 5 items it resets and one FOOD is appended; the buffer never exceeds 5 |
| LegacyBuildings.FoodGrower.TakeOutput | src/main/java/com/haraldsson/syntropy/entities/FoodGrower.java:35-40 | an empty buffer yields nothing and stays empty; otherwise the oldest item is removed and returned |
| LegacyBuildings.FoodGrower.GetOutputCount | src/main/java/com/haraldsson/syntropy/entities/FoodGrower.java:31-44 | the count is zero exactly when the grower has no output |
| LegacyBuildings.FoodGrower.SetTimer | src/main/java/com/haraldsson/syntropy/entities/FoodGrower.java:46-52 | reading the timer back gives the value set |
| Colonists.MoodAfterInRange | src/main/java/com/haraldsson/syntropy/entities/Colonist.java:50-57 | for a non-negative step mood stays in 0..100, only a colonist with both needs above 60 gains mood, and one below 20 on either need never gains it |
| Colonists.Colonist.constructor | src/main/java/com/haraldsson/syntropy/entities/Colonist.java:36-43 | name, age and position are the arguments; needs start at 100, alive, idle with no target, carrying nothing, with mining 1 and hauling 1 and every other skill 0 |
| Colonists.Colonist.UpdateNeeds | src/main/java/com/haraldsson/syntropy/entities/Colonist.java:45-62 | a dead colonist is unchanged; a living one loses hunger and energy (never below 0), has its mood moved by the three-band rule, and dies once hunger reaches 0; death is never undone |
| Colonists.Colonist.Eat | src/main/java/com/haraldsson/syntropy/entities/Colonist.java:72-75 | hunger gains 40 and mood 15, each capped at 100, so neither drops |
| Colonists.Colonist.Rest | src/main/java/com/haraldsson/syntropy/entities/Colonist.java:77-79 | energy gains 30 capped at 100, so it never drops |
| Colonists.Colonist.GetSkill | src/main/java/com/haraldsson/syntropy/entities/Colonist.java:85-87 | a known skill gives its level and an unknown one 0 |
| Colonists.Colonist.SetTask | src/main/java/com/haraldsson/syntropy/entities/Colonist.java:89-93 | task kind and target become the arguments |
| Colonists.Colonist.ClearTask | src/main/java/com/haraldsson/syntropy/entities/Colonist.java:95-99 | the colonist goes back to idle with target (-1, -1), after which it is at no target |
| Colonists.Colonist.MoveTowardTarget | src/main/java/com/haraldsson/syntropy/entities/Colonist.java:101-118 | without a target nothing moves; within 0.05 of the target centre the colonist lands exactly on it |
| Colonists.Colonist.ResetWanderCooldown | src/main/java/com/haraldsson/syntropy/entities/Colonist.java:129-132 | the cooldown becomes the given seconds and the timer restarts at 0 |
| Colonists.Colonist.ShouldPickNewWanderTarget | src/main/java/com/haraldsson/syntropy/entities/Colonist.java:134-137 | the timer advances by delta, and a new target is due exactly when the cooldown is not positive, the timer reached it, or the colonist is idle |
| Colonists.Colonist.SetPosition | src/main/java/com/haraldsson/syntropy/entities/Colonist.java:179-182 | the position becomes the arguments |
| Colonists.NoTargetNeverArrives | src/main/java/com/haraldsson/syntropy/entities/Colonist.java:120-127 | a colonist without a target is never at it, and one standing on its target's centre is |
| Common.Trunc | src/main/java/com/haraldsson/syntropy/ecs/systems/AgingSystem.java:35 | a float cast to int truncates toward zero: the floor for non-negative values and the negated floor of the magnitude otherwise |
| TaskSystems.FirstMinerWithOutput | src/main/java/com/haraldsson/syntropy/systems/TaskSystem.java:100-114 | none exactly when no miner has output; otherwise the first one that does |
| TaskSystems.FirstGrowerWithOutput | src/main/java/com/haraldsson/syntropy/systems/TaskSystem.java:117-131 | none exactly when no grower has output; otherwise the first one that does |
| TaskSystems.GoEat | src/main/java/com/haraldsson/syntropy/systems/TaskSystem.java:53-61 | the colonist heads for the food tile; on arrival one FOOD is taken from it, the colonist eats and the task is cleared; otherwise the tile is untouched and the colonist is on its way |
| TaskSystems.GoDeliver | src/main/java/com/haraldsson/syntropy/systems/TaskSystem.java:89-96 | the colonist heads for the stockpile; on arrival the carried item is added there, the hands are emptied and the task cleared; otherwise the stockpile is untouched |
| TaskSystems.GoCollectFromMiner | src/main/java/com/haraldsson/syntropy/systems/TaskSystem.java:104-113 | the colonist heads for the miner; on arrival its oldest stone moves into the hands and the task is cleared |
| TaskSystems.GoCollectFromGrower | src/main/java/com/haraldsson/syntropy/systems/TaskSystem.java:121-130 | the colonist heads for the grower; on arrival its oldest food moves into the hands and the task is cleared |
| TaskSystems.HandleHunger | src/main/java/com/haraldsson/syntropy/systems/TaskSystem.java:42-63 | acts exactly when the colonist is hungry: with no food anywhere the task is cleared, otherwise it goes to the nearest food tile and eats there; only that tile changes |
| TaskSystems.HandleRest | src/main/java/com/haraldsson/syntropy/systems/TaskSystem.java:65-81 | declines unless tired or resting; a new rest starts on the current tile with a 3-second cooldown; once the cooldown runs out energy is restored, the task cleared and the turn passed on |
| TaskSystems.HandleHauling | src/main/java/com/haraldsson/syntropy/systems/TaskSystem.java:83-134 | a carrier delivers to the stockpile, declining without one; otherwise the first miner with output is served, else the first grower with output; it acts exactly when one of these applies, and only the building served changes |
| TaskSystems.HandleWander | src/main/java/com/haraldsson/syntropy/systems/TaskSystem.java:136-148 | a new target is drawn on the grid with a cooldown in [2, 4) exactly when the timer ran out or the colonist is idle; the colonist then moves and clears the task on arrival; needs are untouched |
| TaskSystems.HaulOrWander | src/main/java/com/haraldsson/syntropy/systems/TaskSystem.java:33-38 | wandering happens exactly when hauling declines |
| TaskSystems.RestThenWork | src/main/java/com/haraldsson/syntropy/systems/TaskSystem.java:27-38 | after hunger declines, rest is tried, then hauling, then wandering, each only when the one before declined |
| TaskSystems.UpdateColonist | src/main/java/com/haraldsson/syntropy/systems/TaskSystem.java:17-38 | an inactive colonist is skipped untouched; otherwise the handlers are tried in priority order until one acts, hunger acting exactly for a hungry colonist; no need is lowered |
| TaskSystems.Update | src/main/java/com/haraldsson/syntropy/systems/TaskSystem.java:16-40 | every colonist in list order goes through UpdateColonist: nobody dies, revives or changes control; inactive colonists are untouched and have no run; active ones try the handlers in priority order, and with no colonist listed twice a colonist's turn ends at the hunger handler exactly when it was active and hungry; no need is lowered |
| Research.Technology.constructor | src/main/java/com/haraldsson/syntropy/systems/Technology.java:14-19 | a new technology keeps its id, name, description, research time, era and prerequisites, with no progress and locked |
| Research.Technology.AddProgress | src/main/java/com/haraldsson/syntropy/systems/Technology.java:21-28 | an unlocked technology is untouched; otherwise progress grows by delta and, once it reaches the research time, is capped there and the technology unlocks; progress never passes the research time |
| Research.Technology.ProgressRatio | src/main/java/com/haraldsson/syntropy/systems/Technology.java:30-32 | the ratio times the research time is the progress, 1 when no time is needed, and within [0, 1] while progress is |
| Research.Technology.SetProgress | src/main/java/com/haraldsson/syntropy/systems/Technology.java:41 | progress becomes the given value |
| Research.Technology.SetUnlocked | src/main/java/com/haraldsson/syntropy/systems/Technology.java:42 | the unlocked flag becomes the given value |
| Research.PrerequisitesComeEarlier | src/main/java/com/haraldsson/syntropy/systems/ResearchSystem.java:34-66 | every prerequisite of a technology names a technology listed before it, so the tree is acyclic and can be researched in order |
| Research.EraTwoPrerequisites | src/main/java/com/haraldsson/syntropy/systems/ResearchSystem.java:40-45 | the era-2 technologies name earlier prerequisites |
| Research.EraThreePrerequisites | src/main/java/com/haraldsson/syntropy/systems/ResearchSystem.java:47-53 | the era-3 technologies name earlier prerequisites |
| Research.EraFourPrerequisites | src/main/java/com/haraldsson/syntropy/systems/ResearchSystem.java:55-59 | the era-4 technologies name earlier prerequisites |
| Research.EraFivePrerequisites | src/main/java/com/haraldsson/syntropy/systems/ResearchSystem.java:61-65 | the era-5 technologies name earlier prerequisites |
| Research.ResearchSystem.FirstPick | src/main/java/com/haraldsson/syntropy/systems/ResearchSystem.java:84-107 | the first position from the given one whose technology matches the request, is locked and has its prerequisites met; none exactly when no such technology follows |
| Research.ResearchSystem.constructor | src/main/java/com/haraldsson/syntropy/systems/ResearchSystem.java:20-23 | a new system keeps its event bus, has no current research and holds the full tree, every technology new, locked and without progress |
| Research.ResearchSystem.AddTech | src/main/java/com/haraldsson/syntropy/systems/ResearchSystem.java:36 | appending one technology keeps the tree before it and adds a new, locked one with the given description |
| Research.ResearchSystem.AddTechs | src/main/java/com/haraldsson/syntropy/systems/ResearchSystem.java:34-66 | appending a list keeps the tree before it and adds one new, locked technology per description, in order |
| Research.ResearchSystem.BuildTechTree | src/main/java/com/haraldsson/syntropy/systems/ResearchSystem.java:34-66 | the empty tree is filled with the 22 technologies in era order, all new, locked and without progress |
| Research.ResearchSystem.IsCompleted | src/main/java/com/haraldsson/syntropy/systems/ResearchSystem.java:117-124 | true exactly when some technology of the tree with that id is unlocked |
| Research.ResearchSystem.IsTechUnlocked | src/main/java/com/haraldsson/syntropy/systems/ResearchSystem.java:127-130 | answers exactly as the completion query |
| Research.ResearchSystem.PrerequisitesMet | src/main/java/com/haraldsson/syntropy/systems/ResearchSystem.java:110-115 | true exactly when every prerequisite id of the technology is completed |
| Research.ResearchSystem.Scan | src/main/java/com/haraldsson/syntropy/systems/ResearchSystem.java:84-107 | the tree scan returns the first technology that may be started for the request |
| Research.ResearchSystem.StartResearch | src/main/java/com/haraldsson/syntropy/systems/ResearchSystem.java:84-94 | while a research is under way nothing changes; otherwise the first startable technology with that id becomes current, and with none the current research stays |
| Research.ResearchSystem.StartNextResearch | src/main/java/com/haraldsson/syntropy/systems/ResearchSystem.java:97-107 | while a research is under way nothing changes; otherwise the first startable technology in tree order becomes current, and with none the current research stays |
| Research.ResearchSystem.Update | src/main/java/com/haraldsson/syntropy/systems/ResearchSystem.java:68-78 | without a research under way nothing changes; otherwise it gains delta seconds, unlocking at the research time, and exactly on unlocking the completion event fires with its name when a bus exists |
| Research.FreshTreeBlocksDependents | src/main/java/com/haraldsson/syntropy/systems/ResearchSystem.java:110-115 | on a fresh tree no technology with a prerequisite can be started |
| Research.FreshTreeStartsFirst | src/main/java/com/haraldsson/syntropy/systems/ResearchSystem.java:97-107 | on a fresh tree the next research is the first technology, an era-1 root |
| Research.PrerequisitesUnlockStart | src/main/java/com/haraldsson/syntropy/systems/ResearchSystem.java:84-94 | once every prerequisite of a locked technology is completed it can be started by its id |
| PollutionSystems.UnbuiltAddNothing | src/main/java/com/haraldsson/syntropy/ecs/systems/PollutionSystem.java:24-28 | buildings that are not built contribute nothing, so with none built the rate is 0 |
| PollutionSystems.BuiltPollutionNonNegative | src/main/java/com/haraldsson/syntropy/ecs/systems/PollutionSystem.java:24-28 | with every building's rate non-negative the summed rate is non-negative |
| PollutionSystems.NextPollution | src/main/java/com/haraldsson/syntropy/ecs/systems/PollutionSystem.java:30-32 | the new meter always lies in [0, 100], and equals the old one plus the rate less the natural decay of 0.05, times delta, whenever that stays in range |
| PollutionSystems.NextPollutionDirection | src/main/java/com/haraldsson/syntropy/ecs/systems/PollutionSystem.java:30-32 | at a rate below the natural decay the meter never rises, above it it never falls |
| PollutionSystems.Severity | src/main/java/com/haraldsson/syntropy/ecs/systems/PollutionSystem.java:36-37 | above the harm threshold of 20 the severity lies in (0, 1] |
| PollutionSystems.SeverityLabel | src/main/java/com/haraldsson/syntropy/ecs/systems/PollutionSystem.java:51-58 | the label is one of the six severity tiers |
| PollutionSystems.LabelRank | src/main/java/com/haraldsson/syntropy/ecs/systems/PollutionSystem.java:51-58 | each tier has its position in the mildest-to-worst order |
| PollutionSystems.LabelMonotone | src/main/java/com/haraldsson/syntropy/ecs/systems/PollutionSystem.java:51-58 | the label never gets milder as pollution rises |
| PollutionSystems.PollutionSystem.constructor | src/main/java/com/haraldsson/syntropy/ecs/systems/PollutionSystem.java:15-16 | a new system starts pristine: pollution 0, planetary health 100 |
| PollutionSystems.PollutionSystem.PollutionRate | src/main/java/com/haraldsson/syntropy/ecs/systems/PollutionSystem.java:23-28 | the rate is the sum of the pollution rates of the built buildings, in registry order |
| PollutionSystems.PollutionSystem.Drain | src/main/java/com/haraldsson/syntropy/ecs/systems/PollutionSystem.java:39-42 | a living entity loses the amount from its health, never below 0; a dead one is untouched |
| PollutionSystems.PollutionSystem.Update | src/main/java/com/haraldsson/syntropy/ecs/systems/PollutionSystem.java:21-45 | the meter takes its next value and planetary health stays its complement; at or below 20 no needs change; otherwise only health changes, never rising for a non-negative delta, and when no two drained entities share a needs record each living one loses exactly DrainAmount health (never below 0) while each dead one keeps its health |
| PollutionSystems.PollutionSystem.DrainAll | src/main/java/com/haraldsson/syntropy/ecs/systems/PollutionSystem.java:38-43 | the drain pass changes only health, which never rises for a non-negative amount; when no two drained entities share a needs record, each living one ends at max(0, health − amount) and each dead one keeps its health |
| PollutionSystems.DrainAmount | src/main/java/com/haraldsson/syntropy/ecs/systems/PollutionSystem.java:37-42 | the health drained per living entity; with the meter in range and a non-negative delta it lies between 0 and 0.002·delta |
| WorldGeneration.TerrainFor | src/main/java/com/haraldsson/syntropy/world/WorldGenerator.java:37-41 | WATER exactly below -0.35 and STONE exactly from 0.5 upwards |
| WorldGeneration.TerrainMonotone | src/main/java/com/haraldsson/syntropy/world/WorldGenerator.java:37-41 | higher noise never gives lower terrain, and the noise gives SAND exactly in [-0.35, -0.1), GRASS exactly in [-0.1, 0.3) and DIRT exactly in [0.3, 0.5) |
| WorldGeneration.ClampIndex | src/main/java/com/haraldsson/syntropy/world/WorldGenerator.java:169-170 | the clamped index lies in the grid and leaves an in-grid value as it is |
| WorldGeneration.Ring | src/main/java/com/haraldsson/syntropy/world/WorldGenerator.java:175-177 | the ring distance is zero exactly at the centre |
| WorldGeneration.SearchStart | src/main/java/com/haraldsson/syntropy/world/WorldGenerator.java:171-175 | before the first ring only the occupied centre has been looked at |
| WorldGeneration.SearchStep | src/main/java/com/haraldsson/syntropy/world/WorldGenerator.java:177-184 | an unusable cell extends the scanned part of the row |
| WorldGeneration.SearchNextRow | src/main/java/com/haraldsson/syntropy/world/WorldGenerator.java:176-177 | the end of one row of the square is the start of the next |
| WorldGeneration.SearchNextRing | src/main/java/com/haraldsson/syntropy/world/WorldGenerator.java:175-176 | a fully scanned square of radius r leaves no usable cell on rings up to r |
| WorldGeneration.SearchFound | src/main/java/com/haraldsson/syntropy/world/WorldGenerator.java:180-184 | the first usable cell met lies on the nearest ring holding one and comes first in that ring's scan order |
| WorldGeneration.SearchExhausted | src/main/java/com/haraldsson/syntropy/world/WorldGenerator.java:175-188 | once the rings reach the grid's larger side every cell has been looked at |
| WorldGeneration.ScanRow | src/main/java/com/haraldsson/syntropy/world/WorldGenerator.java:177-185 | one row scan either finds the nearest usable cell or extends the scanned part past the row |
| WorldGeneration.ScanRing | src/main/java/com/haraldsson/syntropy/world/WorldGenerator.java:176-186 | one square scan either finds the nearest usable cell or completes the ring |
| WorldGeneration.FindValidTile | src/main/java/com/haraldsson/syntropy/world/WorldGenerator.java:167-189 | the hint is clamped into the grid and returned when usable; otherwise the result is a usable cell on the nearest ring, first in scan order; with none the clamped hint; always in bounds on a non-empty grid |
| WorldGeneration.UnownedBeds | src/main/java/com/haraldsson/syntropy/world/WorldGenerator.java:94-100 | the selection holds only beds without an owner, drawn from the list |
| WorldGeneration.UnownedBedsComplete | src/main/java/com/haraldsson/syntropy/world/WorldGenerator.java:94-100 | every bed of the list without an owner is selected |
| WorldGeneration.AIRun | src/main/java/com/haraldsson/syntropy/world/WorldGenerator.java:104-107 | the selection holds only entities whose AI is enabled, drawn from the list |
| WorldGeneration.AIRunPrefix | src/main/java/com/haraldsson/syntropy/world/WorldGenerator.java:104-110 | the AI-run colonists of a prefix come first, in order, among those of the whole list |
| WorldGeneration.CollectUnownedBeds | src/main/java/com/haraldsson/syntropy/world/WorldGenerator.java:94-100 | the unowned beds of the registry, in registry order |
| WorldGeneration.HandOutBeds | src/main/java/com/haraldsson/syntropy/world/WorldGenerator.java:103-111 | the k-th bed goes to the k-th AI-run colonist until either runs out; the remaining beds keep no owner |
| WorldGeneration.Serve | src/main/java/com/haraldsson/syntropy/world/WorldGenerator.java:105-110 | an AI-run colonist takes the next free bed and advances the index; any other leaves everything unchanged |
| WorldGeneration.OwnersSettle | src/main/java/com/haraldsson/syntropy/world/WorldGenerator.java:105 | once beds or sleepers run out, the owners are the first sleepers in turn |
| WorldGeneration.AssignBedsToColonists | src/main/java/com/haraldsson/syntropy/world/WorldGenerator.java:93-112 | unowned beds go, in registry order, one each to the AI-run colonists until either runs out; beds that had an owner keep it |
| WorldGeneration.NextInt | src/main/java/com/haraldsson/syntropy/world/WorldGenerator.java:155 | a draw lies in [0, bound) |
| WorldGeneration.CreateBuilding | src/main/java/com/haraldsson/syntropy/world/WorldGenerator.java:114-121 | a new registered entity with the next id, positioned at the tile, holding a built building of the given type, interval, cap and product with an empty buffer, and recorded as the tile's building |
| WorldGeneration.AddSettlerBody | src/main/java/com/haraldsson/syntropy/world/WorldGenerator.java:148-151 | adds a position, identity, full needs and a living health record, leaving every other slot |
| WorldGeneration.AddSettlerMind | src/main/java/com/haraldsson/syntropy/world/WorldGenerator.java:152-154 | adds an enabled idle AI, an empty inventory and skills, leaving every other slot |
| WorldGeneration.AddSettlerLife | src/main/java/com/haraldsson/syntropy/world/WorldGenerator.java:155-157 | adds the age and lifespan, the role and a neutral mood, leaving every other slot |
| WorldGeneration.AddSettlerRest | src/main/java/com/haraldsson/syntropy/world/WorldGenerator.java:158-163 | adds a sleep record with no sleep yet and the given work table, leaving every other slot |
| WorldGeneration.NewWorkTable | src/main/java/com/haraldsson/syntropy/world/WorldGenerator.java:159-161 | hauling gets priority 2, the colonist's own role 3 unless it is HAULER, and every other role 0 |
| WorldGeneration.CreateColonist | src/main/java/com/haraldsson/syntropy/world/WorldGenerator.java:145-165 | a new registered colonist with the next id, the given name, age, place and role, AI enabled, a lifespan in [60, 85), and the work priorities above |
| WorldGeneration.CreateLeader | src/main/java/com/haraldsson/syntropy/world/WorldGenerator.java:123-143 | a new registered leader with the next id, AI disabled, a 25% efficiency bonus, role IDLE, a lifespan in [65, 85) and no work priorities set |

## Left out

- Rendering, the HUD, sprites, input handling and the application loop (`GameApp`, `GameHud`, `SpriteManager`, `PlayerController`, `GameMain`) are libGDX glue over screen and keyboard state, and are not part of this model. So are the death-event and succession wiring in `GameApp.render`.
- Saving and loading (`SaveLoadSystem`, `SaveData`) are not part of this model: the loader is a stub, and the data is a plain serialisation record.
- `WorldGenerator.generate` is not modelled as a whole: it draws a random seed, samples simplex noise (floating point) and calls the modelled helpers in a fixed sequence. Terrain is modelled from a given noise value by `WorldGeneration.TerrainFor`. The fixed names and ages of the starting colonists are not modelled.
- Random draws (`Math.random`, `java.util.Random`) are not generators here. Each draw is a parameter constrained to the generator's range, or a nondeterministic choice within that range that falls back into the range. So only the ranges are modelled, never the distributions. This covers the wander target and cooldown, the event interval and the event roll, the exhaustion target, and the lifespans of new colonists.
- Java `float` rounding is not modelled: all arithmetic is on exact reals. Integer overflow does not arise in the modelled code. The one place where 32-bit width matters is the pathfinder's 64-bit key packing, which is modelled exactly.
- AIComponents.AIComponent.MoveTowardTarget: the straight step divides by a square root, so where the agent lands after a step that neither snaps nor is skipped is left unspecified. Only the no-target and snap cases are stated.
- Colonists.Colonist.MoveTowardTarget: the same unspecified landing point as the component movement.
- Members that callers use but that the shown class files do not define are declared with only the meaning their call sites show:
  - `World.isPassable` is a passability grid, with out-of-bounds tiles impassable.
  - The four-argument `moveTowardTarget` is `AIComponent.MoveAlongPath`, whose landing point is open.
  - `recoverFromStuck` may set any task record and position, but keeps the AI flag.
  - `NeedsComponent.health`, `damage`, `heal` and `restPartial` are a field with capped updates.
  - `getHungerCategory` and `getEnergyCategory` are the tier functions of the current need value.
  - `HealthComponent.deathItemsDropped`, `BuildingComponent.pollutionRate` and `AIComponent.stuckTimer` are fields.
  - The stockpile lookup and the float `findNearestFoodTile` overload use the same scan as the colonist overload.
  - `InventoryComponent`, `TaskType` and `ItemType` are a one-slot class and datatypes. An `ItemType` value is never null, so the `itemType != null` guard on the production event always holds.
- `Technology.java` as shown has a four-argument constructor and no era or prerequisites, while `ResearchSystem.java` builds every technology with an era and a prerequisite list and reads them back. The model follows `ResearchSystem`: `Technology` carries both.
- `AITaskSystem.tryRecoverFromImpassable` (the ring search that moves an agent off an impassable tile) has no source here and is not part of this model.
- Event handlers are Java closures. They are opaque ids here, and firing an event records each invocation in a trace; what a handler then does is not modelled.
- The class-keyed component map of `Entity` is one nullable slot per component class. The static id counter is an explicit `IdCounter` object passed to `createEntity`.
- Plain getters and setters that only read or write one field are not listed separately: the coordinates and terrain of `Tile`, the lists of `World`, the getters of `Technology` and of the systems. One-line queries that compare a field with a constant, or look up one entry, have no row of their own either; the lemmas named here state what they mean:
  - `NeedsComponents.NeedsComponent.IsHungry`, `IsTired`, `HungerTier` and `EnergyTier`: NeedsComponents.FlagsWithinTiers and the tier bands in NeedTiers.HungerBands, NeedTiers.EnergyBands and NeedTiers.TiersLineUp.
  - `BuildingComponents.BuildingComponent.HasOutput`, `LegacyBuildings.Miner.HasOutput` and `LegacyBuildings.FoodGrower.HasOutput`: the rows for GetOutputCount and TakeOutput of each class.
  - `AIComponents.AIComponent.HasTarget` and `IsAtTarget`: AIComponents.ArrivalAtCentre.
  - `Colonists.Colonist.HasTarget` and `IsAtTarget`: Colonists.NoTargetNeverArrives. `Colonists.Colonist.IsHungry` and `IsTired` compare hunger with 35 and energy with 25 on the colonist's 0-100 scale; their callers' rows state the outcomes.
  - `MoodComponents.MoodComponent.IsHappy`, `IsNeutral`, `IsUnhappy` and `IsBroken`: MoodComponents.MoodBandsPartition.
  - `WorkSettings.WorkSettingsComponent.GetPriority` and `GetActiveJobsSorted`: the rows for SetPriority, WorkSettings.ActiveJobsSortedSpec and WorkSettings.SortByPriorityIsSortedPermutation.
  - `Ecs.Entity.Has` and `Ecs.ECSWorld.GetAll`: Ecs.Entity.BareHasNone, Ecs.HasAllSingle and Ecs.WithSelects.
  The legacy `Tile` building getter and setter, typed with the unused `Building` class, are not modelled. `Tile.buildingEntity` is.
- WorkSettings.ActiveJobsSortedSpec: Java iterates a HashMap, so the relative order of jobs with equal priority is unspecified. The model lists ties in the order in which roles are declared, which is one order Java may produce. The contract states only "sorted by priority, and exactly the active jobs".
- Pathfinding.FindPath: the Java PriorityQueue breaks ties between equal totals in an unspecified order, and the model polls the first open node of least total. The contract states that every returned path is valid. It does not state that the search finds a path whenever one exists within the 2000-poll budget, nor that the path is cheapest.
- BuildingProduction.BuildingProductionSystem.Update: the exact per-building outcome, and the link between the states that decide the events and the states at the start of the tick, are stated only when no two entities share one building record. With shared records a building would be ticked twice, and only the bounds and the event trace in terms of the states the pass found are stated. The same holds for BuildingProduction.BuildingProductionSystem.TickAll and BuildingProduction.BuildingProductionSystem.TickNext over a list that holds a component twice.
- EventSystems.EventSystem.HeatWaveEvent: the exact per-colonist effect is stated only when no two living colonists share one needs record. The same holds for EventSystems.EventSystem.MoralBoostEvent, EventSystems.EventSystem.ScorchAll and EventSystems.EventSystem.RefreshAll.
- EventSystems.EventSystem.Update: what the fired event did is stated by TriggerRandomEvent and Strike (Struck), not carried through to the end of the tick.
- AITaskSystems.AITaskSystem.Update: each agent's Best pick and Stepped outcome are stated per run by RunAgent, not lifted to the end of the tick, since later agents act on the same world.
- TaskSystems.Update: only the hunger outcome is lifted to the end of the tick, and only when no colonist is listed twice; the rest and haul outcomes are stated per colonist by UpdateColonist.
- NeedsSystems.Update: the exact per-entity step (its Stepped outcome and the collected list in order) is stated only when no two candidates share a needs or health record. With shared records one record would be stepped twice, and only the removal and death facts are stated. The same holds for NeedsSystems.StepAll, NeedsSystems.StepFrom and NeedsSystems.StepOne.
- MoodSystems.MoodSystem.Update: each candidate's single step toward its target is stated only when no two candidates share a mood record. The mood bounds are stated unconditionally. The same holds for MoodSystems.MoodSystem.StepAll and MoodSystems.MoodSystem.StepCandidates.
- AgingSystems.AgingSystem.Update: the per-entity aging outcome and the naming of the last leader in the message are stated only when no two agers share an age or health record. The despawn outcome (which bodies are removed, and their timers) is stated only when no two bodies share a health record. The removal, death and succession facts are stated unconditionally. The same holds for AgingSystems.AgingSystem.DespawnNext, AgingSystems.AgingSystem.DespawnFrom, AgingSystems.AgingSystem.DespawnAll, AgingSystems.AgingSystem.Despawn, AgingSystems.AgingSystem.AgeOne, AgingSystems.AgingSystem.AgeFrom, AgingSystems.AgingSystem.AgeAll, AgingSystems.AgingSystem.AgeRegistry and AgingSystems.AgingSystem.AgeRemaining.
- WorldGeneration.HandOutBeds: the exact owners are stated only when no two beds in the list share one bed record. The same holds for WorldGeneration.AssignBedsToColonists.
- Worlds.World.Update: "each stepped exactly once" is stated only when no miner, grower or colonist is listed twice. The clamp into the margin is stated unconditionally. The same holds for Worlds.World.UpdateMiners, Worlds.World.UpdateGrowers and Worlds.World.UpdateColonists.
- PollutionSystems.PollutionSystem.Update: each living drained entity's exact loss is stated only when no two drained entities share a needs record. With shared records one record would be drained twice, and only "health never rises" and the dead-untouched facts are stated. The same holds for PollutionSystems.PollutionSystem.DrainAll.
- WorkSettings.WorkSettingsComponent.SetPriority: Java throws an IllegalArgumentException for a priority outside 0..4. The model returns `ok == false` and leaves the table unchanged instead; the exception and its unwinding of the caller are not modelled.
- WorldGeneration.CreateBuilding requires the tile to be inside the grid. Java would throw an index exception there, and that exception is not modelled.
- GameEventBus.Appended: the length bound and the "newest message is last" clause are stated for a positive limit (or a non-empty log) only. Every caller passes 20 or 5.
- Both `NeedsSystem` and `AgingSystem` advance the same `deathTimer` of a dead entity on every tick. The model keeps this, so a body despawns after about 15 seconds of game time when both systems run, not 30.
