/**
 * The entity-component store. An entity is an id with at most one
 * component per component class; the registry is an ordered list of
 * entities with a "has every requested component" query.
 */
module Ecs {

  import opened Common
  import opened DataComponents
  import opened AIComponents
  import opened NeedsComponents
  import opened WorkSettings
  import opened BuildingComponents
  import opened AgingComponents
  import opened MoodComponents
  import opened SkillsComponents
  import opened LeaderComponents

  /** The component classes an entity can hold, one slot each. */
  datatype Kind =
    | AIKind | NeedsKind | PositionKind | InventoryKind | HealthKind
    | BuildingKind | WorkSettingsKind | MoodKind | AgingKind | LeaderKind
    | IdentityKind | BedKind | SleepQualityKind | SkillsKind | RoleKind

  /** A component object together with its class. */
  datatype Component =
    | AIC(ai: AIComponent)
    | NeedsC(needs: NeedsComponent)
    | PositionC(pos: PositionComponent)
    | InventoryC(inv: InventoryComponent)
    | HealthC(health: HealthComponent)
    | BuildingC(building: BuildingComponent)
    | WorkSettingsC(ws: WorkSettingsComponent)
    | MoodC(mood: MoodComponent)
    | AgingC(aging: AgingComponent)
    | LeaderC(leader: LeaderComponent)
    | IdentityC(identity: IdentityComponent)
    | BedC(bed: BedComponent)
    | SleepQualityC(sleep: SleepQualityComponent)
    | SkillsC(skills: SkillsComponent)
    | RoleC(role: RoleComponent)
  {
    function KindOf(): Kind
    {
      match this
      case AIC(_) => AIKind
      case NeedsC(_) => NeedsKind
      case PositionC(_) => PositionKind
      case InventoryC(_) => InventoryKind
      case HealthC(_) => HealthKind
      case BuildingC(_) => BuildingKind
      case WorkSettingsC(_) => WorkSettingsKind
      case MoodC(_) => MoodKind
      case AgingC(_) => AgingKind
      case LeaderC(_) => LeaderKind
      case IdentityC(_) => IdentityKind
      case BedC(_) => BedKind
      case SleepQualityC(_) => SleepQualityKind
      case SkillsC(_) => SkillsKind
      case RoleC(_) => RoleKind
    }
  }

  /** The shared id counter behind new entities (a static field in the source). */
  class IdCounter {
    var nextId: int

    constructor ()
      ensures nextId == 0
    {
      nextId := 0;
    }

    /** After a reset the next id handed out is 0. */
    method ResetIdCounter()
      modifies this
      ensures nextId == 0
    {
      nextId := 0;
    }
  }

  class Entity {
    const id: int
    var ai: AIComponent?
    var needs: NeedsComponent?
    var pos: PositionComponent?
    var inv: InventoryComponent?
    var health: HealthComponent?
    var building: BuildingComponent?
    var ws: WorkSettingsComponent?
    var mood: MoodComponent?
    var aging: AgingComponent?
    var leader: LeaderComponent?
    var identity: IdentityComponent?
    var bed: BedComponent?
    var sleep: SleepQualityComponent?
    var skills: SkillsComponent?
    var role: RoleComponent?

    /** Takes the next id from the shared counter. */
    constructor (counter: IdCounter)
      modifies counter
      ensures id == old(counter.nextId) && counter.nextId == old(counter.nextId) + 1
      ensures Bare()
    {
      id := counter.nextId;
      ai, needs, pos, inv, health := null, null, null, null, null;
      building, ws, mood, aging, leader := null, null, null, null, null;
      identity, bed, sleep, skills, role := null, null, null, null, null;
      new;
      counter.nextId := counter.nextId + 1;
    }

    /** The component stored for class k, if any. */
    function Get(k: Kind): (c: Option<Component>)
      reads this
      ensures c.Some? ==> c.value.KindOf() == k
    {
      match k
      case AIKind => if ai == null then None else Some(AIC(ai))
      case NeedsKind => if needs == null then None else Some(NeedsC(needs))
      case PositionKind => if pos == null then None else Some(PositionC(pos))
      case InventoryKind => if inv == null then None else Some(InventoryC(inv))
      case HealthKind => if health == null then None else Some(HealthC(health))
      case BuildingKind => if building == null then None else Some(BuildingC(building))
      case WorkSettingsKind => if ws == null then None else Some(WorkSettingsC(ws))
      case MoodKind => if mood == null then None else Some(MoodC(mood))
      case AgingKind => if aging == null then None else Some(AgingC(aging))
      case LeaderKind => if leader == null then None else Some(LeaderC(leader))
      case IdentityKind => if identity == null then None else Some(IdentityC(identity))
      case BedKind => if bed == null then None else Some(BedC(bed))
      case SleepQualityKind => if sleep == null then None else Some(SleepQualityC(sleep))
      case SkillsKind => if skills == null then None else Some(SkillsC(skills))
      case RoleKind => if role == null then None else Some(RoleC(role))
    }

    /** No component slot is filled. */
    predicate Bare()
      reads this
    {
      && ai == null && needs == null && pos == null && inv == null && health == null
      && building == null && ws == null && mood == null && aging == null && leader == null
      && identity == null && bed == null && sleep == null && skills == null && role == null
    }

    predicate Has(k: Kind)
      reads this
    {
      Get(k).Some?
    }

    /** A bare entity has no component of any class. */
    lemma BareHasNone()
      requires Bare()
      ensures forall k :: !Has(k)
    {
      forall k ensures !Has(k) {
        match k
        case AIKind =>
        case NeedsKind =>
        case PositionKind =>
        case InventoryKind =>
        case HealthKind =>
        case BuildingKind =>
        case WorkSettingsKind =>
        case MoodKind =>
        case AgingKind =>
        case LeaderKind =>
        case IdentityKind =>
        case BedKind =>
        case SleepQualityKind =>
        case SkillsKind =>
        case RoleKind =>
      }
    }

    /** Stores c in its class's slot, replacing any component of that class. */
    method Add(c: Component)
      modifies this
      ensures Get(c.KindOf()) == Some(c)
      ensures forall k :: k != c.KindOf() ==> Get(k) == old(Get(k))
      ensures ai == (if c.AIC? then c.ai else old(ai))
      ensures needs == (if c.NeedsC? then c.needs else old(needs))
      ensures pos == (if c.PositionC? then c.pos else old(pos))
      ensures inv == (if c.InventoryC? then c.inv else old(inv))
      ensures health == (if c.HealthC? then c.health else old(health))
      ensures building == (if c.BuildingC? then c.building else old(building))
      ensures ws == (if c.WorkSettingsC? then c.ws else old(ws))
      ensures mood == (if c.MoodC? then c.mood else old(mood))
      ensures aging == (if c.AgingC? then c.aging else old(aging))
      ensures leader == (if c.LeaderC? then c.leader else old(leader))
      ensures identity == (if c.IdentityC? then c.identity else old(identity))
      ensures bed == (if c.BedC? then c.bed else old(bed))
      ensures sleep == (if c.SleepQualityC? then c.sleep else old(sleep))
      ensures skills == (if c.SkillsC? then c.skills else old(skills))
      ensures role == (if c.RoleC? then c.role else old(role))
    {
      if c.AIC? || c.NeedsC? || c.PositionC? || c.InventoryC? || c.HealthC? || c.BuildingC? || c.WorkSettingsC? {
        AddAgentSlot(c);
      } else {
        AddRecordSlot(c);
      }
    }

    /** Add for the AI, needs, position, inventory, health, building and work-settings slots. */
    method AddAgentSlot(c: Component)
      requires c.AIC? || c.NeedsC? || c.PositionC? || c.InventoryC? || c.HealthC? || c.BuildingC? || c.WorkSettingsC?
      modifies this
      ensures Get(c.KindOf()) == Some(c)
      ensures forall k :: k != c.KindOf() ==> Get(k) == old(Get(k))
      ensures ai == (if c.AIC? then c.ai else old(ai))
      ensures needs == (if c.NeedsC? then c.needs else old(needs))
      ensures pos == (if c.PositionC? then c.pos else old(pos))
      ensures inv == (if c.InventoryC? then c.inv else old(inv))
      ensures health == (if c.HealthC? then c.health else old(health))
      ensures building == (if c.BuildingC? then c.building else old(building))
      ensures ws == (if c.WorkSettingsC? then c.ws else old(ws))
      ensures mood == old(mood)
      ensures aging == old(aging)
      ensures leader == old(leader)
      ensures identity == old(identity)
      ensures bed == old(bed)
      ensures sleep == old(sleep)
      ensures skills == old(skills)
      ensures role == old(role)
    {
      match c
      case AIC(x) => ai := x;
      case NeedsC(x) => needs := x;
      case PositionC(x) => pos := x;
      case InventoryC(x) => inv := x;
      case HealthC(x) => health := x;
      case BuildingC(x) => building := x;
      case WorkSettingsC(x) => ws := x;
    }

    /** Add for the mood, aging, leader, identity, bed, sleep-quality, skills and role slots. */
    method AddRecordSlot(c: Component)
      requires !(c.AIC? || c.NeedsC? || c.PositionC? || c.InventoryC? || c.HealthC? || c.BuildingC? || c.WorkSettingsC?)
      modifies this
      ensures Get(c.KindOf()) == Some(c)
      ensures forall k :: k != c.KindOf() ==> Get(k) == old(Get(k))
      ensures ai == old(ai)
      ensures needs == old(needs)
      ensures pos == old(pos)
      ensures inv == old(inv)
      ensures health == old(health)
      ensures building == old(building)
      ensures ws == old(ws)
      ensures mood == (if c.MoodC? then c.mood else old(mood))
      ensures aging == (if c.AgingC? then c.aging else old(aging))
      ensures leader == (if c.LeaderC? then c.leader else old(leader))
      ensures identity == (if c.IdentityC? then c.identity else old(identity))
      ensures bed == (if c.BedC? then c.bed else old(bed))
      ensures sleep == (if c.SleepQualityC? then c.sleep else old(sleep))
      ensures skills == (if c.SkillsC? then c.skills else old(skills))
      ensures role == (if c.RoleC? then c.role else old(role))
    {
      match c
      case MoodC(x) => mood := x;
      case AgingC(x) => aging := x;
      case LeaderC(x) => leader := x;
      case IdentityC(x) => identity := x;
      case BedC(x) => bed := x;
      case SleepQualityC(x) => sleep := x;
      case SkillsC(x) => skills := x;
      case RoleC(x) => role := x;
    }

    method Remove(k: Kind)
      modifies this
      ensures !Has(k)
      ensures forall k' :: k' != k ==> Get(k') == old(Get(k'))
    {
      match k
      case AIKind => ai := null;
      case NeedsKind => needs := null;
      case PositionKind => pos := null;
      case InventoryKind => inv := null;
      case HealthKind => health := null;
      case BuildingKind => building := null;
      case WorkSettingsKind => ws := null;
      case MoodKind => mood := null;
      case AgingKind => aging := null;
      case LeaderKind => leader := null;
      case IdentityKind => identity := null;
      case BedKind => bed := null;
      case SleepQualityKind => sleep := null;
      case SkillsKind => skills := null;
      case RoleKind => role := null;
    }

    predicate HasAll(kinds: seq<Kind>)
      reads this
    {
      forall i :: 0 <= i < |kinds| ==> Has(kinds[i])
    }

    /** The component objects this entity holds. */
    ghost function Parts(): set<object>
      reads this
    {
      (if ai == null then {} else {ai as object})
      + (if needs == null then {} else {needs as object})
      + (if pos == null then {} else {pos as object})
      + (if inv == null then {} else {inv as object})
      + (if health == null then {} else {health as object})
      + (if building == null then {} else {building as object})
      + (if ws == null then {} else {ws as object})
      + (if mood == null then {} else {mood as object})
      + (if aging == null then {} else {aging as object})
      + (if leader == null then {} else {leader as object})
      + (if identity == null then {} else {identity as object})
      + (if bed == null then {} else {bed as object})
      + (if sleep == null then {} else {sleep as object})
      + (if skills == null then {} else {skills as object})
      + (if role == null then {} else {role as object})
    }
  }

  ghost function EntitySet(es: seq<Entity>): set<object>
  {
    set x | x in es :: x as object
  }

  /** Every entity of es and every component object they hold. */
  ghost function Footprint(es: seq<Entity>): set<object>
    reads es
  {
    EntitySet(es) + (set x, o | x in es && o in x.Parts() :: o)
  }

  /** The task records held by the entities of es. */
  ghost function AIsOf(es: seq<Entity>): set<AIComponent>
    reads es
  {
    set x | x in es && x.ai != null :: x.ai
  }

  /** The positions held by the entities of es. */
  ghost function PositionsOf(es: seq<Entity>): set<PositionComponent>
    reads es
  {
    set x | x in es && x.pos != null :: x.pos
  }

  /** The inventories held by the entities of es. */
  ghost function InventoriesOf(es: seq<Entity>): set<InventoryComponent>
    reads es
  {
    set x | x in es && x.inv != null :: x.inv
  }

  /** The needs held by the entities of es. */
  ghost function NeedsOf(es: seq<Entity>): set<NeedsComponent>
    reads es
  {
    set x | x in es && x.needs != null :: x.needs
  }

  /** The health records held by the entities of es. */
  ghost function HealthsOf(es: seq<Entity>): set<HealthComponent>
    reads es
  {
    set x | x in es && x.health != null :: x.health
  }

  /** The sleep records held by the entities of es. */
  ghost function SleepsOf(es: seq<Entity>): set<SleepQualityComponent>
    reads es
  {
    set x | x in es && x.sleep != null :: x.sleep
  }

  /** The mood records held by the entities of es. */
  ghost function MoodsOf(es: seq<Entity>): set<MoodComponent>
    reads es
  {
    set x | x in es && x.mood != null :: x.mood
  }

  /** The aging records held by the entities of es. */
  ghost function AgingsOf(es: seq<Entity>): set<AgingComponent>
    reads es
  {
    set x | x in es && x.aging != null :: x.aging
  }

  /** The identity records held by the entities of es. */
  ghost function IdentitiesOf(es: seq<Entity>): set<IdentityComponent>
    reads es
  {
    set x | x in es && x.identity != null :: x.identity
  }

  /** No two of es share a needs record, so each is changed exactly once. */
  predicate DistinctNeeds(es: seq<Entity>)
    reads es
  {
    forall i, j :: 0 <= i < j < |es| ==> es[i].needs != es[j].needs
  }

  /** No two of es share a health record. */
  predicate DistinctHealths(es: seq<Entity>)
    reads es
  {
    forall i, j :: 0 <= i < j < |es| ==> es[i].health != es[j].health
  }

  /** No two of es share a mood record. */
  predicate DistinctMoods(es: seq<Entity>)
    reads es
  {
    forall i, j :: 0 <= i < j < |es| ==> es[i].mood != es[j].mood
  }

  /** No two of es share an aging record. */
  predicate DistinctAgings(es: seq<Entity>)
    reads es
  {
    forall i, j :: 0 <= i < j < |es| ==> es[i].aging != es[j].aging
  }

  /** The entities of es holding every kind in kinds, in their order in es. */
  function With(es: seq<Entity>, kinds: seq<Kind>): seq<Entity>
    reads es
    decreases |es|
  {
    if es == [] then []
    else if es[0].HasAll(kinds) then [es[0]] + With(es[1..], kinds)
    else With(es[1..], kinds)
  }

  /** Exactly the entities holding every requested kind are selected, and with no kinds all of them. */
  lemma {:induction false} WithSelects(es: seq<Entity>, kinds: seq<Kind>, x: Entity)
    ensures x in With(es, kinds) <==> x in es && x.HasAll(kinds)
    ensures kinds == [] ==> With(es, kinds) == es
  {
    if es != [] {
      WithSelects(es[1..], kinds, x);
      assert es == [es[0]] + es[1..];
    }
  }

  /** Asking for a single kind asks whether that one slot is filled. */
  lemma HasAllSingle(e: Entity, k: Kind)
    ensures e.HasAll([k]) <==> e.Has(k)
  {
    assert [k][0] == k;
  }

  /** Position of the first occurrence of x in s. */
  function FirstIndex<T(==)>(s: seq<T>, x: T): (i: nat)
    requires x in s
    ensures i < |s| && s[i] == x && x !in s[..i]
  {
    if s[0] == x then 0 else 1 + FirstIndex(s[1..], x)
  }

  /** The list without the first occurrence of x. */
  function RemoveFirst<T(==)>(s: seq<T>, x: T): seq<T>
  {
    if s == [] then []
    else if s[0] == x then s[1..]
    else [s[0]] + RemoveFirst(s[1..], x)
  }

  /** Removing drops exactly the first occurrence, keeping the others in order; a missing element changes nothing. */
  lemma {:induction false} RemoveFirstSpec<T>(s: seq<T>, x: T)
    ensures x !in s ==> RemoveFirst(s, x) == s
    ensures x in s ==> RemoveFirst(s, x) == s[..FirstIndex(s, x)] + s[FirstIndex(s, x) + 1..]
  {
    if s != [] && s[0] != x {
      RemoveFirstSpec(s[1..], x);
      assert s == [s[0]] + s[1..];
      if x in s {
        assert x in s[1..];
        assert s[..FirstIndex(s, x)] == [s[0]] + s[1..][..FirstIndex(s[1..], x)];
      }
    }
  }

  class ECSWorld {
    var entities: seq<Entity>

    constructor ()
      ensures entities == []
    {
      entities := [];
    }

    method CreateEntity(counter: IdCounter) returns (e: Entity)
      modifies this`entities, counter
      ensures fresh(e) && entities == old(entities) + [e]
      ensures e.id == old(counter.nextId) && counter.nextId == old(counter.nextId) + 1
      ensures e.Bare()
    {
      e := new Entity(counter);
      entities := entities + [e];
    }

    method AddEntity(e: Entity)
      modifies this`entities
      ensures entities == old(entities) + [e]
    {
      entities := entities + [e];
    }

    method RemoveEntity(e: Entity)
      modifies this`entities
      ensures entities == RemoveFirst(old(entities), e)
      ensures e !in old(entities) ==> entities == old(entities)
      ensures e in old(entities) ==>
        entities == old(entities)[..FirstIndex(old(entities), e)] + old(entities)[FirstIndex(old(entities), e) + 1..]
    {
      RemoveFirstSpec(entities, e);
      entities := RemoveFirst(entities, e);
    }

    /** The current registry contents. */
    function GetAll(): seq<Entity>
      reads this
    {
      entities
    }

    /** The entities that hold every requested kind, in registry order. */
    method GetEntitiesWith(kinds: seq<Kind>) returns (result: seq<Entity>)
      ensures result == With(entities, kinds)
      ensures forall x :: x in result <==> x in entities && x.HasAll(kinds)
    {
      result := [];
      var i := 0;
      while i < |entities|
        invariant 0 <= i <= |entities|
        invariant result + With(entities[i..], kinds) == With(entities, kinds)
      {
        var entity := entities[i];
        var hasAll := true;
        var j := 0;
        while j < |kinds|
          invariant 0 <= j <= |kinds|
          invariant hasAll <==> forall m :: 0 <= m < j ==> entity.Has(kinds[m])
        {
          if !entity.Has(kinds[j]) {
            hasAll := false;
            break;
          }
          j := j + 1;
        }
        assert hasAll <==> entity.HasAll(kinds);
        assert entities[i..] == [entity] + entities[i + 1..];
        if hasAll {
          result := result + [entity];
        }
        i := i + 1;
      }
      assert entities[i..] == [];
      forall x ensures x in result <==> x in entities && x.HasAll(kinds) {
        WithSelects(entities, kinds, x);
      }
    }
  }
}
