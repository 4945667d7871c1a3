/**
 * Shared value types of the colony simulation: optional values, items,
 * task kinds, event kinds and the few real-number helpers that Java's
 * float arithmetic and casts need.
 */
module Common {

  datatype Option<T> = None | Some(value: T)

  /** Item kinds that the modelled code creates or asks for. */
  datatype ItemType = Food | Stone | Wood

  /** An item carries only its kind. */
  datatype Item = Item(itemType: ItemType)

  /** Task kinds an agent's task record can hold. */
  datatype TaskType =
    | Idle
    | MoveToFood
    | MoveToStockpile
    | MoveToMiner
    | MoveToFoodGrower
    | Hauling
    | Resting
    | Wander
    | Socializing

  /** Event kinds of the event bus, in declaration order. */
  datatype EventType =
    | ResourceProduced
    | ResourceConsumed
    | ColonistDied
    | ColonistBorn
    | PollutionIncreased
    | BuildingPlaced
    | BuildingCompleted
    | ResearchCompleted
    | LeaderDied
    | LeaderSucceeded
    | FactionRelationChanged
    | ColonistRecruited
    | BlueprintPlaced
    | BlueprintCompleted

  /** Colonist job roles, in declaration order. */
  datatype ColonistRole = Idle | Farmer | Miner | Hauler | Builder | Researcher | Medic | Soldier

  /** Terrain of a tile. */
  datatype TerrainType = Water | Sand | Grass | Dirt | Stone

  /** No element occurs at two positions. */
  predicate NoDuplicates<T(==)>(s: seq<T>)
  {
    forall i, j :: 0 <= i < j < |s| ==> s[i] != s[j]
  }

  function Min(a: real, b: real): real { if a <= b then a else b }

  function Max(a: real, b: real): real { if a >= b then a else b }

  /** Java's `(int) f` on a float: truncation toward zero. */
  function Trunc(r: real): (n: int)
    ensures r >= 0.0 ==> n == r.Floor
    ensures r < 0.0 ==> n == -((-r).Floor)
  {
    if r >= 0.0 then r.Floor else -((-r).Floor)
  }

  /** Java's `Math.min(x, y)` / `Math.max(x, y)` keep the result between both bounds. */
  lemma ClampBetween(lo: real, hi: real, x: real)
    requires lo <= hi
    ensures lo <= Max(lo, Min(hi, x)) <= hi
  {
  }
}
