/**
 * The registry scans the behaviour nodes share: buildings holding
 * output (optionally of one type), the nearest such building, and the
 * nearest living non-leader partner for socialising. Each scan is a loop
 * over a registry selection, proved against a specification function.
 */
module NodeQueries {

  import opened Common
  import opened Ecs
  import opened DataComponents
  import opened BuildingComponents
  import opened BuildingProduction

  /** Entities that hold a building component. */
  const BuildingKinds: seq<Kind> := [BuildingKind]
  /** Entities that hold a building component and a position. */
  const PlacedBuildingKinds: seq<Kind> := [BuildingKind, PositionKind]
  /** Entities that can be social partners: position, health and identity. */
  const PersonKinds: seq<Kind> := [PositionKind, HealthKind, IdentityKind]

  /** Every entity a registry selection holds comes from the registry. */
  lemma SelectedFrom(es: seq<Entity>, kinds: seq<Kind>)
    ensures forall x :: x in With(es, kinds) ==> x in es
  {
    forall x | x in With(es, kinds) ensures x in es {
      WithSelects(es, kinds, x);
    }
  }

  /** A placed building selected from the registry holds a building and a position. */
  lemma PlacedSelected(es: seq<Entity>, x: Entity)
    requires x in With(es, PlacedBuildingKinds)
    ensures x in es && x.building != null && x.pos != null
  {
    WithSelects(es, PlacedBuildingKinds, x);
    assert x.Has(PlacedBuildingKinds[0]) && x.Has(PlacedBuildingKinds[1]);
  }

  /** A person selected from the registry holds a position, a health and an identity. */
  lemma PersonSelected(es: seq<Entity>, x: Entity)
    requires x in With(es, PersonKinds)
    ensures x in es && x.pos != null && x.health != null && x.identity != null
  {
    WithSelects(es, PersonKinds, x);
    assert x.Has(PersonKinds[0]) && x.Has(PersonKinds[1]) && x.Has(PersonKinds[2]);
  }

  /** ASCII upper-casing of one character. */
  function UpperAscii(c: char): char
  {
    if 'a' <= c <= 'z' then (c as int - 32) as char else c
  }

  /** Case-insensitive string equality, on ASCII letters. */
  predicate EqualsIgnoreCase(a: string, b: string)
  {
    |a| == |b| && forall i :: 0 <= i < |a| ==> UpperAscii(a[i]) == UpperAscii(b[i])
  }

  /** Which building types a scan accepts. */
  datatype BuildingFilter =
    | AnyBuilding
    | TypeIs(name: string)
    /** "FOOD_GROWER" or "FOODGROWER", in any letter case. */
    | FoodGrowerAnyCase

  predicate TypeMatches(f: BuildingFilter, t: string)
  {
    match f
    case AnyBuilding => true
    case TypeIs(name) => t == name
    case FoodGrowerAnyCase => EqualsIgnoreCase(t, "FOOD_GROWER") || EqualsIgnoreCase(t, "FOODGROWER")
  }

  /** e holds a building of an accepted type with buffered output. */
  predicate Offers(e: Entity, f: BuildingFilter)
    reads e, e.building
  {
    e.building != null && TypeMatches(f, e.building.buildingType) && e.building.HasOutput()
  }

  /** Some entity of es offers output. */
  predicate AnyOffers(es: seq<Entity>, f: BuildingFilter)
    reads es, BuildingsOf(es)
  {
    exists i :: 0 <= i < |es| && Offers(es[i], f)
  }

  /** Index of the first entity of es that offers output, if any. */
  function FirstOffering(es: seq<Entity>, f: BuildingFilter): (r: Option<nat>)
    reads es, BuildingsOf(es)
    ensures r.None? <==> !AnyOffers(es, f)
    ensures r.Some? ==> r.value < |es| && Offers(es[r.value], f)
    ensures r.Some? ==> forall j :: 0 <= j < r.value ==> !Offers(es[j], f)
  {
    if es == [] then None
    else if Offers(es[0], f) then Some(0)
    else
      assert BuildingsOf(es[1..]) <= BuildingsOf(es);
      match FirstOffering(es[1..], f)
      case None => None
      case Some(i) => Some(i + 1)
  }

  /** Whether some entity of es offers output: the scan with early exit. */
  method ScanAnyOffers(es: seq<Entity>, f: BuildingFilter) returns (found: bool)
    ensures found <==> AnyOffers(es, f)
  {
    for i := 0 to |es|
      invariant forall j :: 0 <= j < i ==> !Offers(es[j], f)
    {
      if es[i].building != null && TypeMatches(f, es[i].building.buildingType) && es[i].building.HasOutput() {
        return true;
      }
    }
    return false;
  }

  /** The first entity of es that offers output: the scan with early exit. */
  method ScanFirstOffering(es: seq<Entity>, f: BuildingFilter) returns (r: Option<nat>)
    ensures r == FirstOffering(es, f)
  {
    for i := 0 to |es|
      invariant forall j :: 0 <= j < i ==> !Offers(es[j], f)
    {
      if es[i].building != null && TypeMatches(f, es[i].building.buildingType) && es[i].building.HasOutput() {
        return Some(i);
      }
    }
    return None;
  }

  /** Squared distance between two points. */
  function SqDist(ax: real, ay: real, qx: real, qy: real): (d: real)
    ensures d >= 0.0
  {
    (ax - qx) * (ax - qx) + (ay - qy) * (ay - qy)
  }

  /** Squared distance from (px, py) to the position of e (0 without one). */
  function DistTo(e: Entity, px: real, py: real): real
    reads e, e.pos
  {
    if e.pos == null then 0.0 else SqDist(px, py, e.pos.x, e.pos.y)
  }

  /**
   * es[i] is the nearest entity satisfying sel to (px, py): no other one
   * is nearer, and every one before it is strictly farther.
   */
  ghost predicate NearestAt(es: seq<Entity>, sel: set<Entity>, px: real, py: real, i: nat)
    reads es, PositionsOf(es)
  {
    && i < |es| && es[i] in sel
    && (forall j :: 0 <= j < |es| && es[j] in sel ==> DistTo(es[i], px, py) <= DistTo(es[j], px, py))
    && (forall j :: 0 <= j < i && es[j] in sel ==> DistTo(es[i], px, py) < DistTo(es[j], px, py))
  }

  /** The entities of es that offer output. */
  ghost function OfferingSet(es: seq<Entity>, f: BuildingFilter): set<Entity>
    reads es, BuildingsOf(es)
  {
    set e | e in es && Offers(e, f)
  }

  /**
   * The nearest placed building with output to (px, py), strict `<` so
   * the first in registry order wins ties; None when none has output.
   */
  method ScanNearestOffering(es: seq<Entity>, px: real, py: real) returns (r: Option<nat>)
    requires forall e :: e in es ==> e.pos != null
    ensures r.None? <==> !AnyOffers(es, AnyBuilding)
    ensures r.Some? ==> NearestAt(es, OfferingSet(es, AnyBuilding), px, py, r.value)
  {
    r := None;
    var nearestDist := 0.0;
    for i := 0 to |es|
      invariant r.None? <==> forall j :: 0 <= j < i ==> !Offers(es[j], AnyBuilding)
      invariant r.Some? ==> r.value < i && Offers(es[r.value], AnyBuilding) && nearestDist == DistTo(es[r.value], px, py)
      invariant r.Some? ==> forall j :: 0 <= j < i && Offers(es[j], AnyBuilding) ==> nearestDist <= DistTo(es[j], px, py)
      invariant r.Some? ==> forall j :: 0 <= j < r.value && Offers(es[j], AnyBuilding) ==> nearestDist < DistTo(es[j], px, py)
    {
      var bc := es[i].building;
      if bc == null || !bc.HasOutput() {
        continue;
      }
      var bp := es[i].pos;
      var dist := SqDist(px, py, bp.x, bp.y);
      if r.None? || dist < nearestDist {
        nearestDist := dist;
        r := Some(i);
      }
    }
  }

  /** other is a social partner for e: someone else, alive, and not the leader. */
  predicate IsPartner(e: Entity, other: Entity)
    reads other, other.health
  {
    other != e && other.health != null && !other.health.dead && other.leader == null
  }

  /** The social partners of e among es. */
  ghost function PartnerSet(e: Entity, es: seq<Entity>): set<Entity>
    reads es, HealthsOf(es)
  {
    set o | o in es && IsPartner(e, o)
  }

  /** Some entity of es is a social partner for e. */
  predicate AnyPartner(e: Entity, es: seq<Entity>)
    reads es, HealthsOf(es)
  {
    exists i :: 0 <= i < |es| && IsPartner(e, es[i])
  }

  /** Whether e has a social partner in es: the scan with early exit. */
  method ScanAnyPartner(e: Entity, es: seq<Entity>) returns (found: bool)
    ensures found <==> AnyPartner(e, es)
  {
    for i := 0 to |es|
      invariant forall j :: 0 <= j < i ==> !IsPartner(e, es[j])
    {
      var other := es[i];
      if other == e {
        continue;
      }
      if other.health == null || other.health.dead {
        continue;
      }
      if other.leader != null {
        continue;
      }
      return true;
    }
    return false;
  }

  /** The nearest social partner of e to (px, py), first wins ties; None when there is none. */
  method ScanNearestPartner(e: Entity, es: seq<Entity>, px: real, py: real) returns (r: Option<nat>)
    requires forall o :: o in es ==> o.pos != null
    ensures r.None? <==> !AnyPartner(e, es)
    ensures r.Some? ==> NearestAt(es, PartnerSet(e, es), px, py, r.value)
  {
    r := None;
    var nearestDist := 0.0;
    for i := 0 to |es|
      invariant r.None? <==> forall j :: 0 <= j < i ==> !IsPartner(e, es[j])
      invariant r.Some? ==> r.value < i && IsPartner(e, es[r.value]) && nearestDist == DistTo(es[r.value], px, py)
      invariant r.Some? ==> forall j :: 0 <= j < i && IsPartner(e, es[j]) ==> nearestDist <= DistTo(es[j], px, py)
      invariant r.Some? ==> forall j :: 0 <= j < r.value && IsPartner(e, es[j]) ==> nearestDist < DistTo(es[j], px, py)
    {
      var other := es[i];
      if other == e || other.health == null || other.health.dead || other.leader != null {
        continue;
      }
      var op := other.pos;
      var dist := SqDist(px, py, op.x, op.y);
      if r.None? || dist < nearestDist {
        nearestDist := dist;
        r := Some(i);
      }
    }
  }
}
