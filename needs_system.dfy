/**
 * The needs system: every tick, for each entity with needs and a health
 * record, a dead entity drops what it carries (once), counts down to its
 * despawn and is removed thirty seconds after death; a living one loses
 * hunger and energy, takes starvation damage when starving, regains
 * health when fed and rested, and dies when its health reaches 0.
 * Removal happens only after every entity has been stepped.
 */
module NeedsSystems {

  import opened Common
  import opened Tiles
  import opened Worlds
  import opened Ecs
  import opened DataComponents
  import opened NeedsComponents
  import opened NeedTiers

  /** Seconds after death before the body is removed. */
  const DEATH_DESPAWN_SECONDS: real := 30.0
  /** Health lost per second while starving. */
  const STARVATION_DAMAGE: real := 0.025

  /** The component kinds the needs system steps. */
  const NeedsKinds: seq<Kind> := [NeedsKind, HealthKind]

  /** Every selected entity is registered and holds needs and a health record. */
  lemma NeedsSelected(es: seq<Entity>)
    ensures forall k :: 0 <= k < |With(es, NeedsKinds)| ==>
      var x := With(es, NeedsKinds)[k];
      x in es && x.needs != null && x.health != null
  {
    var cs := With(es, NeedsKinds);
    forall k | 0 <= k < |cs| ensures cs[k] in es && cs[k].needs != null && cs[k].health != null {
      WithSelects(es, NeedsKinds, cs[k]);
      assert cs[k].Has(NeedsKinds[0]) && cs[k].Has(NeedsKinds[1]);
    }
  }

  /** The tile a position stands on: its coordinates truncated toward zero. */
  function TileUnder(world: World, pos: PositionComponent): (t: Tile?)
    requires world.Valid()
    reads pos
    ensures t == null <==> !world.InBounds(Trunc(pos.x), Trunc(pos.y))
    ensures t != null ==> t.x == Trunc(pos.x) && t.y == Trunc(pos.y) && t in world.TileSet()
  {
    var t := world.GetTile(Trunc(pos.x), Trunc(pos.y));
    if t != null then assert world.tiles[t.x][t.y] == t; t else t
  }

  /** Whether e carries an item and stands somewhere: the case in which death drops it. */
  predicate HasDrop(e: Entity)
    reads e, e.inv
  {
    e.inv != null && e.inv.carriedItem.Some? && e.pos != null
  }

  /**
   * The death drop, done once per body: it marks the drop as done; the
   * first time, an entity that carries an item and has a position empties
   * its hands and the item lands on the tile under it (and is lost when
   * that lies outside the map). Every other tile, and every other case,
   * is left as it was.
   */
  method DropOnDeath(e: Entity, world: World)
    requires world.Valid() && e.health != null
    modifies e.health`deathItemsDropped, e.inv, world.TileSet()
    ensures e.health.deathItemsDropped
    ensures old(e.health.deathItemsDropped) || !old(HasDrop(e)) ==>
      (e.inv != null ==> unchanged(e.inv)) && forall t :: t in world.TileSet() ==> unchanged(t)
    ensures !old(e.health.deathItemsDropped) && old(HasDrop(e)) ==>
      && e.inv.carriedItem.None?
      && var under := TileUnder(world, e.pos);
         && (under != null ==> under.groundItems == old(under.groundItems) + [old(e.inv.carriedItem).value])
         && forall t :: t in world.TileSet() && t != under ==> unchanged(t)
  {
    if e.health.deathItemsDropped {
      return;
    }
    e.health.deathItemsDropped := true;
    var inv, pos := e.inv, e.pos;
    if inv != null && inv.carriedItem.Some? && pos != null {
      var tile := TileUnder(world, pos);
      if tile != null {
        tile.AddItem(inv.carriedItem.value);
      }
      inv.carriedItem := None;
    }
  }

  /** A need after decay over delta seconds at the given rate: never below 0. */
  function Decayed(level: real, rate: real, delta: real): (r: real)
    ensures r >= 0.0
    ensures r == 0.0 || r == level - rate * delta
    ensures rate * delta >= 0.0 ==> r <= level || level < 0.0
  {
    Max(0.0, level - rate * delta)
  }

  /**
   * A living entity's health after its needs decayed to hunger and energy:
   * starvation damage when Starving, regeneration (capped at full) when Fed
   * and Rested, otherwise unchanged.
   */
  function Regen(hunger: real, energy: real, health: real, delta: real, regen: real): (h: real)
    ensures delta >= 0.0 && 0.0 <= health <= FULL && regen >= 0.0 ==> 0.0 <= h <= FULL
    ensures delta >= 0.0 && HungerFromLevel(hunger) == Starving ==> h <= health || health < 0.0
    ensures delta >= 0.0 && regen >= 0.0 && HungerFromLevel(hunger) != Starving ==> h >= health || health > FULL
    ensures h != health ==> HungerFromLevel(hunger) == Starving || (HungerFromLevel(hunger) == Fed && EnergyFromLevel(energy) == Rested)
  {
    if HungerFromLevel(hunger) == Starving then Max(0.0, health - STARVATION_DAMAGE * delta)
    else if HungerFromLevel(hunger) == Fed && EnergyFromLevel(energy) == Rested then Min(FULL, health + regen * delta)
    else health
  }

  /**
   * One tick of a living entity's needs: hunger and energy decay (never
   * below 0); health then drops by the starvation damage when the new
   * hunger tier is Starving, rises by regen·delta (capped at full) when the
   * new tiers are Fed and Rested, and is otherwise unchanged. Mood is
   * left alone.
   */
  method DecayNeeds(needs: NeedsComponent, delta: real, regen: real)
    modifies needs
    ensures needs.hunger == Decayed(old(needs.hunger), HUNGER_DECAY, delta)
    ensures needs.energy == Decayed(old(needs.energy), ENERGY_DECAY, delta)
    ensures needs.mood == old(needs.mood)
    ensures needs.HungerTier() == Starving ==> needs.health == Max(0.0, old(needs.health) - STARVATION_DAMAGE * delta)
    ensures needs.HungerTier() == Fed && needs.EnergyTier() == Rested ==>
      needs.health == Min(FULL, old(needs.health) + regen * delta)
    ensures needs.health != old(needs.health) ==>
      needs.HungerTier() == Starving || (needs.HungerTier() == Fed && needs.EnergyTier() == Rested)
    ensures needs.health == Regen(needs.hunger, needs.energy, old(needs.health), delta, regen)
  {
    needs.hunger := Decayed(needs.hunger, HUNGER_DECAY, delta);
    needs.energy := Decayed(needs.energy, ENERGY_DECAY, delta);
    if needs.HungerTier() == Starving {
      needs.Damage(STARVATION_DAMAGE * delta);
    }
    if needs.HungerTier() == Fed && needs.EnergyTier() == Rested {
      needs.Heal(regen * delta);
    }
  }

  /** What a tick reads of an entity's needs and health record. */
  datatype Vitals = Vitals(dead: bool, deathTimer: real, hunger: real, energy: real, health: real)

  /** The vitals of e; an entity lacking needs or health has none to speak of. */
  function VitalsOf(e: Entity): Vitals
    reads e, e.needs, e.health
  {
    if e.needs == null || e.health == null then Vitals(false, 0.0, 0.0, 0.0, 0.0)
    else Vitals(e.health.dead, e.health.deathTimer, e.needs.hunger, e.needs.energy, e.needs.health)
  }

  /** The vitals of every entity of es, in order. */
  ghost function VitalsIn(es: seq<Entity>): (vs: seq<Vitals>)
    reads es, NeedsOf(es), HealthsOf(es)
    ensures |vs| == |es|
  {
    if es == [] then [] else VitalsIn(es[..|es| - 1]) + [VitalsOf(es[|es| - 1])]
  }

  /** Entry k of VitalsIn is the vitals of es[k]. */
  lemma {:induction false} VitalsInAt(es: seq<Entity>, k: nat)
    requires k < |es|
    ensures VitalsIn(es)[k] == VitalsOf(es[k])
  {
    if k < |es| - 1 {
      VitalsInAt(es[..|es| - 1], k);
    }
  }

  /** Whether an entity whose vitals were v is due for removal after a tick of delta. */
  predicate Due(v: Vitals, delta: real)
  {
    v.dead && v.deathTimer + delta >= DEATH_DESPAWN_SECONDS
  }

  /**
   * The tick's effect on one entity whose vitals were before. A dead one
   * keeps its needs, stays dead, has done its death drop and its timer
   * has grown by delta. A living one keeps its timer, its hunger and
   * energy have decayed, its health has been regenerated or damaged by
   * the new tiers, and it is dead exactly when that health is at most 0.
   */
  predicate Stepped(e: Entity, before: Vitals, delta: real, regen: real)
    reads e, e.needs, e.health
  {
    e.needs != null && e.health != null ==>
      if before.dead then
        && e.health.dead && e.health.deathItemsDropped
        && e.health.deathTimer == before.deathTimer + delta
        && e.needs.hunger == before.hunger && e.needs.energy == before.energy && e.needs.health == before.health
      else
        && e.health.deathTimer == before.deathTimer
        && e.needs.hunger == Decayed(before.hunger, HUNGER_DECAY, delta)
        && e.needs.energy == Decayed(before.energy, ENERGY_DECAY, delta)
        && e.needs.health == Regen(e.needs.hunger, e.needs.energy, before.health, delta, regen)
        && (e.health.dead <==> e.needs.health <= 0.0)
  }

  /**
   * One entity's step. A dead entity's needs stay as they are: it does its
   * death drop, its death timer grows by delta and it is due for removal
   * exactly when the timer has reached DEATH_DESPAWN_SECONDS. A living
   * entity's needs decay, it is never due for removal, its inventory and
   * the tiles are untouched, and it is dead afterwards exactly when its
   * health is at most 0.
   */
  method StepEntity(e: Entity, world: World, delta: real, regen: real) returns (remove: bool)
    requires world.Valid() && e.needs != null && e.health != null
    modifies e.needs, e.health, e.inv, world.TileSet()
    ensures old(e.health.dead) ==>
      && e.health.dead && unchanged(e.needs)
      && e.health.deathTimer == old(e.health.deathTimer) + delta
      && e.health.deathItemsDropped
      && (remove <==> e.health.deathTimer >= DEATH_DESPAWN_SECONDS)
    ensures !old(e.health.dead) ==>
      && !remove
      && (e.inv != null ==> unchanged(e.inv)) && (forall t :: t in world.TileSet() ==> unchanged(t))
      && e.health.deathTimer == old(e.health.deathTimer)
      && e.health.deathItemsDropped == old(e.health.deathItemsDropped)
      && (e.health.dead <==> e.needs.health <= 0.0)
      && e.needs.hunger == Decayed(old(e.needs.hunger), HUNGER_DECAY, delta)
      && e.needs.energy == Decayed(old(e.needs.energy), ENERGY_DECAY, delta)
    ensures old(e.health.dead) && old(e.health.deathItemsDropped) ==>
      (e.inv != null ==> unchanged(e.inv)) && forall t :: t in world.TileSet() ==> unchanged(t)
    ensures Stepped(e, old(VitalsOf(e)), delta, regen)
    ensures remove <==> Due(old(VitalsOf(e)), delta)
  {
    var health := e.health;
    if health.dead {
      DropOnDeath(e, world);
      health.deathTimer := health.deathTimer + delta;
      return health.deathTimer >= DEATH_DESPAWN_SECONDS;
    }
    var needs := e.needs;
    DecayNeeds(needs, delta, regen);
    if needs.health <= 0.0 {
      health.dead := true;
    }
    remove := false;
  }

  /** s with the first occurrence of each element of r removed, in the order of r. */
  function RemoveAll(s: seq<Entity>, r: seq<Entity>): seq<Entity>
  {
    if r == [] then s else RemoveFirst(RemoveAll(s, r[..|r| - 1]), r[|r| - 1])
  }

  /** Removing never adds: whatever is left was there before. */
  lemma {:induction false} RemoveFirstWithin(s: seq<Entity>, x: Entity)
    ensures forall y :: y in RemoveFirst(s, x) ==> y in s
  {
    if s != [] && s[0] != x {
      RemoveFirstWithin(s[1..], x);
    }
  }

  /** Whatever RemoveAll leaves was in the original list. */
  lemma {:induction false} RemoveAllWithin(s: seq<Entity>, r: seq<Entity>)
    ensures forall y :: y in RemoveAll(s, r) ==> y in s
  {
    if r != [] {
      RemoveAllWithin(s, r[..|r| - 1]);
      RemoveFirstWithin(RemoveAll(s, r[..|r| - 1]), r[|r| - 1]);
    }
  }

  /** On a list without duplicates, removing x leaves exactly the other elements, still without duplicates. */
  lemma {:induction false} RemoveFirstDistinct(s: seq<Entity>, x: Entity)
    requires NoDuplicates(s)
    ensures NoDuplicates(RemoveFirst(s, x))
    ensures forall y :: y in RemoveFirst(s, x) <==> y in s && y != x
  {
    if s != [] {
      assert s == [s[0]] + s[1..];
      assert NoDuplicates(s[1..]) by {
        forall i, j | 0 <= i < j < |s[1..]| ensures s[1..][i] != s[1..][j] {
          assert s[1..][i] == s[i + 1] && s[1..][j] == s[j + 1];
        }
      }
      if s[0] == x {
        assert x !in s[1..] by {
          forall j | 0 <= j < |s[1..]| ensures s[1..][j] != x {
            assert s[1..][j] == s[j + 1];
          }
        }
      } else {
        RemoveFirstDistinct(s[1..], x);
        var r := RemoveFirst(s[1..], x);
        assert s[0] !in r by {
          forall j | 0 <= j < |s[1..]| ensures s[1..][j] != s[0] {
            assert s[1..][j] == s[j + 1];
          }
        }
        forall i, j | 0 <= i < j < |[s[0]] + r| ensures ([s[0]] + r)[i] != ([s[0]] + r)[j] {
          if i > 0 {
            assert ([s[0]] + r)[i] == r[i - 1] && ([s[0]] + r)[j] == r[j - 1];
          } else {
            assert ([s[0]] + r)[j] == r[j - 1];
          }
        }
      }
    }
  }

  /**
   * On a registry without duplicates, removing the entities of r leaves
   * exactly the entities of s that are not in r.
   */
  lemma {:induction false} RemoveAllSpec(s: seq<Entity>, r: seq<Entity>)
    requires NoDuplicates(s)
    ensures NoDuplicates(RemoveAll(s, r))
    ensures forall x :: x in RemoveAll(s, r) <==> x in s && x !in r
  {
    if r != [] {
      RemoveAllSpec(s, r[..|r| - 1]);
      RemoveFirstDistinct(RemoveAll(s, r[..|r| - 1]), r[|r| - 1]);
      assert forall x :: x in r <==> x in r[..|r| - 1] || x == r[|r| - 1];
    }
  }

  /** No two of es share a needs record or a health record, so each is stepped exactly once. */
  predicate DistinctVitals(es: seq<Entity>)
    reads es
  {
    DistinctNeeds(es) && DistinctHealths(es)
  }

  /** The entities of cs due for removal, by the vitals vs they started the tick with, in order. */
  function Collected(cs: seq<Entity>, vs: seq<Vitals>, delta: real): seq<Entity>
    requires |cs| == |vs|
  {
    if cs == [] then []
    else Collected(cs[..|cs| - 1], vs[..|vs| - 1], delta) + if Due(vs[|vs| - 1], delta) then [cs[|cs| - 1]] else []
  }

  /** An entity is collected exactly when it is one of cs whose starting vitals made it due. */
  lemma {:induction false} CollectedMembers(cs: seq<Entity>, vs: seq<Vitals>, delta: real)
    requires |cs| == |vs|
    ensures forall x :: x in Collected(cs, vs, delta) <==> exists k :: 0 <= k < |cs| && cs[k] == x && Due(vs[k], delta)
  {
    if cs != [] {
      var n := |cs| - 1;
      CollectedMembers(cs[..n], vs[..n], delta);
      forall x ensures x in Collected(cs, vs, delta) <==> exists k :: 0 <= k < |cs| && cs[k] == x && Due(vs[k], delta) {
        if x in Collected(cs, vs, delta) && x !in Collected(cs[..n], vs[..n], delta) {
          assert cs[n] == x && Due(vs[n], delta);
        }
        if exists k :: 0 <= k < |cs| && cs[k] == x && Due(vs[k], delta) {
          var k :| 0 <= k < |cs| && cs[k] == x && Due(vs[k], delta);
          if k < n {
            assert cs[..n][k] == x && vs[..n][k] == vs[k];
          }
        }
      }
    }
  }

  /**
   * Part way through the stepping pass: the first i candidates have been
   * stepped from their starting vitals, the rest still hold them.
   */
  predicate SteppedUpTo(cs: seq<Entity>, i: nat, vs: seq<Vitals>, delta: real, regen: real)
    requires i <= |cs| == |vs|
    reads cs, NeedsOf(cs), HealthsOf(cs)
  {
    && (forall k :: 0 <= k < i ==> Stepped(cs[k], vs[k], delta, regen))
    && (forall k :: i <= k < |cs| ==> VitalsOf(cs[k]) == vs[k])
  }

  /**
   * The stepping pass: each candidate is stepped once, in order, and
   * those found due for removal are collected in that order. Every
   * entity collected is a candidate and is dead when the pass ends. When
   * no two candidates share a needs or health record, every candidate has
   * been stepped from the vitals it started with, and the entities
   * collected are exactly those the starting vitals made due.
   */
  method StepAll(candidates: seq<Entity>, ghost es: seq<Entity>, world: World, delta: real, regen: real)
    returns (removed: seq<Entity>)
    requires world.Valid()
    requires forall k :: 0 <= k < |candidates| ==> candidates[k] in es
    requires forall k :: 0 <= k < |candidates| ==> candidates[k].needs != null && candidates[k].health != null
    modifies NeedsOf(es), HealthsOf(es), InventoriesOf(es), world.TileSet()
    ensures forall k :: 0 <= k < |removed| ==> removed[k] in candidates
    ensures forall k :: 0 <= k < |removed| ==> removed[k].health.dead
    ensures DistinctVitals(candidates) ==> removed == Collected(candidates, old(VitalsIn(candidates)), delta)
    ensures DistinctVitals(candidates) ==>
      forall k :: 0 <= k < |candidates| ==> Stepped(candidates[k], old(VitalsIn(candidates))[k], delta, regen)
  {
    ghost var vs := VitalsIn(candidates);
    forall k | 0 <= k < |candidates| ensures VitalsOf(candidates[k]) == vs[k] {
      VitalsInAt(candidates, k);
    }
    removed := StepFrom(candidates, es, world, delta, regen, vs);
  }

  /** The loop of the stepping pass, from vitals vs that every candidate still holds. */
  method StepFrom(candidates: seq<Entity>, ghost es: seq<Entity>, world: World, delta: real, regen: real,
                  ghost vs: seq<Vitals>)
    returns (removed: seq<Entity>)
    requires world.Valid() && |candidates| == |vs|
    requires forall k :: 0 <= k < |candidates| ==> candidates[k] in es
    requires forall k :: 0 <= k < |candidates| ==> candidates[k].needs != null && candidates[k].health != null
    requires DistinctVitals(candidates) ==> SteppedUpTo(candidates, 0, vs, delta, regen)
    modifies NeedsOf(es), HealthsOf(es), InventoriesOf(es), world.TileSet()
    ensures forall k :: 0 <= k < |removed| ==> removed[k] in candidates
    ensures forall k :: 0 <= k < |removed| ==> removed[k].health != null && removed[k].health.dead
    ensures DistinctVitals(candidates) ==>
      SteppedUpTo(candidates, |candidates|, vs, delta, regen) && removed == Collected(candidates, vs, delta)
  {
    removed := [];
    for i := 0 to |candidates|
      invariant forall k :: 0 <= k < |removed| ==> removed[k] in candidates
      invariant forall k :: 0 <= k < |removed| ==> removed[k].health != null && removed[k].health.dead
      invariant DistinctVitals(candidates) ==>
        SteppedUpTo(candidates, i, vs, delta, regen) && removed == Collected(candidates[..i], vs[..i], delta)
    {
      var e := candidates[i];
      assert e in es;
      assert e.needs in NeedsOf(es) && e.health in HealthsOf(es);
      assert e.inv != null ==> e.inv in InventoriesOf(es);
      removed := StepOne(candidates, i, world, delta, regen, removed, vs);
    }
    assert candidates[..|candidates|] == candidates && vs[..|vs|] == vs;
  }

  /**
   * One candidate's step within the stepping pass: candidates[i] is
   * stepped and, when due for removal, appended to the entities collected
   * so far; those stay dead. With distinct records the pass has advanced
   * by one candidate.
   */
  method StepOne(candidates: seq<Entity>, i: nat, world: World, delta: real, regen: real,
                 removed: seq<Entity>, ghost vs: seq<Vitals>)
    returns (removed': seq<Entity>)
    requires world.Valid() && i < |candidates| == |vs|
    requires candidates[i].needs != null && candidates[i].health != null
    requires forall k :: 0 <= k < |removed| ==> removed[k].health != null && removed[k].health.dead
    requires DistinctVitals(candidates) ==>
      SteppedUpTo(candidates, i, vs, delta, regen) && removed == Collected(candidates[..i], vs[..i], delta)
    modifies candidates[i].needs, candidates[i].health, candidates[i].inv, world.TileSet()
    ensures removed' == removed || removed' == removed + [candidates[i]]
    ensures forall k :: 0 <= k < |removed'| ==> removed'[k].health != null && removed'[k].health.dead
    ensures DistinctVitals(candidates) ==>
      SteppedUpTo(candidates, i + 1, vs, delta, regen) && removed' == Collected(candidates[..i + 1], vs[..i + 1], delta)
  {
    var e := candidates[i];
    var remove := StepEntity(e, world, delta, regen);
    removed' := removed;
    if remove {
      removed' := removed + [e];
    }
    if DistinctVitals(candidates) {
      assert candidates[..i + 1][..i] == candidates[..i] && vs[..i + 1][..i] == vs[..i];
      forall k | 0 <= k < |candidates| && k != i
        ensures candidates[k].needs != e.needs && candidates[k].health != e.health
      {
      }
    }
  }

  /** Removes the collected entities from the registry, in order. */
  method RemoveCollected(ecs: ECSWorld, removed: seq<Entity>)
    modifies ecs`entities
    ensures ecs.entities == RemoveAll(old(ecs.entities), removed)
  {
    for i := 0 to |removed|
      invariant ecs.entities == RemoveAll(old(ecs.entities), removed[..i])
    {
      assert removed[..i + 1][..i] == removed[..i];
      ecs.RemoveEntity(removed[i]);
    }
    assert removed[..|removed|] == removed;
  }

  /**
   * One tick of the needs system: the stepping pass over the entities
   * holding needs and a health record, in registry order, then the
   * removal of those it collected, only after the last step. Every
   * entity removed is dead.
   */
  method Update(ecs: ECSWorld, world: World, delta: real, regen: real) returns (removed: seq<Entity>)
    requires world.Valid()
    modifies ecs`entities, NeedsOf(ecs.entities), HealthsOf(ecs.entities), InventoriesOf(ecs.entities)
    modifies world.TileSet()
    ensures forall k :: 0 <= k < |removed| ==> removed[k] in old(With(ecs.entities, NeedsKinds))
    ensures forall k :: 0 <= k < |removed| ==> removed[k].health != null && removed[k].health.dead
    ensures ecs.entities == RemoveAll(old(ecs.entities), removed)
    ensures old(DistinctVitals(With(ecs.entities, NeedsKinds))) ==>
      removed == Collected(old(With(ecs.entities, NeedsKinds)), old(VitalsIn(With(ecs.entities, NeedsKinds))), delta)
    ensures old(DistinctVitals(With(ecs.entities, NeedsKinds))) ==>
      forall k :: 0 <= k < old(|With(ecs.entities, NeedsKinds)|) ==>
        Stepped(old(With(ecs.entities, NeedsKinds))[k], old(VitalsIn(With(ecs.entities, NeedsKinds)))[k], delta, regen)
  {
    var candidates := With(ecs.entities, NeedsKinds);
    NeedsSelected(ecs.entities);
    removed := StepAll(candidates, ecs.entities, world, delta, regen);
    RemoveCollected(ecs, removed);
  }
}
