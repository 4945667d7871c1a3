/**
 * A grid tile: fixed coordinates, a terrain kind, a stockpile flag, the
 * building entity standing on it, and the list of items lying on the
 * ground in the order they were dropped.
 */
module Tiles {

  import opened Common
  import opened Ecs

  /** How many items of kind t the list holds. */
  function CountOf(items: seq<Item>, t: ItemType): (n: nat)
    ensures n <= |items|
  {
    if items == [] then 0
    else CountOf(items[..|items| - 1], t) + (if items[|items| - 1].itemType == t then 1 else 0)
  }

  /** Index of the earliest item of kind t, if any. */
  function FirstOfKind(items: seq<Item>, t: ItemType): (r: Option<nat>)
    ensures r.None? ==> forall j :: 0 <= j < |items| ==> items[j].itemType != t
    ensures r.Some? ==> r.value < |items| && items[r.value].itemType == t
    ensures r.Some? ==> forall j :: 0 <= j < r.value ==> items[j].itemType != t
  {
    if items == [] then None
    else if items[0].itemType == t then Some(0)
    else match FirstOfKind(items[1..], t)
      case None => None
      case Some(i) => Some(i + 1)
  }

  /** The list without its earliest item of kind t; unchanged when there is none. */
  function WithoutFirstOfKind(items: seq<Item>, t: ItemType): seq<Item>
  {
    match FirstOfKind(items, t)
    case None => items
    case Some(i) => items[..i] + items[i + 1..]
  }

  lemma {:induction false} CountConcat(a: seq<Item>, b: seq<Item>, t: ItemType)
    ensures CountOf(a + b, t) == CountOf(a, t) + CountOf(b, t)
  {
    if b == [] {
      assert a + b == a;
    } else {
      CountConcat(a, b[..|b| - 1], t);
      assert (a + b)[..|a + b| - 1] == a + b[..|b| - 1];
    }
  }

  /** Some item has kind t exactly when the count of kind t is positive. */
  lemma {:induction false} CountPositiveIffPresent(items: seq<Item>, t: ItemType)
    ensures CountOf(items, t) > 0 <==> exists j :: 0 <= j < |items| && items[j].itemType == t
  {
    if items != [] {
      var init := items[..|items| - 1];
      CountPositiveIffPresent(init, t);
      if CountOf(init, t) > 0 {
        var j :| 0 <= j < |init| && init[j].itemType == t;
        assert items[j] == init[j];
      }
      if exists j :: 0 <= j < |items| && items[j].itemType == t {
        var j :| 0 <= j < |items| && items[j].itemType == t;
        if j < |init| {
          assert init[j] == items[j];
        }
      }
    }
  }

  /** Dropping one item lowers its kind's count by one and keeps every other count. */
  lemma CountWithoutAt(items: seq<Item>, i: nat, t: ItemType)
    requires i < |items|
    ensures CountOf(items[..i] + items[i + 1..], t)
      == CountOf(items, t) - (if items[i].itemType == t then 1 else 0)
  {
    assert items == items[..i] + [items[i]] + items[i + 1..];
    CountConcat(items[..i] + [items[i]], items[i + 1..], t);
    CountConcat(items[..i], items[i + 1..], t);
    assert (items[..i] + [items[i]])[..i] == items[..i];
  }

  /**
   * Adding an item and then taking the first item of that kind gives back
   * every kind's count, even when the item taken is an older one.
   */
  lemma AddThenTakeRestoresCounts(items: seq<Item>, item: Item, u: ItemType)
    ensures CountOf(WithoutFirstOfKind(items + [item], item.itemType), u) == CountOf(items, u)
  {
    var s := items + [item];
    assert s[..|s| - 1] == items;
    assert s[|s| - 1].itemType == item.itemType;
    var i := FirstOfKind(s, item.itemType).value;
    CountWithoutAt(s, i, u);
  }

  class Tile {
    const x: int
    const y: int
    var terrain: TerrainType
    var stockpile: bool
    var groundItems: seq<Item>
    /** The building entity standing here (not declared in the shown class). */
    var buildingEntity: Entity?

    constructor (x0: int, y0: int, terrain0: TerrainType)
      ensures x == x0 && y == y0 && terrain == terrain0
      ensures !stockpile && groundItems == [] && buildingEntity == null
    {
      x, y, terrain := x0, y0, terrain0;
      stockpile := false;
      groundItems := [];
      buildingEntity := null;
    }

    /** Whether an item of kind t lies here: exactly when its count is positive. */
    method HasItem(t: ItemType) returns (b: bool)
      ensures b <==> CountOf(groundItems, t) > 0
      ensures b <==> exists j :: 0 <= j < |groundItems| && groundItems[j].itemType == t
    {
      CountPositiveIffPresent(groundItems, t);
      for i := 0 to |groundItems|
        invariant forall j :: 0 <= j < i ==> groundItems[j].itemType != t
      {
        if groundItems[i].itemType == t {
          return true;
        }
      }
      return false;
    }

    method CountItems(t: ItemType) returns (n: nat)
      ensures n == CountOf(groundItems, t) && n <= |groundItems|
    {
      n := 0;
      for i := 0 to |groundItems|
        invariant n == CountOf(groundItems[..i], t)
      {
        assert groundItems[..i + 1][..i] == groundItems[..i];
        if groundItems[i].itemType == t {
          n := n + 1;
        }
      }
      assert groundItems[..|groundItems|] == groundItems;
    }

    /** Appends at the end: the item's kind gains one, other kinds are unchanged. */
    method AddItem(item: Item)
      modifies this`groundItems
      ensures groundItems == old(groundItems) + [item]
      ensures forall u ::
        CountOf(groundItems, u) == CountOf(old(groundItems), u) + (if u == item.itemType then 1 else 0)
    {
      groundItems := groundItems + [item];
      assert groundItems[..|groundItems| - 1] == old(groundItems);
    }

    /**
     * Removes and returns the earliest item of kind t, keeping the order of
     * the rest; with no such item returns None and changes nothing.
     */
    method TakeFirstItem(t: ItemType) returns (r: Option<Item>)
      modifies this`groundItems
      ensures groundItems == WithoutFirstOfKind(old(groundItems), t)
      ensures r.None? <==> CountOf(old(groundItems), t) == 0
      ensures r.None? ==> groundItems == old(groundItems)
      ensures r.Some? ==> r.value.itemType == t && |groundItems| == |old(groundItems)| - 1
      ensures r.Some? ==>
        exists i :: 0 <= i < |old(groundItems)| && old(groundItems)[i] == r.value
          && groundItems == old(groundItems)[..i] + old(groundItems)[i + 1..]
          && forall j :: 0 <= j < i ==> old(groundItems)[j].itemType != t
      ensures forall u ::
        CountOf(groundItems, u) == CountOf(old(groundItems), u) - (if r.Some? && u == t then 1 else 0)
    {
      CountPositiveIffPresent(groundItems, t);
      for i := 0 to |groundItems|
        invariant forall j :: 0 <= j < i ==> groundItems[j].itemType != t
        invariant groundItems == old(groundItems)
      {
        if groundItems[i].itemType == t {
          r := Some(groundItems[i]);
          assert FirstOfKind(groundItems, t) == Some(i);
          forall u ensures CountOf(groundItems[..i] + groundItems[i + 1..], u)
            == CountOf(groundItems, u) - (if u == t then 1 else 0)
          {
            CountWithoutAt(groundItems, i, u);
          }
          groundItems := groundItems[..i] + groundItems[i + 1..];
          return;
        }
      }
      r := None;
    }
  }
}
