/**
 * The methods of `Container` that change the item forest, on linked objects, each proved
 * against the change of the snapshot it makes; and the loop of `queryAdd` that walks up the
 * parents.
 */
module ContainerObjects {
  import opened Basics
  import opened ContainerWeights

  datatype ReturnValue =
    | NoError | NotPossible | CannotPickup | ThisIsImpossible | NotEnoughRoom
    | ItemCannotBeMovedThere | CannotMoveItemIsNotStoreItem | ContainerNotEnoughRoom

  const INDEX_WHEREEVER := -1

  datatype Flags = Flags(noLimit: bool, childIsOwner: bool)

  /** `updateItemWeight`: recursion over the parent containers. */
  method UpdateItemWeight(container: Thing, diff: int, ghost S: set<Thing>, ghost n: nat)
    requires Rooted(Snapshot(S), container, n)
    modifies S`totalWeight
    ensures Snapshot(S) == Pushed(old(Snapshot(S)), container, diff, n)
    decreases n
  {
    ghost var f := Snapshot(S);
    PushedStep(f, container, diff, n);
    InSnapshot(container, S);
    WeightOfObject(container, S);
    hide Rooted, Pushed, Snapshot, Credited;
    AddWeight(container, diff, S);
    if container.parent != null {
      UpdateItemWeight(container.parent, diff, S, n - 1);
    }
  }

  method AddWeight(container: Thing, diff: int, ghost S: set<Thing>)
    requires container in S
    modifies container`totalWeight
    ensures Snapshot(S) == Credited(old(Snapshot(S)), container, diff)
  {
    container.totalWeight := (container.totalWeight + diff) % TWO_TO_THE_32;
  }

  lemma PushedStep(f: Forest, p: Thing, d: int, n: nat)
    requires Rooted(f, p, n)
    ensures p in f
    ensures var f' := Credited(f, p, d);
            if f[p].parent == None then Pushed(f, p, d, n) == f'
            else n > 0 && Rooted(f', f[p].parent.value, n - 1)
                 && Pushed(f, p, d, n) == Pushed(f', f[p].parent.value, d, n - 1)
  {
    var f' := Credited(f, p, d);
    if f[p].parent.Some? {
      RootedSameParents(f, f', f[p].parent.value, n - 1);
    }
  }

  /** `getThingIndex`: the first position, or -1. */
  method GetThingIndex(container: Thing, thing: Thing) returns (index: int)
    ensures -1 <= index < |container.itemlist|
    ensures index == -1 ==> thing !in container.itemlist
    ensures index >= 0 ==> container.itemlist[index] == thing && thing !in container.itemlist[..index]
  {
    for i := 0 to |container.itemlist|
      invariant thing !in container.itemlist[..i]
    {
      if container.itemlist[i] == thing {
        return i;
      }
    }
    index := -1;
  }

  /** The loop of `queryAdd` over the containers around `container`. */
  method IsAbove(container: Thing, thing: Thing, ghost S: set<Thing>, ghost n: nat) returns (found: bool)
    requires Rooted(Snapshot(S), container, n) && thing != container
    ensures found <==> Holds(Snapshot(S), thing, container, n)
  {
    ghost var f := Snapshot(S);
    ghost var k: int := n - 1;
    var cylinder := container.parent;
    while cylinder != null
      invariant cylinder != null ==> k >= 0 && Rooted(f, cylinder, k)
      invariant Holds(f, thing, container, n) <==> cylinder != null && Holds(f, thing, cylinder, k)
      decreases k
    {
      if cylinder == thing {
        return true;
      }
      assert f[cylinder].parent == if cylinder.parent == null then None else Some(cylinder.parent);
      cylinder := cylinder.parent;
      k := k - 1;
    }
    found := false;
  }

  /** `queryAdd`. Without the child-is-owner flag it says yes only to items that are neither
      the container nor any container around it. */
  method QueryAdd(container: Thing, index: int, thing: Thing, flags: Flags, ghost S: set<Thing>, ghost n: nat)
    returns (ret: ReturnValue)
    requires Rooted(Snapshot(S), container, n)
    ensures ret == NoError <==>
      flags.childIsOwner
      || (&& container.unlocked && thing.pickupable
          && (container.quiver ==> thing.ammo)
          && (thing.storeItem ==> container.depotChest)
          && !(container.storeItem && container.inStoreInbox)
          && !Holds(Snapshot(S), thing, container, n)
          && (flags.noLimit || index != INDEX_WHEREEVER || |container.itemlist| < container.capacity))
    ensures !flags.childIsOwner && container.unlocked && thing.pickupable && thing == container ==>
      ret == ThisIsImpossible
    ensures ret == NotPossible <==> !flags.childIsOwner && !container.unlocked
    ensures ret == CannotPickup <==> !flags.childIsOwner && container.unlocked && !thing.pickupable
    ensures ret == ThisIsImpossible ==> thing == container || Holds(Snapshot(S), thing, container, n)
    ensures ret == NotEnoughRoom ==> container.quiver && !thing.ammo
    ensures ret == ItemCannotBeMovedThere ==>
      thing.storeItem && (!container.depotChest || (container.storeItem && container.inStoreInbox))
    ensures ret == CannotMoveItemIsNotStoreItem ==>
      !thing.storeItem && container.storeItem && container.inStoreInbox
    ensures ret == ContainerNotEnoughRoom ==>
      !flags.noLimit && index == INDEX_WHEREEVER && |container.itemlist| >= container.capacity
  {
    ChainStart(Snapshot(S), container, n, thing);
    hide Holds, Rooted, Snapshot;
    if flags.childIsOwner {
      return NoError;
    }
    if !container.unlocked {
      return NotPossible;
    }
    if !thing.pickupable {
      return CannotPickup;
    }
    if thing == container {
      return ThisIsImpossible;
    }
    if container.quiver && !thing.ammo {
      return NotEnoughRoom;
    }
    if thing.storeItem && !container.depotChest {
      return ItemCannotBeMovedThere;
    }
    if container.storeItem && container.inStoreInbox {
      if !thing.storeItem {
        return CannotMoveItemIsNotStoreItem;
      }
      return ItemCannotBeMovedThere;
    }
    var above := IsAbove(container, thing, S, n);
    if above {
      return ThisIsImpossible;
    }
    if !flags.noLimit && index == INDEX_WHEREEVER && |container.itemlist| >= container.capacity {
      return ContainerNotEnoughRoom;
    }
    ret := NoError;
  }

  /** `addThing`: to the front of the list, unless the index is out of range. */
  method AddThing(container: Thing, index: int, item: Thing, ghost S: set<Thing>, ghost n: nat)
    requires Valid(Snapshot(S)) && container.container && item in S && item.parent == null
    requires Rooted(Snapshot(S), container, n) && !Holds(Snapshot(S), item, container, n)
    modifies item`parent, container`itemlist, S`totalWeight
    ensures Valid(Snapshot(S))
    ensures index >= container.capacity ==> Snapshot(S) == old(Snapshot(S))
    ensures index < container.capacity ==>
      SameShape(Relinked(old(Snapshot(S)), container, item, [item] + old(container.itemlist)), Snapshot(S))
  {
    hide Valid, Rooted, Holds, SameShape, Relinked;
    if index >= container.capacity {
      return;
    }
    assert [] + [item] + container.itemlist == [item] + container.itemlist;
    Insert(container, item, [], container.itemlist, S, n);
  }

  /** `addItemBack`. */
  method AddItemBack(container: Thing, item: Thing, ghost S: set<Thing>, ghost n: nat)
    requires Valid(Snapshot(S)) && container.container && item in S && item.parent == null
    requires Rooted(Snapshot(S), container, n) && !Holds(Snapshot(S), item, container, n)
    modifies item`parent, container`itemlist, S`totalWeight
    ensures Valid(Snapshot(S))
    ensures SameShape(Relinked(old(Snapshot(S)), container, item, old(container.itemlist) + [item]), Snapshot(S))
  {
    hide Valid, Rooted, Holds, SameShape;
    Insert(container, item, container.itemlist, [], S, n);
    assert old(container.itemlist) + [item] + [] == old(container.itemlist) + [item];
  }

  method Insert(container: Thing, item: Thing, before: seq<Thing>, after: seq<Thing>, ghost S: set<Thing>, ghost n: nat)
    requires Valid(Snapshot(S)) && container.container && item in S && item.parent == null
    requires Rooted(Snapshot(S), container, n) && !Holds(Snapshot(S), item, container, n)
    requires container.itemlist == before + after
    modifies item`parent, container`itemlist, S`totalWeight
    ensures Valid(Snapshot(S))
    ensures SameShape(Relinked(old(Snapshot(S)), container, item, before + [item] + after), Snapshot(S))
  {
    hide Valid, Rooted, Holds, Pushed, WeightOf, SameShape;
    ghost var f := Snapshot(S);
    ChainStart(f, container, n, item);
    AddKeepsValid(f, container, item, before, after, n);
    SetParent(item, container, S);
    SetList(container, before + [item] + after, S);
    WeightOfObject(item, S);
    UpdateItemWeight(container, item.GetWeight(), S, n);
  }

  lemma WeightOfObject(x: Thing, S: set<Thing>)
    requires x in S
    ensures x in Snapshot(S) && x.GetWeight() == WeightOf(Snapshot(S)[x])
    ensures Snapshot(S)[x].items == x.itemlist && Snapshot(S)[x].container == x.container
    ensures Snapshot(S)[x].parent == if x.parent == null then None else Some(x.parent)
  {
  }

  lemma InSnapshot(x: Thing, S: set<Thing>)
    requires x in Snapshot(S)
    ensures x in S
  {
  }

  method SetParent(item: Thing, parent: Thing?, ghost S: set<Thing>)
    requires item in S
    modifies item`parent
    ensures item.parent == parent
    ensures Snapshot(S) == old(Snapshot(S))[item :=
      old(Snapshot(S))[item].(parent := if parent == null then None else Some(parent))]
  {
    item.parent := parent;
  }

  method SetList(container: Thing, items: seq<Thing>, ghost S: set<Thing>)
    requires container in S
    modifies container`itemlist
    ensures container.itemlist == items
    ensures Snapshot(S) == old(Snapshot(S))[container := old(Snapshot(S))[container].(items := items)]
  {
    container.itemlist := items;
  }

  /** `setID` and `setSubType`, or `setItemCount`. */
  method SetType(item: Thing, newBase: nat, newStackable: bool, newCount: nat, ghost S: set<Thing>)
    requires item in S
    modifies item`baseWeight, item`stackable, item`count
    ensures item.baseWeight == newBase && item.stackable == newStackable && item.count == newCount
    ensures Snapshot(S) == old(Snapshot(S))[item := old(Snapshot(S))[item].(own := item.OwnWeight())]
  {
    item.baseWeight, item.stackable, item.count := newBase, newStackable, newCount;
  }

  /** Changes the type or count of a listed item and pushes the difference up. */
  method Reweigh(container: Thing, item: Thing, newBase: nat, newStackable: bool, newCount: nat, ghost S: set<Thing>,
                 ghost n: nat)
    requires Valid(Snapshot(S)) && Rooted(Snapshot(S), container, n) && item in S && item.parent == container
    modifies item`baseWeight, item`stackable, item`count, S`totalWeight
    ensures Valid(Snapshot(S))
    ensures item.baseWeight == newBase && item.stackable == newStackable && item.count == newCount
  {
    hide Valid, Rooted, Pushed, WeightOf, SameShape;
    ghost var f := Snapshot(S);
    WeightOfObject(item, S);
    var oldWeight := item.GetWeight();
    SetType(item, newBase, newStackable, newCount, S);
    WeightOfObject(item, S);
    ReweighKeepsValid(f, container, item, item.OwnWeight(), n);
    UpdateItemWeight(container, item.GetWeight() - oldWeight, S, n);
  }

  /** `updateThing`: a new type and count for an item in the list. */
  method UpdateThing(container: Thing, item: Thing, newBase: nat, newStackable: bool, newCount: nat,
                     ghost S: set<Thing>, ghost n: nat)
    requires Valid(Snapshot(S)) && Rooted(Snapshot(S), container, n)
    modifies item`baseWeight, item`stackable, item`count, S`totalWeight
    ensures Valid(Snapshot(S))
    ensures item !in container.itemlist ==> Snapshot(S) == old(Snapshot(S))
    ensures item in container.itemlist ==>
      item.baseWeight == newBase && item.stackable == newStackable && item.count == newCount
  {
    hide Rooted, CoherentBut, AllRooted;
    var index := GetThingIndex(container, item);
    if index == -1 {
      return;
    }
    ChainStart(Snapshot(S), container, n, item);
    Listed(container, item, S);
    Reweigh(container, item, newBase, newStackable, newCount, S, n);
  }

  lemma Listed(container: Thing, item: Thing, S: set<Thing>)
    requires Valid(Snapshot(S)) && container in S && item in container.itemlist
    ensures item in S && item.parent == container
  {
    var w := InList(Snapshot(S), container, item);
  }

  /** `removeThing`: part of a stack, or the whole item. */
  method RemoveThing(container: Thing, item: Thing, count: nat, ghost S: set<Thing>, ghost n: nat)
    requires Valid(Snapshot(S)) && Rooted(Snapshot(S), container, n)
    modifies item`parent, item`baseWeight, item`stackable, item`count, container`itemlist, S`totalWeight
    ensures Valid(Snapshot(S))
    ensures item !in old(container.itemlist) ==> Snapshot(S) == old(Snapshot(S))
    ensures item in old(container.itemlist) && old(item.stackable) && count != old(item.count) ==>
      && item.count == (if old(item.count) > count then old(item.count) - count else 0)
      && item.baseWeight == old(item.baseWeight) && item.stackable
      && item.parent == container && container.itemlist == old(container.itemlist)
    ensures item in old(container.itemlist) && !(old(item.stackable) && count != old(item.count)) ==>
      && item.parent == null && item !in container.itemlist
      && item.count == old(item.count) && item.baseWeight == old(item.baseWeight)
         && item.stackable == old(item.stackable)
      && forall k :: 0 <= k < |old(container.itemlist)| && old(container.itemlist)[k] == item ==>
           container.itemlist == old(container.itemlist)[..k] + old(container.itemlist)[k + 1..]
  {
    hide Rooted, Valid, Snapshot, WeightOf, Thing.GetWeight, Thing.OwnWeight;
    var index := GetThingIndex(container, item);
    if index == -1 {
      return;
    }
    ChainStart(Snapshot(S), container, n, item);
    InSnapshot(container, S);
    Listed(container, item, S);
    if item.stackable && count != item.count {
      var newCount := if item.count > count then item.count - count else 0;
      Reweigh(container, item, item.baseWeight, item.stackable, newCount, S, n);
    } else {
      ListedOnce(container, item, index, S);
      TakeOut(container, item, index, S, n);
    }
  }

  lemma ListedOnce(container: Thing, item: Thing, index: nat, S: set<Thing>)
    requires Valid(Snapshot(S)) && container in S && index < |container.itemlist| && container.itemlist[index] == item
    ensures forall k :: 0 <= k < |container.itemlist| && container.itemlist[k] == item ==> k == index
  {
    assert Linked(Snapshot(S), container);
  }

  /** The whole item at `index` leaves: first its weight, then its links. */
  method TakeOut(container: Thing, item: Thing, index: nat, ghost S: set<Thing>, ghost n: nat)
    requires Valid(Snapshot(S)) && Rooted(Snapshot(S), container, n) && container in S
    requires index < |container.itemlist| && container.itemlist[index] == item && item in S
    modifies S`totalWeight, item`parent, container`itemlist
    ensures Valid(Snapshot(S))
    ensures container.itemlist == old(container.itemlist)[..index] + old(container.itemlist)[index + 1..]
    ensures item.parent == null && item !in container.itemlist
    ensures multiset(container.itemlist) == multiset(old(container.itemlist)) - multiset{item}
  {
    hide Valid, Rooted, Pushed, WeightOf, Snapshot;
    ghost var f := Snapshot(S);
    WeightOfObject(container, S);
    WeightOfObject(item, S);
    RemoveKeepsValid(f, container, index, n);
    PushedShape(f, container, 0 - WeightOf(f[item]), n);
    ErasedList(f, container, index);
    UpdateItemWeight(container, 0 - item.GetWeight(), S, n);
    SetParent(item, null, S);
    SetList(container, container.itemlist[..index] + container.itemlist[index + 1..], S);
  }

  lemma ErasedList(f: Forest, c: Thing, k: nat)
    requires Valid(f) && c in f && k < |f[c].items|
    ensures var items := f[c].items[..k] + f[c].items[k + 1..];
            f[c].items[k] !in items && multiset(items) == multiset(f[c].items) - multiset{f[c].items[k]}
  {
    assert Linked(f, c);
    var before, x, after := f[c].items[..k], f[c].items[k], f[c].items[k + 1..];
    assert f[c].items == before + [x] + after;
    DistinctInsert(before, after, x);
  }

  /** `replaceThing`. */
  method ReplaceThing(container: Thing, index: nat, item: Thing, ghost S: set<Thing>, ghost n: nat)
    requires Valid(Snapshot(S)) && container.container && item in S && item.parent == null
    requires Rooted(Snapshot(S), container, n) && !Holds(Snapshot(S), item, container, n)
    modifies item`parent, container.itemlist`parent, container`itemlist, S`totalWeight
    ensures Valid(Snapshot(S))
    ensures index >= |old(container.itemlist)| ==> Snapshot(S) == old(Snapshot(S))
    ensures index < |old(container.itemlist)| ==>
      container.itemlist == old(container.itemlist)[index := item]
      && item.parent == container && old(container.itemlist[index]).parent == null
  {
    if index >= |container.itemlist| {
      return;
    }
    var replacedItem := container.itemlist[index];
    ghost var f := Snapshot(S);
    ChainStart(f, container, n, item);
    Listed(container, replacedItem, S);
    InSnapshot(container, S);
    PutInPlace(container, item, replacedItem, index, S, n);
  }

  method PutInPlace(container: Thing, item: Thing, replacedItem: Thing, index: nat, ghost S: set<Thing>, ghost n: nat)
    requires Valid(Snapshot(S)) && container.container && item in S && item.parent == null
    requires Rooted(Snapshot(S), container, n) && !Holds(Snapshot(S), item, container, n)
    requires index < |container.itemlist| && replacedItem == container.itemlist[index] && {container, replacedItem} <= S
    requires replacedItem != item && container != item
    modifies item`parent, replacedItem`parent, container`itemlist, S`totalWeight
    ensures Valid(Snapshot(S))
    ensures container.itemlist == old(container.itemlist)[index := item]
    ensures item.parent == container && replacedItem.parent == null
  {
    hide Valid, Rooted, Holds, Pushed, WeightOf, Snapshot, Thing.GetWeight, Thing.OwnWeight;
    ghost var f := Snapshot(S);
    WeightOfObject(container, S);
    WeightOfObject(item, S);
    WeightOfObject(replacedItem, S);
    ReplaceKeepsValid(f, container, index, item, n);
    var diff := item.GetWeight() - replacedItem.GetWeight();
    SetParent(item, container, S);
    SetList(container, container.itemlist[index := item], S);
    SameWeight(f[item], Snapshot(S)[item]);
    UpdateItemWeight(container, diff, S, n);
    SetParent(replacedItem, null, S);
  }

  lemma SameWeight(a: Cell, b: Cell)
    requires a.container == b.container && a.own == b.own && a.total == b.total
    ensures WeightOf(a) == WeightOf(b)
  {
  }
}
