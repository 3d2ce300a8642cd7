/**
 * `internalAddItem` and the three queries it asks a container, on item objects.
 */
module StackingObjects {
  import opened Basics
  import opened Stacking

  class Item {
    const kind: Kind
    const inside: Container?
    var count: nat
    var parent: Container?

    constructor (kind: Kind, count: nat)
      ensures this.kind == kind && this.count == count && parent == null && inside == null
    {
      this.kind, this.count, parent, inside := kind, count, null, null;
    }
  }

  ghost function ViewOf(list: seq<Item>): (v: View)
    reads list
    ensures |v| == |list| && forall i :: 0 <= i < |list| ==> v[i] == Stack(list[i].kind, list[i].count)
  {
    seq(|list|, i requires 0 <= i < |list| reads list => Stack(list[i].kind, list[i].count))
  }

  /** The room in the stacks of the item's kind, the item itself aside. */
  ghost function RoomBeside(list: seq<Item>, item: Item): nat
    reads list
  {
    if list == [] then 0
    else (if list[0] != item && list[0].kind == item.kind && list[0].count < STACK_LIMIT
          then STACK_LIMIT - list[0].count else 0)
         + RoomBeside(list[1..], item)
  }

  lemma RoomFrom(list: seq<Item>, i: nat, item: Item)
    requires i < |list|
    ensures RoomBeside(list[i..], item)
         == (if list[i] != item && list[i].kind == item.kind && list[i].count < STACK_LIMIT
             then STACK_LIMIT - list[i].count else 0)
            + RoomBeside(list[i + 1..], item)
  {
    assert list[i..][1..] == list[i + 1..];
  }

  lemma NoRoomAfterAll(list: seq<Item>, item: Item)
    ensures RoomBeside(list[|list|..], item) == 0
  {
  }

  lemma {:induction false} RoomForStranger(list: seq<Item>, item: Item)
    requires item !in list
    ensures RoomBeside(list, item) == StackRoom(ViewOf(list), item.kind)
  {
    if list != [] {
      assert ViewOf(list)[1..] == ViewOf(list[1..]);
      RoomForStranger(list[1..], item);
    }
  }

  lemma {:induction false} RoomBesideListed(list: seq<Item>, item: Item, k: nat)
    requires k < |list| && list[k] == item && Distinct(list)
    ensures RoomBeside(list, item) == StackRoom(ViewOf(list)[..k] + ViewOf(list)[k + 1..], item.kind)
  {
    var others := ViewOf(list)[..k] + ViewOf(list)[k + 1..];
    assert ViewOf(list)[1..] == ViewOf(list[1..]);
    if k == 0 {
      RoomForStranger(list[1..], item);
      assert others == ViewOf(list[1..]);
    } else {
      RoomBesideListed(list[1..], item, k - 1);
      assert others[1..] == ViewOf(list[1..])[..k - 1] + ViewOf(list[1..])[k..];
      assert list[0] != list[k];
    }
  }

  lemma OnlyAt(list: seq<Item>, k: nat)
    requires Distinct(list) && k < |list|
    ensures forall i :: 0 <= i < |list| && i != k ==> list[i] != list[k]
    ensures Distinct(list[..k] + list[k + 1..]) && list[k] !in list[..k] + list[k + 1..]
    ensures forall x :: x in list[..k] + list[k + 1..] ==> x in list
  {
  }

  class Container {
    const capacity: nat
    const unlocked: bool
    const closedTo: Kind -> bool
    const verdict: Kind -> ReturnValue
    var parent: Container?
    var itemlist: seq<Item>

    constructor (capacity: nat, closedTo: Kind -> bool, verdict: Kind -> ReturnValue)
      ensures itemlist == [] && parent == null && unlocked
      ensures this.capacity == capacity && this.closedTo == closedTo && this.verdict == verdict
    {
      this.capacity, this.closedTo, this.verdict := capacity, closedTo, verdict;
      unlocked, parent, itemlist := true, null, [];
    }

    ghost function View(): View
      reads this, itemlist
    {
      ViewOf(itemlist)
    }

    ghost predicate Valid()
      reads this, itemlist
    {
      Distinct(itemlist) && Sound(View()) && forall x :: x in itemlist ==> x.inside != this
    }

    /** What `queryAdd` answers where room is not the question. */
    function Verdict(kind: Kind): ReturnValue {
      if !unlocked then NotPossible
      else if verdict(kind) != NoError then verdict(kind)
      else if closedTo(kind) then Other(0) else NoError
    }

    /** The container the item ends up in: the parent for slot 254, a container lying in the
        named slot, or this one. */
    ghost function Target(kind: Kind, index: int): Container
      reads this
    {
      if !unlocked then this
      else if index == MOVE_UP then if parent != null then parent else this
      else if closedTo(kind) || index == ADD_WHEREVER || index >= capacity || !(0 <= index < |itemlist|)
        || itemlist[index].inside == null then this
      else itemlist[index].inside
    }

    /** The search for a stack to join. */
    method FindStack(item: Item) returns (n: nat)
      ensures n <= |itemlist| && (item !in itemlist ==> n == FirstPartial(View(), item.kind))
    {
      for i := 0 to |itemlist|
        invariant forall k :: 0 <= k < i ==> itemlist[k] != item ==> !Partial(View()[k], item.kind)
      {
        var listItem := itemlist[i];
        if listItem != item && listItem.kind == item.kind && listItem.count < STACK_LIMIT {
          if item !in itemlist {
            FirstPartialIs(View(), item.kind, i);
          }
          return i;
        }
      }
      n := |itemlist|;
      if item !in itemlist {
        FirstPartialIs(View(), item.kind, n);
      }
    }

    method QueryDestination(wanted: int, item: Item, flags: Flags) returns (to: Container, index: int, destItem: Item?)
      ensures to == Target(item.kind, wanted)
      ensures to != this ==> index == INDEX_WHEREEVER && destItem == null
      ensures to == this && (!unlocked || closedTo(item.kind)) ==> destItem == null
      ensures
        && to == this && parent != this && unlocked && !closedTo(item.kind)
        && (item !in itemlist || item.parent == this) && Valid() ==>
        var slot := Destination(View(), capacity, item.kind, wanted, !flags.ignoreAutoStack && item.parent != this);
        index == slot.index && (destItem == null <==> slot.item == None)
          && (destItem != null ==> destItem == itemlist[slot.item.value])
    {
      index, destItem := wanted, null;
      if !unlocked {
        return this, index, null;
      }
      if index == MOVE_UP {
        index := INDEX_WHEREEVER;
        return (if parent != null then parent else this), index, null;
      }
      if index == ADD_WHEREVER || index >= capacity {
        index := INDEX_WHEREEVER;
      }
      if closedTo(item.kind) {
        return this, index, null;
      }
      if index != INDEX_WHEREEVER {
        if 0 <= index < |itemlist| {
          destItem := itemlist[index];
          if destItem.inside != null {
            return destItem.inside, INDEX_WHEREEVER, null;
          }
        }
      }
      if !flags.ignoreAutoStack && item.kind.stackable && item.parent != this {
        if destItem != null && destItem.kind == item.kind && destItem.count < STACK_LIMIT {
          assert Partial(View()[index], item.kind);
          return this, index, destItem;
        }
        var n := FindStack(item);
        if n < |itemlist| {
          return this, n, itemlist[n];
        }
      }
      to := this;
    }

    method QueryAdd(index: int, item: Item, flags: Flags) returns (ret: ReturnValue)
      ensures ret == if Verdict(item.kind) != NoError then Verdict(item.kind)
                     else if Full(View(), capacity, Slot(index, None), flags) then ContainerNotEnoughRoom else NoError
    {
      if Verdict(item.kind) != NoError {
        return Verdict(item.kind);
      }
      if !flags.noLimit && index == INDEX_WHEREEVER && |itemlist| >= capacity {
        return ContainerNotEnoughRoom;
      }
      ret := NoError;
    }

    /** What `queryMaxCount` says about the whole container. */
    ghost function MaxCount(kind: Kind, count: nat, flags: Flags): (ReturnValue, nat)
      reads this, itemlist
    {
      MaxCountWith(kind, count, flags, StackRoom(View(), kind))
    }

    /** ... with this much room in stacks. */
    ghost function MaxCountWith(kind: Kind, count: nat, flags: Flags, stackRoom: nat): (ReturnValue, nat)
      reads this, itemlist
    {
      var v := View();
      if flags.noLimit then (NoError, if count > 1 then count else 1)
      else if closedTo(kind) then (Other(0), 0)
      else if kind.stackable then
        var room := FreeSlots(v, capacity) * STACK_LIMIT + if Verdict(kind) == NoError then stackRoom else 0;
        (if room < count then ContainerNotEnoughRoom else NoError, room)
      else (if |v| >= capacity then ContainerNotEnoughRoom else NoError, FreeSlots(v, capacity))
    }

    lemma RefusesTooMuch(kind: Kind, count: nat, flags: Flags)
      requires Verdict(kind) == NoError
      ensures var (ret, max) := MaxCount(kind, count, flags);
              && ret == (if TooMuch(View(), capacity, kind, count, flags) then ContainerNotEnoughRoom else NoError)
              && (ret == NoError && kind.stackable ==> max >= count)
      ensures unlocked && !closedTo(kind)
    {
    }

    method QueryMaxCount(item: Item, count: nat, flags: Flags) returns (ret: ReturnValue, maxQueryCount: nat)
      ensures (ret, maxQueryCount) == MaxCountWith(item.kind, count, flags, RoomBeside(itemlist, item))
      ensures item !in itemlist ==> (ret, maxQueryCount) == MaxCount(item.kind, count, flags)
    {
      hide RoomBeside, Verdict, ViewOf;
      if item !in itemlist {
        RoomForStranger(itemlist, item);
      }
      if flags.noLimit {
        return NoError, if count > 1 then count else 1;
      }
      if closedTo(item.kind) {
        return Other(0), 0;
      }
      var freeSlots: nat := if capacity > |itemlist| then capacity - |itemlist| else 0;
      if item.kind.stackable {
        var n, slotIndex := 0, 0;
        NoRoomAfterAll(itemlist, item);
        assert itemlist[0..] == itemlist;
        for i := 0 to |itemlist|
          invariant 0 <= slotIndex
          invariant Verdict(item.kind) == NoError ==> n + RoomBeside(itemlist[i..], item) == RoomBeside(itemlist, item)
          invariant Verdict(item.kind) != NoError ==> n == 0
        {
          var containerItem := itemlist[i];
          RoomFrom(itemlist, i, item);
          if containerItem != item && containerItem.kind == item.kind && containerItem.count < STACK_LIMIT {
            var ok := QueryAdd(slotIndex, item, flags);
            slotIndex := slotIndex + 1;
            if ok == NoError {
              n := n + (STACK_LIMIT - containerItem.count);
            }
          }
        }
        maxQueryCount := freeSlots * STACK_LIMIT + n;
        ret := if maxQueryCount < count then ContainerNotEnoughRoom else NoError;
      } else {
        maxQueryCount := freeSlots;
        ret := if maxQueryCount == 0 then ContainerNotEnoughRoom else NoError;
      }
    }

    /** `addThing`: the item becomes the first in the list, whatever the index; an index past the
        capacity is refused without a word. */
    method AddThing(index: int, item: Item)
      requires Valid() && item !in itemlist
      modifies this`itemlist, item`parent
      ensures index < capacity ==> itemlist == [item] + old(itemlist) && item.parent == this
      ensures index < capacity ==> View() == [Stack(item.kind, item.count)] + old(View())
      ensures index >= capacity ==> itemlist == old(itemlist) && View() == old(View())
      ensures index >= capacity ==> item.parent == old(item.parent)
    {
      if index >= capacity {
        return;
      }
      item.parent := this;
      itemlist := [item] + itemlist;
    }

    /** `removeThing`. */
    method RemoveThing(item: Item, count: nat, ghost k: nat)
      requires Valid() && k < |itemlist| && itemlist[k] == item
      modifies this`itemlist, item`count, item`parent
      ensures Valid() && View() == Taken(old(View()), k, count)
      ensures itemlist == if item.kind.stackable && count != old(item.count) then old(itemlist)
        else old(itemlist)[..k] + old(itemlist)[k + 1..]
      ensures item in itemlist <==> item.kind.stackable && count != old(item.count)
      ensures item !in itemlist ==> item.count == old(item.count)
      ensures forall x :: x in itemlist ==> x in old(itemlist)
    {
      hide Distinct;
      OnlyAt(itemlist, k);
      if item.kind.stackable && count != item.count {
        item.count := if count < item.count then item.count - count else 0;
      } else {
        item.parent := null;
        var index := Find(item);
        itemlist := itemlist[..index] + itemlist[index + 1..];
      }
    }

    /** `getThingIndex` of an item that is listed. */
    method Find(item: Item) returns (index: nat)
      requires item in itemlist
      ensures index < |itemlist| && itemlist[index] == item
    {
      index := 0;
      while itemlist[index] != item
        invariant index < |itemlist| && item !in itemlist[..index]
        decreases |itemlist| - index
      {
        index := index + 1;
      }
    }

    /** `updateThing` with a larger count. */
    method Grow(toItem: Item, n: nat, ghost t: nat)
      requires Valid() && t < |itemlist| && itemlist[t] == toItem
      modifies toItem`count
      ensures View() == Grown(old(View()), t, n)
    {
      toItem.count := toItem.count + n;
      assert forall i :: 0 <= i < |itemlist| && i != t ==> itemlist[i] != itemlist[t];
    }
  }

  /** A container lies in this slot. */
  predicate LiesInSlot(c: Container, index: int)
    reads c
  {
    0 <= index < |c.itemlist| && index < c.capacity && c.itemlist[index].inside != null
  }

  /** An item that is put on a container in the list goes into that one; slot 254 leads to the
      parent. A locked container, or one that is closed to the kind, keeps everything. */
  lemma SlotLeadsInside(c: Container, kind: Kind, index: int)
    requires c.unlocked
    ensures index == 254 && c.parent != null ==> c.Target(kind, index) == c.parent
    ensures LiesInSlot(c, index) && index != 254 && index != 255 && !c.closedTo(kind) ==>
      c.Target(kind, index) == c.itemlist[index].inside
    ensures !LiesInSlot(c, index) && index != 254 ==> c.Target(kind, index) == c
    ensures index == 255 || (index == 254 && c.parent == null) || (c.closedTo(kind) && index != 254) ==>
      c.Target(kind, index) == c
  {
  }

  lemma LockedKeeps(c: Container, kind: Kind, index: int)
    requires !c.unlocked
    ensures c.Target(kind, index) == c
  {
  }

  method InternalAddItem(dest: Container, item: Item, index: int, flags: Flags)
    returns (ret: ReturnValue, remainderCount: nat)
    requires dest.Valid() && dest.parent != dest && item !in dest.itemlist && item.parent == null
    requires
      var to := dest.Target(item.kind, index); to != dest ==> to.Valid() && item !in to.itemlist && item.inside != to
    requires item.inside != dest
    modifies dest`itemlist, dest.Target(item.kind, index)`itemlist, dest.itemlist, item`parent
    decreases item.count, 2
    ensures var to := old(dest.Target(item.kind, index)); to == dest ==>
      match AddItem(old(dest.View()), dest.capacity, dest.Verdict(item.kind), item.kind, old(item.count), index, flags)
      case Refused(why) => ret == why && dest.itemlist == old(dest.itemlist) && dest.View() == old(dest.View())
        && item.parent == null
      case Placed(w, left) => ret == NoError && remainderCount == left && dest.View() == w
    ensures var to := old(dest.Target(item.kind, index)); to != dest ==>
      && dest.itemlist == old(dest.itemlist) && remainderCount == 0
      && ret == (if to.Verdict(item.kind) != NoError then to.Verdict(item.kind)
                 else if !flags.noLimit && |old(to.itemlist)| >= to.capacity then ContainerNotEnoughRoom
                 else old(dest.MaxCount(item.kind, item.count, flags)).0)
      && to.itemlist == (if ret == NoError then [item] + old(to.itemlist) else old(to.itemlist))
      && to.View() == (if ret == NoError then [Stack(item.kind, item.count)] + old(to.View()) else old(to.View()))
  {
    hide Destination, Accepted, AddItem, Container.MaxCount, Container.Verdict;
    remainderCount := 0;
    Refusal(dest.View(), dest.capacity, dest.Verdict(item.kind), item.kind, item.count, index, flags);
    var to, at, toItem, maxQueryCount;
    ret, to, at, toItem, maxQueryCount := Query(dest, item, index, flags);
    if ret != NoError {
      return;
    }
    if to == dest {
      remainderCount := Place(dest, item, index, at, toItem, maxQueryCount, flags);
    } else {
      to.AddThing(at, item);
    }
  }

  /** The queries of `internalAddItem`. */
  method Query(dest: Container, item: Item, index: int, flags: Flags)
    returns (ret: ReturnValue, to: Container, at: int, toItem: Item?, maxQueryCount: nat)
    requires dest.Valid() && dest.parent != dest && item !in dest.itemlist && item.parent != dest
    ensures to == dest.Target(item.kind, index)
    ensures to == dest ==> (ret == NoError <==> Accepted(dest.View(), dest.capacity, dest.Verdict(item.kind), item.kind,
      item.count, index, flags))
    ensures to == dest && ret != NoError ==>
      ret == if dest.Verdict(item.kind) != NoError then dest.Verdict(item.kind) else ContainerNotEnoughRoom
    ensures to == dest && ret == NoError ==>
      && (var slot := Destination(dest.View(), dest.capacity, item.kind, index, !flags.ignoreAutoStack);
          && at == slot.index
          && toItem == if slot.item.Some? then dest.itemlist[slot.item.value] else null)
      && (item.kind.stackable ==> maxQueryCount >= item.count)
    ensures to != dest ==> at == INDEX_WHEREEVER
    ensures to != dest ==>
      ret == if to.Verdict(item.kind) != NoError then to.Verdict(item.kind)
             else if !flags.noLimit && |to.itemlist| >= to.capacity then ContainerNotEnoughRoom
             else dest.MaxCount(item.kind, item.count, flags).0
  {
    hide Destination, TooMuch, Container.MaxCount, Container.MaxCountWith, Container.Verdict;
    if dest.Verdict(item.kind) == NoError {
      dest.RefusesTooMuch(item.kind, item.count, flags);
    }
    to, at, toItem := dest.QueryDestination(index, item, flags);
    ret := to.QueryAdd(at, item, flags);
    maxQueryCount := 0;
    if ret == NoError {
      ret, maxQueryCount := dest.QueryMaxCount(item, item.count, flags);
    }
  }

  lemma Refusal(v: View, capacity: nat, verdict: ReturnValue, kind: Kind, count: nat, index: int, flags: Flags)
    requires Sound(v)
    ensures !Accepted(v, capacity, verdict, kind, count, index, flags) ==>
      AddItem(v, capacity, verdict, kind, count, index, flags)
        == Refused(if verdict != NoError then verdict else ContainerNotEnoughRoom)
  {
  }

  /** The item is accepted into `dest` itself: it joins `toItem`, if that is of its kind, or
      becomes the first in the list. */
  method Place(dest: Container, item: Item, ghost index: int, at: int, toItem: Item?, maxQueryCount: nat, flags: Flags)
    returns (remainderCount: nat)
    requires dest.Valid() && dest.parent != dest && item !in dest.itemlist && item.parent == null && item.inside != dest
    requires Accepted(dest.View(), dest.capacity, dest.Verdict(item.kind), item.kind, item.count, index, flags)
    requires var slot := Destination(dest.View(), dest.capacity, item.kind, index, !flags.ignoreAutoStack);
      at == slot.index && toItem == if slot.item.Some? then dest.itemlist[slot.item.value] else null
    requires item.kind.stackable ==> maxQueryCount >= item.count
    modifies dest`itemlist, dest.itemlist, item`parent
    decreases item.count, 1
    ensures AddItem(old(dest.View()), dest.capacity, dest.Verdict(item.kind), item.kind, old(item.count), index, flags)
         == Placed(dest.View(), remainderCount)
  {
    hide Merge, Destination, Accepted, Container.Verdict;
    OnlyJoinedPastCapacity(dest.View(), dest.capacity, item.kind, index, !flags.ignoreAutoStack);
    if item.kind.stackable && toItem != null && toItem.kind == item.kind {
      ghost var t := Destination(dest.View(), dest.capacity, item.kind, index, !flags.ignoreAutoStack).item.value;
      remainderCount := Join(dest, item, at, toItem, maxQueryCount, flags, t);
    } else {
      remainderCount := 0;
      dest.AddThing(at, item);
    }
  }

  /** The item joins the stack `toItem`. */
  method Join(dest: Container, item: Item, at: int, toItem: Item, maxQueryCount: nat, flags: Flags, ghost t: nat)
    returns (remainderCount: nat)
    requires dest.Valid() && dest.parent != dest && item !in dest.itemlist && item.parent == null && item.inside != dest
    requires t < |dest.itemlist| && toItem == dest.itemlist[t] && toItem.kind == item.kind && item.kind.stackable
    requires maxQueryCount >= item.count && (at >= dest.capacity ==> toItem.count < STACK_LIMIT)
    modifies dest`itemlist, toItem`count, item`parent, dest.itemlist
    decreases item.count, 0
    ensures Merge(old(dest.View()), dest.capacity, dest.Verdict(item.kind), item.kind, old(item.count), t, flags)
         == Placed(dest.View(), remainderCount)
  {
    hide Accepted, MergeAt, Destination, FirstPartial, Container.Verdict, StackRoom, Merge, AddItem;
    remainderCount := 0;
    MergeCases(dest.View(), dest.capacity, dest.Verdict(item.kind), item.kind, item.count, t, flags);
    var m := if item.count < maxQueryCount then item.count else maxQueryCount;
    var n := if STACK_LIMIT - toItem.count < m then STACK_LIMIT - toItem.count else m;
    assert n == Merged(dest.View(), t, item.count);
    dest.Grow(toItem, n, t);
    var count := m - n;
    if count > 0 {
      if item.count != count {
        var remainderItem := new Item(item.kind, count);
        var again, lost := InternalAddItem(dest, remainderItem, INDEX_WHEREEVER, flags);
        if again != NoError {
          remainderCount := count;
        }
      } else {
        dest.AddThing(at, item);
      }
    }
  }

  lemma MergeCases(v: View, capacity: nat, verdict: ReturnValue, kind: Kind, count: nat, t: nat, flags: Flags)
    requires Sound(v) && t < |v| && v[t].kind == kind && kind.stackable
    ensures count == Merged(v, t, count) ==>
      Merge(v, capacity, verdict, kind, count, t, flags) == Placed(Grown(v, t, Merged(v, t, count)), 0)
    ensures count > Merged(v, t, count) == 0 ==>
      Merge(v, capacity, verdict, kind, count, t, flags) == Placed([Stack(kind, count)] + Grown(v, t, 0), 0)
    ensures count > Merged(v, t, count) > 0 ==> Sound(Grown(v, t, Merged(v, t, count)))
    ensures count > Merged(v, t, count) > 0 ==>
      Merge(v, capacity, verdict, kind, count, t, flags)
      == match AddItem(Grown(v, t, Merged(v, t, count)), capacity, verdict, kind, count - Merged(v, t, count),
        INDEX_WHEREEVER, flags)
         case Placed(w, _) => Placed(w, 0)
         case Refused(_) => Placed(Grown(v, t, Merged(v, t, count)), count - Merged(v, t, count))
  {
    assert Grown(v, t, 0) == v;
  }
}
