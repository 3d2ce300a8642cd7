/**
 * `internalMoveItem` between two containers and inside one: how much of a stack moves, what
 * becomes of the lists, and that the move neither loses pieces nor overfills a container.
 */
module StackMoves {
  import opened Basics
  import opened Stacking
  import opened StackingObjects

  /** What `queryMaxCount` finds for one slot; `stackRoom` is the room in the other stacks of the
      kind. */
  function SlotRoom(v: View, stackRoom: nat, capacity: nat, kind: Kind, index: int): nat {
    FreeSlots(v, capacity) * STACK_LIMIT
    + if index == INDEX_WHEREEVER then stackRoom
      else if 0 <= index < |v| && Partial(v[index], kind) then STACK_LIMIT - v[index].count else 0
  }

  function MaxMove(v: View, stackRoom: nat, capacity: nat, kind: Kind, index: int, count: nat, flags: Flags): (m: nat)
    ensures flags.noLimit ==> m >= 1
  {
    if flags.noLimit then if count > 1 then count else 1
    else if kind.stackable then SlotRoom(v, stackRoom, capacity, kind, index) else FreeSlots(v, capacity)
  }

  /** The stack at `at` takes what it can of `m` pieces; the rest become a new stack in front, if
      `fits` says that the slot is within the capacity, and are dropped otherwise. */
  function Received(v: View, at: Option<nat>, kind: Kind, m: nat, fits: bool): View
    requires Sound(v) && (at.Some? ==> at.value < |v| && v[at.value].kind == kind && kind.stackable)
  {
    match at
    case None => if fits then [Stack(kind, m)] + v else v
    case Some(t) =>
      var n := Merged(v, t, m);
      if m == n || !fits then Grown(v, t, n) else [Stack(kind, m - n)] + Grown(v, t, n)
  }

  /** How many of them are dropped. */
  function Dropped(v: View, at: Option<nat>, m: nat, fits: bool): (d: nat)
    requires Sound(v) && (at.Some? ==> at.value < |v| && v[at.value].kind.stackable)
    ensures d <= m
  {
    if fits then 0 else match at case None => m case Some(t) => m - Merged(v, t, m)
  }

  datatype MoveOutcome = Stayed(why: ReturnValue) | Moved(from: View, to: View, amount: nat, ret: ReturnValue)

  /** The stack the pieces join, if the slot holds one of their kind. */
  function JoinedAt(v: View, kind: Kind, slot: Slot): (at: Option<nat>)
    requires slot.item.Some? ==> slot.item.value < |v|
    ensures at.Some? ==> at == slot.item && v[at.value].kind == kind && kind.stackable
  {
    if kind.stackable && slot.item.Some? && v[slot.item.value].kind == kind then slot.item else None
  }

  /** What the three queries allow: `amount` pieces, and the value to return afterwards. */
  datatype Plan = No(why: ReturnValue) | Yes(amount: nat, ret: ReturnValue)

  function PlanMove(kind: Kind, have: nat, moveable: bool, to: View, stackRoom: nat, capacity: nat,
                    verdict: ReturnValue, index: int, count: nat, flags: Flags): (p: Plan)
    ensures verdict != NoError ==> p == No(verdict)
    ensures p.Yes? && kind.stackable ==> 0 < p.amount <= have
  {
    var max := MaxMove(to, stackRoom, capacity, kind, index, count, flags);
    var m := if kind.stackable && count < max then count else max;
    if verdict != NoError then No(verdict)
    else if Full(to, capacity, Slot(index, None), flags)
      || (max == 0 && (count > 0 || !kind.stackable)) then No(ContainerNotEnoughRoom)
    else if m == 0 || (kind.stackable && m > have) then No(NotPossible)
    else if !moveable && !flags.ignoreNotMoveable then No(NotMoveable)
    else Yes(m, if kind.stackable && max < count then ContainerNotEnoughRoom else NoError)
  }

  /** Moving `count` pieces of the item at `k`; `slot` is the answer of `queryDestination`. */
  function MoveItem(from: View, k: nat, moveable: bool, to: View, capacity: nat, verdict: ReturnValue, slot: Slot,
                    count: nat, flags: Flags): MoveOutcome
    requires Sound(from) && Sound(to) && k < |from| && (slot.item.Some? ==> slot.item.value < |to|)
  {
    var kind := from[k].kind;
    match PlanMove(kind, from[k].count, moveable, to, StackRoom(to, kind), capacity, verdict, slot.index, count, flags)
    case No(why) => Stayed(why)
    case Yes(m, ret) =>
      Moved(Taken(from, k, m), Received(to, JoinedAt(to, kind, slot), kind,
        if kind.stackable then m else from[k].count, slot.index < capacity), m, ret)
  }

  /** How many pieces of a kind a move destroys. */
  function Lost(from: View, to: View, r: MoveOutcome, kind: Kind): int
    requires r.Moved?
  {
    Total(from, kind) + Total(to, kind) - (Total(r.from, kind) + Total(r.to, kind))
  }

  /** The slot lies past the capacity, and more is forced into the stack there than it has room for. */
  predicate Overflows(to: View, capacity: nat, slot: Slot, count: nat, flags: Flags)
    requires slot.item.Some? ==> slot.item.value < |to|
  {
    flags.noLimit && slot.index >= capacity && slot.item.Some? && STACK_LIMIT - to[slot.item.value].count < count
  }

  datatype InsideOutcome = Kept(why: ReturnValue) | Rearranged(view: View, amount: nat, ret: ReturnValue)

  function Others(v: View, k: nat): View
    requires k < |v|
  {
    v[..k] + v[k + 1..]
  }

  /** Where a stack stands after `m` pieces of the one at `k` were taken. */
  function Shifted(v: View, at: Option<nat>, k: nat, m: nat): Option<nat>
    requires k < |v|
  {
    if at.Some? && at.value > k && !(v[k].kind.stackable && m != v[k].count) then Some(at.value - 1) else at
  }

  /** Moving `count` pieces of the item at `k` to a slot of the same container. Nothing happens
      when the slot is the item's own; `open` says whether the slot is looked up at all. */
  function MoveInside(v: View, k: nat, moveable: bool, open: bool, capacity: nat, verdict: ReturnValue, index: int,
                      count: nat, flags: Flags): InsideOutcome
    requires Sound(v) && k < |v|
  {
    var kind, slot := v[k].kind, Named(v, capacity, index);
    if slot.item == Some(k) then Kept(if open then NoError else verdict)
    else
      match PlanMove(kind, v[k].count, moveable, v, StackRoom(Others(v, k), kind), capacity, verdict, slot.index, count,
        flags)
      case No(why) => Kept(why)
      case Yes(m, ret) => Rearranged(Regrouped(v, k, JoinedAt(v, kind, slot), m), m, ret)
  }

  function Regrouped(v: View, k: nat, at: Option<nat>, m: nat): View
    requires Sound(v) && k < |v| && at != Some(k) && (v[k].kind.stackable ==> m <= v[k].count)
    requires at.Some? ==> at.value < |v| && v[at.value].kind == v[k].kind && v[k].kind.stackable
  {
    SoundTaken(v, k, m);
    Received(Taken(v, k, m), Shifted(v, at, k, m), v[k].kind, if v[k].kind.stackable then m else v[k].count,
      true)
  }

  // ----- what a move keeps -----

  lemma {:induction false} TotalSplit(a: View, b: View, kind: Kind)
    ensures Total(a + b, kind) == Total(a, kind) + Total(b, kind)
  {
    if a == [] {
      assert a + b == b;
    } else {
      assert (a + b)[1..] == a[1..] + b;
      TotalSplit(a[1..], b, kind);
    }
  }

  lemma TotalTaken(v: View, k: nat, m: nat, kind: Kind)
    requires k < |v| && (v[k].kind.stackable ==> m <= v[k].count)
    ensures Total(v, kind) == Total(Taken(v, k, m), kind)
                              + if v[k].kind != kind then 0 else if kind.stackable then m else v[k].count
  {
    hide Total;
    var before, after, w := v[..k], v[k + 1..], Taken(v, k, m);
    assert v == before + ([v[k]] + after);
    TotalSplit(before, [v[k]] + after, kind);
    TotalPushed(after, v[k], kind);
    if v[k].kind.stackable && m != v[k].count {
      assert w == before + ([w[k]] + after);
      TotalSplit(before, [w[k]] + after, kind);
      TotalPushed(after, w[k], kind);
    } else {
      TotalSplit(before, after, kind);
    }
  }

  lemma TotalReceived(v: View, at: Option<nat>, kind: Kind, m: nat, fits: bool, k: Kind)
    requires Sound(v) && (at.Some? ==> at.value < |v| && v[at.value].kind == kind && kind.stackable)
    ensures Total(Received(v, at, kind, m, fits), k) == Total(v, k)
      + if k == kind then m - Dropped(v, at, m, fits) else 0
  {
    match at
    case None =>
      TotalPushed(v, Stack(kind, m), k);
    case Some(t) =>
      var n := Merged(v, t, m);
      TotalGrown(v, t, n, k);
      TotalPushed(Grown(v, t, n), Stack(kind, m - n), k);
  }

  /** Pieces are destroyed exactly when a move without limit overflows a stack past the capacity:
      the stack is filled and the rest of the moved kind is gone. Otherwise every piece that
      leaves one container arrives in the other. */
  lemma MoveLosesExactlyWhen(from: View, k: nat, moveable: bool, to: View, capacity: nat, verdict: ReturnValue,
                             index: int, autoStack: bool, count: nat, flags: Flags, kind: Kind)
    requires Sound(from) && Sound(to) && k < |from|
    requires MoveItem(from, k, moveable, to, capacity, verdict,
      Destination(to, capacity, from[k].kind, index, autoStack), count, flags).Moved?
    ensures var slot := Destination(to, capacity, from[k].kind, index, autoStack);
      var r := MoveItem(from, k, moveable, to, capacity, verdict, slot, count, flags);
      && (Lost(from, to, r, kind) != 0 <==> kind == from[k].kind && Overflows(to, capacity, slot, count, flags))
      && (Lost(from, to, r, kind) != 0 ==>
            Lost(from, to, r, kind) == count - (STACK_LIMIT - to[slot.item.value].count) > 0)
  {
    var slot := Destination(to, capacity, from[k].kind, index, autoStack);
    MoveConserves(from, k, moveable, to, capacity, verdict, slot, count, flags, kind);
    OnlyJoinedPastCapacity(to, capacity, from[k].kind, index, autoStack);
    if slot.index >= capacity {
      assert Partial(to[slot.index], from[k].kind);
      assert !flags.noLimit ==>
          SlotRoom(to, StackRoom(to, from[k].kind), capacity, from[k].kind, slot.index)
            == STACK_LIMIT - to[slot.index].count;
    }
  }

  /** For any slot: what leaves one container arrives in the other, unless it is dropped there. */
  lemma MoveConserves(from: View, k: nat, moveable: bool, to: View, capacity: nat, verdict: ReturnValue, slot: Slot,
                      count: nat, flags: Flags, kind: Kind)
    requires Sound(from) && Sound(to) && k < |from| && (slot.item.Some? ==> slot.item.value < |to|)
    requires MoveItem(from, k, moveable, to, capacity, verdict, slot, count, flags).Moved?
    ensures var r := MoveItem(from, k, moveable, to, capacity, verdict, slot, count, flags);
      var n := if from[k].kind.stackable then r.amount else from[k].count;
      && Lost(from, to, r, kind) == (if kind == from[k].kind then
           Dropped(to, JoinedAt(to, kind, slot), n, slot.index < capacity) else 0)
      && Total(r.from, kind) == Total(from, kind) - if kind == from[k].kind then n else 0
  {
    var moved := from[k].kind;
    var r := MoveItem(from, k, moveable, to, capacity, verdict, slot, count, flags);
    var n := if moved.stackable then r.amount else from[k].count;
    var fits := slot.index < capacity;
    assert r.from == Taken(from, k, r.amount) && r.to == Received(to, JoinedAt(to, moved, slot), moved, n, fits);
    assert moved.stackable ==> r.amount <= from[k].count;
    hide MoveItem, Taken, Received, JoinedAt, Dropped, Total, Sound;
    TotalTaken(from, k, r.amount, kind);
    TotalReceived(to, JoinedAt(to, moved, slot), moved, n, fits, kind);
  }

  /** It happens: sixty gold forced into a container of one slot whose second item is a stack of
      sixty. The answer is that all of them were moved, and twenty are gone. */
  lemma MoveCanLose()
    ensures var flags, gold, sword := Flags(true, false, false), Kind(2148, true, []), Kind(2376, false, []);
      var from, to := [Stack(gold, 60)], [Stack(sword, 1), Stack(gold, 60)];
      MoveItem(from, 0, true, to, 1, NoError, Destination(to, 1, gold, INDEX_WHEREEVER, true), 60, flags)
        == Moved([], [Stack(sword, 1), Stack(gold, 100)], 60, NoError)
  {
    var gold, sword := Kind(2148, true, []), Kind(2376, false, []);
    var to := [Stack(sword, 1), Stack(gold, 60)];
    assert to[1..] == [Stack(gold, 60)];
    assert FirstPartial(to, gold) == 1;
    assert Grown(to, 1, 40) == [Stack(sword, 1), Stack(gold, 100)];
  }

  /** A move of a whole number of pieces of a stack succeeds only as a whole; otherwise it says
      so, having moved what fits. */
  lemma MovedAmount(from: View, k: nat, moveable: bool, to: View, capacity: nat, verdict: ReturnValue, slot: Slot,
                    count: nat, flags: Flags)
    requires Sound(from) && Sound(to) && k < |from| && (slot.item.Some? ==> slot.item.value < |to|)
    requires from[k].kind.stackable && MoveItem(from, k, moveable, to, capacity, verdict, slot, count, flags).Moved?
    ensures var r := MoveItem(from, k, moveable, to, capacity, verdict, slot, count, flags);
            && (r.ret == NoError <==> r.amount == count)
            && 0 < r.amount <= count && r.amount <= from[k].count
            && (r.amount < count ==>
                !flags.noLimit
                && r.amount == SlotRoom(to, StackRoom(to, from[k].kind), capacity, from[k].kind, slot.index))
  {
  }

  /** No stack grows past a hundred, and a container within its capacity stays within it. */
  lemma MoveKeepsStacks(from: View, k: nat, moveable: bool, to: View, capacity: nat, verdict: ReturnValue, index: int,
                        autoStack: bool, count: nat, flags: Flags)
    requires Sound(from) && Sound(to) && k < |from|
    requires MoveItem(from, k, moveable, to, capacity, verdict,
      Destination(to, capacity, from[k].kind, index, autoStack), count, flags).Moved?
    ensures var r := MoveItem(from, k, moveable, to, capacity, verdict,
      Destination(to, capacity, from[k].kind, index, autoStack), count, flags);
            && Sound(r.from) && Sound(r.to)
            && |r.from| <= |from|
            && (!flags.noLimit && |to| <= capacity ==> |r.to| <= capacity)
  {
    var kind := from[k].kind;
    var slot := Destination(to, capacity, kind, index, autoStack);
    var r := MoveItem(from, k, moveable, to, capacity, verdict, slot, count, flags);
    SoundTaken(from, k, r.amount);
    SlotIsItsItem(to, capacity, kind, index, autoStack);
    SoundReceived(to, JoinedAt(to, kind, slot), kind, if kind.stackable then r.amount else from[k].count,
      slot.index < capacity);
  }

  lemma SlotIsItsItem(v: View, capacity: nat, kind: Kind, index: int, autoStack: bool)
    ensures
      var slot := Destination(v, capacity, kind, index, autoStack); slot.item.Some? ==> slot.item.value == slot.index
  {
  }

  lemma SoundTaken(v: View, k: nat, m: nat)
    requires Sound(v) && k < |v|
    ensures Sound(Taken(v, k, m)) && |Taken(v, k, m)| <= |v|
  {
  }

  lemma SoundReceived(v: View, at: Option<nat>, kind: Kind, m: nat, fits: bool)
    requires Sound(v) && (at.Some? ==> at.value < |v| && v[at.value].kind == kind && kind.stackable)
    requires kind.stackable ==> m <= STACK_LIMIT
    ensures Sound(Received(v, at, kind, m, fits))
    ensures |Received(v, at, kind, m, fits)|
         == if !fits || (at.Some? && v[at.value].count + m <= STACK_LIMIT) then |v| else |v| + 1
  {
  }

  // ----- what may be removed -----

  /** What `queryRemove` allows. */
  predicate Removable(s: Stack, m: nat) {
    m > 0 && (s.kind.stackable ==> m <= s.count)
  }

  predicate NoneEmpty(v: View) {
    forall i :: 0 <= i < |v| ==> v[i].count > 0
  }

  /** `m` pieces of a stack, or the whole of another item, are gone and no other kind has changed. */
  ghost predicate TakesExactly(v: View, k: nat, m: nat)
    requires k < |v|
  {
    forall kind: Kind ::
      Total(Taken(v, k, m), kind)
        == Total(v, kind) - if kind != v[k].kind then 0 else if kind.stackable then m else v[k].count
  }

  /** The test is what the removal needs: it takes exactly what was asked, and leaves no empty
      stack, exactly when `queryRemove` allows it. */
  lemma RemovableExactlyWhen(v: View, k: nat, m: nat)
    requires k < |v| && NoneEmpty(v) && m > 0
    ensures Removable(v[k], m) <==> TakesExactly(v, k, m)
    ensures Removable(v[k], m) <==> NoneEmpty(Taken(v, k, m))
  {
    if Removable(v[k], m) {
      forall kind: Kind
        ensures Total(Taken(v, k, m), kind)
             == Total(v, kind) - if kind != v[k].kind then 0 else if kind.stackable then m else v[k].count
      {
        TotalTaken(v, k, m, kind);
      }
    } else {
      assert Taken(v, k, m) == Grown(v[k := v[k].(count := 0)], k, 0);
      assert Taken(v, k, m)[k].count == 0;
      TotalEmptied(v, k);
    }
  }

  lemma TotalEmptied(v: View, k: nat)
    requires k < |v|
    ensures Total(v, v[k].kind) == Total(v[k := v[k].(count := 0)], v[k].kind) + v[k].count
  {
    var empty := v[k := v[k].(count := 0)];
    TotalGrown(empty, k, v[k].count, v[k].kind);
    assert Grown(empty, k, v[k].count) == v;
  }

  // ----- what a move inside a container keeps -----

  /** The pieces of every kind are all still there. */
  lemma InsideConserves(v: View, k: nat, moveable: bool, open: bool, capacity: nat, verdict: ReturnValue, index: int,
                        count: nat, flags: Flags, kind: Kind)
    requires Sound(v) && k < |v| && MoveInside(v, k, moveable, open, capacity, verdict, index, count, flags).Rearranged?
    ensures Total(MoveInside(v, k, moveable, open, capacity, verdict, index, count, flags).view, kind) == Total(v, kind)
  {
    var r := MoveInside(v, k, moveable, open, capacity, verdict, index, count, flags);
    var at := JoinedAt(v, v[k].kind, Named(v, capacity, index));
    assert r.view == Regrouped(v, k, at, r.amount);
    SoundTaken(v, k, r.amount);
    hide MoveInside, Total;
    TotalTaken(v, k, r.amount, kind);
    TotalReceived(Taken(v, k, r.amount), Shifted(v, at, k, r.amount), v[k].kind,
      if v[k].kind.stackable then r.amount else v[k].count, true, kind);
  }

  /** Stacks and list stay within their limits. */
  lemma InsideKeepsStacks(v: View, k: nat, moveable: bool, open: bool, capacity: nat, verdict: ReturnValue, index: int,
                          count: nat, flags: Flags)
    requires Sound(v) && k < |v| && MoveInside(v, k, moveable, open, capacity, verdict, index, count, flags).Rearranged?
    ensures var w := MoveInside(v, k, moveable, open, capacity, verdict, index, count, flags).view;
            && Sound(w) && |w| <= |v| + 1
            && (!flags.noLimit && |v| <= capacity ==> |w| <= capacity)
  {
    var kind, slot := v[k].kind, Named(v, capacity, index);
    var r := MoveInside(v, k, moveable, open, capacity, verdict, index, count, flags);
    var at := JoinedAt(v, kind, slot);
    SoundTaken(v, k, r.amount);
    SoundReceived(Taken(v, k, r.amount), Shifted(v, at, k, r.amount), kind,
      if kind.stackable then r.amount else v[k].count, true);
  }

  /** An item that does not stack can be moved to another slot exactly when a slot is free, even
      though it needs none; wherever it was to go, it ends up in front. */
  lemma InsideExactlyWhen(v: View, k: nat, open: bool, capacity: nat, index: int, count: nat, flags: Flags)
    requires
      && Sound(v) && k < |v| && !v[k].kind.stackable && !flags.noLimit && count > 0
      && Named(v, capacity, index).item != Some(k)
    ensures var r := MoveInside(v, k, true, open, capacity, NoError, index, count, flags);
            && (r.Rearranged? <==> |v| < capacity)
            && (r.Rearranged? ==> r.view == [v[k]] + Others(v, k))
            && (r.Kept? ==> r.why == ContainerNotEnoughRoom)
  {
  }

  // ----- the code -----

  /** `queryMaxCount` for one slot or, wherever, for the whole container. */
  method QueryMaxCount(to: Container, index: int, item: Item, count: nat, flags: Flags)
    returns (ret: ReturnValue, maxQueryCount: nat)
    requires to.Verdict(item.kind) == NoError
    ensures
      maxQueryCount == MaxMove(to.View(), RoomBeside(to.itemlist, item), to.capacity, item.kind, index, count, flags)
    ensures ret == if !flags.noLimit && (if item.kind.stackable then maxQueryCount < count else maxQueryCount == 0)
                   then ContainerNotEnoughRoom else NoError
  {
    if index == INDEX_WHEREEVER || flags.noLimit || !item.kind.stackable {
      ret, maxQueryCount := to.QueryMaxCount(item, count, flags);
    } else {
      var freeSlots: nat := if to.capacity > |to.itemlist| then to.capacity - |to.itemlist| else 0;
      var n := 0;
      if 0 <= index < |to.itemlist| {
        var destItem := to.itemlist[index];
        if destItem.kind == item.kind && destItem.count < STACK_LIMIT {
          var ok := to.QueryAdd(index, item, flags);
          if ok == NoError {
            n := STACK_LIMIT - destItem.count;
          }
        }
      }
      maxQueryCount := freeSlots * STACK_LIMIT + n;
      ret := if maxQueryCount < count then ContainerNotEnoughRoom else NoError;
    }
  }

  /** `queryRemove`. */
  method QueryRemove(item: Item, moveable: bool, count: nat, flags: Flags) returns (ret: ReturnValue)
    ensures ret == NoError <==> Removable(Stack(item.kind, item.count), count) && (moveable || flags.ignoreNotMoveable)
    ensures ret != NoError ==>
      ret == if Removable(Stack(item.kind, item.count), count) then NotMoveable else NotPossible
  {
    if count == 0 || (item.kind.stackable && count > item.count) {
      return NotPossible;
    }
    if !moveable && !flags.ignoreNotMoveable {
      return NotMoveable;
    }
    ret := NoError;
  }

  /** The loop that follows `queryDestination` from container to container. */
  method Settle(toCylinder: Container, wanted: int, item: Item, wantedFlags: Flags)
    returns (to: Container, index: int, toItem: Item?, flags: Flags)
    requires toCylinder.parent != toCylinder
    ensures to == toCylinder.Target(item.kind, wanted)
    ensures flags == if to == toCylinder then wantedFlags else NO_FLAGS
    ensures !Looks(to, item.kind) ==> toItem == null
    ensures Looks(to, item.kind) && (item !in to.itemlist || item.parent == to) && to.Valid() && to.parent != to ==>
      Answers(to, index, toItem, Destination(to.View(), to.capacity, item.kind,
        if to == toCylinder then wanted else INDEX_WHEREEVER,
                                             !flags.ignoreAutoStack && item.parent != to))
  {
    var subCylinder, floorN := toCylinder, 0;
    to, flags := toCylinder, wantedFlags;
    subCylinder, index, toItem := to.QueryDestination(wanted, item, flags);
    while subCylinder != to && floorN < MAP_MAX_LAYERS
      invariant subCylinder == toCylinder.Target(item.kind, wanted)
      invariant flags == if to == toCylinder then wantedFlags else NO_FLAGS
      invariant to == toCylinder || to == subCylinder
      invariant subCylinder != to ==> floorN == 0 && index == INDEX_WHEREEVER
      invariant to == subCylinder && !Looks(to, item.kind) ==> toItem == null
      invariant
        && to == subCylinder && Looks(to, item.kind) && (item !in to.itemlist || item.parent == to) && to.Valid()
        && to.parent != to ==>
        Answers(to, index, toItem, Destination(to.View(), to.capacity, item.kind,
          if to == toCylinder then wanted else INDEX_WHEREEVER,
                                               !flags.ignoreAutoStack && item.parent != to))
      decreases MAP_MAX_LAYERS - floorN
    {
      to, flags := subCylinder, NO_FLAGS;
      floorN := floorN + 1;
      subCylinder, index, toItem := to.QueryDestination(index, item, flags);
    }
  }

  const MAP_MAX_LAYERS := 16

  /** `queryDestination` gets as far as looking at the slot. */
  predicate Looks(c: Container, kind: Kind) { c.unlocked && !c.closedTo(kind) }

  /** `index` and `toItem` are what `slot` says. */
  ghost predicate Answers(c: Container, index: int, toItem: Item?, slot: Slot)
    requires slot.item.Some? ==> slot.item.value < |c.itemlist|
    reads c
  {
    index == slot.index && toItem == if slot.item.Some? then c.itemlist[slot.item.value] else null
  }

  const NO_FLAGS := Flags(false, false, false)

  method InternalMoveItem(from: Container, toCylinder: Container, index: int, item: Item, count: nat, flags: Flags,
                          moveable: bool, ghost k: nat)
    returns (ret: ReturnValue)
    requires from.Valid() && k < |from.itemlist| && from.itemlist[k] == item && item.parent == from
    requires toCylinder.parent != toCylinder
    requires var to := toCylinder.Target(item.kind, index);
      && to.Valid() && to.parent != to && item.inside != to
      && (to != from ==> forall x :: x in to.itemlist ==> x !in from.itemlist)
    modifies from`itemlist, toCylinder.Target(item.kind, index)`itemlist, from.itemlist,
      toCylinder.Target(item.kind, index).itemlist
    ensures var to := old(toCylinder.Target(item.kind, index));
      var wanted := if to == toCylinder then index else INDEX_WHEREEVER;
      var used := if to == toCylinder then flags else NO_FLAGS;
      to != from ==>
        var slot := Destination(old(to.View()), to.capacity, item.kind, wanted, !used.ignoreAutoStack);
        match MoveItem(old(from.View()), k, moveable, old(to.View()), to.capacity, to.Verdict(item.kind), slot, count,
          used)
        case Stayed(why) => ret == why && from.View() == old(from.View()) && to.View() == old(to.View())
        case Moved(v, w, _, r) => ret == r && from.View() == v && to.View() == w
    ensures var to := old(toCylinder.Target(item.kind, index));
      var wanted := if to == toCylinder then index else INDEX_WHEREEVER;
      var used := if to == toCylinder then flags else NO_FLAGS;
      to == from ==>
        match MoveInside(old(from.View()), k, moveable, Looks(from, item.kind), from.capacity, from.Verdict(item.kind),
          wanted, count, used)
        case Kept(why) => ret == why && from.View() == old(from.View())
        case Rearranged(v, _, r) => ret == r && from.View() == v
  {
    hide Destination, Named, MoveItem, PlanMove, Distinct, Container.Verdict;
    assert item in from.itemlist;
    var to, at, toItem, used := Settle(toCylinder, index, item, flags);
    ghost var wanted := if to == toCylinder then index else INDEX_WHEREEVER;
    if to == from {
      OwnSlot(from, item, k, wanted, at, toItem);
    }
    if item == toItem {
      return NoError;
    }
    if to == from {
      ret := MoveWithin(from, at, toItem, item, count, used, moveable, k, wanted);
    } else {
      ret := MoveAcross(from, to, at, toItem, item, count, used, moveable, k,
                        Destination(to.View(), to.capacity, item.kind, wanted, !used.ignoreAutoStack));
    }
  }

  /** From the settled slot on, into another container. */
  method MoveAcross(from: Container, to: Container, at: int, toItem: Item?, item: Item, count: nat, flags: Flags,
                    moveable: bool,
                    ghost k: nat, ghost slot: Slot)
    returns (ret: ReturnValue)
    requires from.Valid() && k < |from.itemlist| && from.itemlist[k] == item
    requires to != from && to.Valid() && item.inside != to && forall x :: x in to.itemlist ==> x !in from.itemlist
    requires slot.item.Some? ==> slot.item.value < |to.itemlist|
    requires if Looks(to, item.kind) then Answers(to, at, toItem, slot) else toItem == null
    modifies from`itemlist, to`itemlist, from.itemlist, to.itemlist
    ensures match MoveItem(old(from.View()), k, moveable, old(to.View()), to.capacity, to.Verdict(item.kind), slot,
      count, flags)
            case Stayed(why) => ret == why && from.View() == old(from.View()) && to.View() == old(to.View())
            case Moved(v, w, _, r) => ret == r && from.View() == v && to.View() == w
  {
    hide Taken, Received, PlanMove, Distinct, StackRoom, RoomBeside;
    RoomForStranger(to.itemlist, item);
    var plan := QueryMove(to, at, item, count, flags, moveable);
    match plan {
      case No(why) =>
        ret := why;
      case Yes(m, why) =>
        Transfer(from, to, at, toItem, item, m, k, JoinedAt(to.View(), item.kind, slot));
        ret := why;
    }
  }

  /** From the settled slot on, inside one container. */
  method MoveWithin(from: Container, at: int, toItem: Item?, item: Item, count: nat, flags: Flags, moveable: bool,
                    ghost k: nat, ghost wanted: int)
    returns (ret: ReturnValue)
    requires from.Valid() && k < |from.itemlist| && from.itemlist[k] == item && toItem != item
    requires if Looks(from, item.kind) then Answers(from, at, toItem, Named(from.View(), from.capacity, wanted))
      else toItem == null
    modifies from`itemlist, from.itemlist
    ensures match MoveInside(old(from.View()), k, moveable, Looks(from, item.kind), from.capacity,
      from.Verdict(item.kind), wanted, count, flags)
            case Kept(why) => ret == why && from.View() == old(from.View())
            case Rearranged(v, _, r) => ret == r && from.View() == v
  {
    hide Taken, Received, Regrouped, PlanMove, Distinct, StackRoom, RoomBeside, Named;
    OwnSlot(from, item, k, wanted, at, toItem);
    RoomBesideListed(from.itemlist, item, k);
    var plan := QueryMove(from, at, item, count, flags, moveable);
    match plan {
      case No(why) =>
        ret := why;
      case Yes(m, why) =>
        TransferInside(from, at, toItem, item, m, k,
          JoinedAt(from.View(), item.kind, Named(from.View(), from.capacity, wanted)));
        ret := why;
    }
  }

  /** Inside its own container an item is not stacked by itself, and the named slot may hold it. */
  lemma OwnSlot(c: Container, item: Item, k: nat, wanted: int, at: int, toItem: Item?)
    requires c.Valid() && k < |c.itemlist| && c.itemlist[k] == item
    ensures Destination(c.View(), c.capacity, item.kind, wanted, false) == Named(c.View(), c.capacity, wanted)
    ensures Named(c.View(), c.capacity, wanted).index < c.capacity
    ensures Answers(c, at, toItem, Named(c.View(), c.capacity, wanted)) ==>
      (toItem == item <==> Named(c.View(), c.capacity, wanted).item == Some(k))
    ensures !Looks(c, item.kind) ==> c.Verdict(item.kind) != NoError
  {
  }

  /** The queries of `internalMoveItem`. */
  method QueryMove(to: Container, index: int, item: Item, count: nat, flags: Flags, moveable: bool) returns (plan: Plan)
    ensures plan == PlanMove(item.kind, item.count, moveable, to.View(), RoomBeside(to.itemlist, item), to.capacity,
      to.Verdict(item.kind),
                             index, count, flags)
    ensures plan.Yes? && item.kind.stackable ==> 0 < plan.amount <= item.count
  {
    hide Container.Verdict;
    var ret := to.QueryAdd(index, item, flags);
    if ret != NoError {
      return No(ret);
    }
    var retMaxCount, maxQueryCount := QueryMaxCount(to, index, item, count, flags);
    if retMaxCount != NoError && maxQueryCount == 0 {
      return No(retMaxCount);
    }
    var m := if item.kind.stackable && count < maxQueryCount then count else maxQueryCount;
    ret := QueryRemove(item, moveable, m, flags);
    if ret != NoError {
      return No(ret);
    }
    plan := Yes(m, if item.kind.stackable && maxQueryCount < count then retMaxCount else NoError);
  }

  /** The item, or `m` pieces of it, leaves one list and enters the other. */
  method Transfer(from: Container, to: Container, index: int, toItem: Item?, item: Item, m: nat, ghost k: nat,
                  ghost at: Option<nat>)
    requires from.Valid() && k < |from.itemlist| && from.itemlist[k] == item
    requires to != from && to.Valid() && item.inside != to && forall x :: x in to.itemlist ==> x !in from.itemlist
    requires at.Some? ==>
      at.value < |to.itemlist| && to.itemlist[at.value] == toItem && toItem.kind == item.kind && item.kind.stackable
    requires at == None ==> toItem == null || !item.kind.stackable || toItem.kind != item.kind
    requires item.kind.stackable ==> 0 < m <= item.count
    modifies from`itemlist, to`itemlist, item, to.itemlist
    ensures from.View() == Taken(old(from.View()), k, m)
    ensures to.View() == Received(old(to.View()), at, item.kind, if item.kind.stackable then m else old(item.count),
      index < to.capacity)
  {
    hide Taken, Received;
    assert item !in to.itemlist;
    from.RemoveThing(item, m, k);
    ghost var left := from.View();
    assert forall x :: x in from.itemlist ==> x !in to.itemlist;
    label Removed:
    Deliver(to, index, toItem, item, m, at);
    assert forall x :: x in from.itemlist ==> x.count == old@Removed(x.count);
    assert from.View() == left;
  }

  /** The same with one list in both roles. */
  method TransferInside(from: Container, index: int, toItem: Item?, item: Item, m: nat, ghost k: nat,
                        ghost at: Option<nat>)
    requires from.Valid() && k < |from.itemlist| && from.itemlist[k] == item && toItem != item && index < from.capacity
    requires at.Some? ==>
      at.value < |from.itemlist| && from.itemlist[at.value] == toItem && toItem.kind == item.kind && item.kind.stackable
    requires at == None ==> toItem == null || !item.kind.stackable || toItem.kind != item.kind
    requires item.kind.stackable ==> 0 < m <= item.count
    modifies from`itemlist, from.itemlist
    ensures from.View() == Regrouped(old(from.View()), k, at, m)
  {
    hide Taken, Received, Distinct;
    assert item in from.itemlist;
    from.RemoveThing(item, m, k);
    assert forall x :: x in from.itemlist ==> x in old(from.itemlist);
    Deliver(from, index, toItem, item, m, Shifted(old(from.View()), at, k, m));
  }

  method Deliver(to: Container, index: int, toItem: Item?, item: Item, m: nat, ghost at: Option<nat>)
    requires to.Valid() && item.inside != to && (!item.kind.stackable ==> item !in to.itemlist)
    requires at.Some? ==>
      at.value < |to.itemlist| && to.itemlist[at.value] == toItem && toItem.kind == item.kind && item.kind.stackable
    requires at == None ==> toItem == null || !item.kind.stackable || toItem.kind != item.kind
    requires item.kind.stackable ==> 0 < m
    modifies to`itemlist, item`parent, to.itemlist
    ensures to.View() == Received(old(to.View()), at, item.kind, if item.kind.stackable then m else old(item.count),
      index < to.capacity)
  {
    if item.kind.stackable {
      var n := 0;
      if toItem != null && item.kind == toItem.kind {
        n := if STACK_LIMIT - toItem.count < m then STACK_LIMIT - toItem.count else m;
        to.Grow(toItem, n, at.value);
      }
      var newCount := m - n;
      if newCount > 0 {
        var moveItem := new Item(item.kind, newCount);
        to.AddThing(index, moveItem);
      }
    } else {
      to.AddThing(index, item);
    }
  }
}
