/**
 * Where the pieces go: how `internalAddItem` spreads an amount over the stacks of a list, where
 * `internalMoveItem` takes pieces from and puts them, and what it takes for a move to happen.
 */
module StackSpread {
  import opened Basics
  import opened Stacking
  import opened StackMoves

  function Least(a: int, b: int): int { if a < b then a else b }

  /** The room in the stack at `i`. */
  function RoomAt(v: View, kind: Kind, i: nat): nat
    requires i < |v|
  {
    if v[i].kind == kind && v[i].count < STACK_LIMIT then STACK_LIMIT - v[i].count else 0
  }

  /** What the stack at `i` gets of an amount, if the stacks before it are filled first. */
  function Share(v: View, kind: Kind, count: nat, i: nat): nat
    requires i < |v|
  {
    var left := count - StackRoom(v[..i], kind);
    if left <= 0 then 0 else Least(left, RoomAt(v, kind, i))
  }

  /** The stacks of the kind are filled from the front of the list on. */
  predicate Filled(v: View, w: View, kind: Kind, count: nat) {
    |w| == |v| && forall i :: 0 <= i < |v| ==> w[i] == v[i].(count := v[i].count + Share(v, kind, count, i))
  }

  /** ... and what is left becomes one new stack in front. */
  predicate Spread(v: View, w: View, kind: Kind, count: nat) {
    var room := StackRoom(v, kind);
    if count <= room then Filled(v, w, kind, count)
    else |w| == |v| + 1 && w[0] == Stack(kind, count - room) && Filled(v, w[1..], kind, count)
  }

  /** No stack of the kind before `t` has room. */
  lemma {:induction false} NoRoomBefore(v: View, kind: Kind, t: nat)
    requires t <= |v| && forall i :: 0 <= i < t ==> !Partial(v[i], kind)
    ensures StackRoom(v[..t], kind) == 0
  {
    if t > 0 {
      NoRoomBefore(v[1..], kind, t - 1);
      assert v[..t][1..] == v[1..][..t - 1];
    }
  }

  lemma {:induction false} RoomOneMore(v: View, kind: Kind, i: nat)
    requires i < |v|
    ensures StackRoom(v[..i + 1], kind) == StackRoom(v[..i], kind) + RoomAt(v, kind, i)
  {
    if i == 0 {
      assert v[..1][1..] == [] && v[..0] == [];
    } else {
      RoomOneMore(v[1..], kind, i - 1);
      assert v[..i + 1][1..] == v[1..][..i] && v[..i][1..] == v[1..][..i - 1];
    }
  }

  lemma {:induction false} RoomRises(v: View, kind: Kind, i: nat, j: nat)
    requires i <= j <= |v|
    ensures StackRoom(v[..i], kind) <= StackRoom(v[..j], kind)
  {
    if i < j {
      RoomRises(v, kind, i, j - 1);
      RoomOneMore(v, kind, j - 1);
    }
  }

  /** The first stack with room takes all it can; filling goes on behind it. */
  lemma FilledStep(v: View, w: View, kind: Kind, count: nat, t: nat, n: nat)
    requires t < |v| && Partial(v[t], kind) && forall i :: 0 <= i < t ==> !Partial(v[i], kind)
    requires n == RoomAt(v, kind, t) <= count
    requires Filled(Grown(v, t, n), w, kind, count - n)
    ensures Filled(v, w, kind, count)
  {
    hide StackRoom;
    var v' := Grown(v, t, n);
    NoRoomBefore(v, kind, t);
    forall i | 0 <= i < |v|
      ensures v'[i].count + Share(v', kind, count - n, i) == v[i].count + Share(v, kind, count, i)
    {
      if i <= t {
        NoRoomBefore(v, kind, i);
      } else {
        RoomOneMore(v, kind, t);
        RoomRises(v, kind, t + 1, i);
        StackRoomGrown(v[..i], t, n, kind);
        assert Grown(v[..i], t, n) == v'[..i];
      }
    }
  }

  lemma FilledAtOnce(v: View, kind: Kind, count: nat, t: nat)
    requires t < |v| && Partial(v[t], kind) && forall i :: 0 <= i < t ==> !Partial(v[i], kind)
    requires count <= RoomAt(v, kind, t)
    ensures Filled(v, Grown(v, t, count), kind, count)
  {
    hide StackRoom;
    NoRoomBefore(v, kind, t);
    forall i | 0 <= i < |v|
      ensures Share(v, kind, count, i) == if i == t then count else 0
    {
      if i <= t {
        NoRoomBefore(v, kind, i);
      } else {
        RoomOneMore(v, kind, t);
        RoomRises(v, kind, t + 1, i);
      }
    }
  }

  lemma {:induction false} NothingToFill(v: View, kind: Kind, count: nat)
    requires FirstPartial(v, kind) == |v|
    ensures Filled(v, v, kind, count) && StackRoom(v, kind) == 0
  {
    NoPartialNoRoom(v, kind);
  }

  /** The slot is not that of a stack with room, so that the first such stack of the list is
      joined. */
  predicate JoinsFirst(v: View, capacity: nat, kind: Kind, index: int) {
    index != MOVE_UP
    && !(0 <= index < |v| && index < capacity && index != ADD_WHEREVER && Partial(v[index], kind))
  }

  /** With automatic stacking an amount fills the stacks of its kind from the front of the list on;
      what is left becomes one new stack in front. */
  lemma {:induction false} AddSpreads(v: View, capacity: nat, verdict: ReturnValue, kind: Kind, count: nat, index: int,
                                      flags: Flags)
    requires Sound(v) && kind.stackable && count > 0 && !flags.ignoreAutoStack && JoinsFirst(v, capacity, kind, index)
    requires AddItem(v, capacity, verdict, kind, count, index, flags).Placed?
    ensures var r := AddItem(v, capacity, verdict, kind, count, index, flags);
      r.remainder == 0 && Spread(v, r.view, kind, count)
    decreases count
  {
    hide AddItem, MergeAt, Spills, Accepted, Sound, NoneSmaller, Spread, StackRoom, RoomAt;
    var t := FirstPartial(v, kind);
    if t == |v| {
      NewStack(v, capacity, verdict, kind, count, index, flags);
      SpreadInFront(v, kind, count);
    } else {
      var room := RoomAt(v, kind, t);
      JoinsAt(v, capacity, verdict, kind, count, index, flags);
      if count <= room {
        SpreadAtOnce(v, kind, count, t);
      } else {
        var v', rest := SpillStep(v, capacity, verdict, kind, count, index, flags);
        RemainderFits(v, capacity, verdict, kind, count, index, flags, t, room);
        RefusedUnlessAccepted(v', capacity, verdict, kind, rest, INDEX_WHEREEVER, flags);
        AddSpreads(v', capacity, verdict, kind, rest, INDEX_WHEREEVER, flags);
        SpreadStep(v, AddItem(v', capacity, verdict, kind, rest, INDEX_WHEREEVER, flags).view, kind, count, t, room);
      }
    }
  }

  lemma SpreadInFront(v: View, kind: Kind, count: nat)
    requires FirstPartial(v, kind) == |v| && count > 0
    ensures Spread(v, [Stack(kind, count)] + v, kind, count)
  {
    NothingToFill(v, kind, count);
    assert ([Stack(kind, count)] + v)[1..] == v;
  }

  lemma SpreadAtOnce(v: View, kind: Kind, count: nat, t: nat)
    requires t == FirstPartial(v, kind) < |v| && count <= RoomAt(v, kind, t)
    ensures Spread(v, Grown(v, t, count), kind, count)
  {
    hide Filled;
    FilledAtOnce(v, kind, count, t);
    RoomOneMore(v, kind, t);
    RoomRises(v, kind, t + 1, |v|);
    assert v[..|v|] == v;
  }

  lemma SpreadStep(v: View, w: View, kind: Kind, count: nat, t: nat, n: nat)
    requires t == FirstPartial(v, kind) < |v| && n == RoomAt(v, kind, t) < count
    requires Spread(Grown(v, t, n), w, kind, count - n)
    ensures Spread(v, w, kind, count)
  {
    hide Filled;
    StackRoomGrown(v, t, n, kind);
    FilledStep(v, if count - n <= StackRoom(Grown(v, t, n), kind) then w else w[1..], kind, count, t, n);
  }

  lemma NewStack(v: View, capacity: nat, verdict: ReturnValue, kind: Kind, count: nat, index: int, flags: Flags)
    requires Sound(v) && AddItem(v, capacity, verdict, kind, count, index, flags).Placed?
    requires FirstPartial(v, kind) == |v| && !flags.ignoreAutoStack && count > 0
    ensures AddItem(v, capacity, verdict, kind, count, index, flags) == Placed([Stack(kind, count)] + v, 0)
  {
    var at := MergeAt(v, capacity, kind, index, flags);
    if at.Some? {
      assert !Partial(v[at.value], kind);
    }
  }

  lemma JoinsAt(v: View, capacity: nat, verdict: ReturnValue, kind: Kind, count: nat, index: int, flags: Flags)
    requires Sound(v) && AddItem(v, capacity, verdict, kind, count, index, flags).Placed?
    requires kind.stackable && count > 0 && !flags.ignoreAutoStack && JoinsFirst(v, capacity, kind, index)
    requires FirstPartial(v, kind) < |v|
    ensures var t := FirstPartial(v, kind);
      && MergeAt(v, capacity, kind, index, flags) == Some(t) && Merged(v, t, count) == Least(count, RoomAt(v, kind, t))
      && (count <= RoomAt(v, kind, t) ==>
            AddItem(v, capacity, verdict, kind, count, index, flags) == Placed(Grown(v, t, count), 0))
      && (count > RoomAt(v, kind, t) ==> Spills(v, capacity, verdict, kind, count, index, flags))
  {
  }

  /** The stack at `t` is filled first, and what it leaves is spread over the others. */
  predicate SpreadFrom(v: View, w: View, kind: Kind, count: nat, t: nat)
    requires t < |v|
  {
    var n := Least(count, RoomAt(v, kind, t));
    if n == count then w == Grown(v, t, count) else n >= 0 && Spread(Grown(v, t, n), w, kind, count - n)
  }

  /** A stack with room in the named slot is filled before all others. */
  lemma NamedStackFirst(v: View, capacity: nat, verdict: ReturnValue, kind: Kind, count: nat, index: int, flags: Flags)
    requires Sound(v) && kind.stackable && count > 0 && !flags.ignoreAutoStack
    requires index != MOVE_UP && !JoinsFirst(v, capacity, kind, index)
    requires AddItem(v, capacity, verdict, kind, count, index, flags).Placed?
    ensures var r := AddItem(v, capacity, verdict, kind, count, index, flags);
      r.remainder == 0 && SpreadFrom(v, r.view, kind, count, index)
  {
    JoinsNamed(v, capacity, verdict, kind, count, index, flags);
    hide AddItem, MergeAt, Spills, JoinsFirst, Spread, Accepted, Sound, NoneSmaller, RoomAt, Partial, Grown;
    var n := Least(count, RoomAt(v, kind, index));
    if n < count {
      var v', rest := SpillStep(v, capacity, verdict, kind, count, index, flags);
      RemainderFits(v, capacity, verdict, kind, count, index, flags, index, n);
      RefusedUnlessAccepted(v', capacity, verdict, kind, rest, INDEX_WHEREEVER, flags);
      AddSpreads(v', capacity, verdict, kind, rest, INDEX_WHEREEVER, flags);
    }
  }

  lemma JoinsNamed(v: View, capacity: nat, verdict: ReturnValue, kind: Kind, count: nat, index: int, flags: Flags)
    requires Sound(v) && AddItem(v, capacity, verdict, kind, count, index, flags).Placed?
    requires kind.stackable && count > 0 && !flags.ignoreAutoStack
    requires index != MOVE_UP && !JoinsFirst(v, capacity, kind, index)
    ensures MergeAt(v, capacity, kind, index, flags) == Some(index) && JoinsFirst(v, capacity, kind, INDEX_WHEREEVER)
    ensures Merged(v, index, count) == Least(count, RoomAt(v, kind, index))
    ensures count <= RoomAt(v, kind, index) ==>
      AddItem(v, capacity, verdict, kind, count, index, flags) == Placed(Grown(v, index, count), 0)
    ensures count > RoomAt(v, kind, index) ==> Spills(v, capacity, verdict, kind, count, index, flags)
    ensures forall w: View :: JoinsFirst(w, capacity, kind, INDEX_WHEREEVER)
  {
  }

  /** What does not stack, or finds no stack of its kind where it may join one, goes to the front. */
  lemma GoesToFront(v: View, capacity: nat, verdict: ReturnValue, kind: Kind, count: nat, index: int, flags: Flags)
    requires Sound(v) && AddItem(v, capacity, verdict, kind, count, index, flags).Placed?
    requires !kind.stackable || (flags.ignoreAutoStack && !(0 <= index < |v| && v[index].kind == kind))
    ensures AddItem(v, capacity, verdict, kind, count, index, flags) == Placed([Stack(kind, count)] + v, 0)
  {
  }

  // ----- moves -----

  /** What a move takes: the first pieces of the stack, or the whole item, which leaves the list. */
  predicate TakenFrom(v: View, w: View, k: nat, m: nat)
    requires k < |v|
  {
    if v[k].kind.stackable && m < v[k].count then
      |w| == |v| && w[k] == Stack(v[k].kind, v[k].count - m) && forall i :: 0 <= i < |v| && i != k ==> w[i] == v[i]
    else
      |w| == |v| - 1 && forall i :: 0 <= i < |w| ==> w[i] == v[if i < k then i else i + 1]
  }

  /** What a move adds: `joined` pieces to the stack at `t`, if there is one, and a new item of
      `fresh` pieces in front, if there are any. */
  predicate PutInto(v: View, w: View, t: Option<nat>, joined: nat, item: Stack)
    requires t.Some? ==> t.value < |v|
  {
    var extra := if item.count > 0 then 1 else 0;
    && |w| == |v| + extra && (extra == 1 ==> w[0] == item)
    && forall i :: 0 <= i < |v| ==>
      w[i + extra] == v[i].(count := v[i].count + if t == Some(i) then joined else 0)
  }

  /** The stack of this kind that stands in the slot, if there is one. */
  function StackIn(v: View, slot: Slot, kind: Kind): (t: Option<nat>)
    requires slot.item.Some? ==> slot.item.value < |v|
    ensures t.Some? ==> t.value < |v| && v[t.value].kind == kind
  {
    if slot.item.Some? && v[slot.item.value].kind == kind then slot.item else None
  }

  /** Pieces arrive: the stack at `t` takes what it has room for, and the rest is a new stack in
      front, if that is possible. */
  predicate Arrive(v: View, w: View, t: Option<nat>, kind: Kind, m: nat, fits: bool)
    requires Sound(v) && (t.Some? ==> t.value < |v| && v[t.value].kind == kind && kind.stackable)
  {
    var joined := if t.Some? then Least(m, STACK_LIMIT - v[t.value].count) else 0;
    PutInto(v, w, t, joined, Stack(kind, if fits then m - joined else 0))
  }

  /** A move takes the reported amount from the item moved and no other; in the target it fills
      the stack of its kind that stands in the slot, and the rest becomes a new stack in front,
      unless the slot lies past the capacity. */
  lemma MoveLands(from: View, k: nat, moveable: bool, to: View, capacity: nat, verdict: ReturnValue, slot: Slot,
                  count: nat, flags: Flags)
    requires Sound(from) && Sound(to) && k < |from| && (slot.item.Some? ==> slot.item.value < |to|)
    requires from[k].kind.stackable && MoveItem(from, k, moveable, to, capacity, verdict, slot, count, flags).Moved?
    ensures var r := MoveItem(from, k, moveable, to, capacity, verdict, slot, count, flags);
      && 0 < r.amount <= from[k].count && TakenFrom(from, r.from, k, r.amount)
      && Arrive(to, r.to, StackIn(to, slot, from[k].kind), from[k].kind, r.amount, slot.index < capacity)
  {
    var r := MoveItem(from, k, moveable, to, capacity, verdict, slot, count, flags);
    var t := JoinedAt(to, from[k].kind, slot);
    assert r.from == Taken(from, k, r.amount);
    assert r.to == Received(to, t, from[k].kind, r.amount, slot.index < capacity);
    assert 0 < r.amount <= from[k].count;
    hide MoveItem, Taken, Received, Sound, TakenFrom, Arrive;
    TakenAway(from, k, r.amount);
    ReceivedThere(to, t, from[k].kind, r.amount, slot.index < capacity);
  }

  lemma TakenAway(v: View, k: nat, m: nat)
    requires k < |v| && (v[k].kind.stackable ==> m <= v[k].count)
    ensures TakenFrom(v, Taken(v, k, m), k, m)
  {
    var w := Taken(v, k, m);
    if v[k].kind.stackable && m < v[k].count {
      assert w == v[k := Stack(v[k].kind, v[k].count - m)];
    } else {
      assert w == v[..k] + v[k + 1..];
    }
  }

  lemma ReceivedThere(v: View, t: Option<nat>, kind: Kind, m: nat, fits: bool)
    requires Sound(v) && kind.stackable && m > 0 && (t.Some? ==> t.value < |v| && v[t.value].kind == kind)
    ensures Arrive(v, Received(v, t, kind, m, fits), t, kind, m, fits)
  {
    if t.Some? {
      var n := Merged(v, t.value, m);
      assert n == Least(m, STACK_LIMIT - v[t.value].count);
      PutIntoGrown(v, t.value, n, Stack(kind, if fits then m - n else 0));
    }
  }

  lemma PutIntoGrown(v: View, t: nat, n: nat, item: Stack)
    requires t < |v|
    ensures PutInto(v, if item.count > 0 then [item] + Grown(v, t, n) else Grown(v, t, n), Some(t), n, item)
  {
  }

  /** An item that does not stack moves as a whole, to the front. */
  lemma WholeItemLands(from: View, k: nat, moveable: bool, to: View, capacity: nat, verdict: ReturnValue, slot: Slot,
                       count: nat, flags: Flags)
    requires Sound(from) && Sound(to) && k < |from| && (slot.item.Some? ==> slot.item.value < |to|)
    requires !from[k].kind.stackable && MoveItem(from, k, moveable, to, capacity, verdict, slot, count, flags).Moved?
    ensures var r := MoveItem(from, k, moveable, to, capacity, verdict, slot, count, flags);
      && r.ret == NoError && TakenFrom(from, r.from, k, r.amount)
      && r.to == if slot.index < capacity then [from[k]] + to else to
  {
  }

  /** A move of part of a stack happens exactly when nothing speaks against the item, it may be
      moved, the slot has room or no limit holds, and there are as many pieces; it then moves
      what is asked, as far as the slot has room. Every refusal names what was in the way. */
  lemma MovesExactlyWhen(from: View, k: nat, moveable: bool, to: View, capacity: nat, verdict: ReturnValue, slot: Slot,
                         count: nat, flags: Flags)
    requires Sound(from) && Sound(to) && k < |from| && (slot.item.Some? ==> slot.item.value < |to|)
    requires from[k].kind.stackable
    ensures var r := MoveItem(from, k, moveable, to, capacity, verdict, slot, count, flags);
      var room := SlotRoom(to, StackRoom(to, from[k].kind), capacity, from[k].kind, slot.index);
      var m := if flags.noLimit then count else Least(count, room);
      && (r.Moved? <==>
            && verdict == NoError && 0 < m <= from[k].count && (moveable || flags.ignoreNotMoveable)
            && (flags.noLimit || slot.index != INDEX_WHEREEVER || |to| < capacity))
      && (r.Moved? ==> r.amount == m)
      && (r.Stayed? && verdict != NoError ==> r.why == verdict)
      && (r.Stayed? && verdict == NoError ==>
            && (r.why == ContainerNotEnoughRoom ==>
                  !flags.noLimit && (room == 0 || (slot.index == INDEX_WHEREEVER && |to| >= capacity)))
            && (r.why == NotPossible ==> m == 0 || m > from[k].count)
            && (r.why == NotMoveable ==> !moveable && !flags.ignoreNotMoveable)
            && r.why in {ContainerNotEnoughRoom, NotPossible, NotMoveable})
  {
  }

  /** An item that does not stack moves exactly when nothing speaks against it, it may be moved, and
      a slot is free or no limit holds; how many are asked for does not matter. */
  lemma WholeItemMovesExactlyWhen(from: View, k: nat, moveable: bool, to: View, capacity: nat, verdict: ReturnValue,
                                  slot: Slot, count: nat, flags: Flags)
    requires Sound(from) && Sound(to) && k < |from| && (slot.item.Some? ==> slot.item.value < |to|)
    requires !from[k].kind.stackable
    ensures MoveItem(from, k, moveable, to, capacity, verdict, slot, count, flags).Moved? <==>
      verdict == NoError && (moveable || flags.ignoreNotMoveable) && (flags.noLimit || |to| < capacity)
  {
  }

  /** Pieces leave a stack and arrive in the same list: the stack that takes them stands one further
      to the front if the whole item before it has left. */
  ghost predicate Rearranges(v: View, w: View, k: nat, at: Option<nat>, m: nat)
    requires Sound(v) && k < |v| && v[k].kind.stackable && m <= v[k].count && at != Some(k)
    requires at.Some? ==> at.value < |v| && v[at.value].kind == v[k].kind
  {
    var t := if at.Some? && at.value > k && m == v[k].count then Some(at.value - 1) else at;
    exists left: View :: TakenFrom(v, left, k, m) && Sound(left)
      && (t.Some? ==> t.value < |left| && left[t.value].kind == v[k].kind) && Arrive(left, w, t, v[k].kind, m, true)
  }

  /** Inside one container the pieces leave their stack, fill the stack of their kind that stands
      in the slot, and the rest goes to the front. */
  lemma InsideLands(v: View, k: nat, moveable: bool, open: bool, capacity: nat, verdict: ReturnValue, index: int,
                    count: nat, flags: Flags)
    requires Sound(v) && k < |v| && v[k].kind.stackable
    requires MoveInside(v, k, moveable, open, capacity, verdict, index, count, flags).Rearranged?
    ensures var r := MoveInside(v, k, moveable, open, capacity, verdict, index, count, flags);
      var slot := Named(v, capacity, index);
      && 0 < r.amount <= v[k].count && slot.item != Some(k) && (slot.item.Some? ==> slot.item.value < |v|)
      && Rearranges(v, r.view, k, StackIn(v, slot, v[k].kind), r.amount)
  {
    InsideIs(v, k, moveable, open, capacity, verdict, index, count, flags);
    hide MoveInside, Regrouped, Sound, Named, Rearranges;
    var r := MoveInside(v, k, moveable, open, capacity, verdict, index, count, flags);
    RegroupedLands(v, k, JoinedAt(v, v[k].kind, Named(v, capacity, index)), r.amount);
  }

  lemma InsideIs(v: View, k: nat, moveable: bool, open: bool, capacity: nat, verdict: ReturnValue, index: int,
                 count: nat, flags: Flags)
    requires Sound(v) && k < |v| && v[k].kind.stackable
    requires MoveInside(v, k, moveable, open, capacity, verdict, index, count, flags).Rearranged?
    ensures var r := MoveInside(v, k, moveable, open, capacity, verdict, index, count, flags);
      var at := JoinedAt(v, v[k].kind, Named(v, capacity, index));
      && 0 < r.amount <= v[k].count && Named(v, capacity, index).item != Some(k) && at != Some(k)
      && r.view == Regrouped(v, k, at, r.amount)
      && (Named(v, capacity, index).item.Some? ==> Named(v, capacity, index).item.value < |v|)
  {
    hide Regrouped;
  }

  lemma RegroupedLands(v: View, k: nat, at: Option<nat>, m: nat)
    requires Sound(v) && k < |v| && v[k].kind.stackable && 0 < m <= v[k].count && at != Some(k)
    requires at.Some? ==> at.value < |v| && v[at.value].kind == v[k].kind
    ensures Rearranges(v, Regrouped(v, k, at, m), k, at, m)
  {
    SoundTaken(v, k, m);
    TakenAway(v, k, m);
    var left, t := Taken(v, k, m), Shifted(v, at, k, m);
    assert at.Some? ==> t.value < |left| && left[t.value] == v[at.value];
    assert Regrouped(v, k, at, m) == Received(left, t, v[k].kind, m, true);
    hide TakenFrom, Arrive, Received, Taken, Sound;
    ReceivedThere(left, t, v[k].kind, m, true);
  }

  /** A move to the item's own slot changes nothing. */
  lemma OwnSlotKeeps(v: View, k: nat, moveable: bool, open: bool, capacity: nat, verdict: ReturnValue, count: nat,
                     flags: Flags)
    requires Sound(v) && k < |v| && k < capacity && k != MOVE_UP && k != ADD_WHEREVER
    ensures MoveInside(v, k, moveable, open, capacity, verdict, k, count, flags).Kept?
  {
  }
}
