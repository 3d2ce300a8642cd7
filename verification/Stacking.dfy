/**
 * How `internalAddItem` spreads an item over the stacks of a container, on the values a list
 * shows: which stack is filled next, when the whole amount is refused, and what can be lost.
 */
module Stacking {
  import opened Basics

  const STACK_LIMIT := 100
  const INDEX_WHEREEVER := -1
  const MOVE_UP := 254
  const ADD_WHEREVER := 255

  /** What `Item::equals` compares: the type and the attributes. */
  datatype Kind = Kind(id: nat, stackable: bool, attributes: seq<nat>)

  datatype Stack = Stack(kind: Kind, count: nat)

  type View = seq<Stack>

  datatype ReturnValue = NoError | ContainerNotEnoughRoom | NotPossible | NotMoveable | Other(code: nat)

  datatype Flags = Flags(noLimit: bool, ignoreAutoStack: bool, ignoreNotMoveable: bool)

  /** No stack holds more than a hundred. */
  predicate Sound(v: View) {
    forall i :: 0 <= i < |v| && v[i].kind.stackable ==> v[i].count <= STACK_LIMIT
  }

  predicate Partial(s: Stack, kind: Kind) {
    s.kind == kind && s.count < STACK_LIMIT
  }

  /** The first stack of this kind with room, or the length of the list. */
  function FirstPartial(v: View, kind: Kind): (p: nat)
    ensures p <= |v| && (forall i :: 0 <= i < p ==> !Partial(v[i], kind)) && (p < |v| ==> Partial(v[p], kind))
  {
    if v == [] then 0 else if Partial(v[0], kind) then 0 else 1 + FirstPartial(v[1..], kind)
  }

  lemma FirstPartialIs(v: View, kind: Kind, n: nat)
    requires n <= |v| && (forall i :: 0 <= i < n ==> !Partial(v[i], kind)) && (n < |v| ==> Partial(v[n], kind))
    ensures FirstPartial(v, kind) == n
  {
    var p := FirstPartial(v, kind);
  }

  /** The room left in the stacks of this kind. */
  function StackRoom(v: View, kind: Kind): nat {
    if v == [] then 0 else (if Partial(v[0], kind) then STACK_LIMIT - v[0].count else 0) + StackRoom(v[1..], kind)
  }

  function FreeSlots(v: View, capacity: nat): nat {
    if |v| < capacity then capacity - |v| else 0
  }

  function Room(v: View, capacity: nat, kind: Kind): nat {
    FreeSlots(v, capacity) * STACK_LIMIT + StackRoom(v, kind)
  }

  /** How many pieces of one kind are there. */
  function Total(v: View, kind: Kind): nat {
    if v == [] then 0 else (if v[0].kind == kind then v[0].count else 0) + Total(v[1..], kind)
  }

  function Grown(v: View, t: nat, n: nat): View
    requires t < |v|
  {
    v[t := v[t].(count := v[t].count + n)]
  }

  /** `removeThing`: `m` pieces of the stack at `k`, as far as it has them, or the whole item. */
  function Taken(v: View, k: nat, m: nat): View
    requires k < |v|
  {
    if v[k].kind.stackable && m != v[k].count then v[k := v[k].(count := Less(v[k].count, m))]
    else v[..k] + v[k + 1..]
  }

  function Less(count: nat, m: nat): nat {
    if m < count then count - m else 0
  }

  // ----- queryDestination, queryAdd, queryMaxCount -----

  /** The slot `queryDestination` settles on, and the item there, in a container that does not
      pass the item on to another one. */
  datatype Slot = Slot(index: int, item: Option<nat>)

  function Named(v: View, capacity: nat, index: int): Slot {
    if index == MOVE_UP || index == ADD_WHEREVER || index >= capacity then Slot(INDEX_WHEREEVER, None)
    else if 0 <= index < |v| then Slot(index, Some(index))
    else Slot(index, None)
  }

  function Destination(v: View, capacity: nat, kind: Kind, index: int, autoStack: bool): (slot: Slot)
    ensures slot.item.Some? ==> slot.item.value < |v|
  {
    var named := Named(v, capacity, index);
    if index == MOVE_UP || !autoStack || !kind.stackable
      || (named.item.Some? && Partial(v[named.item.value], kind)) then named
    else
      var p := FirstPartial(v, kind);
      if p < |v| then Slot(p, Some(p)) else named
  }

  /** A slot past the capacity is only ever settled on for a stack with room that stands there. */
  lemma OnlyJoinedPastCapacity(v: View, capacity: nat, kind: Kind, index: int, autoStack: bool)
    ensures var slot := Destination(v, capacity, kind, index, autoStack);
            slot.index >= capacity ==>
              kind.stackable && 0 <= slot.index < |v| && slot.item == Some(slot.index) && Partial(v[slot.index], kind)
  {
  }

  predicate Full(v: View, capacity: nat, slot: Slot, flags: Flags) {
    !flags.noLimit && slot.index == INDEX_WHEREEVER && |v| >= capacity
  }

  predicate TooMuch(v: View, capacity: nat, kind: Kind, count: nat, flags: Flags) {
    !flags.noLimit && if kind.stackable then Room(v, capacity, kind) < count else |v| >= capacity
  }

  // ----- internalAddItem -----

  datatype Outcome = Refused(why: ReturnValue) | Placed(view: View, remainder: nat)

  /** How much of `count` goes into the stack at `t`. */
  function Merged(v: View, t: nat, count: nat): nat
    requires t < |v| && v[t].count <= STACK_LIMIT
  {
    if STACK_LIMIT - v[t].count < count then STACK_LIMIT - v[t].count else count
  }

  /** `verdict` is what `queryAdd` says about the item when room is not the question. */
  predicate Accepted(v: View, capacity: nat, verdict: ReturnValue, kind: Kind, count: nat, index: int, flags: Flags) {
    && verdict == NoError
    && !Full(v, capacity, Destination(v, capacity, kind, index, !flags.ignoreAutoStack), flags)
    && !TooMuch(v, capacity, kind, count, flags)
  }

  /** The stack the item is merged into, if the slot holds one of its kind. */
  function MergeAt(v: View, capacity: nat, kind: Kind, index: int, flags: Flags): (t: Option<nat>)
    ensures t.Some? ==> t.value < |v| && v[t.value].kind == kind && kind.stackable
  {
    var slot := Destination(v, capacity, kind, index, !flags.ignoreAutoStack);
    if kind.stackable && slot.item.Some? && v[slot.item.value].kind == kind then slot.item else None
  }

  function AddItem(v: View, capacity: nat, verdict: ReturnValue, kind: Kind, count: nat, index: int,
                   flags: Flags): (r: Outcome)
    requires Sound(v)
    ensures r.Refused? ==> r.why != NoError
    decreases count, 1
  {
    if !Accepted(v, capacity, verdict, kind, count, index, flags) then
      Refused(if verdict != NoError then verdict else ContainerNotEnoughRoom)
    else
      match MergeAt(v, capacity, kind, index, flags)
      case None => Placed([Stack(kind, count)] + v, 0)
      case Some(t) => Merge(v, capacity, verdict, kind, count, t, flags)
  }

  /** The item joins the stack at `t`; what is left is added again, wherever there is room. */
  function Merge(v: View, capacity: nat, verdict: ReturnValue, kind: Kind, count: nat, t: nat,
                 flags: Flags): (r: Outcome)
    requires Sound(v) && t < |v| && v[t].kind == kind && kind.stackable
    ensures r.Placed?
    decreases count, 0
  {
    var n := Merged(v, t, count);
    if count == n then Placed(Grown(v, t, n), 0)
    else if n == 0 then Placed([Stack(kind, count)] + v, 0)
    else
      match AddItem(Grown(v, t, n), capacity, verdict, kind, count - n, INDEX_WHEREEVER, flags)
      case Placed(w, _) => Placed(w, 0)
      case Refused(_) => Placed(Grown(v, t, n), count - n)
  }

  /** The item fills the stack it is merged into, and something is left. */
  predicate Spills(v: View, capacity: nat, verdict: ReturnValue, kind: Kind, count: nat, index: int, flags: Flags)
    requires Sound(v)
  {
    && Accepted(v, capacity, verdict, kind, count, index, flags)
    && var t := MergeAt(v, capacity, kind, index, flags);
       t.Some? && 0 < Merged(v, t.value, count) < count
  }

  // ----- what the caller can rely on -----

  lemma {:induction false} TotalGrown(v: View, t: nat, n: nat, kind: Kind)
    requires t < |v|
    ensures Total(Grown(v, t, n), kind) == Total(v, kind) + (if v[t].kind == kind then n else 0)
  {
    if t > 0 {
      TotalGrown(v[1..], t - 1, n, kind);
      assert Grown(v, t, n)[1..] == Grown(v[1..], t - 1, n);
    }
  }

  lemma {:induction false} StackRoomGrown(v: View, t: nat, n: nat, kind: Kind)
    requires t < |v| && v[t].kind == kind && v[t].count + n <= STACK_LIMIT
    ensures StackRoom(v, kind) == StackRoom(Grown(v, t, n), kind) + n
  {
    if t > 0 {
      StackRoomGrown(v[1..], t - 1, n, kind);
      assert Grown(v, t, n)[1..] == Grown(v[1..], t - 1, n);
    }
  }

  lemma {:induction false} NoPartialNoRoom(v: View, kind: Kind)
    requires FirstPartial(v, kind) == |v|
    ensures StackRoom(v, kind) == 0
  {
    if v != [] {
      NoPartialNoRoom(v[1..], kind);
    }
  }

  lemma TotalPushed(v: View, s: Stack, kind: Kind)
    ensures Total([s] + v, kind) == Total(v, kind) + (if s.kind == kind then s.count else 0)
  {
    assert ([s] + v)[1..] == v;
  }

  /** The same stacks in the same order, none of them smaller. */
  predicate NoneSmaller(v: View, w: View) {
    |v| == |w| && forall i :: 0 <= i < |v| ==> w[i].kind == v[i].kind && w[i].count >= v[i].count
  }

  /** One round of a spill: the stack it is merged into is full afterwards. */
  lemma SpillStep(v: View, capacity: nat, verdict: ReturnValue, kind: Kind, count: nat, index: int, flags: Flags)
    returns (v': View, rest: nat)
    requires Sound(v) && Spills(v, capacity, verdict, kind, count, index, flags)
    ensures Sound(v') && NoneSmaller(v, v') && 0 < rest < count
    ensures var t := MergeAt(v, capacity, kind, index, flags).value;
            v' == Grown(v, t, count - rest) && rest == count - Merged(v, t, count)
    ensures AddItem(v, capacity, verdict, kind, count, index, flags)
         == match AddItem(v', capacity, verdict, kind, rest, INDEX_WHEREEVER, flags)
            case Placed(w, _) => Placed(w, 0)
            case Refused(_) => Placed(v', rest)
  {
    var t := MergeAt(v, capacity, kind, index, flags).value;
    rest := count - Merged(v, t, count);
    v' := Grown(v, t, count - rest);
    assert t < |v| && v[t].count + (count - rest) <= STACK_LIMIT;
    hide Accepted, MergeAt;
    assert Sound(v') && NoneSmaller(v, v');
  }

  /** The remainder of a spill fits, except where a full container is entered at a named slot
      with automatic stacking off. */
  lemma RemainderFits(v: View, capacity: nat, verdict: ReturnValue, kind: Kind, count: nat, index: int, flags: Flags,
                      t: nat, n: nat)
    requires Sound(v) && Spills(v, capacity, verdict, kind, count, index, flags)
    requires MergeAt(v, capacity, kind, index, flags) == Some(t) && n == Merged(v, t, count)
    ensures Accepted(Grown(v, t, n), capacity, verdict, kind, count - n, INDEX_WHEREEVER, flags)
       <==> !(flags.ignoreAutoStack && !flags.noLimit && |v| >= capacity)
  {
    var w := Grown(v, t, n);
    StackRoomGrown(v, t, n, kind);
    if FirstPartial(w, kind) == |w| {
      NoPartialNoRoom(w, kind);
    }
  }

  /** A remainder is lost exactly in that case. */
  lemma LostExactlyWhen(v: View, capacity: nat, verdict: ReturnValue, kind: Kind, count: nat, index: int, flags: Flags)
    requires Sound(v) && AddItem(v, capacity, verdict, kind, count, index, flags).Placed?
    ensures AddItem(v, capacity, verdict, kind, count, index, flags).remainder > 0
       <==> (&& Spills(v, capacity, verdict, kind, count, index, flags)
             && flags.ignoreAutoStack && !flags.noLimit && |v| >= capacity)
  {
    if Spills(v, capacity, verdict, kind, count, index, flags) {
      var v', rest := SpillStep(v, capacity, verdict, kind, count, index, flags);
      var t := MergeAt(v, capacity, kind, index, flags).value;
      RemainderFits(v, capacity, verdict, kind, count, index, flags, t, count - rest);
      RefusedUnlessAccepted(v', capacity, verdict, kind, rest, INDEX_WHEREEVER, flags);
    }
  }

  lemma RefusedUnlessAccepted(v: View, capacity: nat, verdict: ReturnValue, kind: Kind, count: nat, index: int,
                              flags: Flags)
    requires Sound(v)
    ensures AddItem(v, capacity, verdict, kind, count, index, flags).Placed? <==>
      Accepted(v, capacity, verdict, kind, count, index, flags)
  {
  }

  lemma SpillTotal(v: View, capacity: nat, verdict: ReturnValue, kind: Kind, count: nat, index: int, flags: Flags,
                   v': View, rest: nat, k: Kind)
    requires Sound(v) && Spills(v, capacity, verdict, kind, count, index, flags) && rest <= count
    requires v' == Grown(v, MergeAt(v, capacity, kind, index, flags).value, count - rest)
    ensures Total(v', k) == Total(v, k) + (if k == kind then count - rest else 0)
  {
    TotalGrown(v, MergeAt(v, capacity, kind, index, flags).value, count - rest, k);
  }

  /** Nothing appears or vanishes: the container gains what was asked less the remainder that
      is reported, and no other kind changes. */
  lemma {:induction false} AddConserves(v: View, capacity: nat, verdict: ReturnValue, kind: Kind, count: nat,
                                        index: int, flags: Flags, k: Kind)
    requires Sound(v) && AddItem(v, capacity, verdict, kind, count, index, flags).Placed?
    ensures var r := AddItem(v, capacity, verdict, kind, count, index, flags);
            r.remainder <= count && Total(r.view, k) == Total(v, k) + (if k == kind then count - r.remainder else 0)
    decreases count
  {
    if Spills(v, capacity, verdict, kind, count, index, flags) {
      var v', rest := SpillStep(v, capacity, verdict, kind, count, index, flags);
      hide AddItem;
      var nested := AddItem(v', capacity, verdict, kind, rest, INDEX_WHEREEVER, flags);
      SpillTotal(v, capacity, verdict, kind, count, index, flags, v', rest, k);
      if nested.Placed? {
        AddConserves(v', capacity, verdict, kind, rest, INDEX_WHEREEVER, flags, k);
        LostExactlyWhen(v', capacity, verdict, kind, rest, INDEX_WHEREEVER, flags);
        if flags.ignoreAutoStack {
          NoSpillUnmerged(v', capacity, verdict, kind, rest, flags);
        }
      }
    } else {
      NoSpillConserves(v, capacity, verdict, kind, count, index, flags, k);
    }
  }

  lemma NoSpillConserves(v: View, capacity: nat, verdict: ReturnValue, kind: Kind, count: nat, index: int, flags: Flags,
                         k: Kind)
    requires Sound(v) && AddItem(v, capacity, verdict, kind, count, index, flags).Placed?
    requires !Spills(v, capacity, verdict, kind, count, index, flags)
    ensures var r := AddItem(v, capacity, verdict, kind, count, index, flags);
            r.remainder == 0 && Total(r.view, k) == Total(v, k) + (if k == kind then count else 0)
  {
    var at := MergeAt(v, capacity, kind, index, flags);
    var w := AddItem(v, capacity, verdict, kind, count, index, flags).view;
    assert w == [Stack(kind, count)] + v || (at.Some? && w == Grown(v, at.value, count));
    hide AddItem, Spills, MergeAt, Sound;
    TotalPushed(v, Stack(kind, count), k);
    if at.Some? {
      TotalGrown(v, at.value, count, k);
    }
  }

  lemma NoSpillUnmerged(v: View, capacity: nat, verdict: ReturnValue, kind: Kind, count: nat, flags: Flags)
    requires Sound(v) && flags.ignoreAutoStack
    ensures !Spills(v, capacity, verdict, kind, count, INDEX_WHEREEVER, flags)
  {
  }

  /** With automatic stacking, an item is refused exactly when it does not fit as a whole. */
  lemma AcceptedExactlyWhen(v: View, capacity: nat, verdict: ReturnValue, kind: Kind, count: nat, index: int,
                            flags: Flags)
    requires Sound(v) && !flags.ignoreAutoStack && count >= 1
    ensures AddItem(v, capacity, verdict, kind, count, index, flags).Placed?
       <==> verdict == NoError
            && (flags.noLimit
                || if kind.stackable && index != MOVE_UP then count <= Room(v, capacity, kind)
                   else |v| < capacity && (kind.stackable ==> count <= Room(v, capacity, kind)))
  {
    if FirstPartial(v, kind) == |v| {
      NoPartialNoRoom(v, kind);
    }
  }

  /** At most one stack is new, in front of the old ones. */
  predicate Grew(v: View, w: View) {
    NoneSmaller(v, w) || (|w| == |v| + 1 && NoneSmaller(v, w[1..]))
  }

  lemma GrewTwice(v: View, v': View, w: View)
    requires NoneSmaller(v, v') && Grew(v', w)
    ensures Grew(v, w)
  {
  }

  lemma {:induction false} AddKeepsStacks(v: View, capacity: nat, verdict: ReturnValue, kind: Kind, count: nat,
                                          index: int, flags: Flags)
    requires Sound(v) && AddItem(v, capacity, verdict, kind, count, index, flags).Placed?
    ensures var w := AddItem(v, capacity, verdict, kind, count, index, flags).view;
            Grew(v, w) && ((kind.stackable ==> count <= STACK_LIMIT) ==> Sound(w))
    decreases count
  {
    if Spills(v, capacity, verdict, kind, count, index, flags) {
      var v', rest := SpillStep(v, capacity, verdict, kind, count, index, flags);
      hide AddItem;
      var nested := AddItem(v', capacity, verdict, kind, rest, INDEX_WHEREEVER, flags);
      if nested.Placed? {
        AddKeepsStacks(v', capacity, verdict, kind, rest, INDEX_WHEREEVER, flags);
        hide Grew, Sound, NoneSmaller;
        GrewTwice(v, v', nested.view);
      }
    } else {
      NoSpillKeepsStacks(v, capacity, verdict, kind, count, index, flags);
    }
  }

  lemma NoSpillKeepsStacks(v: View, capacity: nat, verdict: ReturnValue, kind: Kind, count: nat, index: int,
                           flags: Flags)
    requires Sound(v) && AddItem(v, capacity, verdict, kind, count, index, flags).Placed?
    requires !Spills(v, capacity, verdict, kind, count, index, flags)
    ensures var w := AddItem(v, capacity, verdict, kind, count, index, flags).view;
            Grew(v, w) && ((kind.stackable ==> count <= STACK_LIMIT) ==> Sound(w))
  {
    var w := AddItem(v, capacity, verdict, kind, count, index, flags).view;
    var at := MergeAt(v, capacity, kind, index, flags);
    assert
      w == [Stack(kind, count)] + v
      || (at.Some? && w == Grown(v, at.value, count) && v[at.value].count + count <= STACK_LIMIT);
    hide AddItem, Spills, MergeAt;
    assert ([Stack(kind, count)] + v)[1..] == v;
  }

  /** The named slot holds no stack of this kind with room. */
  predicate NothingToMerge(v: View, kind: Kind, index: int) {
    index != INDEX_WHEREEVER && index < |v| && (index < 0 || !Partial(v[index], kind))
  }

  /** A container within its capacity stays within it, except where automatic stacking is off
      and a full container is entered at a slot that cannot take the item. */
  lemma {:induction false} OverfullExactlyWhen(v: View, capacity: nat, verdict: ReturnValue, kind: Kind, count: nat,
                                               index: int, flags: Flags)
    requires Sound(v) && AddItem(v, capacity, verdict, kind, count, index, flags).Placed?
    requires !flags.noLimit && count >= 1 && |v| <= capacity
    ensures |AddItem(v, capacity, verdict, kind, count, index, flags).view| > capacity
       <==> (&& |v| == capacity && kind.stackable && flags.ignoreAutoStack
             && index != MOVE_UP && index != ADD_WHEREVER && NothingToMerge(v, kind, index))
    decreases count
  {
    if Spills(v, capacity, verdict, kind, count, index, flags) {
      var v', rest := SpillStep(v, capacity, verdict, kind, count, index, flags);
      var nested := AddItem(v', capacity, verdict, kind, rest, INDEX_WHEREEVER, flags);
      assert flags.ignoreAutoStack && 0 <= index < |v| ==>
        Partial(v[index], kind) || index == MOVE_UP || index == ADD_WHEREVER || index >= capacity;
      if nested.Placed? {
        OverfullExactlyWhen(v', capacity, verdict, kind, rest, INDEX_WHEREEVER, flags);
      }
    } else {
      if FirstPartial(v, kind) == |v| {
        NoPartialNoRoom(v, kind);
      }
      var at := MergeAt(v, capacity, kind, index, flags);
      if !flags.ignoreAutoStack {
        assert |v| == capacity ==> at.Some? && Merged(v, at.value, count) == count;
      } else if at.Some? {
        assert at == Some(index) && 0 <= index < |v|;
        assert Merged(v, at.value, count) == 0 || Merged(v, at.value, count) == count;
        assert NothingToMerge(v, kind, index) <==> Merged(v, at.value, count) == 0;
      } else {
      }
    }
  }

  /** Both exceptions happen. */
  lemma ExceptionsHappen()
    ensures var flags, gold, sword := Flags(false, true, false), Kind(2148, true, []), Kind(2376, false, []);
            && AddItem([Stack(gold, 50), Stack(gold, 50)], 2, NoError, gold, 100, 0, flags)
                 == Placed([Stack(gold, 100), Stack(gold, 50)], 50)
            && AddItem([Stack(gold, 50), Stack(sword, 1)], 2, NoError, gold, 10, 1, flags)
                 == Placed([Stack(gold, 10), Stack(gold, 50), Stack(sword, 1)], 0)
  {
    var flags, gold, sword := Flags(false, true, false), Kind(2148, true, []), Kind(2376, false, []);
    var v, w := [Stack(gold, 50), Stack(gold, 50)], [Stack(gold, 50), Stack(sword, 1)];
    assert v[1..] == [Stack(gold, 50)] && v[1..][1..] == [];
    assert StackRoom(v[1..], gold) == 50;
    assert w[1..] == [Stack(sword, 1)] && w[1..][1..] == [];
    assert StackRoom(w[1..], gold) == 0;
    assert MergeAt(v, 2, gold, 0, flags) == Some(0);
    assert Grown(v, 0, 50) == [Stack(gold, 100), Stack(gold, 50)];
  }
}
