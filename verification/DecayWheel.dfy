/**
 * The decay wheel: four buckets, one of which is looked at every 250 ms. An item is looked at
 * once a round, loses up to 1000 ms each time, and decays when little enough is left.
 */
module DecayWheel {
  const INTERVAL := 250
  const BUCKETS := 4
  const ROUND := INTERVAL * BUCKETS

  class Item {
    var duration: int
    var canDecay: bool
    var decaying: bool

    constructor (duration: int)
      ensures this.duration == duration && canDecay && !decaying
    {
      this.duration, canDecay, decaying := duration, true, false;
    }
  }

  /** An item in a bucket, with what is left of its duration. */
  datatype Cell = Cell(item: Item, duration: int, canDecay: bool)

  datatype Wheel = Wheel(buckets: seq<seq<Cell>>, last: nat)

  predicate Shaped(w: Wheel) {
    |w.buckets| == BUCKETS && w.last < BUCKETS
  }

  // ----- one tick -----

  datatype Fate = Dropped | Fires | Moves(cell: Cell) | Stays(cell: Cell)

  function Left(c: Cell): int {
    c.duration - if c.duration < ROUND then c.duration else ROUND
  }

  /** What `checkDecay` does with an item of the bucket it looks at. */
  function FateOf(c: Cell, bucket: nat): Fate {
    var left := Left(c);
    if !c.canDecay then Dropped
    else if left <= 0 then Fires
    else if left < ROUND then
      if (bucket + (left + INTERVAL / 2) / 1000) % BUCKETS == bucket then Fires else Moves(c.(duration := left))
    else Stays(c.(duration := left))
  }

  function Kept(list: seq<Cell>, bucket: nat): seq<Cell> {
    if list == [] then []
    else (match FateOf(list[0], bucket) case Stays(c) => [c] case _ => []) + Kept(list[1..], bucket)
  }

  function Moved(list: seq<Cell>, bucket: nat): seq<Cell> {
    if list == [] then []
    else (match FateOf(list[0], bucket) case Moves(c) => [c] case _ => []) + Moved(list[1..], bucket)
  }

  function Fired(list: seq<Cell>, bucket: nat): seq<Item> {
    if list == [] then []
    else (if FateOf(list[0], bucket) == Fires then [list[0].item] else []) + Fired(list[1..], bucket)
  }

  function Turn(last: nat): (next: nat)
    ensures next < BUCKETS && (last < BUCKETS ==> next != last)
  {
    (last + 1) % BUCKETS
  }

  /** An item that moves goes to the bucket that is looked at next. */
  function Ticked(w: Wheel): Wheel
    requires Shaped(w)
  {
    var b := Turn(w.last);
    Wheel(w.buckets[b := Kept(w.buckets[b], b)][Turn(b) := w.buckets[Turn(b)] + Moved(w.buckets[b], b)], b)
  }

  function FiredAt(w: Wheel): seq<Item>
    requires Shaped(w)
  {
    Fired(w.buckets[Turn(w.last)], Turn(w.last))
  }

  /** The bucket in which `cleanup` puts an item. */
  function Entry(last: nat, duration: int): (b: nat)
    requires last < BUCKETS && duration >= 0
    ensures b < BUCKETS
  {
    if duration >= ROUND then last else (last + 1 + duration / 1000) % BUCKETS
  }

  function Entered(w: Wheel, pending: seq<Cell>): Wheel
    requires Shaped(w) && forall c :: c in pending ==> c.duration >= 0
    ensures Shaped(Entered(w, pending)) && Entered(w, pending).last == w.last
    decreases |pending|
  {
    if pending == [] then w
    else
      var b := Entry(w.last, pending[0].duration);
      Entered(w.(buckets := w.buckets[b := w.buckets[b] + [pending[0]]]), pending[1..])
  }

  // ----- when an item fires -----

  /** The number of ticks until a bucket is looked at, 1 to 4. */
  function Wait(last: nat, b: nat): nat
    requires last < BUCKETS && b < BUCKETS
  {
    if b > last then b - last else b + BUCKETS - last
  }

  /** The ticks that follow the first look at an item with this duration. */
  function Extra(duration: int): nat
    decreases if duration < 0 then 0 else duration
  {
    if duration < ROUND + 875 then 0 else if duration < 2 * ROUND then 1 else BUCKETS + Extra(duration - ROUND)
  }

  function Remaining(last: nat, b: nat, duration: int): nat
    requires last < BUCKETS && b < BUCKETS
  {
    Wait(last, b) + Extra(duration)
  }

  /** The ticks after which an item of this duration fires. */
  function Ticks(duration: nat): nat {
    if duration < 1000 then 1 else 4 * (duration / 1000) + if duration % 1000 >= 875 then 1 else 0
  }

  lemma {:induction false} ExtraIs(duration: nat)
    requires duration >= 1000
    ensures BUCKETS + Extra(duration) == Ticks(duration)
  {
    if duration >= 2 * ROUND {
      ExtraIs(duration - ROUND);
    }
  }

  /** An item that enters the wheel has exactly its number of ticks to go. */
  lemma EntersWithItsTicks(last: nat, duration: nat)
    requires last < BUCKETS && duration > 0
    ensures Remaining(last, Entry(last, duration), duration) == Ticks(duration)
  {
    if duration >= 1000 {
      ExtraIs(duration);
    }
  }

  /** It fires at most 874 ms too early and 249 ms too late. */
  lemma FiringError(duration: nat)
    requires duration > 0
    ensures -874 <= INTERVAL * Ticks(duration) - duration <= 249
    ensures duration >= 1000 ==> INTERVAL * Ticks(duration) <= duration
  {
  }

  // ----- every item is in one place -----

  function Count(list: seq<Cell>, x: Item): nat {
    if list == [] then 0 else (if list[0].item == x then 1 else 0) + Count(list[1..], x)
  }

  function CountFired(list: seq<Item>, x: Item): nat {
    if list == [] then 0 else (if list[0] == x then 1 else 0) + CountFired(list[1..], x)
  }

  /** In how many places of the wheel the item is. */
  function Held(w: Wheel, x: Item): nat
    requires Shaped(w)
  {
    Count(w.buckets[0], x) + Count(w.buckets[1], x) + Count(w.buckets[2], x) + Count(w.buckets[3], x)
  }

  lemma {:induction false} CountSplit(a: seq<Cell>, b: seq<Cell>, x: Item)
    ensures Count(a + b, x) == Count(a, x) + Count(b, x)
  {
    if a == [] {
      assert a + b == b;
    } else {
      assert (a + b)[1..] == a[1..] + b;
      CountSplit(a[1..], b, x);
    }
  }

  lemma {:induction false} FiredSplit(a: seq<Item>, b: seq<Item>, x: Item)
    ensures CountFired(a + b, x) == CountFired(a, x) + CountFired(b, x)
  {
    if a == [] {
      assert a + b == b;
    } else {
      assert (a + b)[1..] == a[1..] + b;
      FiredSplit(a[1..], b, x);
    }
  }

  lemma {:induction false} CountIn(list: seq<Cell>, c: Cell)
    requires c in list
    ensures Count(list, c.item) >= 1
    ensures Count(list, c.item) == 1 ==> forall d :: d in list && d.item == c.item ==> d == c
  {
    if list[0] == c {
      if Count(list, c.item) == 1 {
        NotIn(list[1..], c.item);
      }
    } else {
      CountIn(list[1..], c);
    }
  }

  lemma {:induction false} NotIn(list: seq<Cell>, x: Item)
    requires Count(list, x) == 0
    ensures forall d :: d in list ==> d.item != x
  {
    if list != [] {
      NotIn(list[1..], x);
    }
  }

  /** Where a cell of the bucket goes: it stays, moves, fires or is dropped, once. */
  lemma {:induction false} FateOfOne(list: seq<Cell>, b: nat, c: Cell)
    requires c in list && Count(list, c.item) == 1
    ensures match FateOf(c, b)
            case Stays(d) =>
              && d in Kept(list, b) && Count(Kept(list, b), c.item) == 1
              && Count(Moved(list, b), c.item) == 0 && CountFired(Fired(list, b), c.item) == 0
            case Moves(d) =>
              && d in Moved(list, b) && Count(Kept(list, b), c.item) == 0
              && Count(Moved(list, b), c.item) == 1 && CountFired(Fired(list, b), c.item) == 0
            case Fires =>
              && Count(Kept(list, b), c.item) == 0 && Count(Moved(list, b), c.item) == 0
              && CountFired(Fired(list, b), c.item) == 1
            case Dropped =>
              && Count(Kept(list, b), c.item) == 0 && Count(Moved(list, b), c.item) == 0
              && CountFired(Fired(list, b), c.item) == 0
  {
    FirstFate(list, b, c.item);
    if list[0] == c {
      FateOfOthers(list[1..], b, c.item);
    } else {
      CountIn(list[1..], c);
      FateOfOne(list[1..], b, c);
    }
  }

  lemma {:induction false} FateOfOthers(list: seq<Cell>, b: nat, x: Item)
    requires Count(list, x) == 0
    ensures Count(Kept(list, b), x) == 0 && Count(Moved(list, b), x) == 0 && CountFired(Fired(list, b), x) == 0
  {
    if list != [] {
      FirstFate(list, b, x);
      FateOfOthers(list[1..], b, x);
    }
  }

  lemma FirstFate(list: seq<Cell>, b: nat, x: Item)
    requires list != []
    ensures Count(Kept(list, b), x) == (if FateOf(list[0], b).Stays? && list[0].item == x then 1 else 0)
      + Count(Kept(list[1..], b), x)
    ensures Count(Moved(list, b), x) == (if FateOf(list[0], b).Moves? && list[0].item == x then 1 else 0)
      + Count(Moved(list[1..], b), x)
    ensures CountFired(Fired(list, b), x) == (if FateOf(list[0], b).Fires? && list[0].item == x then 1 else 0)
      + CountFired(Fired(list[1..], b), x)
  {
    var c := list[0];
    var kept := match FateOf(c, b) case Stays(d) => [d] case _ => [];
    var moved := match FateOf(c, b) case Moves(d) => [d] case _ => [];
    var fired := if FateOf(c, b) == Fires then [c.item] else [];
    CountSplit(kept, Kept(list[1..], b), x);
    CountSplit(moved, Moved(list[1..], b), x);
    FiredSplit(fired, Fired(list[1..], b), x);
    assert forall d: Cell :: [d][1..] == [];
    assert forall d: Item :: [d][1..] == [];
  }

  /** A tick takes out of the wheel what fires or is dropped, and nothing else. */
  lemma TickHeld(w: Wheel, x: Item)
    requires Shaped(w)
    ensures var b := Turn(w.last);
            Held(Ticked(w), x) + Count(w.buckets[b], x) == Held(w, x) + Count(Kept(w.buckets[b], b), x)
              + Count(Moved(w.buckets[b], b), x)
  {
    var b := Turn(w.last);
    CountSplit(w.buckets[Turn(b)], Moved(w.buckets[b], b), x);
  }

  lemma OnlyHere(w: Wheel, b: nat, c: Cell)
    requires Shaped(w) && b < BUCKETS && c in w.buckets[b] && Held(w, c.item) == 1
    ensures
      && Count(w.buckets[b], c.item) == 1
      && forall b' :: 0 <= b' < BUCKETS && b' != b ==> Count(w.buckets[b'], c.item) == 0
  {
    CountIn(w.buckets[b], c);
  }

  /** One tick: an item with one tick to go fires; any other is in one place afterwards, with one
      tick less to go. */
  lemma TickItem(w: Wheel, b: nat, c: Cell) returns (b': nat, c': Cell)
    requires Shaped(w) && b < BUCKETS && c in w.buckets[b] && Held(w, c.item) == 1 && c.canDecay && c.duration > 0
    ensures c.item in FiredAt(w) <==> Remaining(w.last, b, c.duration) == 1
    ensures Held(Ticked(w), c.item) == if Remaining(w.last, b, c.duration) == 1 then 0 else 1
    ensures Remaining(w.last, b, c.duration) > 1 ==>
      && b' < BUCKETS && c' in Ticked(w).buckets[b'] && c'.item == c.item && c'.canDecay && c'.duration > 0
      && Remaining(Ticked(w).last, b', c'.duration) == Remaining(w.last, b, c.duration) - 1
  {
    hide FateOf, Held, Extra, Kept, Moved, Fired, Count, CountFired, Remaining, Wait;
    var turn := Turn(w.last);
    OnlyHere(w, b, c);
    TickHeld(w, c.item);
    FiredIn(FiredAt(w), c.item);
    WaitIs(w.last, b, c.duration);
    b', c' := b, c;
    if b == turn {
      FateOfOne(w.buckets[b], b, c);
      FateIs(c, b);
      match FateOf(c, b)
      case Stays(d) => c' := d;
      case Moves(d) => b', c' := Turn(b), d;
      case Fires =>
    } else {
      FateOfOthers(w.buckets[turn], turn, c.item);
    }
  }

  /** An item that can no longer decay leaves the wheel at the next look without firing. */
  lemma DropsUndecaying(w: Wheel, c: Cell)
    requires Shaped(w) && c in w.buckets[Turn(w.last)] && Held(w, c.item) == 1 && !c.canDecay
    ensures Held(Ticked(w), c.item) == 0 && c.item !in FiredAt(w)
  {
    hide Held, Kept, Moved, Fired, Count, CountFired;
    OnlyHere(w, Turn(w.last), c);
    TickHeld(w, c.item);
    FiredIn(FiredAt(w), c.item);
    FateOfOne(w.buckets[Turn(w.last)], Turn(w.last), c);
  }

  /** An item whose time is already over fires at the next look. */
  lemma OverdueFires(w: Wheel, c: Cell)
    requires Shaped(w) && c in w.buckets[Turn(w.last)] && Held(w, c.item) == 1 && c.canDecay && c.duration <= 0
    ensures Held(Ticked(w), c.item) == 0 && c.item in FiredAt(w)
  {
    hide Held, Kept, Moved, Fired, Count, CountFired;
    OnlyHere(w, Turn(w.last), c);
    TickHeld(w, c.item);
    FiredIn(FiredAt(w), c.item);
    FateOfOne(w.buckets[Turn(w.last)], Turn(w.last), c);
  }

  /** A bucket that is not looked at comes one tick nearer. */
  lemma WaitIs(last: nat, b: nat, duration: int)
    requires last < BUCKETS && b < BUCKETS
    ensures b == Turn(last) ==> Remaining(last, b, duration) == 1 + Extra(duration)
    ensures b != Turn(last) ==>
      Remaining(last, b, duration) == Remaining(Turn(last), b, duration) + 1 && Remaining(last, b, duration) > 1
  {
  }

  lemma {:induction false} FiredIn(list: seq<Item>, x: Item)
    ensures x in list <==> CountFired(list, x) > 0
  {
    if list != [] {
      FiredIn(list[1..], x);
    }
  }

  /** What is left decides the fate, and the fate the ticks to come. */
  lemma FateIs(c: Cell, b: nat)
    requires c.canDecay && c.duration > 0 && b < BUCKETS
    ensures match FateOf(c, b)
            case Fires => Extra(c.duration) == 0
            case Moves(d) =>
              && Extra(c.duration) == 1 && d == c.(duration := d.duration) && 0 < d.duration
              && Remaining(b, Turn(b), d.duration) == 1
            case Stays(d) =>
              && d == c.(duration := d.duration) && 0 < d.duration
              && Remaining(b, b, d.duration) == Extra(c.duration) > 0
            case Dropped => false
  {
  }

  // ----- runs -----

  /** One call of `checkDecay`, which ends with `cleanup`. */
  function Step(w: Wheel, pending: seq<Cell>): Wheel
    requires Shaped(w) && forall c :: c in pending ==> c.duration >= 0
  {
    Entered(Ticked(w), pending)
  }

  predicate Sound(pendings: seq<seq<Cell>>) {
    forall p :: p in pendings ==> forall c :: c in p ==> c.duration >= 0
  }

  /** The item is in exactly one place and fires in the last of these ticks, not before. */
  predicate FiresAtEnd(w: Wheel, x: Item, pendings: seq<seq<Cell>>)
    requires Shaped(w) && Sound(pendings) && pendings != []
    decreases |pendings|
  {
    && Held(w, x) == 1
    && (x in FiredAt(w) <==> |pendings| == 1)
    && (|pendings| > 1 ==>
          assert pendings[0] in pendings && forall p :: p in pendings[1..] ==> p in pendings;
          FiresAtEnd(Step(w, pendings[0]), x, pendings[1..]))
  }

  lemma {:induction false} EnteredKeeps(w: Wheel, pending: seq<Cell>, x: Item)
    requires Shaped(w) && forall c :: c in pending ==> c.duration >= 0
    ensures Held(Entered(w, pending), x) == Held(w, x) + Count(pending, x)
    ensures forall b, c :: 0 <= b < BUCKETS && c in w.buckets[b] ==> c in Entered(w, pending).buckets[b]
    decreases |pending|
  {
    if pending != [] {
      var b := Entry(w.last, pending[0].duration);
      var w' := w.(buckets := w.buckets[b := w.buckets[b] + [pending[0]]]);
      CountSplit(w.buckets[b], [pending[0]], x);
      assert [pending[0]][1..] == [];
      EnteredKeeps(w', pending[1..], x);
    }
  }

  /** Whatever else enters the wheel meanwhile, an untouched item fires after exactly the ticks
      it has to go, and is in one bucket until then. */
  lemma {:induction false} FiresOnTime(w: Wheel, b: nat, c: Cell, pendings: seq<seq<Cell>>)
    requires Shaped(w) && b < BUCKETS && c in w.buckets[b] && Held(w, c.item) == 1 && c.canDecay && c.duration > 0
    requires Sound(pendings) && forall p :: p in pendings ==> Count(p, c.item) == 0
    requires |pendings| == Remaining(w.last, b, c.duration)
    ensures FiresAtEnd(w, c.item, pendings)
    decreases |pendings|
  {
    var b', c' := TickItem(w, b, c);
    if |pendings| > 1 {
      assert pendings[0] in pendings && forall p :: p in pendings[1..] ==> p in pendings;
      EnteredKeeps(Ticked(w), pendings[0], c.item);
      FiresOnTime(Step(w, pendings[0]), b', c', pendings[1..]);
    }
  }

  /** From `cleanup` on: an item of duration `d` fires in the tick number `Ticks(d)`. */
  lemma FiresAfterItsTicks(w: Wheel, c: Cell, pendings: seq<seq<Cell>>)
    requires Shaped(w) && c.canDecay && c.duration > 0 && Held(w, c.item) == 0
    requires Sound(pendings) && (forall p :: p in pendings ==> Count(p, c.item) == 0) && |pendings| == Ticks(c.duration)
    ensures FiresAtEnd(Entered(w, [c]), c.item, pendings)
  {
    hide Entry, Ticks, Extra, Remaining, FiresAtEnd, Held, Count, Entered;
    var b := EnteredOne(w, c);
    EntersWithItsTicks(w.last, c.duration);
    FiresOnTime(Entered(w, [c]), b, c, pendings);
  }

  lemma EnteredOne(w: Wheel, c: Cell) returns (b: nat)
    requires Shaped(w) && c.duration >= 0 && Held(w, c.item) == 0
    ensures b == Entry(w.last, c.duration) && c in Entered(w, [c]).buckets[b] && Held(Entered(w, [c]), c.item) == 1
  {
    b := Entry(w.last, c.duration);
    EnteredKeeps(w, [c], c.item);
    var w' := w.(buckets := w.buckets[b := w.buckets[b] + [c]]);
    assert [c][1..] == [] && Entered(w, [c]) == Entered(w', []);
  }
}
