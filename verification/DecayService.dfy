/**
 * `checkDecay` and `cleanup` on the lists of item objects.
 */
module DecayService {
  import opened Basics
  import opened DecayWheel

  ghost function CellOf(x: Item): Cell
    reads x
  {
    Cell(x, x.duration, x.canDecay)
  }

  ghost function CellsOf(list: seq<Item>): (cells: seq<Cell>)
    reads list
    ensures |cells| == |list| && forall i :: 0 <= i < |list| ==> cells[i] == CellOf(list[i])
  {
    seq(|list|, i requires 0 <= i < |list| reads list => CellOf(list[i]))
  }

  /** The items of the list are `xs`, in this order, and no item from `k` on is among them. */
  predicate Before(xs: seq<Item>, list: seq<Item>, k: nat) {
    Distinct(xs) && (forall x :: x in xs ==> x in list) && forall x, j :: x in xs && k <= j < |list| ==> x != list[j]
  }

  datatype Verdict = Drop | Fire | Move | Stay

  /** One item is looked at; its duration goes down by what is left, at most a round. */
  method Look(item: Item, bucket: nat) returns (verdict: Verdict)
    requires bucket < BUCKETS
    modifies item
    ensures match FateOf(old(CellOf(item)), bucket)
            case Stays(c) => verdict == Stay && CellOf(item) == c
            case Moves(c) => verdict == Move && CellOf(item) == c
            case Fires => verdict == Fire
            case Dropped => verdict == Drop
    ensures item.decaying == (verdict != Drop && old(item.decaying))
  {
    if !item.canDecay {
      item.decaying := false;
      return Drop;
    }
    var decreaseTime := if item.duration < ROUND then item.duration else ROUND;
    item.duration := item.duration - decreaseTime;
    if item.duration <= 0 {
      return Fire;
    }
    if item.duration < ROUND {
      var newBucket := (bucket + (item.duration + INTERVAL / 2) / 1000) % BUCKETS;
      return if newBucket == bucket then Fire else Move;
    }
    verdict := Stay;
  }

  /** One bucket is looked at: which items stay, which go to the bucket after it, and which are
      handed to `internalDecayItem`. */
  method Sweep(list: seq<Item>, bucket: nat) returns (kept: seq<Item>, moved: seq<Item>, fired: seq<Item>)
    requires Distinct(list) && bucket < BUCKETS
    modifies list
    ensures CellsOf(kept) == Kept(old(CellsOf(list)), bucket)
    ensures CellsOf(moved) == Moved(old(CellsOf(list)), bucket)
    ensures fired == Fired(old(CellsOf(list)), bucket)
    ensures Before(kept, list, |list|) && Before(moved, list, |list|) && forall x :: x in kept ==> x !in moved
  {
    hide Kept, Moved, Fired, FateOf;
    ghost var cells := CellsOf(list);
    kept, moved, fired := [], [], [];
    for i := 0 to |list|
      invariant CellsOf(kept) + Kept(cells[i..], bucket) == Kept(cells, bucket)
      invariant CellsOf(moved) + Moved(cells[i..], bucket) == Moved(cells, bucket)
      invariant fired + Fired(cells[i..], bucket) == Fired(cells, bucket)
      invariant Before(kept, list, i) && Before(moved, list, i) && forall x :: x in kept ==> x !in moved
      invariant forall k :: i <= k < |list| ==> CellOf(list[k]) == cells[k]
    {
      var item := list[i];
      FirstCell(cells, i, bucket);
      ghost var was, went := CellsOf(kept), CellsOf(moved);
      assert item !in kept && item !in moved;
      var verdict := Look(item, bucket);
      assert CellsOf(kept) == was && CellsOf(moved) == went;
      match verdict
      case Stay => kept := kept + [item];
      case Move => moved := moved + [item];
      case Fire => fired := fired + [item];
      case Drop =>
      assert CellsOf(kept) == was + match FateOf(cells[i], bucket) case Stays(c) => [c] case _ => [];
      assert CellsOf(moved) == went + match FateOf(cells[i], bucket) case Moves(c) => [c] case _ => [];
    }
    NoCells(cells, bucket);
  }

  lemma FirstCell(cells: seq<Cell>, i: nat, bucket: nat)
    requires i < |cells|
    ensures Kept(cells[i..], bucket) == (match FateOf(cells[i], bucket) case Stays(c) => [c] case _ => [])
      + Kept(cells[i + 1..], bucket)
    ensures Moved(cells[i..], bucket) == (match FateOf(cells[i], bucket) case Moves(c) => [c] case _ => [])
      + Moved(cells[i + 1..], bucket)
    ensures Fired(cells[i..], bucket) == (if FateOf(cells[i], bucket) == Fires then [cells[i].item] else [])
      + Fired(cells[i + 1..], bucket)
  {
    assert cells[i..][1..] == cells[i + 1..];
  }

  lemma NoCells(cells: seq<Cell>, bucket: nat)
    ensures
      && Kept(cells[|cells|..], bucket) == [] && Moved(cells[|cells|..], bucket) == []
      && Fired(cells[|cells|..], bucket) == []
  {
  }

  const PENDING := BUCKETS

  class Game {
    const decayItems: array<seq<Item>>
    var toDecayItems: seq<Item>
    var lastBucket: nat
    ghost var place: map<Item, nat>

    constructor ()
      ensures Valid() && fresh(decayItems) && toDecayItems == []
      ensures forall b :: 0 <= b < BUCKETS ==> decayItems[b] == []
    {
      decayItems := new seq<Item>[BUCKETS](_ => []);
      toDecayItems, lastBucket, place := [], 0, map[];
    }

    /** `place` knows the one list an item can be in. */
    ghost predicate Placed(list: seq<Item>, b: nat)
      reads `place
    {
      Distinct(list) && forall x :: x in list ==> x in place && place[x] == b
    }

    ghost predicate Valid()
      reads this, decayItems
    {
      && decayItems.Length == BUCKETS && lastBucket < BUCKETS
      && (forall b :: 0 <= b < BUCKETS ==> Placed(decayItems[b], b))
      && Placed(toDecayItems, PENDING)
    }

    ghost predicate Listed(item: Item)
      requires decayItems.Length == BUCKETS
      reads `toDecayItems, decayItems
    {
      item in toDecayItems || exists b :: 0 <= b < BUCKETS && item in decayItems[b]
    }

    /** No item stands twice in the five lists. */
    ghost predicate EachOnce()
      requires decayItems.Length == BUCKETS
      reads `toDecayItems, decayItems
    {
      && Distinct(toDecayItems)
      && (forall b, x :: 0 <= b < BUCKETS && x in decayItems[b] ==> x !in toDecayItems)
      && (forall b :: 0 <= b < BUCKETS ==> Distinct(decayItems[b]))
      && (forall b, c, x :: 0 <= b < c < BUCKETS && x in decayItems[b] ==> x !in decayItems[c])
    }

    lemma ValidIsOnce()
      requires Valid()
      ensures EachOnce()
    {
    }

    /** What `internalAddItem` and `startDecay` do to the item. */
    method Enqueue(item: Item)
      requires Valid()
      modifies `toDecayItems, `place, item`decaying
      ensures toDecayItems == [item] + old(toDecayItems) && item.decaying
      ensures decayItems.Length == BUCKETS && (EachOnce() <==> !old(Listed(item)))
      ensures EachOnce() ==> Valid()
    {
      hide Distinct;
      ghost var was := toDecayItems;
      ValidIsOnce();
      item.decaying := true;
      toDecayItems := [item] + toDecayItems;
      FirstOnce(item, was);
      assert item in toDecayItems && forall x :: x in toDecayItems <==> x == item || x in was;
      if item !in was && forall b :: 0 <= b < BUCKETS ==> item !in decayItems[b] {
        place := place[item := PENDING];
      }
    }

    /** The end of `internalAddItem`, which does not ask whether the item is decaying already. */
    method AddedItem(item: Item)
      requires Valid()
      modifies `toDecayItems, `place, item`decaying
      ensures toDecayItems == if item.duration > 0 then [item] + old(toDecayItems) else old(toDecayItems)
      ensures decayItems.Length == BUCKETS && (EachOnce() <==> !(item.duration > 0 && old(Listed(item))))
      ensures EachOnce() ==> Valid()
    {
      ValidIsOnce();
      if item.duration > 0 {
        Enqueue(item);
      }
    }

    /** `startDecay`: the mark keeps an item out that is decaying, but not one that lost its mark
        while it was listed. `over` says that the item is handed to `internalDecayItem`. */
    method StartDecay(item: Item) returns (over: bool)
      requires Valid()
      modifies `toDecayItems, `place, item`decaying
      ensures over <==> item.canDecay && !old(item.decaying) && item.duration <= 0
      ensures toDecayItems == if item.canDecay && !old(item.decaying) && item.duration > 0
        then [item] + old(toDecayItems) else old(toDecayItems)
      ensures
        && decayItems.Length == BUCKETS
        && (EachOnce() <==> !(item.canDecay && !old(item.decaying) && item.duration > 0 && old(Listed(item))))
      ensures EachOnce() ==> Valid()
    {
      ValidIsOnce();
      if !item.canDecay || item.decaying {
        return false;
      }
      if item.duration > 0 {
        Enqueue(item);
        return false;
      }
      over := true;
    }

    ghost function Bucket(b: nat): seq<Cell>
      requires b < decayItems.Length
      reads decayItems, decayItems[b]
    {
      CellsOf(decayItems[b])
    }

    /** What the wheel shows. */
    ghost function Snapshot(): (w: Wheel)
      requires decayItems.Length == BUCKETS && lastBucket < BUCKETS
      reads this, decayItems, decayItems[0], decayItems[1], decayItems[2], decayItems[3]
      ensures Shaped(w) && w.last == lastBucket && forall b :: 0 <= b < BUCKETS ==> w.buckets[b] == Bucket(b)
    {
      Wheel([Bucket(0), Bucket(1), Bucket(2), Bucket(3)], lastBucket)
    }

    /** `checkDecay` up to its call of `cleanup`. */
    method CheckDecay() returns (fired: seq<Item>)
      requires Valid()
      modifies this, decayItems, decayItems[Turn(lastBucket)]
      ensures Valid() && toDecayItems == old(toDecayItems)
      ensures Snapshot() == Ticked(old(Snapshot())) && fired == FiredAt(old(Snapshot()))
    {
      hide Kept, Moved, Fired, Game.Snapshot, Ticked, Distinct, Turn, Game.Placed, CellsOf;
      var bucket := Turn(lastBucket);
      ghost var w := Snapshot();
      TickedBuckets(w);
      var kept, moved;
      kept, moved, fired := SweepBucket(bucket);
      Store(bucket, kept, moved);
      lastBucket := bucket;
      SameWheel(Snapshot(), Ticked(w));
    }

    /** The bucket keeps some of its items and hands others to the next one. */
    method Store(bucket: nat, kept: seq<Item>, moved: seq<Item>)
      requires decayItems.Length == BUCKETS && lastBucket < BUCKETS && bucket < BUCKETS
      requires forall c :: 0 <= c < BUCKETS && c != bucket ==> Placed(decayItems[c], c)
      requires
        && Placed(toDecayItems, PENDING) && Placed(kept, bucket) && Placed(moved, bucket)
        && forall x :: x in kept ==> x !in moved
      modifies decayItems, `place
      ensures (forall c :: 0 <= c < BUCKETS ==> Placed(decayItems[c], c)) && Placed(toDecayItems, PENDING)
      ensures Bucket(bucket) == CellsOf(kept) && Bucket(Turn(bucket)) == old(Bucket(Turn(bucket))) + CellsOf(moved)
      ensures forall c :: 0 <= c < BUCKETS && c != bucket && c != Turn(bucket) ==> Bucket(c) == old(Bucket(c))
    {
      hide Turn, Distinct;
      assert forall x :: x in toDecayItems ==> x !in moved;
      decayItems[bucket] := kept;
      Append(Turn(bucket), moved);
    }

    lemma SameWheel(v: Wheel, w: Wheel)
      requires
        Shaped(v) && Shaped(w) && v.last == w.last && forall b :: 0 <= b < BUCKETS ==> v.buckets[b] == w.buckets[b]
      ensures v == w
    {
      assert v.buckets == w.buckets;
    }

    method SweepBucket(bucket: nat) returns (kept: seq<Item>, moved: seq<Item>, fired: seq<Item>)
      requires Valid() && bucket < BUCKETS
      modifies decayItems[bucket]
      ensures CellsOf(kept) == Kept(old(Bucket(bucket)), bucket) && CellsOf(moved) == Moved(old(Bucket(bucket)), bucket)
      ensures fired == Fired(old(Bucket(bucket)), bucket)
      ensures forall b :: 0 <= b < BUCKETS && b != bucket ==> Bucket(b) == old(Bucket(b))
      ensures Placed(kept, bucket) && Placed(moved, bucket) && forall x :: x in kept ==> x !in moved
    {
      hide Kept, Moved, Fired;
      kept, moved, fired := Sweep(decayItems[bucket], bucket);
      forall b | 0 <= b < BUCKETS && b != bucket ensures Bucket(b) == old(Bucket(b)) {
        assert forall x :: x in decayItems[b] ==> x !in decayItems[bucket];
        assert forall x :: x in decayItems[b] ==> CellOf(x) == old(CellOf(x));
      }
    }

    /** `push_back` of items that are in no other bucket. */
    method Append(b: nat, items: seq<Item>)
      requires decayItems.Length == BUCKETS && lastBucket < BUCKETS && b < BUCKETS && Distinct(items)
      requires forall c ::
        0 <= c < BUCKETS ==> Placed(decayItems[c], c) && forall x :: x in items ==> x !in decayItems[c]
      modifies decayItems, `place
      ensures forall c :: 0 <= c < BUCKETS ==> Placed(decayItems[c], c)
      ensures forall x ::
        x !in items ==> (x in place <==> x in old(place)) && (x in place ==> place[x] == old(place)[x])
      ensures forall c :: 0 <= c < BUCKETS && c != b ==> decayItems[c] == old(decayItems[c])
      ensures decayItems[b] == old(decayItems[b]) + items && Bucket(b) == old(Bucket(b)) + CellsOf(items)
    {
      place := map x | x in place.Keys + (set y | y in items) :: if x in items then b else place[x];
      DistinctSum(decayItems[b], items);
      CellsOfSum(decayItems[b], items);
      decayItems[b] := decayItems[b] + items;
    }

    /** `cleanup`: what has begun to decay enters the wheel, and the list of it is emptied. */
    method Cleanup()
      requires Valid() && forall x :: x in toDecayItems ==> x.duration >= 0
      modifies this, decayItems
      ensures Valid() && toDecayItems == [] && lastBucket == old(lastBucket)
      ensures Snapshot() == Entered(old(Snapshot()), old(CellsOf(toDecayItems)))
    {
      hide Entered, Game.Snapshot;
      ghost var w, cells := Snapshot(), CellsOf(toDecayItems);
      var list := toDecayItems;
      for i := 0 to |list|
        invariant decayItems.Length == BUCKETS && lastBucket < BUCKETS && toDecayItems == list && lastBucket == w.last
        invariant forall b :: 0 <= b < BUCKETS ==> Placed(decayItems[b], b)
        invariant forall k :: i <= k < |list| ==> list[k] in place && place[list[k]] == PENDING
        invariant Entered(Snapshot(), cells[i..]) == Entered(w, cells)
      {
        ghost var were := Snapshot();
        var b := Enter(list[i]);
        FirstEntered(were, cells, i, b);
      }
      NothingEntered(Snapshot(), cells);
      toDecayItems := [];
      SameWheel(Snapshot(), Entered(w, cells));
    }

    /** One item enters the bucket that is due when its duration is over. */
    method Enter(item: Item) returns (b: nat)
      requires decayItems.Length == BUCKETS && lastBucket < BUCKETS && item.duration >= 0
      requires forall b :: 0 <= b < BUCKETS ==> Placed(decayItems[b], b)
      requires item in place && place[item] == PENDING
      modifies decayItems, `place
      ensures forall b :: 0 <= b < BUCKETS ==> Placed(decayItems[b], b)
      ensures forall x :: x != item ==> (x in place <==> x in old(place)) && (x in place ==> place[x] == old(place)[x])
      ensures b == Entry(lastBucket, item.duration)
      ensures Snapshot() == old(Snapshot()).(buckets :=
        old(Snapshot()).buckets[b := old(Snapshot()).buckets[b] + [CellOf(item)]])
    {
      hide Game.Snapshot;
      var dur := item.duration;
      b := if dur >= ROUND then lastBucket else (lastBucket + 1 + dur / 1000) % BUCKETS;
      ghost var w := Snapshot();
      assert item in [item];
      Append(b, [item]);
      assert CellsOf([item]) == [CellOf(item)];
      SameWheel(Snapshot(), w.(buckets := w.buckets[b := w.buckets[b] + [CellOf(item)]]));
    }
  }

  lemma TickedBuckets(w: Wheel)
    requires Shaped(w)
    ensures Shaped(Ticked(w)) && Ticked(w).last == Turn(w.last)
    ensures var b := Turn(w.last);
            Ticked(w).buckets[b] == Kept(w.buckets[b], b)
              && Ticked(w).buckets[Turn(b)] == w.buckets[Turn(b)] + Moved(w.buckets[b], b)
    ensures forall b ::
      0 <= b < BUCKETS && b != Turn(w.last) && b != Turn(Turn(w.last)) ==> Ticked(w).buckets[b] == w.buckets[b]
  {
  }

  lemma FirstOnce(item: Item, list: seq<Item>)
    requires Distinct(list)
    ensures Distinct([item] + list) <==> item !in list
  {
    var all := [item] + list;
    if item in list {
      var i :| 0 <= i < |list| && list[i] == item;
      assert all[0] == all[i + 1];
    }
  }

  lemma CellsOfSum(a: seq<Item>, b: seq<Item>)
    ensures CellsOf(a + b) == CellsOf(a) + CellsOf(b)
  {
  }

  lemma FirstEntered(w: Wheel, cells: seq<Cell>, i: nat, b: nat)
    requires Shaped(w) && i < |cells| && (forall c :: c in cells ==> c.duration >= 0)
    requires b == Entry(w.last, cells[i].duration)
    ensures Entered(w, cells[i..]) == Entered(w.(buckets := w.buckets[b := w.buckets[b] + [cells[i]]]), cells[i + 1..])
  {
    assert cells[i..][1..] == cells[i + 1..];
  }

  lemma NothingEntered(w: Wheel, cells: seq<Cell>)
    requires Shaped(w)
    ensures Entered(w, cells[|cells|..]) == w
  {
  }
}
