/**
 * The second encoding of an item forest: flat rows (pid, sid) numbered breadth-first by
 * `IOLoginData::saveItems`, and the loop of `loadPlayer` that rebuilds the forest by going
 * through the rows in descending order of sid.
 */
module ItemRows {
  import opened Basics
  import opened ItemCodec
  import opened ItemRoundTrip
  import opened ItemFaithful

  /** A row: the parent's id, the own id, the item type, the count and the attribute bytes. */
  datatype Row = Row(pid: nat, sid: nat, itemtype: nat, count: nat, attributes: seq<byte>)

  /** An item that waits for its number, with the id of its parent. */
  type Entry = (nat, Item)

  const FIRST_ID := 100
  const MAX_DEPOTS := 100

  function Size(t: Item): nat
    decreases t
  {
    match t
    case Plain(_, _) => 1
    case Box(_, _, items, _) => 1 + SizeAll(items)
  }

  function SizeAll(ts: seq<Item>): nat
    decreases ts
  {
    if ts == [] then 0 else Size(ts[0]) + SizeAll(ts[1..])
  }

  function QueueSize(q: seq<Entry>): nat {
    if q == [] then 0 else Size(q[0].1) + QueueSize(q[1..])
  }

  lemma {:induction false} QueueSizeSplit(a: seq<Entry>, b: seq<Entry>)
    ensures QueueSize(a + b) == QueueSize(a) + QueueSize(b)
  {
    if a == [] {
      assert a + b == b;
    } else {
      assert (a + b)[1..] == a[1..] + b;
      QueueSizeSplit(a[1..], b);
    }
  }

  /** The items of a list, each waiting with the parent id `pid`. */
  function Waiting(ts: seq<Item>, pid: nat): (q: seq<Entry>)
    ensures |q| == |ts|
    ensures forall i :: 0 <= i < |q| ==> q[i] == (pid, ts[i])
  {
    seq(|ts|, i requires 0 <= i < |ts| => (pid, ts[i]))
  }

  function KidsOf(t: Item): seq<Item> {
    if t.Box? then t.items else []
  }

  lemma {:induction false} WaitingSize(ts: seq<Item>, pid: nat)
    ensures QueueSize(Waiting(ts, pid)) == SizeAll(ts)
  {
    if ts == [] {
    } else {
      WaitingSize(ts[1..], pid);
      assert Waiting(ts, pid)[1..] == Waiting(ts[1..], pid);
    }
  }

  function ToRow(types: Types, e: Entry, sid: nat): Row {
    var it := types(e.1.id);
    Row(e.0, sid, e.1.id, SubType(it, e.1.own), EncodeAttrs(it, e.1.own))
  }

  /** The queue after its first entry was given the number `sid`. */
  function Next(q: seq<Entry>, sid: nat): (r: seq<Entry>)
    requires q != []
    ensures QueueSize(r) < QueueSize(q)
  {
    var kids := Waiting(KidsOf(q[0].1), sid);
    QueueSizeSplit(q[1..], kids);
    WaitingSize(KidsOf(q[0].1), sid);
    q[1..] + kids
  }

  /** Breadth-first numbering: the row of the first entry, then the rest of the queue with
      its children at the end. `r` is the last number given. */
  function Numbered(types: Types, q: seq<Entry>, r: nat): seq<Row>
    decreases QueueSize(q)
  {
    if q == [] then [] else [ToRow(types, q[0], r + 1)] + Numbered(types, Next(q, r + 1), r + 1)
  }

  /** Rows ascend by one and every child comes after its parent. */
  predicate WellNumbered(rows: seq<Row>, r: nat) {
    forall i :: 0 <= i < |rows| ==> rows[i].sid == r + 1 + i && rows[i].pid < rows[i].sid
  }

  predicate PidsUpTo(q: seq<Entry>, r: nat) {
    forall i :: 0 <= i < |q| ==> q[i].0 <= r
  }

  lemma {:induction false} NumberedIsWellNumbered(types: Types, q: seq<Entry>, r: nat)
    requires PidsUpTo(q, r)
    ensures WellNumbered(Numbered(types, q, r), r) && |Numbered(types, q, r)| == QueueSize(q)
    decreases QueueSize(q)
  {
    if q == [] {
    } else {
      NumberedIsWellNumbered(types, Next(q, r + 1), r + 1);
      QueueSizeSplit(q[1..], Waiting(KidsOf(q[0].1), r + 1));
      WaitingSize(KidsOf(q[0].1), r + 1);
    }
  }

  predicate PidsFrom(q: seq<Entry>, b: nat) {
    forall i :: 0 <= i < |q| ==> q[i].0 >= b
  }

  /** Once the items of the forest, whose parent ids are at most `base`, are through, the parent ids
      never fall. */
  predicate ParentsRise(pids: seq<nat>, base: nat) {
    forall i, j :: 0 <= i < j < |pids| && pids[i] > base ==> pids[i] <= pids[j]
  }

  function PidsOfQueue(q: seq<Entry>): (pids: seq<nat>)
    ensures |pids| == |q| && forall i :: 0 <= i < |q| ==> pids[i] == q[i].0
  {
    seq(|q|, i requires 0 <= i < |q| => q[i].0)
  }

  function PidsOf(rows: seq<Row>): (pids: seq<nat>)
    ensures |pids| == |rows| && forall i :: 0 <= i < |rows| ==> pids[i] == rows[i].pid
  {
    seq(|rows|, i requires 0 <= i < |rows| => rows[i].pid)
  }

  lemma NextPids(q: seq<Entry>, sid: nat)
    requires q != []
    ensures var next := Next(q, sid);
      && |next| >= |q| - 1 && forall i :: 0 <= i < |next| ==> next[i].0 == if i < |q| - 1 then q[i + 1].0 else sid
  {
    WaitingPids(KidsOf(q[0].1), sid);
  }

  lemma {:induction false} WaitingPids(ts: seq<Item>, pid: nat)
    ensures forall i :: 0 <= i < |Waiting(ts, pid)| ==> Waiting(ts, pid)[i].0 == pid
  {
    if ts != [] {
      WaitingPids(ts[1..], pid);
    }
  }

  lemma {:induction false} PidsAtLeast(types: Types, q: seq<Entry>, r: nat, b: nat)
    requires PidsFrom(q, b) && b <= r + 1
    ensures forall i :: 0 <= i < |Numbered(types, q, r)| ==> Numbered(types, q, r)[i].pid >= b
    decreases QueueSize(q)
  {
    hide Next;
    if q != [] {
      NextPids(q, r + 1);
      PidsAtLeast(types, Next(q, r + 1), r + 1, b);
    }
  }

  /** Breadth-first: the items of the forest come first, and then the children of every item before
      those of the next. */
  lemma {:induction false} ParentsInOrder(types: Types, q: seq<Entry>, r: nat, base: nat)
    requires PidsUpTo(q, r) && ParentsRise(PidsOfQueue(q), base) && base <= r
    ensures ParentsRise(PidsOf(Numbered(types, q, r)), base)
    decreases QueueSize(q)
  {
    hide Next, Numbered, PidsOf, PidsOfQueue;
    if q == [] {
      NoRowsLeft(types, r);
    } else {
      var next := Next(q, r + 1);
      NextPids(q, r + 1);
      ParentsInOrder(types, next, r + 1, base);
      var rest := Numbered(types, next, r + 1);
      RowsFirst(types, q, r);
      if q[0].0 > base {
        PidsAtLeast(types, next, r + 1, q[0].0);
      }
    }
  }

  lemma NoRowsLeft(types: Types, r: nat)
    ensures Numbered(types, [], r) == []
  {
  }

  lemma RowsFirst(types: Types, q: seq<Entry>, r: nat)
    requires q != []
    ensures Numbered(types, q, r) == [ToRow(types, q[0], r + 1)] + Numbered(types, Next(q, r + 1), r + 1)
    ensures ToRow(types, q[0], r + 1).pid == q[0].0
  {
  }

  // ----- rebuilding, on values -----

  /** What the item of a row stores once its bytes were read, to their end or to a failure. */
  function RowOwn(types: Types, row: Row, blank: Item): Fields {
    ReadAttrs(types(blank.id), blank.Box?, blank.own, row.attributes).own
  }

  /** The item a row stands for, given the children that were linked to it. */
  function Rebuilt(types: Types, row: Row, kids: seq<Item>): Option<Item> {
    match CreateItem(types, row.itemtype, row.count)
    case None => None
    case Some(blank) =>
      var own := RowOwn(types, row, blank);
      Some(if blank.Plain? then Plain(blank.id, own)
           else Box(blank.id, own, kids, SumWeight(types, kids) % TWO_TO_THE_32))
  }

  /** What the reverse loop has pushed under the id `p` once it went through all of `rows`. */
  function Linked(types: Types, rows: seq<Row>, p: nat): seq<Item> {
    if rows == [] then []
    else
      var later := Linked(types, rows[1..], p);
      if rows[0].pid != p then later
      else
        match Rebuilt(types, rows[0], Linked(types, rows[1..], rows[0].sid))
        case None => later
        case Some(item) => [item] + later
  }

  /** The entries of `q` that belong to `p`, in order. */
  function ItemsOf(q: seq<Entry>, p: nat): seq<Item> {
    if q == [] then []
    else if q[0].0 == p then [q[0].1] + ItemsOf(q[1..], p)
    else ItemsOf(q[1..], p)
  }

  lemma {:induction false} ItemsOfSplit(a: seq<Entry>, b: seq<Entry>, p: nat)
    ensures ItemsOf(a + b, p) == ItemsOf(a, p) + ItemsOf(b, p)
  {
    if a == [] {
      assert a + b == b;
    } else {
      assert (a + b)[0] == a[0] && (a + b)[1..] == a[1..] + b;
      ItemsOfSplit(a[1..], b, p);
      if a[0].0 == p {
        assert [a[0].1] + (ItemsOf(a[1..], p) + ItemsOf(b, p)) == [a[0].1] + ItemsOf(a[1..], p) + ItemsOf(b, p);
      }
    }
  }

  lemma {:induction false} ItemsOfWaiting(ts: seq<Item>, pid: nat, p: nat)
    ensures ItemsOf(Waiting(ts, pid), p) == if p == pid then ts else []
  {
    if ts == [] {
    } else {
      ItemsOfWaiting(ts[1..], pid, p);
      assert Waiting(ts, pid)[1..] == Waiting(ts[1..], pid);
      assert ts == [ts[0]] + ts[1..];
    }
  }

  lemma {:induction false} NoItemsAbove(q: seq<Entry>, r: nat, p: nat)
    requires PidsUpTo(q, r) && p > r
    ensures ItemsOf(q, p) == []
  {
    if q != [] {
      assert PidsUpTo(q[1..], r);
      NoItemsAbove(q[1..], r, p);
    }
  }

  lemma ItemsOfNext(q: seq<Entry>, r: nat, p: nat)
    requires q != [] && PidsUpTo(q, r) && p <= r + 1
    ensures ItemsOf(Next(q, r + 1), p) == if p == r + 1 then KidsOf(q[0].1) else ItemsOf(q[1..], p)
  {
    var kids := Waiting(KidsOf(q[0].1), r + 1);
    ItemsOfSplit(q[1..], kids, p);
    ItemsOfWaiting(KidsOf(q[0].1), r + 1, p);
    if p == r + 1 {
      assert PidsUpTo(q[1..], r);
      NoItemsAbove(q[1..], r, p);
    }
  }

  predicate SavableAll(types: Types, q: seq<Entry>) {
    forall i :: 0 <= i < |q| ==> Savable(types, q[i].1)
  }

  lemma SavableNext(types: Types, q: seq<Entry>, sid: nat)
    requires q != [] && SavableAll(types, q)
    ensures SavableAll(types, Next(q, sid))
  {
    assert Savable(types, q[0].1);
  }

  lemma RowRoundTrip(types: Types, t: Item, pid: nat, sid: nat, kids: seq<Item>)
    requires Savable(types, t) && kids == NormalAll(types, KidsOf(t), true)
    ensures Rebuilt(types, ToRow(types, (pid, t), sid), kids) == Some(Normal(types, t, true))
  {
    hide EncodeTags, Restored, BlankOwn, SubType, WellTyped;
    var it, to := types(t.id), types(LoadedId(t));
    var base := BlankOwn(types, t.id, t.Box?, SubType(it, t.own));
    AttrsRoundTrip(it, t.own, to, t.Box?, base, ORDER, []);
    assert EncodeAttrs(it, t.own) + [] == EncodeAttrs(it, t.own);
    assert ReadAttrs(to, t.Box?, NormalOwn(types, t, true), []).own == NormalOwn(types, t, true);
  }

  /** Going backwards through a breadth-first numbering puts under every id exactly the
      items that waited for it, in their order and completely rebuilt. */
  lemma {:induction false} LinkedInvertsNumbered(types: Types, q: seq<Entry>, r: nat, p: nat)
    requires PidsUpTo(q, r) && SavableAll(types, q) && p <= r
    ensures Linked(types, Numbered(types, q, r), p) == NormalAll(types, ItemsOf(q, p), true)
    decreases QueueSize(q)
  {
    if q == [] {
    } else {
      hide Rebuilt, Savable, Normal, ToRow;
      var e, next := q[0], Next(q, r + 1);
      SavableNext(types, q, r + 1);
      ItemsOfNext(q, r, p);
      ItemsOfNext(q, r, r + 1);
      LinkedInvertsNumbered(types, next, r + 1, p);
      LinkedInvertsNumbered(types, next, r + 1, r + 1);
      RowRoundTrip(types, e.1, e.0, r + 1, NormalAll(types, KidsOf(e.1), true));
      LinkedFirst(types, ToRow(types, e, r + 1), Numbered(types, next, r + 1), Normal(types, e.1, true), p);
      if e.0 == p {
        assert ItemsOf(q, p) == [e.1] + ItemsOf(q[1..], p);
        assert ([e.1] + ItemsOf(q[1..], p))[1..] == ItemsOf(q[1..], p);
      }
    }
  }

  lemma LinkedFirst(types: Types, row: Row, rows: seq<Row>, item: Item, p: nat)
    requires Rebuilt(types, row, Linked(types, rows, row.sid)) == Some(item)
    ensures Linked(types, [row] + rows, p)
         == if row.pid == p then [item] + Linked(types, rows, p) else Linked(types, rows, p)
  {
    assert ([row] + rows)[1..] == rows;
  }

  /** Saving a forest and rebuilding it gives every top-level place its items back: the same
      order at every level, and every cached weight the weight of the whole subtree. */
  lemma RowsRoundTrip(types: Types, forest: seq<Entry>, p: nat)
    requires forall i :: 0 <= i < |forest| ==> forest[i].0 < MAX_DEPOTS && Savable(types, forest[i].1)
    requires p < MAX_DEPOTS
    ensures Linked(types, Numbered(types, forest, FIRST_ID), p) == NormalAll(types, ItemsOf(forest, p), true)
    ensures (forall t :: t in ItemsOf(forest, p) ==> Faithful(types, t))
        <==> Linked(types, Numbered(types, forest, FIRST_ID), p) == ItemsOf(forest, p)
  {
    hide Savable, Faithful;
    LinkedInvertsNumbered(types, forest, FIRST_ID, p);
    ItemsAreEntries(forest, p);
    NormalAllIffFaithful(types, ItemsOf(forest, p), true);
  }

  lemma {:induction false} ItemsAreEntries(q: seq<Entry>, p: nat)
    ensures forall t :: t in ItemsOf(q, p) ==> exists i :: 0 <= i < |q| && q[i].1 == t
  {
    if q != [] {
      ItemsAreEntries(q[1..], p);
      forall t | t in ItemsOf(q, p) ensures exists i :: 0 <= i < |q| && q[i].1 == t {
        if t in ItemsOf(q[1..], p) {
          var i :| 0 <= i < |q[1..]| && q[1..][i].1 == t;
          assert q[i + 1].1 == t;
        } else {
          assert q[0].1 == t;
        }
      }
    }
  }
}
