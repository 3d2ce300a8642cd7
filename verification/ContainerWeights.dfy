/**
 * The weight that every container caches for everything inside it: the invariant that ties
 * the cache to the item forest, stated on snapshots of the linked objects, and the proof
 * that each change of the forest keeps it at every ancestor.
 */
module ContainerWeights {
  import opened Basics

  /** An item object. Only containers have a list and a cached weight. */
  class Thing {
    const container: bool
    const capacity: int
    const unlocked: bool
    const quiver: bool
    const depotChest: bool
    const inStoreInbox: bool
    const pickupable: bool
    const ammo: bool
    const storeItem: bool
    var baseWeight: nat
    var stackable: bool
    var count: nat
    var parent: Thing?
    var itemlist: seq<Thing>
    var totalWeight: nat

    constructor (container: bool, capacity: int, baseWeight: nat, stackable: bool, count: nat)
      ensures
        this.container == container && this.capacity == capacity && parent == null && itemlist == [] && totalWeight == 0
      ensures this.baseWeight == baseWeight && this.stackable == stackable && this.count == count
    {
      this.container, this.capacity := container, capacity;
      this.baseWeight, this.stackable, this.count := baseWeight, stackable, count;
      unlocked, quiver, depotChest, inStoreInbox := true, false, false, false;
      pickupable, ammo, storeItem := true, false, false;
      parent, itemlist, totalWeight := null, [], 0;
    }

    /** The weight of the item without its contents. */
    function OwnWeight(): nat
      reads this
    {
      if stackable && count > 1 then baseWeight * count else baseWeight
    }

    function GetWeight(): nat
      reads this
    {
      if container then (OwnWeight() + totalWeight) % TWO_TO_THE_32 else OwnWeight() % TWO_TO_THE_32
    }
  }

  /** What the objects of `S` store. */
  ghost function Snapshot(S: set<Thing>): Forest
    reads S
  {
    map c | c in S ::
      Cell(c.container, c.OwnWeight(), if c.parent == null then None else Some(c.parent), c.itemlist, c.totalWeight)
  }

  /** What an item object stores: whether it is a container, its own weight, its parent
      container, its list (front first) and its cached weight. */
  datatype Cell = Cell(container: bool, own: nat, parent: Option<Thing>, items: seq<Thing>, total: nat)

  type Forest = map<Thing, Cell>

  function WeightOf(c: Cell): nat {
    if c.container then (c.own + c.total) % TWO_TO_THE_32 else c.own % TWO_TO_THE_32
  }

  function Sum(f: Forest, list: seq<Thing>): nat {
    if list == [] then 0 else (if list[0] in f then WeightOf(f[list[0]]) else 0) + Sum(f, list[1..])
  }

  // ----- the invariant -----

  ghost predicate Linked(f: Forest, c: Thing)
    requires c in f
  {
    var cell := f[c];
    && (cell.parent.Some? ==>
          cell.parent.value in f && f[cell.parent.value].container && c in f[cell.parent.value].items)
    && (forall x :: x in cell.items ==> x in f && f[x].parent == Some(c))
    && Distinct(cell.items)
    && (cell.container || cell.items == [])
  }

  /** The parent pointers and the lists agree. */
  ghost predicate Links(f: Forest) {
    forall c :: c in f ==> Linked(f, c)
  }

  /** The chain of parents from `c` ends within `n` steps. */
  ghost predicate Rooted(f: Forest, c: Thing, n: nat) {
    c in f && (f[c].parent == None || (n > 0 && Rooted(f, f[c].parent.value, n - 1)))
  }

  ghost predicate AllRooted(f: Forest) {
    forall c :: c in f ==> exists n: nat :: Rooted(f, c, n)
  }

  predicate Congruent(a: int, b: int) { (a - b) % TWO_TO_THE_32 == 0 }

  /** An amount by which one container's cache is known to be short. */
  datatype Due = Due(who: Option<Thing>, amount: int)

  const NOTHING_DUE := Due(None, 0)

  function DueAt(d: Due, c: Thing): int { if d.who == Some(c) then d.amount else 0 }

  /** Every cache equals the weight of its list once the amounts due are added. */
  ghost predicate CoherentBut(f: Forest, a: Due, b: Due) {
    forall c :: c in f && f[c].container ==> Congruent(f[c].total + DueAt(a, c) + DueAt(b, c), Sum(f, f[c].items))
  }

  ghost predicate Valid(f: Forest) {
    Links(f) && AllRooted(f) && CoherentBut(f, NOTHING_DUE, NOTHING_DUE)
  }

  // ----- arithmetic modulo 2^32 -----

  lemma CongruentMultiple(a: int, b: int, q: int)
    requires a - b == q * TWO_TO_THE_32
    ensures Congruent(a, b)
  {
  }

  lemma CongruentWrap(a: int)
    ensures Congruent(a % TWO_TO_THE_32, a)
  {
    CongruentMultiple(a % TWO_TO_THE_32, a, -(a / TWO_TO_THE_32));
  }

  lemma CongruentAdd(a: int, a': int, b: int, b': int)
    requires Congruent(a, a') && Congruent(b, b')
    ensures Congruent(a + b, a' + b')
  {
    CongruentMultiple(a + b, a' + b', (a - a') / TWO_TO_THE_32 + (b - b') / TWO_TO_THE_32);
  }

  lemma CongruentSym(a: int, b: int)
    requires Congruent(a, b)
    ensures Congruent(b, a)
  {
    CongruentMultiple(b, a, -((a - b) / TWO_TO_THE_32));
  }

  lemma CongruentTrans(a: int, b: int, c: int)
    requires Congruent(a, b) && Congruent(b, c)
    ensures Congruent(a, c)
  {
    CongruentAdd(a, b, b, c);
  }

  // ----- sums -----

  lemma {:induction false} SumSame(f: Forest, g: Forest, list: seq<Thing>)
    requires forall c :: c in list ==> c in f && c in g && WeightOf(f[c]) == WeightOf(g[c])
    ensures Sum(f, list) == Sum(g, list)
  {
    if list != [] {
      SumSame(f, g, list[1..]);
    }
  }

  lemma {:induction false} SumSplit(f: Forest, a: seq<Thing>, b: seq<Thing>)
    ensures Sum(f, a + b) == Sum(f, a) + Sum(f, b)
  {
    if a == [] {
      assert a + b == b;
    } else {
      assert (a + b)[1..] == a[1..] + b;
      SumSplit(f, a[1..], b);
    }
  }

  lemma SumAt(f: Forest, list: seq<Thing>, k: nat)
    requires k < |list| && list[k] in f
    ensures Sum(f, list) == Sum(f, list[..k]) + WeightOf(f[list[k]]) + Sum(f, list[k + 1..])
  {
    assert list == list[..k] + ([list[k]] + list[k + 1..]);
    SumSplit(f, list[..k], [list[k]] + list[k + 1..]);
    SumSplit(f, [list[k]], list[k + 1..]);
    assert [list[k]][1..] == [];
  }

  /** Only the weight of `list[k]` differs between the two forests. */
  lemma SumShift(f: Forest, g: Forest, list: seq<Thing>, k: nat, d: int)
    requires k < |list| && forall c :: c in list ==> c in f && c in g
    requires forall i :: 0 <= i < |list| && i != k ==> WeightOf(f[list[i]]) == WeightOf(g[list[i]])
    requires Congruent(WeightOf(g[list[k]]), WeightOf(f[list[k]]) + d)
    ensures Congruent(Sum(g, list), Sum(f, list) + d)
  {
    SumAt(f, list, k);
    SumAt(g, list, k);
    SumSame(f, g, list[..k]);
    SumSame(f, g, list[k + 1..]);
    var rest := Sum(f, list[..k]) + Sum(f, list[k + 1..]);
    CongruentAdd(WeightOf(g[list[k]]), WeightOf(f[list[k]]) + d, rest, rest);
  }

  // ----- pushing a difference up the parent chain -----

  /** The 32-bit addition at one container. */
  ghost function Credited(f: Forest, p: Thing, d: int): Forest
    requires p in f
  {
    f[p := f[p].(total := (f[p].total + d) % TWO_TO_THE_32)]
  }

  /** `updateItemWeight` at `p`: 32-bit addition there and at every container above. */
  ghost function Pushed(f: Forest, p: Thing, diff: int, n: nat): Forest
    requires Rooted(f, p, n)
    decreases n
  {
    var f' := Credited(f, p, diff);
    if f[p].parent == None then f'
    else
      RootedSameParents(f, f', f[p].parent.value, n - 1);
      Pushed(f', f[p].parent.value, diff, n - 1)
  }

  ghost predicate SameParents(f: Forest, g: Forest) {
    f.Keys == g.Keys && forall c :: c in f ==> f[c].parent == g[c].parent
  }

  lemma {:induction false} RootedSameParents(f: Forest, g: Forest, c: Thing, n: nat)
    requires SameParents(f, g) && Rooted(f, c, n)
    ensures Rooted(g, c, n)
    decreases n
  {
    if f[c].parent.Some? {
      RootedSameParents(f, g, f[c].parent.value, n - 1);
    }
  }

  /** The two forests differ in caches only. */
  ghost predicate SameShape(f: Forest, g: Forest) {
    f.Keys == g.Keys && forall c :: c in f ==> g[c] == f[c].(total := g[c].total)
  }

  lemma {:induction false} NoSelfParent(f: Forest, c: Thing, n: nat)
    requires Rooted(f, c, n)
    ensures f[c].parent != Some(c)
    decreases n
  {
    if f[c].parent == Some(c) {
      NoSelfParent(f, c, n - 1);
    }
  }

  lemma WeightShift(own: nat, before: nat, after: nat, d: int)
    requires after == (before + d) % TWO_TO_THE_32
    ensures Congruent((own + after) % TWO_TO_THE_32, (own + before) % TWO_TO_THE_32 + d)
  {
    var w := (own + before) % TWO_TO_THE_32;
    CongruentWrap(own + after);
    CongruentWrap(before + d);
    CongruentAdd(after, before + d, own, own);
    CongruentTrans((own + after) % TWO_TO_THE_32, own + after, own + before + d);
    CongruentWrap(own + before);
    CongruentAdd(w, own + before, d, d);
    CongruentSym(w + d, own + before + d);
    CongruentTrans((own + after) % TWO_TO_THE_32, own + before + d, w + d);
  }

  /** After the addition at `p` alone, the amount that was due at `p` is due at its parent. */
  lemma DueMovesUp(f: Forest, p: Thing, d: int, n: nat, a: Due)
    requires Links(f) && Rooted(f, p, n) && f[p].container && CoherentBut(f, a, Due(Some(p), d))
    ensures CoherentBut(Credited(f, p, d), a, Due(f[p].parent, d))
  {
    NoSelfParent(f, p, n);
    CreditedShape(f, p, d);
    hide Congruent, Sum, Rooted, WeightOf, DueAt, Linked, Credited;
    var g := Credited(f, p, d);
    forall c | c in g && g[c].container
      ensures Congruent(g[c].total + DueAt(a, c) + DueAt(Due(f[p].parent, d), c), Sum(g, g[c].items))
    {
      assert Linked(f, c) && Linked(f, p);
      DueAfterAddition(f, g, p, d, a, c);
    }
  }

  lemma CreditedShape(f: Forest, p: Thing, d: int)
    requires p in f
    ensures SameShape(f, Credited(f, p, d)) && Credited(f, p, d)[p].total == (f[p].total + d) % TWO_TO_THE_32
    ensures forall c :: c in f && c != p ==> Credited(f, p, d)[c] == f[c]
  {
  }

  lemma DueAfterAddition(f: Forest, g: Forest, p: Thing, d: int, a: Due, c: Thing)
    requires p in f && f[p].container && f[p].parent != Some(p) && c in f && f[c].container
    requires Linked(f, c) && Linked(f, p) && g == Credited(f, p, d)
    requires Congruent(f[c].total + DueAt(a, c) + DueAt(Due(Some(p), d), c), Sum(f, f[c].items))
    ensures Congruent(g[c].total + DueAt(a, c) + DueAt(Due(f[p].parent, d), c), Sum(g, g[c].items))
  {
    hide Congruent, Sum, WeightOf, Credited, Linked;
    var x := DueAt(a, c);
    if Some(c) == f[p].parent {
      DueAtParent(f, g, p, d, x, c);
    } else {
      DueElsewhere(f, g, p, d, x, c);
    }
  }

  lemma DueElsewhere(f: Forest, g: Forest, p: Thing, d: int, x: int, c: Thing)
    requires p in f && c in f && Linked(f, c) && f[p].parent != Some(c) && g == Credited(f, p, d)
    requires Congruent(f[c].total + x + (if c == p then d else 0), Sum(f, f[c].items))
    ensures Congruent(g[c].total + x, Sum(g, g[c].items))
  {
    hide Congruent, Sum, WeightOf, Credited, Linked;
    NotInList(f, p, c);
    CreditedShape(f, p, d);
    SumSame(f, g, f[c].items);
    if c == p {
      DueAtSelf(f[p].total, g[p].total, d, x, Sum(f, f[p].items));
    }
  }

  lemma NotInList(f: Forest, p: Thing, c: Thing)
    requires p in f && c in f && Linked(f, c) && f[p].parent != Some(c)
    ensures p !in f[c].items && forall z :: z in f[c].items ==> z in f
  {
  }

  lemma DueAtSelf(total: int, total': int, d: int, x: int, sum: int)
    requires total' == (total + d) % TWO_TO_THE_32 && Congruent(total + x + d, sum)
    ensures Congruent(total' + x, sum)
  {
    CongruentWrap(total + d);
    CongruentAdd(total', total + d, x, x);
    CongruentTrans(total' + x, total + d + x, sum);
  }

  lemma DueAtParent(f: Forest, g: Forest, p: Thing, d: int, x: int, c: Thing)
    requires p in f && f[p].container && c in f && c != p && f[p].parent == Some(c)
    requires Linked(f, c) && Linked(f, p) && g == Credited(f, p, d)
    requires Congruent(f[c].total + x, Sum(f, f[c].items))
    ensures Congruent(g[c].total + x + d, Sum(g, g[c].items))
  {
    hide Congruent, Sum, Linked, Credited, WeightOf;
    var list := f[c].items;
    var k := OthersUnchanged(f, g, p, d, c);
    CreditedWeight(f, p, d);
    SumShift(f, g, list, k, d);
    assert g[c].total == f[c].total && g[c].items == list by {
      CreditedShape(f, p, d);
    }
    OffShift(f[c].total + x, Sum(f, list), d, Sum(g, list));
  }

  /** The one place of `p` in its parent's list; nothing else there weighs differently. */
  lemma OthersUnchanged(f: Forest, g: Forest, p: Thing, d: int, c: Thing) returns (k: nat)
    requires p in f && c in f && f[p].parent == Some(c)
    requires Linked(f, c) && Linked(f, p) && g == Credited(f, p, d)
    ensures k < |f[c].items| && f[c].items[k] == p
    ensures forall z :: z in f[c].items ==> z in f && z in g
    ensures forall i :: 0 <= i < |f[c].items| && i != k ==> WeightOf(f[f[c].items[i]]) == WeightOf(g[f[c].items[i]])
  {
    CreditedShape(f, p, d);
    hide WeightOf, Credited;
    var list := f[c].items;
    assert p in list && Distinct(list) && forall z :: z in list ==> z in f;
    hide Linked;
    k :| 0 <= k < |list| && list[k] == p;
    forall i | 0 <= i < |list| && i != k
      ensures WeightOf(f[list[i]]) == WeightOf(g[list[i]])
    {
      assert list[i] != list[k];
    }
  }

  lemma CreditedWeight(f: Forest, p: Thing, d: int)
    requires p in f && f[p].container
    ensures Congruent(WeightOf(Credited(f, p, d)[p]), WeightOf(f[p]) + d)
  {
    hide Congruent;
    WeightShift(f[p].own, f[p].total, Credited(f, p, d)[p].total, d);
  }

  lemma LinksSameShape(f: Forest, g: Forest)
    requires SameShape(f, g) && Links(f)
    ensures Links(g) && SameParents(f, g)
  {
    forall c | c in g ensures Linked(g, c) {
      assert Linked(f, c);
    }
  }

  /** Pushing the amount due at `p` up the chain settles it everywhere. */
  lemma {:induction false} PushSettles(f: Forest, p: Thing, d: int, n: nat, a: Due)
    requires Links(f) && Rooted(f, p, n) && f[p].container && CoherentBut(f, a, Due(Some(p), d))
    ensures CoherentBut(Pushed(f, p, d, n), a, NOTHING_DUE) && SameShape(f, Pushed(f, p, d, n))
    decreases n
  {
    hide CoherentBut, Links;
    var f' := Credited(f, p, d);
    DueMovesUp(f, p, d, n, a);
    assert SameShape(f, f');
    LinksSameShape(f, f');
    if f[p].parent == None {
      NobodyDue(f', a, d);
    } else {
      ParentIsContainer(f, p);
      RootedSameParents(f, f', f[p].parent.value, n - 1);
      PushSettles(f', f[p].parent.value, d, n - 1, a);
    }
  }

  lemma ParentIsContainer(f: Forest, p: Thing)
    requires Links(f) && p in f && f[p].parent.Some?
    ensures f[p].parent.value in f && f[f[p].parent.value].container
  {
    assert Linked(f, p);
  }

  lemma NobodyDue(f: Forest, a: Due, d: int)
    requires CoherentBut(f, a, Due(None, d))
    ensures CoherentBut(f, a, NOTHING_DUE)
  {
    forall c | c in f && f[c].container
      ensures Congruent(f[c].total + DueAt(a, c) + DueAt(NOTHING_DUE, c), Sum(f, f[c].items))
    {
      assert DueAt(Due(None, d), c) == DueAt(NOTHING_DUE, c);
    }
  }

  // ----- the changes a container makes -----

  /** `setParent(container)` and a new list, before any cache is touched. */
  function Relinked(f: Forest, c: Thing, x: Thing, items: seq<Thing>): Forest
    requires c in f && x in f
  {
    var f' := f[x := f[x].(parent := Some(c))];
    f'[c := f'[c].(items := items)]
  }

  /** `addThing` and `internalAddThing` (front), `addItemBack` (back). */
  ghost function Added(f: Forest, c: Thing, x: Thing, items: seq<Thing>, n: nat): Forest
    requires c in f && x in f && c != x && Rooted(Relinked(f, c, x, items), c, n)
  {
    var f' := Relinked(f, c, x, items);
    Pushed(f', c, WeightOf(f'[x]), n)
  }

  /** `updateThing`, and `removeThing` of part of a stack: only the own weight of `x` changes. */
  ghost function Reweighed(f: Forest, c: Thing, x: Thing, own: nat, n: nat): Forest
    requires x in f && Rooted(f[x := f[x].(own := own)], c, n)
  {
    var f' := f[x := f[x].(own := own)];
    Pushed(f', c, WeightOf(f'[x]) - WeightOf(f[x]), n)
  }

  /** `removeThing` of the whole item at index `k`: the weight first, then the links. */
  ghost function Removed(f: Forest, c: Thing, k: nat, n: nat): Forest
    requires c in f && k < |f[c].items| && f[c].items[k] in f && f[c].items[k] != c && Rooted(f, c, n)
  {
    var x := f[c].items[k];
    var f' := Pushed(f, c, 0 - WeightOf(f[x]), n);
    PushedShape(f, c, 0 - WeightOf(f[x]), n);
    Detached(f', c, x, f[c].items[..k] + f[c].items[k + 1..])
  }

  function Detached(f: Forest, c: Thing, x: Thing, items: seq<Thing>): Forest
    requires c in f && x in f
  {
    var f' := f[x := f[x].(parent := None)];
    f'[c := f'[c].(items := items)]
  }

  lemma {:induction false} PushedShape(f: Forest, p: Thing, d: int, n: nat)
    requires Rooted(f, p, n)
    ensures SameShape(f, Pushed(f, p, d, n))
    decreases n
  {
    var f' := Credited(f, p, d);
    if f[p].parent.Some? {
      RootedSameParents(f, f', f[p].parent.value, n - 1);
      PushedShape(f', f[p].parent.value, d, n - 1);
    }
  }

  // ----- no cycles -----

  /** `x` is `c` itself or one of the containers around it. */
  ghost predicate Holds(f: Forest, x: Thing, c: Thing, n: nat)
    requires Rooted(f, c, n)
    decreases n
  {
    x == c || (f[c].parent.Some? && Holds(f, x, f[c].parent.value, n - 1))
  }

  lemma {:induction false} RootedMore(f: Forest, c: Thing, n: nat, m: nat)
    requires Rooted(f, c, n) && n <= m
    ensures Rooted(f, c, m)
    decreases n
  {
    if f[c].parent.Some? {
      RootedMore(f, f[c].parent.value, n - 1, m - 1);
    }
  }

  /** A new parent for `x` leaves the chain above `c` alone when `x` is not on it. */
  lemma {:induction false} ChainKept(f: Forest, g: Forest, x: Thing, c: Thing, n: nat, q: Thing)
    requires Rooted(f, c, n) && !Holds(f, x, c, n)
    requires f.Keys == g.Keys && forall y :: y in f && y != x ==> g[y].parent == f[y].parent
    ensures Rooted(g, c, n) && (Holds(g, q, c, n) <==> Holds(f, q, c, n))
    decreases n
  {
    if f[c].parent.Some? {
      ChainKept(f, g, x, f[c].parent.value, n - 1, q);
    }
  }

  /** ... and every chain still ends, now possibly by way of `c`. */
  lemma {:induction false} ChainsEnd(f: Forest, g: Forest, x: Thing, c: Thing, n: nat, y: Thing, m: nat)
    requires f.Keys == g.Keys && forall z :: z in f && z != x ==> g[z].parent == f[z].parent
    requires x in f && Rooted(g, c, n) && Rooted(f, y, m) && g[x].parent == Some(c)
    ensures Rooted(g, y, m + n + 1)
    decreases m
  {
    if y == x {
      RootedMore(g, c, n, m + n);
    } else if f[y].parent.Some? {
      ChainsEnd(f, g, x, c, n, f[y].parent.value, m - 1);
    }
  }

  lemma LinkKeepsRooted(f: Forest, g: Forest, x: Thing, c: Thing, n: nat)
    requires x in f && AllRooted(f) && Rooted(f, c, n) && !Holds(f, x, c, n)
    requires f.Keys == g.Keys && g[x].parent == Some(c) && forall z :: z in f && z != x ==> g[z].parent == f[z].parent
    ensures AllRooted(g) && Rooted(g, c, n)
  {
    ChainKept(f, g, x, c, n, x);
    forall y | y in g ensures exists m: nat :: Rooted(g, y, m) {
      var m: nat :| Rooted(f, y, m);
      ChainsEnd(f, g, x, c, n, y, m);
    }
  }

  /** Linking an item under itself or under anything inside it would close a cycle. */
  lemma {:induction false} LinkUnderItselfIsCyclic(f: Forest, g: Forest, x: Thing, c: Thing, n: nat, m: nat)
    requires x in f && Rooted(f, c, n) && Holds(f, x, c, n)
    requires f.Keys == g.Keys && g[x].parent == Some(c) && forall z :: z in f && z != x ==> g[z].parent == f[z].parent
    ensures !Rooted(g, x, m)
    decreases m
  {
    if Rooted(g, x, m) {
      var k := ClimbTo(f, g, x, c, n, m - 1);
      LinkUnderItselfIsCyclic(f, g, x, c, n, k);
    }
  }

  lemma {:induction false} ClimbTo(f: Forest, g: Forest, x: Thing, c: Thing, n: nat, m: nat) returns (k: nat)
    requires Rooted(f, c, n) && Holds(f, x, c, n) && Rooted(g, c, m)
    requires f.Keys == g.Keys && forall z :: z in f && z != x ==> g[z].parent == f[z].parent
    ensures k <= m && Rooted(g, x, k)
    decreases n
  {
    if x == c {
      k := m;
    } else {
      k := ClimbTo(f, g, x, f[c].parent.value, n - 1, m - 1);
    }
  }

  // ----- every change keeps the invariant -----

  lemma DistinctInsert(before: seq<Thing>, after: seq<Thing>, x: Thing)
    ensures Distinct(before + [x] + after) <==> Distinct(before + after) && x !in before && x !in after
  {
    var all, others, k := before + [x] + after, before + after, |before|;
    assert forall p :: 0 <= p < k ==> all[p] == before[p] == others[p];
    assert forall p :: k <= p < |others| ==> all[p + 1] == others[p] == after[p - k];
    assert all[k] == x;
    assert forall p :: k < p < |all| ==> all[p] == after[p - k - 1] == others[p - 1];
    if Distinct(all) {
      forall p, q | 0 <= p < q < |others| ensures others[p] != others[q] {
        var p', q' := if p < k then p else p + 1, if q < k then q else q + 1;
        assert all[p'] != all[q'];
      }
      forall p | 0 <= p < k ensures before[p] != x {
        assert all[p] != all[k];
      }
      forall p | 0 <= p < |after| ensures after[p] != x {
        assert all[k] != all[k + 1 + p];
      }
    }
    if Distinct(others) && x !in before && x !in after {
      forall p, q | 0 <= p < q < |all| ensures all[p] != all[q] {
        var p', q' := if p < k then p else p - 1, if q < k then q else q - 1;
        if p != k && q != k {
          assert others[p'] != others[q'];
        } else if p == k {
          assert all[q] in after;
        } else {
          assert all[p] in before;
        }
      }
    }
  }

  /** `x`, until now nowhere, is put into the list of `c`. */
  lemma LinksInsert(f: Forest, c: Thing, x: Thing, before: seq<Thing>, after: seq<Thing>)
    requires Links(f) && c in f && f[c].container && x in f && f[x].parent == None && c != x
    requires f[c].items == before + after
    ensures Links(Relinked(f, c, x, before + [x] + after))
  {
    var g := Relinked(f, c, x, before + [x] + after);
    assert Linked(f, c);
    DistinctInsert(before, after, x);
    forall y | y in g ensures Linked(g, y) {
      assert Linked(f, y);
      assert x !in f[y].items;
    }
  }

  /** `x` leaves the list of `c`. */
  lemma LinksErase(f: Forest, c: Thing, x: Thing, before: seq<Thing>, after: seq<Thing>)
    requires Links(f) && c in f && f[c].items == before + [x] + after
    ensures x in f && c != x ==> Links(Detached(f, c, x, before + after))
    ensures x !in before && x !in after
  {
    assert Linked(f, c);
    DistinctInsert(before, after, x);
    assert x in f[c].items;
    if c != x {
      var g := Detached(f, c, x, before + after);
      forall y | y in g ensures Linked(g, y) {
        assert Linked(f, y);
      }
    }
  }

  /** Parents and lists changed around `c` and `x`, but no weight did. */
  lemma SumsKept(f: Forest, g: Forest, list: seq<Thing>)
    requires f.Keys == g.Keys && forall y :: y in f ==> WeightOf(f[y]) == WeightOf(g[y])
    requires forall y :: y in list ==> y in f
    ensures Sum(f, list) == Sum(g, list)
  {
    SumSame(f, g, list);
  }

  lemma SumInsert(f: Forest, before: seq<Thing>, after: seq<Thing>, x: Thing)
    requires x in f
    ensures Sum(f, before + [x] + after) == Sum(f, before + after) + WeightOf(f[x])
  {
    SumSplit(f, before + [x], after);
    SumSplit(f, before, [x]);
    SumSplit(f, before, after);
    assert [x][1..] == [];
  }

  lemma DueInsert(f: Forest, c: Thing, x: Thing, before: seq<Thing>, after: seq<Thing>, a: Due)
    requires Links(f) && CoherentBut(f, a, NOTHING_DUE) && c in f && x in f && c != x
    requires f[c].items == before + after
    ensures var g := Relinked(f, c, x, before + [x] + after);
            CoherentBut(g, a, Due(Some(c), WeightOf(g[x])))
  {
    hide Congruent, Sum, WeightOf;
    var g := Relinked(f, c, x, before + [x] + after);
    forall y | y in g && g[y].container
      ensures Congruent(g[y].total + DueAt(a, y) + DueAt(Due(Some(c), WeightOf(g[x])), y), Sum(g, g[y].items))
    {
      assert Linked(f, y) && Linked(f, c);
      WeightsKept(f, g);
      SumsKept(f, g, f[y].items);
      if y == c {
        SumInsert(g, before, after, x);
        var total, due, w := f[c].total, DueAt(a, c), WeightOf(g[x]);
        assert Congruent(total + due + DueAt(NOTHING_DUE, c), Sum(f, f[c].items));
        CongruentAdd(total + due, Sum(f, f[c].items), w, w);
      }
    }
  }

  lemma WeightsKept(f: Forest, g: Forest)
    requires f.Keys == g.Keys
    requires forall y :: y in f ==> g[y].container == f[y].container && g[y].own == f[y].own && g[y].total == f[y].total
    ensures forall y :: y in f ==> WeightOf(f[y]) == WeightOf(g[y])
  {
  }

  lemma ValidFromShape(f: Forest, g: Forest)
    requires SameShape(f, g) && Links(f) && AllRooted(f) && CoherentBut(g, NOTHING_DUE, NOTHING_DUE)
    ensures Valid(g)
  {
    LinksSameShape(f, g);
    RootedEverywhere(f, g);
  }

  lemma RootedEverywhere(f: Forest, g: Forest)
    requires SameParents(f, g) && AllRooted(f)
    ensures AllRooted(g)
  {
    forall y | y in g ensures exists m: nat :: Rooted(g, y, m) {
      var m: nat :| Rooted(f, y, m);
      RootedSameParents(f, g, y, m);
    }
  }

  /** Adding an item that `queryAdd` lets in keeps the invariant. */
  lemma AddKeepsValid(f: Forest, c: Thing, x: Thing, before: seq<Thing>, after: seq<Thing>, n: nat)
    requires Valid(f) && c in f && f[c].container && x in f && f[x].parent == None
    requires f[c].items == before + after
    requires Rooted(f, c, n) && !Holds(f, x, c, n)
    ensures Rooted(Relinked(f, c, x, before + [x] + after), c, n)
    ensures Valid(Added(f, c, x, before + [x] + after, n))
    ensures SameShape(Relinked(f, c, x, before + [x] + after), Added(f, c, x, before + [x] + after, n))
  {
    hide CoherentBut, Links, Sum, WeightOf;
    var items := before + [x] + after;
    var g := Relinked(f, c, x, items);
    LinksInsert(f, c, x, before, after);
    LinkKeepsRooted(f, g, x, c, n);
    DueInsert(f, c, x, before, after, NOTHING_DUE);
    PushSettles(g, c, WeightOf(g[x]), n, NOTHING_DUE);
    ValidFromShape(g, Added(f, c, x, items, n));
  }

  /** Only the sum of what is due at a container matters. */
  lemma DueAlike(f: Forest, a: Due, b: Due, a': Due, b': Due)
    requires CoherentBut(f, a, b) && forall y :: y in f ==> DueAt(a, y) + DueAt(b, y) == DueAt(a', y) + DueAt(b', y)
    ensures CoherentBut(f, a', b')
  {
    hide Congruent, Sum, DueAt;
    forall y | y in f && f[y].container
      ensures Congruent(f[y].total + DueAt(a', y) + DueAt(b', y), Sum(f, f[y].items))
    {
      assert Congruent(f[y].total + DueAt(a, y) + DueAt(b, y), Sum(f, f[y].items));
      assert f[y].total + DueAt(a', y) + DueAt(b', y) == f[y].total + DueAt(a, y) + DueAt(b, y);
    }
  }

  /** The weight of an item that leaves a list is due back. */
  lemma DueErase(f: Forest, c: Thing, x: Thing, before: seq<Thing>, after: seq<Thing>, a: Due)
    requires Links(f) && CoherentBut(f, a, NOTHING_DUE) && c in f && x in f && c != x
    requires f[c].items == before + [x] + after
    ensures CoherentBut(Detached(f, c, x, before + after), a, Due(Some(c), 0 - WeightOf(f[x])))
  {
    hide Congruent, Sum, WeightOf;
    var g := Detached(f, c, x, before + after);
    var w: int := WeightOf(f[x]);
    forall y | y in g && g[y].container
      ensures Congruent(g[y].total + DueAt(a, y) + DueAt(Due(Some(c), 0 - w), y), Sum(g, g[y].items))
    {
      assert Linked(f, y) && Linked(f, c);
      WeightsKept(f, g);
      SumsKept(f, g, g[y].items);
      if y == c {
        SumInsert(f, before, after, x);
        assert Congruent(f[c].total + DueAt(a, c) + DueAt(NOTHING_DUE, c), Sum(f, f[c].items));
        CongruentRefl(0 - w);
        CongruentAdd(f[c].total + DueAt(a, c), Sum(f, f[c].items), 0 - w, 0 - w);
      } else {
        assert Congruent(f[y].total + DueAt(a, y) + DueAt(NOTHING_DUE, y), Sum(f, f[y].items));
      }
    }
  }

  lemma CongruentRefl(a: int)
    ensures Congruent(a, a)
  {
  }

  /** A change of the own weight of an item is due at its container. */
  lemma DueReweigh(f: Forest, c: Thing, x: Thing, own: nat)
    requires Links(f) && CoherentBut(f, NOTHING_DUE, NOTHING_DUE) && x in f && f[x].parent == Some(c) && c != x
    ensures var g := f[x := f[x].(own := own)];
            CoherentBut(g, NOTHING_DUE, Due(Some(c), WeightOf(g[x]) - WeightOf(f[x])))
  {
    hide Congruent, Sum, WeightOf;
    var g := f[x := f[x].(own := own)];
    var d := WeightOf(g[x]) - WeightOf(f[x]);
    forall y | y in g && g[y].container ensures Congruent(g[y].total + DueAt(Due(Some(c), d), y), Sum(g, g[y].items)) {
      assert Linked(f, y) && Linked(f, x);
      assert Congruent(f[y].total + DueAt(NOTHING_DUE, y), Sum(f, f[y].items));
      if y == c {
        var list := f[c].items;
        var k :| 0 <= k < |list| && list[k] == x;
        CongruentRefl(WeightOf(g[x]));
        SumShift(f, g, list, k, d);
        OffShift(f[c].total, Sum(f, list), d, Sum(g, list));
      } else {
        NotInList(f, x, y);
        SumSame(f, g, f[y].items);
      }
    }
  }

  lemma OffShift(total: int, sum: int, d: int, sum': int)
    requires Congruent(total, sum) && Congruent(sum', sum + d)
    ensures Congruent(total + d, sum')
  {
    CongruentRefl(d);
    CongruentAdd(total, sum, d, d);
    CongruentSym(sum', sum + d);
    CongruentTrans(total + d, sum + d, sum');
  }

  lemma {:induction false} UnlinkKeepsRooted(f: Forest, g: Forest, x: Thing, y: Thing, m: nat)
    requires Rooted(f, y, m) && f.Keys == g.Keys
    requires forall z :: z in f ==> g[z].parent == (if z == x then None else f[z].parent)
    ensures Rooted(g, y, m)
    decreases m
  {
    if y != x && f[y].parent.Some? {
      UnlinkKeepsRooted(f, g, x, f[y].parent.value, m - 1);
    }
  }

  lemma UnlinkKeepsAllRooted(f: Forest, g: Forest, x: Thing)
    requires AllRooted(f) && f.Keys == g.Keys
    requires forall z :: z in f ==> g[z].parent == (if z == x then None else f[z].parent)
    ensures AllRooted(g)
  {
    forall y | y in g ensures exists m: nat :: Rooted(g, y, m) {
      var m: nat :| Rooted(f, y, m);
      UnlinkKeepsRooted(f, g, x, y, m);
    }
  }

  lemma ChainStart(f: Forest, c: Thing, n: nat, x: Thing)
    requires Rooted(f, c, n)
    ensures c in f && (x == c ==> Holds(f, x, c, n))
  {
  }

  /** What is inside a container is not around it. */
  lemma InsideIsNotAround(f: Forest, x: Thing, c: Thing, n: nat)
    requires x in f && f[x].parent == Some(c) && Rooted(f, c, n)
    ensures !Holds(f, x, c, n) && x != c
  {
    if Holds(f, x, c, n) {
      LinkUnderItselfIsCyclic(f, f, x, c, n, n + 1);
    }
  }

  /** A push leaves everything that is not around `p` alone. */
  lemma {:induction false} PushStaysOnChain(f: Forest, p: Thing, d: int, n: nat, x: Thing)
    requires Rooted(f, p, n) && x in f && !Holds(f, x, p, n)
    ensures x in Pushed(f, p, d, n) && Pushed(f, p, d, n)[x] == f[x]
    decreases n
  {
    var f' := Credited(f, p, d);
    if f[p].parent.Some? {
      RootedSameParents(f, f', f[p].parent.value, n - 1);
      HoldsSameParents(f, f', x, f[p].parent.value, n - 1);
      PushStaysOnChain(f', f[p].parent.value, d, n - 1, x);
    }
  }

  lemma {:induction false} HoldsSameParents(f: Forest, g: Forest, x: Thing, c: Thing, n: nat)
    requires SameParents(f, g) && Rooted(f, c, n)
    ensures Rooted(g, c, n) && (Holds(f, x, c, n) <==> Holds(g, x, c, n))
    decreases n
  {
    if f[c].parent.Some? {
      HoldsSameParents(f, g, x, f[c].parent.value, n - 1);
    }
  }

  /** A changed own weight, pushed up, keeps the invariant. */
  lemma ReweighKeepsValid(f: Forest, c: Thing, x: Thing, own: nat, n: nat)
    requires Valid(f) && x in f && f[x].parent == Some(c) && Rooted(f, c, n)
    ensures Rooted(f[x := f[x].(own := own)], c, n) && Valid(Reweighed(f, c, x, own, n))
  {
    hide CoherentBut, Links, Sum, WeightOf, AllRooted, Rooted, Holds, Pushed;
    var g := f[x := f[x].(own := own)];
    assert SameParents(f, g);
    RootedSameParents(f, g, c, n);
    RootedEverywhere(f, g);
    InsideIsNotAround(f, x, c, n);
    LinksReweigh(f, x, own);
    ParentIsContainer(f, x);
    DueReweigh(f, c, x, own);
    PushSettles(g, c, WeightOf(g[x]) - WeightOf(f[x]), n, NOTHING_DUE);
    ValidFromShape(g, Reweighed(f, c, x, own, n));
  }

  lemma LinksReweigh(f: Forest, x: Thing, own: nat)
    requires Links(f) && x in f
    ensures Links(f[x := f[x].(own := own)])
  {
    var g := f[x := f[x].(own := own)];
    forall y | y in g ensures Linked(g, y) {
      assert Linked(f, y);
    }
  }

  /** Removing an item keeps the invariant, although its weight is taken off before its link. */
  lemma RemoveKeepsValid(f: Forest, c: Thing, k: nat, n: nat)
    requires Valid(f) && c in f && k < |f[c].items| && Rooted(f, c, n)
    ensures f[c].items[k] in f && f[c].items[k] != c && Valid(Removed(f, c, k, n))
  {
    hide CoherentBut, Links, Sum, WeightOf, AllRooted, Rooted, Holds, Pushed;
    var x := f[c].items[k];
    var w: int := InList(f, c, x);
    InsideIsNotAround(f, x, c, n);
    TakenOff(f, c, x, n, w);
    DetachKeepsValid(Pushed(f, c, 0 - w, n), c, k);
  }

  /** The state between taking the weight of `x` off and dropping its links. */
  lemma TakenOff(f: Forest, c: Thing, x: Thing, n: nat, w: int)
    requires Valid(f) && x in f && f[x].parent == Some(c) && Rooted(f, c, n) && w == WeightOf(f[x])
    ensures var g := Pushed(f, c, 0 - w, n);
            && SameShape(f, g) && Links(g) && AllRooted(g) && g[x] == f[x]
            && CoherentBut(g, Due(Some(c), w), NOTHING_DUE)
  {
    hide CoherentBut, Links, Sum, WeightOf, AllRooted, Rooted, Holds, Pushed;
    InsideIsNotAround(f, x, c, n);
    ParentIsContainer(f, x);
    DueAlike(f, NOTHING_DUE, NOTHING_DUE, Due(Some(c), w), Due(Some(c), 0 - w));
    PushSettles(f, c, 0 - w, n, Due(Some(c), w));
    PushStaysOnChain(f, c, 0 - w, n, x);
    LinksSameShape(f, Pushed(f, c, 0 - w, n));
    RootedEverywhere(f, Pushed(f, c, 0 - w, n));
  }

  lemma InList(f: Forest, c: Thing, x: Thing) returns (w: int)
    requires Links(f) && c in f && x in f[c].items
    ensures x in f && f[x].parent == Some(c) && w == WeightOf(f[x])
  {
    assert Linked(f, c);
    w := WeightOf(f[x]);
  }

  /** Dropping the links of an item whose weight has been taken off already. */
  lemma DetachKeepsValid(f: Forest, c: Thing, k: nat)
    requires Links(f) && AllRooted(f) && c in f && k < |f[c].items|
    requires f[c].items[k] in f && f[c].items[k] != c
    requires CoherentBut(f, Due(Some(c), WeightOf(f[f[c].items[k]])), NOTHING_DUE)
    ensures Valid(Detached(f, c, f[c].items[k], f[c].items[..k] + f[c].items[k + 1..]))
  {
    hide CoherentBut, Links, Sum, WeightOf, AllRooted, Rooted, Holds, Pushed;
    var x, before, after := f[c].items[k], f[c].items[..k], f[c].items[k + 1..];
    var w: int := WeightOf(f[x]);
    var g := Detached(f, c, x, before + after);
    assert f[c].items == before + [x] + after;
    LinksErase(f, c, x, before, after);
    DueErase(f, c, x, before, after, Due(Some(c), w));
    DueAlike(g, Due(Some(c), w), Due(Some(c), 0 - w), NOTHING_DUE, NOTHING_DUE);
    UnlinkKeepsAllRooted(f, g, x);
  }

  /** `replaceThing`: the new item takes the place in the list, the difference of the weights
      goes up, and the old item loses its parent last. */
  ghost function Replaced(f: Forest, c: Thing, k: nat, y: Thing, n: nat): Forest
    requires c in f && y in f && k < |f[c].items| && f[c].items[k] in f && c != y
    requires Rooted(Relinked(f, c, y, f[c].items[k := y]), c, n)
  {
    var x := f[c].items[k];
    var f' := Relinked(f, c, y, f[c].items[k := y]);
    var pushed := Pushed(f', c, WeightOf(f'[y]) - WeightOf(f[x]), n);
    PushedShape(f', c, WeightOf(f'[y]) - WeightOf(f[x]), n);
    pushed[x := pushed[x].(parent := None)]
  }

  /** Dropping the parent of an item off the chain commutes with a push. */
  lemma {:induction false} PushCommutesWithUnlink(f: Forest, p: Thing, d: int, n: nat, x: Thing)
    requires x in f && Rooted(f, p, n) && !Holds(f, x, p, n)
    ensures var g := f[x := f[x].(parent := None)];
            Rooted(g, p, n) && x in Pushed(f, p, d, n)
            && Pushed(g, p, d, n) == Pushed(f, p, d, n)[x := Pushed(f, p, d, n)[x].(parent := None)]
    decreases n
  {
    var g := f[x := f[x].(parent := None)];
    var f' := Credited(f, p, d);
    var g' := Credited(g, p, d);
    assert g' == f'[x := f'[x].(parent := None)];
    UnlinkKeepsRooted(f, g, x, p, n);
    if f[p].parent.Some? {
      RootedSameParents(f, f', f[p].parent.value, n - 1);
      HoldsSameParents(f, f', x, f[p].parent.value, n - 1);
      PushCommutesWithUnlink(f', f[p].parent.value, d, n - 1, x);
    }
  }

  /** The new item stands in the list, the old one nowhere; the weights are not yet settled. */
  lemma SwapIn(f: Forest, c: Thing, k: nat, y: Thing, n: nat)
    requires Valid(f) && c in f && k < |f[c].items| && Rooted(f, c, n)
    requires y in f && f[y].parent == None && !Holds(f, y, c, n)
    ensures var x := f[c].items[k];
            && x in f && x != c && x != y
            && var f2 := Detached(f, c, x, f[c].items[..k] + f[c].items[k + 1..]);
            && Links(f2) && AllRooted(f2) && Rooted(f2, c, n) && !Holds(f2, y, c, n)
            && CoherentBut(f2, Due(Some(c), 0 - WeightOf(f[x])), NOTHING_DUE)
  {
    hide CoherentBut, Links, Sum, WeightOf, AllRooted, Rooted, Holds, Pushed;
    var x, before, after := f[c].items[k], f[c].items[..k], f[c].items[k + 1..];
    var w: int := InList(f, c, x);
    InsideIsNotAround(f, x, c, n);
    assert f[c].items == before + [x] + after;
    var f2 := Detached(f, c, x, before + after);
    LinksErase(f, c, x, before, after);
    UnlinkKeepsAllRooted(f, f2, x);
    ChainKept(f, f2, x, c, n, y);
    DueErase(f, c, x, before, after, NOTHING_DUE);
    DueAlike(f2, NOTHING_DUE, Due(Some(c), 0 - w), Due(Some(c), 0 - w), NOTHING_DUE);
  }

  /** Replacing an item keeps the invariant. */
  lemma ReplaceKeepsValid(f: Forest, c: Thing, k: nat, y: Thing, n: nat)
    requires Valid(f) && c in f && f[c].container && k < |f[c].items| && Rooted(f, c, n)
    requires y in f && f[y].parent == None && !Holds(f, y, c, n)
    ensures f[c].items[k] in f && c != y && Rooted(Relinked(f, c, y, f[c].items[k := y]), c, n)
    ensures Valid(Replaced(f, c, k, y, n))
  {
    hide CoherentBut, Links, Sum, WeightOf, AllRooted, Rooted, Holds, Pushed, Valid;
    SwapIn(f, c, k, y, n);
    ChainStart(f, c, n, y);
    var x, before, after := f[c].items[k], f[c].items[..k], f[c].items[k + 1..];
    var f2 := Detached(f, c, x, before + after);
    SettleSwap(f2, c, y, before, after, n, WeightOf(f[x]));
    ReplacedIsSwapped(f, c, k, y, n);
  }

  /** Putting the new item in before the old one has lost its parent makes no difference. */
  lemma ReplacedIsSwapped(f: Forest, c: Thing, k: nat, y: Thing, n: nat)
    requires Valid(f) && c in f && k < |f[c].items| && Rooted(f, c, n) && c != y
    requires y in f && f[y].parent == None && !Holds(f, y, c, n)
    ensures var x := f[c].items[k];
            && x in f && x != c && Rooted(Relinked(f, c, y, f[c].items[k := y]), c, n)
            && var f3 := Relinked(Detached(f, c, x, f[c].items[..k] + f[c].items[k + 1..]), c, y,
                                  f[c].items[..k] + [y] + f[c].items[k + 1..]);
            && Rooted(f3, c, n)
            && Replaced(f, c, k, y, n) == Pushed(f3, c, WeightOf(f3[y]) - WeightOf(f[x]), n)
  {
    hide CoherentBut, Links, Sum, AllRooted, Rooted, Holds, Pushed;
    var x, before, after := f[c].items[k], f[c].items[..k], f[c].items[k + 1..];
    var w: int := InList(f, c, x);
    InsideIsNotAround(f, x, c, n);
    var f3 := Relinked(Detached(f, c, x, before + after), c, y, before + [y] + after);
    var f1 := Relinked(f, c, y, f[c].items[k := y]);
    assert f[c].items[k := y] == before + [y] + after;
    assert f3 == f1[x := f1[x].(parent := None)];
    ChainKept(f, f1, y, c, n, x);
    PushCommutesWithUnlink(f1, c, WeightOf(f3[y]) - w, n, x);
  }

  lemma SettleSwap(f: Forest, c: Thing, y: Thing, before: seq<Thing>, after: seq<Thing>, n: nat, w: int)
    requires Links(f) && AllRooted(f) && Rooted(f, c, n) && f[c].container && f[c].items == before + after
    requires y in f && f[y].parent == None && !Holds(f, y, c, n)
    requires CoherentBut(f, Due(Some(c), 0 - w), NOTHING_DUE)
    ensures c != y
    ensures var g := Relinked(f, c, y, before + [y] + after);
            Rooted(g, c, n) && Valid(Pushed(g, c, WeightOf(g[y]) - w, n))
  {
    hide CoherentBut, Links, Sum, WeightOf, AllRooted, Rooted, Holds, Pushed;
    ChainStart(f, c, n, y);
    var g := Relinked(f, c, y, before + [y] + after);
    var d := WeightOf(g[y]) - w;
    LinksInsert(f, c, y, before, after);
    LinkKeepsRooted(f, g, y, c, n);
    DueInsert(f, c, y, before, after, Due(Some(c), 0 - w));
    DueAlike(g, Due(Some(c), 0 - w), Due(Some(c), WeightOf(g[y])), NOTHING_DUE, Due(Some(c), d));
    PushSettles(g, c, d, n, NOTHING_DUE);
    ValidFromShape(g, Pushed(g, c, d, n));
  }
}
