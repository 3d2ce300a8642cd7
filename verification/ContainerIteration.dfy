/**
 * The queue-based iterator over everything inside a container: it yields every item below the
 * container once, and nothing else, the nearer ones first.
 */
module ContainerIteration {
  import opened Basics
  import opened ContainerWeights

  /** The containers of a list that are not empty, which `advance` pushes. */
  function Open(f: Forest, list: seq<Thing>): seq<Thing> {
    if list == [] then []
    else (if list[0] in f && f[list[0]].items != [] then [list[0]] else []) + Open(f, list[1..])
  }

  function Elements(list: seq<Thing>): set<Thing> {
    set x | x in list
  }

  /** Everything in the queue has been yielded, its contents have not. */
  ghost predicate Queued(f: Forest, over: seq<Thing>, rest: set<Thing>) {
    forall c :: c in over ==> c in f && c !in rest && f[c].items != [] && forall x :: x in f[c].items ==> x in rest
  }

  /** What has not been yielded has its contents not yielded either. */
  ghost predicate Closed(f: Forest, rest: set<Thing>) {
    rest <= f.Keys && forall c, x :: c in rest && x in f[c].items ==> x in rest
  }

  /** What has not been yielded lies in something not yielded or in the queue. */
  ghost predicate Covered(f: Forest, over: seq<Thing>, rest: set<Thing>) {
    forall x :: x in rest ==> x in f && f[x].parent.Some? && (f[x].parent.value in rest || f[x].parent.value in over)
  }

  /** `over` is a queue of containers that still have to be gone through; `rest` is what has not
      been yielded yet. */
  ghost predicate Frontier(f: Forest, over: seq<Thing>, rest: set<Thing>) {
    Links(f) && Distinct(over) && Queued(f, over, rest) && Closed(f, rest) && Covered(f, over, rest)
  }

  /** The order in which a queue reaches the items. */
  ghost function Order(f: Forest, over: seq<Thing>, rest: set<Thing>): seq<Thing>
    requires Frontier(f, over, rest)
    decreases |rest|
  {
    if over == [] then []
    else
      var list := f[over[0]].items;
      NextFrontier(f, over, rest);
      list + Order(f, over[1..] + Open(f, list), rest - Elements(list))
  }

  lemma {:induction false} OpenHas(f: Forest, list: seq<Thing>)
    ensures forall c :: c in Open(f, list) ==> c in list && c in f && f[c].items != []
    ensures forall c :: c in list && c in f && f[c].items != [] ==> c in Open(f, list)
    ensures Distinct(list) ==> Distinct(Open(f, list))
  {
    if list != [] {
      OpenHas(f, list[1..]);
      if Distinct(list) {
        assert forall c :: c in list[1..] ==> c != list[0];
      }
    }
  }

  /** Every item lies in one list, so the queue and the rest stay apart. */
  lemma NextFrontier(f: Forest, over: seq<Thing>, rest: set<Thing>)
    requires Frontier(f, over, rest) && over != []
    ensures var list := f[over[0]].items;
            Frontier(f, over[1..] + Open(f, list), rest - Elements(list)) && Elements(list) <= rest && list != []
    ensures rest - Elements(f[over[0]].items) < rest
  {
    hide Linked, Open;
    var c := over[0];
    var list := f[c].items;
    OpenHas(f, list);
    ParentsOfItems(f);
    assert list[0] in rest;
    hide Links;
    DistinctRest(over);
    NextQueued(f, over, rest);
    NextCovered(f, over, rest);
    DistinctSum(over[1..], Open(f, list));
  }

  lemma DistinctRest(over: seq<Thing>)
    requires Distinct(over) && over != []
    ensures Distinct(over[1..]) && over[0] !in over[1..]
  {
  }

  lemma NextQueued(f: Forest, over: seq<Thing>, rest: set<Thing>)
    requires Links(f) && Distinct(over) && Queued(f, over, rest) && Closed(f, rest) && over != []
    ensures var list := f[over[0]].items;
            Queued(f, over[1..] + Open(f, list), rest - Elements(list)) && Closed(f, rest - Elements(list))
  {
    hide Linked, Open;
    ParentsOfItems(f);
    hide Links;
    var c := over[0];
    var list, over' := f[c].items, over[1..] + Open(f, f[c].items);
    var rest' := rest - Elements(list);
    DistinctRest(over);
    OpenHas(f, list);
    assert c in over && forall x :: x in list ==> x in rest;
    assert forall x :: x in rest' <==> x in rest && x !in list;
    forall d | d in over' ensures d in f && d !in rest' && f[d].items != [] && d != c {
      assert d in over[1..] || d in Open(f, list);
      assert d in over[1..] ==> d in over;
    }
    forall d, x | d in over' && x in f[d].items ensures x in rest' {
      assert d in over[1..] || d in Open(f, list);
      assert d in over[1..] ==> d in over;
    }
  }

  lemma NextCovered(f: Forest, over: seq<Thing>, rest: set<Thing>)
    requires Links(f) && Queued(f, over, rest) && Covered(f, over, rest) && Closed(f, rest) && over != []
    ensures Covered(f, over[1..] + Open(f, f[over[0]].items), rest - Elements(f[over[0]].items))
  {
    hide Linked, Open;
    ParentsOfItems(f);
    hide Links;
    var list := f[over[0]].items;
    OpenHas(f, list);
    forall x | x in rest - Elements(list)
      ensures x in f && f[x].parent.Some?
      ensures f[x].parent.value in rest - Elements(list) || f[x].parent.value in over[1..] + Open(f, list)
    {
      var p := f[x].parent.value;
      assert x in f[p].items;
      if p in rest && p in list {
        assert p in Open(f, list);
      } else if p !in rest {
        assert p in over && p != over[0];
      }
    }
  }

  lemma ParentsOfItems(f: Forest)
    requires Links(f)
    ensures forall c, x :: c in f && x in f[c].items ==> x in f && f[x].parent == Some(c)
    ensures forall c :: c in f ==> Distinct(f[c].items)
    ensures forall x :: x in f && f[x].parent.Some? ==> f[x].parent.value in f && x in f[f[x].parent.value].items
  {
    assert forall c :: c in f ==> Linked(f, c);
  }

  // ----- every item once -----

  /** The chain of parents leads out of any set that is closed under it. */
  lemma {:induction false} ClosedUpward(f: Forest, rest: set<Thing>, x: Thing, n: nat)
    requires x in rest && Rooted(f, x, n)
    requires forall y :: y in rest ==> y in f && f[y].parent.Some? && f[y].parent.value in rest
    ensures false
    decreases n
  {
    ClosedUpward(f, rest, f[x].parent.value, n - 1);
  }

  lemma NothingLeft(f: Forest, rest: set<Thing>)
    requires AllRooted(f) && Frontier(f, [], rest)
    ensures rest == {}
  {
    hide Links, Distinct, Queued, Rooted;
    forall x | x in rest ensures false {
      var n: nat :| Rooted(f, x, n);
      ClosedUpward(f, rest, x, n);
    }
  }

  /** The iterator yields exactly the items that are left, each once. */
  lemma {:induction false} OrderIsRest(f: Forest, over: seq<Thing>, rest: set<Thing>)
    requires AllRooted(f) && Frontier(f, over, rest)
    ensures Elements(Order(f, over, rest)) == rest && Distinct(Order(f, over, rest))
    decreases |rest|
  {
    if over == [] {
      NothingLeft(f, rest);
    } else {
      hide AllRooted, Frontier, Distinct, Elements, Open;
      OrderStep(f, over, rest);
      var list := f[over[0]].items;
      NextFrontier(f, over, rest);
      var later := Order(f, over[1..] + Open(f, list), rest - Elements(list));
      OrderIsRest(f, over[1..] + Open(f, list), rest - Elements(list));
      ListOf(f, over, rest);
      ElementsSum(list, later);
      ApartSum(list, later, rest);
    }
  }

  lemma OrderStep(f: Forest, over: seq<Thing>, rest: set<Thing>)
    requires Frontier(f, over, rest) && over != []
    ensures var list := f[over[0]].items;
            Frontier(f, over[1..] + Open(f, list), rest - Elements(list))
            && Order(f, over, rest) == list + Order(f, over[1..] + Open(f, list), rest - Elements(list))
  {
    hide Frontier;
    NextFrontier(f, over, rest);
  }

  lemma ApartSum(a: seq<Thing>, b: seq<Thing>, rest: set<Thing>)
    requires Distinct(a) && Distinct(b) && Elements(b) == rest - Elements(a) && Elements(a) <= rest
    ensures Distinct(a + b) && Elements(a) + Elements(b) == rest
  {
    hide Distinct;
    assert forall x :: x in a ==> x in Elements(a);
    assert forall x :: x in b ==> x in Elements(b);
    DistinctSum(a, b);
  }

  lemma ListOf(f: Forest, over: seq<Thing>, rest: set<Thing>)
    requires Frontier(f, over, rest) && over != []
    ensures over[0] in f && Distinct(f[over[0]].items)
  {
    assert over[0] in over;
    hide Linked;
    ParentsOfItems(f);
  }

  lemma ElementsSum(a: seq<Thing>, b: seq<Thing>)
    ensures Elements(a + b) == Elements(a) + Elements(b)
  {
  }

  lemma {:induction false} ElementsCount(list: seq<Thing>)
    requires Distinct(list)
    ensures |Elements(list)| == |list|
  {
    if list != [] {
      ElementsCount(list[1..]);
      assert Elements(list) == {list[0]} + Elements(list[1..]);
    }
  }

  // ----- the nearer ones first -----

  /** How many containers are around an item. */
  ghost function Depth(f: Forest, x: Thing, n: nat): nat
    requires Rooted(f, x, n)
    decreases n
  {
    if f[x].parent == None then 0 else 1 + Depth(f, f[x].parent.value, n - 1)
  }

  ghost predicate AllWithin(f: Forest, m: nat) {
    forall x :: x in f ==> Rooted(f, x, m)
  }

  type Depths = map<Thing, nat>

  ghost function DepthsOf(f: Forest, m: nat): Depths
    requires AllWithin(f, m)
  {
    map x | x in f :: Depth(f, x, m)
  }

  /** What lies in a container is one deeper than the container. */
  ghost predicate Graded(f: Forest, depths: Depths) {
    forall c, x :: c in f && x in f[c].items ==> c in depths && x in depths && depths[x] == depths[c] + 1
  }

  lemma DepthsAreGraded(f: Forest, m: nat)
    requires Links(f) && AllWithin(f, m)
    ensures Graded(f, DepthsOf(f, m))
  {
    hide Links, Depth;
    forall c, x | c in f && x in f[c].items ensures x in f && Depth(f, x, m) == Depth(f, c, m) + 1 {
      ChildDepth(f, c, x, m);
    }
  }

  lemma ChildDepth(f: Forest, c: Thing, x: Thing, m: nat)
    requires Links(f) && AllWithin(f, m) && c in f && x in f[c].items
    ensures x in f && Depth(f, x, m) == Depth(f, c, m) + 1
  {
    hide Links, Linked;
    ParentsOfItems(f);
    assert Rooted(f, x, m);
    DepthFuel(f, c, m - 1, m);
  }

  lemma {:induction false} DepthFuel(f: Forest, x: Thing, n: nat, m: nat)
    requires Rooted(f, x, n) && Rooted(f, x, m)
    ensures Depth(f, x, n) == Depth(f, x, m)
    decreases n
  {
    if f[x].parent.Some? {
      DepthFuel(f, f[x].parent.value, n - 1, m - 1);
    }
  }

  predicate Between(depths: Depths, list: seq<Thing>, low: nat, high: nat) {
    forall x :: x in list ==> x in depths && low <= depths[x] <= high
  }

  predicate Rising(depths: Depths, list: seq<Thing>) {
    forall i, j :: 0 <= i < j < |list| && list[i] in depths && list[j] in depths ==> depths[list[i]] <= depths[list[j]]
  }

  predicate AtLeast(depths: Depths, list: seq<Thing>, low: nat) {
    forall x :: x in list ==> x in depths && low <= depths[x]
  }

  lemma RisingSum(depths: Depths, a: seq<Thing>, b: seq<Thing>, low: nat, d: nat)
    requires Rising(depths, a) && Rising(depths, b) && Between(depths, a, low, d) && AtLeast(depths, b, d) && low <= d
    ensures Rising(depths, a + b) && AtLeast(depths, a + b, low)
    ensures Between(depths, b, d, d) ==> Between(depths, a + b, low, d)
  {
    var c := a + b;
    forall i, j | 0 <= i < j < |c| && c[i] in depths && c[j] in depths ensures depths[c[i]] <= depths[c[j]] {
      if i < |a| <= j {
        assert a[i] in a && b[j - |a|] in b;
      }
    }
  }

  /** A rising list within two neighbouring depths starts with the lower one that occurs. */
  lemma StartsLowest(depths: Depths, list: seq<Thing>, d: nat)
    requires Rising(depths, list) && Between(depths, list, d, d + 1) && list != []
    ensures list[0] in depths && d <= depths[list[0]] && Between(depths, list, depths[list[0]], depths[list[0]] + 1)
  {
    forall x | x in list ensures depths[list[0]] <= depths[x] {
      var k :| 0 <= k < |list| && list[k] == x;
      assert k == 0 || list[0] in depths;
    }
  }

  lemma Level(depths: Depths, list: seq<Thing>, d: nat)
    requires Between(depths, list, d, d)
    ensures Rising(depths, list)
  {
    assert forall i :: 0 <= i < |list| ==> list[i] in list;
  }

  /** The containers of the list join the queue at its deeper end. */
  lemma NextDepths(f: Forest, over: seq<Thing>, list: seq<Thing>, depths: Depths, d: nat)
    requires
      Rising(depths, over) && over != [] && Between(depths, over, d, d + 1) && Between(depths, list, d + 1, d + 1)
    ensures Rising(depths, over[1..] + Open(f, list)) && Between(depths, over[1..] + Open(f, list), d, d + 1)
  {
    hide Open;
    OpenHas(f, list);
    Level(depths, Open(f, list), d + 1);
    RisingSum(depths, over[1..], Open(f, list), d, d + 1);
  }

  lemma ItemsDepth(f: Forest, over: seq<Thing>, rest: set<Thing>, depths: Depths, d: nat)
    requires Graded(f, depths) && Frontier(f, over, rest) && over != [] && over[0] in depths && depths[over[0]] == d
    ensures over[0] in f && Between(depths, f[over[0]].items, d + 1, d + 1)
  {
    assert over[0] in over;
  }

  /** A queue whose containers lie in at most two neighbouring depths yields the items in rising
      depth. */
  lemma {:induction false} OrderRises(f: Forest, over: seq<Thing>, rest: set<Thing>, depths: Depths, d: nat)
    requires Graded(f, depths) && Frontier(f, over, rest) && Rising(depths, over) && Between(depths, over, d, d + 1)
    requires over != [] ==> over[0] in depths && depths[over[0]] == d
    ensures Rising(depths, Order(f, over, rest)) && AtLeast(depths, Order(f, over, rest), d + 1)
    decreases |rest|
  {
    if over != [] {
      hide Frontier, Rising, Between, AtLeast, Open, Order, Graded;
      OrderStep(f, over, rest);
      NextFrontier(f, over, rest);
      var list := f[over[0]].items;
      var over', rest' := over[1..] + Open(f, list), rest - Elements(list);
      ItemsDepth(f, over, rest, depths, d);
      NextDepths(f, over, list, depths, d);
      var d' := NextStart(depths, over', d);
      OrderRises(f, over', rest', depths, d');
      AfterList(depths, list, Order(f, over', rest'), d, d');
    }
  }

  lemma NextStart(depths: Depths, over: seq<Thing>, d: nat) returns (d': nat)
    requires Rising(depths, over) && Between(depths, over, d, d + 1)
    ensures d <= d' && Between(depths, over, d', d' + 1) && (over != [] ==> over[0] in depths && depths[over[0]] == d')
  {
    if over == [] {
      d' := d;
    } else {
      StartsLowest(depths, over, d);
      d' := depths[over[0]];
    }
  }

  lemma AfterList(depths: Depths, list: seq<Thing>, later: seq<Thing>, d: nat, d': nat)
    requires Between(depths, list, d + 1, d + 1) && Rising(depths, later) && AtLeast(depths, later, d' + 1) && d <= d'
    ensures Rising(depths, list + later) && AtLeast(depths, list + later, d + 1)
  {
    Level(depths, list, d + 1);
    RisingSum(depths, list, later, d + 1, d + 1);
  }

  // ----- where the iterator starts -----

  /** Everything inside a container, at any depth. */
  ghost function Inside(f: Forest, c: Thing, m: nat): set<Thing>
    requires AllWithin(f, m)
  {
    set x | x in f && x != c && Holds(f, c, x, m)
  }

  lemma {:induction false} HoldsFuel(f: Forest, c: Thing, x: Thing, n: nat, m: nat)
    requires Rooted(f, x, n) && Rooted(f, x, m)
    ensures Holds(f, c, x, n) <==> Holds(f, c, x, m)
    decreases n
  {
    if f[x].parent.Some? {
      HoldsFuel(f, c, f[x].parent.value, n - 1, m - 1);
    }
  }

  /** An item is inside a container when its parent is, or is the container. */
  lemma InsideByParent(f: Forest, c: Thing, m: nat, x: Thing)
    requires Links(f) && AllWithin(f, m) && x in f && c in f
    ensures x in Inside(f, c, m) <==>
      f[x].parent.Some? && (f[x].parent.value == c || f[x].parent.value in Inside(f, c, m))
  {
    assert Rooted(f, x, m);
    if f[x].parent.Some? {
      var p := f[x].parent.value;
      assert p in f by {
        assert Linked(f, x);
      }
      assert Rooted(f, p, m);
      HoldsFuel(f, c, p, m - 1, m);
      if x == c {
        HoldsSelfNever(f, c, p, m);
      }
    }
  }

  /** No container is inside what it holds. */
  lemma HoldsSelfNever(f: Forest, c: Thing, p: Thing, m: nat)
    requires Rooted(f, c, m) && Rooted(f, p, m) && f[c].parent == Some(p)
    ensures !Holds(f, c, p, m)
  {
    if Holds(f, c, p, m) {
      LinkUnderItselfIsCyclic(f, f, c, p, m, m);
    }
  }

  lemma StartFrontier(f: Forest, c: Thing, m: nat)
    requires Links(f) && AllWithin(f, m) && c in f
    ensures Frontier(f, Open(f, [c]), Inside(f, c, m))
  {
    hide Linked, Rooted, Holds, Inside, Open;
    OpenHas(f, [c]);
    ParentsOfItems(f);
    var rest := Inside(f, c, m);
    InsideIsListed(f, c, m);
    hide Links;
    forall x | x in f
      ensures x in rest <==> f[x].parent.Some? && (f[x].parent.value == c || f[x].parent.value in rest)
    {
      InsideByParent(f, c, m, x);
    }
  }

  lemma InsideIsListed(f: Forest, c: Thing, m: nat)
    requires AllWithin(f, m)
    ensures Inside(f, c, m) <= f.Keys && c !in Inside(f, c, m)
  {
  }

  // ----- the code -----

  /** `base` is the queue as it was when the first list in it was begun; what that list has shown
      since has been pushed behind it. */
  ghost predicate Standing(f: Forest, over: seq<Thing>, cur: nat, base: seq<Thing>, rest: set<Thing>) {
    && Frontier(f, base, rest) && (over == [] <==> base == [])
    && (over != [] ==> base[0] in f && cur < |f[base[0]].items| && over == base + Open(f, f[base[0]].items[..cur]))
  }

  ghost function Coming(f: Forest, over: seq<Thing>, cur: nat, base: seq<Thing>, rest: set<Thing>): seq<Thing>
    requires Standing(f, over, cur, base, rest)
  {
    if over == [] then []
    else
      OrderStep(f, base, rest);
      Order(f, base, rest)[cur..]
  }

  lemma Begin(f: Forest, c: Thing, m: nat, over: seq<Thing>)
    requires Links(f) && AllWithin(f, m) && c in f && over == if f[c].items != [] then [c] else []
    ensures Standing(f, over, 0, over, Inside(f, c, m))
    ensures
      && Elements(Coming(f, over, 0, over, Inside(f, c, m))) == Inside(f, c, m)
      && Distinct(Coming(f, over, 0, over, Inside(f, c, m)))
  {
    OneOpen(f, c);
    NothingOpen(f, f[c].items);
    hide Open, Links, Inside, Order, Distinct, Elements, Rooted;
    StartFrontier(f, c, m);
    RootedAll(f, m);
    OrderIsRest(f, over, Inside(f, c, m));
    NoOrder(f, over, Inside(f, c, m));
    assert over != [] ==> Order(f, over, Inside(f, c, m))[0..] == Order(f, over, Inside(f, c, m));
  }

  lemma NoOrder(f: Forest, over: seq<Thing>, rest: set<Thing>)
    requires Frontier(f, over, rest)
    ensures over == [] ==> Order(f, over, rest) == []
  {
  }

  lemma NothingOpen(f: Forest, list: seq<Thing>)
    ensures Open(f, list[..0]) == []
  {
  }

  /** The next position inside the same list, ... */
  lemma Forward(f: Forest, over: seq<Thing>, cur: nat, base: seq<Thing>, rest: set<Thing>)
    requires Standing(f, over, cur, base, rest) && over != [] && cur + 1 < |f[base[0]].items|
    ensures var i := f[base[0]].items[cur];
            var over' := over + if i in f && f[i].items != [] then [i] else [];
            Standing(f, over', cur + 1, base, rest)
            && Coming(f, over, cur, base, rest) != []
               && Coming(f, over', cur + 1, base, rest) == Coming(f, over, cur, base, rest)[1..]
  {
    hide Open, Order, Frontier, Links;
    OpenUpTo(f, f[base[0]].items, cur);
    OrderStep(f, base, rest);
  }

  /** ... or the beginning of the next list. */
  lemma Turn(f: Forest, over: seq<Thing>, cur: nat, base: seq<Thing>, rest: set<Thing>)
    requires Standing(f, over, cur, base, rest) && over != [] && cur + 1 == |f[base[0]].items|
    ensures var list := f[base[0]].items;
            var over' := (over + if list[cur] in f && f[list[cur]].items != [] then [list[cur]] else [])[1..];
            Standing(f, over', 0, over', rest - Elements(list))
            && Coming(f, over, cur, base, rest) != []
               && Coming(f, over', 0, over', rest - Elements(list)) == Coming(f, over, cur, base, rest)[1..]
  {
    hide Open, Order, Frontier, Links, Elements;
    var list := f[base[0]].items;
    var pushed := if list[cur] in f && f[list[cur]].items != [] then [list[cur]] else [];
    OpenUpTo(f, list, cur);
    assert list[..cur + 1] == list;
    OrderStep(f, base, rest);
    var over', rest' := base[1..] + Open(f, list), rest - Elements(list);
    assert over' == (over + pushed)[1..];
    QueuedFirst(f, over', rest');
    hide Standing;
    assert list[cur..] == [list[cur]];
    assert (list + Order(f, over', rest'))[cur..] == [list[cur]] + Order(f, over', rest');
    assert Order(f, over', rest')[0..] == Order(f, over', rest');
  }

  lemma QueuedFirst(f: Forest, over: seq<Thing>, rest: set<Thing>)
    requires Frontier(f, over, rest)
    ensures over == [] ==> Order(f, over, rest) == []
    ensures Standing(f, over, 0, over, rest)
  {
    if over != [] {
      assert over[0] in over;
      NothingOpen(f, f[over[0]].items);
    }
  }

  class ContainerIterator {
    var over: seq<Thing>
    var cur: nat
    ghost var base: seq<Thing>
    ghost var rest: set<Thing>

    /** `Container::iterator`. */
    constructor (container: Thing, ghost S: set<Thing>, ghost m: nat)
      requires container in S && Links(Snapshot(S)) && AllWithin(Snapshot(S), m)
      ensures
        && Valid(Snapshot(S)) && Elements(ToCome(Snapshot(S))) == Inside(Snapshot(S), container, m)
        && Distinct(ToCome(Snapshot(S)))
    {
      hide Links, AllWithin, Inside, Standing, Coming, Elements, Distinct;
      Begin(Snapshot(S), container, m, if container.itemlist != [] then [container] else []);
      over := if container.itemlist != [] then [container] else [];
      cur := 0;
      base, rest := if container.itemlist != [] then [container] else [], Inside(Snapshot(S), container, m);
    }

    ghost predicate Valid(f: Forest)
      reads this
    {
      Standing(f, over, cur, base, rest)
    }

    /** What the iterator has still to yield. */
    ghost function ToCome(f: Forest): seq<Thing>
      requires Valid(f)
      reads this
    {
      Coming(f, over, cur, base, rest)
    }

    predicate HasNext()
      reads this
    {
      over != []
    }

    /** `operator*`. */
    method Current(ghost S: set<Thing>) returns (item: Thing)
      requires Valid(Snapshot(S)) && HasNext()
      ensures ToCome(Snapshot(S)) != [] && item == ToCome(Snapshot(S))[0]
    {
      hide Frontier, Order, Open;
      OrderStep(Snapshot(S), base, rest);
      item := over[0].itemlist[cur];
    }

    method Advance(ghost S: set<Thing>)
      requires Valid(Snapshot(S)) && HasNext()
      modifies this
      ensures
        Valid(Snapshot(S)) && ToCome(Snapshot(S)) == old(ToCome(Snapshot(S)))[1..] && old(ToCome(Snapshot(S))) != []
    {
      hide Frontier, Order, Coming, Open, Links;
      ghost var f := Snapshot(S);
      ghost var list := f[base[0]].items;
      PlainIsEmpty(f, base, rest, cur);
      var front := over[0].itemlist;
      assert front == list;
      var i := front[cur];
      assert f[i].items == i.itemlist && f[i].container == i.container;
      hide Snapshot;
      ghost var were := over;
      if i.container {
        if i.itemlist != [] {
          over := over + [i];
        }
      }
      ghost var pushed := if i in f && f[i].items != [] then [i] else [];
      assert over == were + pushed;
      if cur + 1 == |front| {
        Turn(f, were, cur, base, rest);
        over := over[1..];
        cur := 0;
        base, rest := over, rest - Elements(list);
      } else {
        Forward(f, were, cur, base, rest);
        cur := cur + 1;
      }
    }
  }

  lemma PlainIsEmpty(f: Forest, over: seq<Thing>, rest: set<Thing>, k: nat)
    requires Frontier(f, over, rest) && over != [] && over[0] in f && k < |f[over[0]].items|
    ensures var i := f[over[0]].items[k]; i in f && (f[i].container || f[i].items == [])
  {
    assert Linked(f, over[0]);
    var i := f[over[0]].items[k];
    assert i in f[over[0]].items;
    assert Linked(f, i);
  }

  lemma OneOpen(f: Forest, c: Thing)
    requires c in f
    ensures Open(f, [c]) == if f[c].items != [] then [c] else []
  {
    assert [c][1..] == [];
  }

  lemma {:induction false} OpenUpTo(f: Forest, list: seq<Thing>, k: nat)
    requires k < |list|
    ensures
      Open(f, list[..k + 1]) == Open(f, list[..k]) + if list[k] in f && f[list[k]].items != [] then [list[k]] else []
  {
    if k == 0 {
      assert list[..1] == [list[0]] && [list[0]][1..] == [];
    } else {
      assert list[..k + 1][1..] == list[1..][..k] && list[..k][1..] == list[1..][..k - 1];
      OpenUpTo(f, list[1..], k - 1);
    }
  }

  lemma RootedAll(f: Forest, m: nat)
    requires AllWithin(f, m)
    ensures AllRooted(f)
  {
  }

  /** The iterator of a container yields what is inside it in rising depth. */
  lemma NearerFirst(f: Forest, c: Thing, m: nat)
    requires Links(f) && AllWithin(f, m) && c in f
    ensures
      Frontier(f, Open(f, [c]), Inside(f, c, m)) && Rising(DepthsOf(f, m), Order(f, Open(f, [c]), Inside(f, c, m)))
  {
    OneOpen(f, c);
    hide Open, Links, Inside, Order, Frontier, Graded;
    StartFrontier(f, c, m);
    DepthsAreGraded(f, m);
    OrderRises(f, Open(f, [c]), Inside(f, c, m), DepthsOf(f, m), DepthsOf(f, m)[c]);
  }

  /** `getItemHoldingCount`. */
  method GetItemHoldingCount(container: Thing, ghost S: set<Thing>, ghost m: nat) returns (counter: nat)
    requires container in S && Links(Snapshot(S)) && AllWithin(Snapshot(S), m)
    ensures counter == |Inside(Snapshot(S), container, m)|
  {
    hide Links, AllWithin, Inside, Standing, Coming, Elements, Distinct;
    ghost var f := Snapshot(S);
    var it := new ContainerIterator(container, S, m);
    ghost var all := it.ToCome(f);
    ElementsCount(all);
    counter := 0;
    while it.HasNext()
      invariant it.Valid(f) && counter + |it.ToCome(f)| == |all|
      decreases |it.ToCome(f)|
    {
      it.Advance(S);
      counter := counter + 1;
    }
    NothingComes(f, it.over, it.cur, it.base, it.rest);
  }

  lemma NothingComes(f: Forest, over: seq<Thing>, cur: nat, base: seq<Thing>, rest: set<Thing>)
    requires Standing(f, over, cur, base, rest) && over == []
    ensures Coming(f, over, cur, base, rest) == []
  {
  }

  /** `isHoldingItem`. */
  method IsHoldingItem(container: Thing, item: Thing, ghost S: set<Thing>, ghost m: nat) returns (found: bool)
    requires container in S && Links(Snapshot(S)) && AllWithin(Snapshot(S), m)
    ensures found <==> item in Inside(Snapshot(S), container, m)
  {
    hide Links, AllWithin, Inside, Standing, Coming, Distinct;
    ghost var f := Snapshot(S);
    var it := new ContainerIterator(container, S, m);
    ghost var all := it.ToCome(f);
    assert item in all <==> item in Elements(all);
    while it.HasNext()
      invariant it.Valid(f) && (item in all <==> item in it.ToCome(f))
      decreases |it.ToCome(f)|
    {
      var current := it.Current(S);
      if current == item {
        return true;
      }
      it.Advance(S);
    }
    NothingComes(f, it.over, it.cur, it.base, it.rest);
    found := false;
  }
}
