/**
 * What a valid forest means for a reader of the caches: below every container there is a
 * finite tree, and the cached weight is the weight of that whole tree, modulo 2^32.
 */
module ContainerTotals {
  import opened Basics
  import opened ContainerWeights

  /** Going down from `c`, lists end within `n` levels. */
  ghost predicate Deep(f: Forest, c: Thing, n: nat) {
    c in f && forall x :: x in f[c].items ==> n > 0 && Deep(f, x, n - 1)
  }

  /** A stack weighs as much as its pieces together, every other item as much as one. */
  lemma PiecesWeigh(x: Thing)
    ensures x.stackable && x.count >= 1 ==> x.OwnWeight() == x.count * x.baseWeight
    ensures !x.stackable || x.count == 0 ==> x.OwnWeight() == x.baseWeight
  {
  }

  /** The weight of `c` and everything inside it, without wrapping. */
  ghost function TreeWeight(f: Forest, c: Thing, n: nat): nat
    requires Deep(f, c, n)
    decreases n, 1, 0
  {
    f[c].own + ListWeight(f, f[c].items, n)
  }

  ghost function ListWeight(f: Forest, list: seq<Thing>, n: nat): nat
    requires forall x :: x in list ==> n > 0 && Deep(f, x, n - 1)
    decreases n, 0, |list|
  {
    if list == [] then 0
    else
      assert list[0] in list && forall x :: x in list[1..] ==> x in list;
      TreeWeight(f, list[0], n - 1) + ListWeight(f, list[1..], n)
  }

  /** `c` is exactly `k` containers away from the outside. */
  ghost predicate Level(f: Forest, c: Thing, k: nat) {
    c in f && if k == 0 then f[c].parent == None else f[c].parent.Some? && Level(f, f[c].parent.value, k - 1)
  }

  lemma {:induction false} LevelOf(f: Forest, c: Thing, n: nat) returns (k: nat)
    requires Rooted(f, c, n)
    ensures k <= n && Level(f, c, k)
    decreases n
  {
    if f[c].parent == None {
      k := 0;
    } else {
      k := LevelOf(f, f[c].parent.value, n - 1);
      k := k + 1;
    }
  }

  lemma {:induction false} LevelBounded(f: Forest, c: Thing, k: nat, n: nat)
    requires Level(f, c, k) && Rooted(f, c, n)
    ensures k <= n
    decreases n
  {
    if k > 0 {
      LevelBounded(f, f[c].parent.value, k - 1, n - 1);
    }
  }

  /** One bound for all the parent chains of a finite forest. */
  lemma {:induction false} ChainBound(f: Forest, S: set<Thing>) returns (m: nat)
    requires AllRooted(f) && S <= f.Keys
    ensures forall c :: c in S ==> Rooted(f, c, m)
    decreases |S|
  {
    if S == {} {
      m := 0;
    } else {
      var x :| x in S;
      var a := ChainBound(f, S - {x});
      var b: nat :| Rooted(f, x, b);
      m := a + b;
      forall c | c in S ensures Rooted(f, c, m) {
        RootedMore(f, c, if c == x then b else a, m);
      }
    }
  }

  lemma {:induction false} DeepBelow(f: Forest, c: Thing, k: nat, m: nat)
    requires Links(f) && c in f && Level(f, c, k) && k <= m && forall x :: x in f ==> Rooted(f, x, m)
    ensures Deep(f, c, m - k)
    decreases m - k
  {
    forall x | x in f[c].items ensures m - k > 0 && Deep(f, x, m - k - 1) {
      ChildLevel(f, c, x, k);
      LevelBounded(f, x, k + 1, m);
      DeepBelow(f, x, k + 1, m);
    }
  }

  lemma ChildLevel(f: Forest, c: Thing, x: Thing, k: nat)
    requires Links(f) && c in f && Level(f, c, k) && x in f[c].items
    ensures x in f && Level(f, x, k + 1)
  {
    assert Linked(f, c);
  }

  /** No item of a valid forest holds an endless descent. */
  lemma FiniteBelow(f: Forest, c: Thing) returns (n: nat)
    requires Links(f) && AllRooted(f) && c in f
    ensures Deep(f, c, n)
  {
    var m := ChainBound(f, f.Keys);
    var k := LevelOf(f, c, m);
    DeepBelow(f, c, k, m);
    n := m - k;
  }

  /** The weight an item reports is that of its whole tree, modulo 2^32, ... */
  lemma {:induction false} WeightIsTreeWeight(f: Forest, c: Thing, n: nat)
    requires Links(f) && CoherentBut(f, NOTHING_DUE, NOTHING_DUE) && Deep(f, c, n)
    ensures Congruent(WeightOf(f[c]), TreeWeight(f, c, n))
    ensures f[c].container ==> Congruent(f[c].total, ListWeight(f, f[c].items, n))
    decreases n, 1, 0
  {
    ItemsOfCell(f, c);
    hide Congruent, CoherentBut, Links, WeightOf;
    SumIsListWeight(f, f[c].items, n);
    if f[c].container {
      CongruentTrans(f[c].total, Sum(f, f[c].items), ListWeight(f, f[c].items, n));
      Wrapped(f[c], ListWeight(f, f[c].items, n));
    } else {
      WrappedPlain(f[c]);
    }
  }

  lemma {:induction false} SumIsListWeight(f: Forest, list: seq<Thing>, n: nat)
    requires Links(f) && CoherentBut(f, NOTHING_DUE, NOTHING_DUE)
    requires forall x :: x in list ==> n > 0 && Deep(f, x, n - 1)
    ensures Congruent(Sum(f, list), ListWeight(f, list, n))
    decreases n, 0, |list|
  {
    hide Congruent, CoherentBut, Links, WeightOf;
    if list == [] {
      CongruentRefl(0);
    } else {
      assert list[0] in list && forall x :: x in list[1..] ==> x in list;
      WeightIsTreeWeight(f, list[0], n - 1);
      SumIsListWeight(f, list[1..], n);
      CongruentAdd(WeightOf(f[list[0]]), TreeWeight(f, list[0], n - 1), Sum(f, list[1..]), ListWeight(f, list[1..], n));
    }
  }

  lemma ItemsOfCell(f: Forest, c: Thing)
    requires Links(f) && CoherentBut(f, NOTHING_DUE, NOTHING_DUE) && c in f
    ensures f[c].container ==> Congruent(f[c].total, Sum(f, f[c].items))
    ensures !f[c].container ==> f[c].items == []
  {
    assert Linked(f, c);
    hide Congruent;
    assert DueAt(NOTHING_DUE, c) == 0;
  }

  lemma Wrapped(c: Cell, inside: nat)
    requires c.container && Congruent(c.total, inside)
    ensures Congruent(WeightOf(c), c.own + inside)
  {
    CongruentWrap(c.own + c.total);
    CongruentRefl(c.own);
    CongruentAdd(c.own, c.own, c.total, inside);
    CongruentTrans(WeightOf(c), c.own + c.total, c.own + inside);
  }

  lemma WrappedPlain(c: Cell)
    requires !c.container
    ensures Congruent(WeightOf(c), c.own)
  {
    CongruentWrap(c.own);
  }
}
