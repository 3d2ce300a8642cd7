/**
 * `generateDamageList`: an amount of damage is spread over hits that go down from `start` to 1.
 */
module DamageList {
  import opened Basics

  function Abs(i: int): nat { if i < 0 then 0 - i else i }

  function Magnitude(r: real): real { if r < 0.0 then 0.0 - r else r }

  function Max(a: int, b: int): int { if a < b then b else a }

  /** What the hits of at least `low` add up to. */
  function SumFrom(list: seq<int>, low: int): int {
    if list == [] then 0 else SumFrom(list[..|list| - 1], low) + if list[|list| - 1] >= low then list[|list| - 1] else 0
  }

  function Occurrences(list: seq<int>, v: int): nat {
    if list == [] then 0 else Occurrences(list[..|list| - 1], v) + if list[|list| - 1] == v then 1 else 0
  }

  predicate Falling(list: seq<int>) {
    forall i, j :: 0 <= i < j < |list| ==> list[i] >= list[j]
  }

  function Product(a: nat, b: nat): nat { a * b }

  function Quotient(a: nat, b: nat): nat
    requires b > 0
  {
    a / b
  }

  /** What the hits should have added up to after those of size `v`. */
  function Target(amount: nat, start: int, v: int): nat
    requires 1 <= v <= start
  {
    Quotient(Product(start + 1 - v, amount), start)
  }

  /** After the hits of size `v` the sum is at most half a hit short of the target, and at most
      half a hit over it unless there was only one such hit. */
  predicate OnSchedule(list: seq<int>, amount: nat, start: int, v: int)
    requires 1 <= v <= start
  {
    && 2 * (Target(amount, start, v) - SumFrom(list, v)) <= v
    && (Occurrences(list, v) > 1 ==> 2 * (SumFrom(list, v) - Target(amount, start, v)) <= v)
  }

  function Off(med: nat, sum: int): real
    requires med != 0
  {
    Magnitude(1.0 - sum as real / med as real)
  }

  /** One more hit of size `i` would bring the sum nearer to `med`, as the code compares the
      relative distances; dividing by zero gives no nearer. */
  predicate Nearer(med: nat, sum: int, i: int) {
    med != 0 && Off(med, sum + i) < Off(med, sum)
  }

  lemma Sign(x: real, m: real)
    requires m > 0.0
    ensures x < 0.0 <==> x * m < 0.0
  {
    if x < 0.0 {
      assert (0.0 - x) * m > 0.0;
    }
  }

  lemma Order(x: real, y: real, m: real)
    requires m > 0.0
    ensures x < y <==> x * m < y * m
  {
    Sign(x - y, m);
    assert (x - y) * m == x * m - y * m;
  }

  lemma OrderOf(x: real, y: real, m: real, a: nat, b: nat)
    requires m > 0.0 && x * m == a as real && y * m == b as real
    ensures x < y <==> a < b
  {
    Order(x, y, m);
    assert x * m < y * m <==> a as real < b as real;
  }

  /** The relative distance, times `med`, is the distance. */
  lemma Relative(med: nat, s: int)
    requires med > 0
    ensures Off(med, s) * med as real == Abs(med - s) as real
  {
    var m, q := med as real, s as real / med as real;
    assert q * m == s as real;
    Distance(q, m, s as real);
    assert (med - s) as real == m - s as real;
  }

  lemma Distance(q: real, m: real, s: real)
    requires q * m == s && m > 0.0
    ensures Magnitude(1.0 - q) * m == Magnitude(m - s)
  {
    assert (1.0 - q) * m == m - s;
    Sign(1.0 - q, m);
  }

  lemma NearerMeans(med: nat, sum: int, i: int)
    requires sum > 0 && i > 0
    ensures Nearer(med, sum, i) <==> 2 * (med - sum) > i
  {
    hide Off, Abs;
    if med > 0 {
      Relative(med, sum);
      Relative(med, sum + i);
      OrderOf(Off(med, sum + i), Off(med, sum), med as real, Abs(med - (sum + i)), Abs(med - sum));
      AbsNearer(med, sum, i);
    }
  }

  lemma AbsNearer(med: nat, sum: int, i: int)
    requires i > 0
    ensures Abs(med - (sum + i)) < Abs(med - sum) <==> 2 * (med - sum) > i
  {
  }

  lemma SumAppended(list: seq<int>, x: int, low: int)
    ensures SumFrom(list + [x], low) == SumFrom(list, low) + if x >= low then x else 0
    ensures forall v :: Occurrences(list + [x], v) == Occurrences(list, v) + if x == v then 1 else 0
  {
    assert (list + [x])[..|list|] == list;
  }

  /** `k` hits of the same size. */
  function Repeated(x: int, k: nat): (r: seq<int>)
    ensures |r| == k && forall j :: 0 <= j < k ==> r[j] == x
  {
    seq(k, _ => x)
  }

  lemma {:induction false} RoundSums(list: seq<int>, x: int, k: nat, low: int)
    ensures SumFrom(list + Repeated(x, k), low) == SumFrom(list, low) + if x >= low then k * x else 0
  {
    hide SumFrom;
    if k == 0 {
      assert list + Repeated(x, 0) == list;
    } else {
      RoundSums(list, x, k - 1, low);
      SumAppended(list + Repeated(x, k - 1), x, low);
      assert list + Repeated(x, k) == (list + Repeated(x, k - 1)) + [x];
      assert (k - 1) * x + x == k * x;
    }
  }

  lemma {:induction false} RoundCounts(list: seq<int>, x: int, k: nat, v: int)
    ensures Occurrences(list + Repeated(x, k), v) == Occurrences(list, v) + if x == v then k else 0
  {
    hide Occurrences;
    if k == 0 {
      assert list + Repeated(x, 0) == list;
    } else {
      RoundCounts(list, x, k - 1, v);
      SumAppended(list + Repeated(x, k - 1), x, v);
      assert list + Repeated(x, k) == (list + Repeated(x, k - 1)) + [x];
    }
  }

  lemma {:induction false} NotThere(list: seq<int>, v: int)
    requires v !in list
    ensures Occurrences(list, v) == 0
  {
    if list != [] {
      NotThere(list[..|list| - 1], v);
    }
  }

  lemma TargetAtOne(amount: nat, start: int)
    requires start >= 1
    ensures Target(amount, start, 1) == amount
  {
    MulDiv(start, amount);
  }

  lemma MulDiv(a: nat, b: nat)
    requires a > 0
    ensures a * b / a == b
  {
    var q := a * b / a;
    assert a * b == a * q + a * b % a;
    MulStrict(b, q, a);
    MulStrict(q, b, a);
  }

  /** The hits of size `i`: at least one, and as many as bring the sum nearer to the target. */
  method Round(list: seq<int>, before: int, med: nat, i: int) returns (longer: seq<int>, sum: int, ghost k: nat)
    requires i > 0 && before >= 0
    ensures k >= 1 && longer == list + Repeated(i, k) && sum == before + k * i
    ensures 2 * (med - sum) <= i && (k > 1 ==> 2 * (sum - med) <= i)
  {
    longer, sum, k := list, before, 0;
    var nearer := true;
    while nearer
      invariant longer == list + Repeated(i, k) && sum == before + k * i
      invariant (k == 0 ==> nearer) && (k > 0 ==> (nearer <==> 2 * (med - sum) > i)) && (k > 1 ==> 2 * (sum - med) <= i)
      decreases nearer, if k == 0 then 1 else 0, med - sum
    {
      NearerMeans(med, sum + i, i);
      assert Repeated(i, k + 1) == Repeated(i, k) + [i];
      sum := sum + i;
      longer := longer + [i];
      k := k + 1;
      nearer := Nearer(med, sum, i);
    }
  }

  /** The hits are of the sizes from `low` + 1 to `high`, each of them used. */
  ghost predicate Sizes(list: seq<int>, low: int, high: int) {
    forall v :: v in list <==> low < v <= high
  }

  /** All hits above `i` have been dealt out. */
  ghost predicate DoneAbove(list: seq<int>, amount: nat, start: int, i: int) {
    && Falling(list) && Sizes(list, i, start)
    && forall v :: 1 <= v && i < v <= start ==> OnSchedule(list, amount, start, v)
  }

  lemma {:induction false} SumOfAll(list: seq<int>, low: int)
    requires low >= 1 && forall j :: 0 <= j < |list| ==> list[j] >= low
    ensures SumFrom(list, low) == SumFrom(list, 1) >= 0
  {
    if list != [] {
      SumOfAll(list[..|list| - 1], low);
    }
  }

  lemma RoundShape(list: seq<int>, start: int, i: int, k: nat)
    requires Falling(list) && Sizes(list, i, start) && 1 <= i <= start && k >= 1
    ensures Falling(list + Repeated(i, k)) && Sizes(list + Repeated(i, k), i - 1, start)
    ensures forall j :: 0 <= j < |list| ==> list[j] >= i + 1
    ensures forall j :: 0 <= j < |list + Repeated(i, k)| ==> (list + Repeated(i, k))[j] >= i
    ensures i !in list
  {
    var longer := list + Repeated(i, k);
    assert longer[|list|] == i;
    forall j | 0 <= j < |list| ensures list[j] >= i + 1 {
      assert list[j] in list;
    }
    forall v ensures v in longer <==> i - 1 < v <= start {
      if v in list {
        var j :| 0 <= j < |list| && list[j] == v;
        assert longer[j] == v;
      }
    }
  }

  /** One round deals out the hits of one size. */
  lemma AfterRound(list: seq<int>, amount: nat, start: int, i: int, k: nat)
    requires DoneAbove(list, amount, start, i) && 1 <= i <= start && k >= 1
    requires var sum, med := SumFrom(list, 1) + k * i, Target(amount, start, i);
             2 * (med - sum) <= i && (k > 1 ==> 2 * (sum - med) <= i)
    ensures DoneAbove(list + Repeated(i, k), amount, start, i - 1)
    ensures SumFrom(list + Repeated(i, k), 1) == SumFrom(list, 1) + k * i
    ensures i == 1 ==> SumFrom(list + Repeated(i, k), 1) == Max(amount, SumFrom(list + Repeated(i, k), 2) + 1)
  {
    hide SumFrom, Occurrences, Target, Repeated, Falling, Sizes;
    var longer := list + Repeated(i, k);
    RoundShape(list, start, i, k);
    RoundSums(list, i, k, 1);
    RoundSums(list, i, k, 2);
    SumOfAll(longer, i);
    SumOfAll(list, i + 1);
    NotThere(list, i);
    forall v | 1 <= v && i - 1 < v <= start ensures OnSchedule(longer, amount, start, v) {
      RoundSums(list, i, k, v);
      RoundCounts(list, i, k, v);
      if v > i {
        assert OnSchedule(list, amount, start, v);
      }
    }
    if i == 1 {
      TargetAtOne(amount, start);
    }
  }

  method GenerateDamageList(damage: int, start: int) returns (list: seq<int>)
    ensures Falling(list) && Sizes(list, 0, start)
    ensures start >= 1 ==> SumFrom(list, 1) == Max(Abs(damage), SumFrom(list, 2) + 1)
    ensures forall v :: 1 <= v <= start ==> OnSchedule(list, Abs(damage), start, v)
  {
    hide SumFrom, Occurrences, Target, Repeated, Falling, OnSchedule, Sizes;
    var amount := Abs(damage);
    list := [];
    var sum := 0;
    var i := start;
    NoHits(amount, start);
    while i > 0
      invariant if start > 0 then 0 <= i else i == start
      invariant i <= start && DoneAbove(list, amount, start, i) && sum == SumFrom(list, 1) && sum >= 0
      invariant i == 0 && start >= 1 ==> SumFrom(list, 1) == Max(amount, SumFrom(list, 2) + 1)
    {
      var med := Target(amount, start, i);
      ghost var before := list;
      ghost var k;
      list, sum, k := Round(list, sum, med, i);
      AfterRound(before, amount, start, i, k);
      i := i - 1;
    }
    NoSizes(list, start);
  }

  lemma NoSizes(list: seq<int>, start: int)
    ensures start <= 0 && Sizes(list, start, start) ==> Sizes(list, 0, start)
  {
  }

  lemma NoHits(amount: nat, start: int)
    ensures DoneAbove([], amount, start, start) && SumFrom([], 1) == 0
  {
  }
}
