/**
 * Paying with coins: `removeMoney` spends the stacks of least worth first and gives change,
 * `addMoney` pays out greedily from the largest coin down.
 */
module Money {
  import opened Basics
  import opened Coinage

  const STACK_LIMIT := 100

  datatype Coins = Coins(kind: nat, count: nat)

  type Worths = nat -> nat

  function Price(worths: Worths, c: Coins): nat {
    worths(c.kind) * c.count
  }

  function Worth(worths: Worths, v: seq<Coins>): nat {
    if v == [] then 0 else Price(worths, v[0]) + Worth(worths, v[1..])
  }

  lemma {:induction false} WorthSplit(worths: Worths, a: seq<Coins>, b: seq<Coins>)
    ensures Worth(worths, a + b) == Worth(worths, a) + Worth(worths, b)
  {
    if a == [] {
      assert a + b == b;
    } else {
      assert (a + b)[1..] == a[1..] + b;
      WorthSplit(worths, a[1..], b);
    }
  }

  lemma WorthAt(worths: Worths, v: seq<Coins>, k: nat)
    requires k < |v|
    ensures Worth(worths, v) == Worth(worths, v[..k]) + Price(worths, v[k]) + Worth(worths, v[k + 1..])
  {
    hide Worth, Price;
    assert v == v[..k] + ([v[k]] + v[k + 1..]);
    WorthSplit(worths, v[..k], [v[k]] + v[k + 1..]);
    WorthPushed(worths, v[k], v[k + 1..]);
  }

  lemma WorthPushed(worths: Worths, c: Coins, v: seq<Coins>)
    ensures Worth(worths, [c] + v) == Price(worths, c) + Worth(worths, v)
  {
    assert ([c] + v)[1..] == v;
  }

  lemma WorthAppended(worths: Worths, v: seq<Coins>, c: Coins)
    ensures Worth(worths, v + [c]) == Worth(worths, v) + Price(worths, c)
  {
    WorthSplit(worths, v, [c]);
    assert [c][1..] == [];
  }

  lemma WorthUpTo(worths: Worths, v: seq<Coins>, i: nat)
    requires i < |v|
    ensures Worth(worths, v[..i + 1]) == Worth(worths, v[..i]) + Price(worths, v[i])
  {
    assert v[..i + 1] == v[..i] + [v[i]];
    WorthAppended(worths, v[..i], v[i]);
  }

  lemma WorthUpToEnd(worths: Worths, v: seq<Coins>)
    ensures Worth(worths, v[..|v|]) == Worth(worths, v)
  {
    assert v[..|v|] == v;
  }

  lemma WorthChanged(worths: Worths, v: seq<Coins>, k: nat, n: nat)
    requires k < |v|
    ensures Worth(worths, v[k := v[k].(count := n)]) + Price(worths, v[k])
         == Worth(worths, v) + Price(worths, Coins(v[k].kind, n))
  {
    hide Worth, Price;
    var w := v[k := v[k].(count := n)];
    WorthAt(worths, v, k);
    WorthAt(worths, w, k);
    assert w[..k] == v[..k] && w[k + 1..] == v[k + 1..];
  }

  lemma WorthRemoved(worths: Worths, v: seq<Coins>, k: nat)
    requires k < |v|
    ensures Worth(worths, v[..k] + v[k + 1..]) + Price(worths, v[k]) == Worth(worths, v)
  {
    hide Worth, Price;
    WorthAt(worths, v, k);
    WorthSplit(worths, v[..k], v[k + 1..]);
  }

  /** A table in which the pieces of one kind alone count, at one each. */
  function Only(kind: nat): Worths {
    k => if k == kind then 1 else 0
  }

  lemma OnlyPrice(kind: nat, c: Coins)
    ensures Price(Only(kind), c) == if c.kind == kind then c.count else 0
  {
  }

  lemma PushedOnly(c: Coins, v: seq<Coins>)
    ensures forall k: nat :: Worth(Only(k), [c] + v) == (if k == c.kind then c.count else 0) + Worth(Only(k), v)
  {
    forall k: nat ensures Worth(Only(k), [c] + v) == (if k == c.kind then c.count else 0) + Worth(Only(k), v) {
      WorthPushed(Only(k), c, v);
      OnlyPrice(k, c);
    }
  }

  lemma ChangedOnly(v: seq<Coins>, i: nat, n: nat)
    requires i < |v|
    ensures forall k: nat ::
      Worth(Only(k), v[i := v[i].(count := n)]) + (if k == v[i].kind then v[i].count else 0)
        == Worth(Only(k), v) + if k == v[i].kind then n else 0
  {
    forall k: nat
      ensures Worth(Only(k), v[i := v[i].(count := n)]) + (if k == v[i].kind then v[i].count else 0)
           == Worth(Only(k), v) + if k == v[i].kind then n else 0
    {
      WorthChanged(Only(k), v, i, n);
      OnlyPrice(k, v[i]);
      OnlyPrice(k, Coins(v[i].kind, n));
    }
  }

  lemma RemovedOnly(v: seq<Coins>, i: nat)
    requires i < |v|
    ensures forall k: nat ::
      Worth(Only(k), v[..i] + v[i + 1..]) + (if k == v[i].kind then v[i].count else 0) == Worth(Only(k), v)
  {
    forall k: nat
      ensures Worth(Only(k), v[..i] + v[i + 1..]) + (if k == v[i].kind then v[i].count else 0) == Worth(Only(k), v)
    {
      WorthRemoved(Only(k), v, i);
      OnlyPrice(k, v[i]);
    }
  }

  lemma Distributes(worths: Worths, kind: nat, a: nat, b: nat)
    requires a <= b
    ensures Price(worths, Coins(kind, b - a)) + Price(worths, Coins(kind, a)) == Price(worths, Coins(kind, b))
  {
    assert worths(kind) * (b - a) == worths(kind) * b - worths(kind) * a;
  }

  // ----- the table of coins -----

  predicate Currency(currency: seq<Coin>, worths: Worths) {
    && Positive(currency) && Falling(currency)
    && forall i :: 0 <= i < |currency| ==> worths(currency[i].kind) == currency[i].worth
  }

  lemma CoinPrice(worths: Worths, coin: Coin, n: nat)
    requires worths(coin.kind) == coin.worth
    ensures Price(worths, Coins(coin.kind, n)) == n * coin.worth
  {
  }

  lemma NoCoins(worths: Worths, kind: nat)
    ensures Price(worths, Coins(kind, 0)) == 0
  {
  }

  // ----- splitting a stack -----

  /** `std::ceil(money / static_cast<double>(worth))`, the quotient taken exactly. */
  function CeilDiv(money: nat, worth: nat): nat
    requires worth > 0
  {
    (money + worth - 1) / worth
  }

  /** The pieces taken from a stack that is worth more than the price are enough, never more
      than there are, and their excess is less than one piece. */
  lemma SplitIsExact(money: nat, unit: nat, count: nat)
    requires unit > 0 && 0 < money < unit * count
    ensures 0 < CeilDiv(money, unit) <= count
    ensures money <= unit * CeilDiv(money, unit) < money + unit
  {
    var q, r := (money + unit - 1) / unit, (money + unit - 1) % unit;
    assert money + unit - 1 == unit * q + r;
    if q > count {
      MulMonotone(count + 1, q, unit);
    }
    assert q == 0 ==> unit * q == 0;
  }

  // ----- the coins of a player -----

  /** A stack of coins. */
  class Stack {
    const kind: nat
    var count: nat

    constructor (kind: nat, count: nat)
      ensures this.kind == kind && this.count == count
    {
      this.kind, this.count := kind, count;
    }
  }

  ghost function ViewOf(list: seq<Stack>): (v: seq<Coins>)
    reads list
    ensures |v| == |list| && forall i :: 0 <= i < |list| ==> v[i] == Coins(list[i].kind, list[i].count)
  {
    seq(|list|, i requires 0 <= i < |list| reads list => Coins(list[i].kind, list[i].count))
  }

  /** The stacks a player carries, at any depth and in the order the search meets them, and
      those that found no place and lie on the ground. */
  class Purse {
    const worths: Worths
    const currency: seq<Coin>
    var stacks: seq<Stack>
    var ground: seq<Stack>

    constructor (worths: Worths, currency: seq<Coin>)
      requires Currency(currency, worths)
      ensures Valid() && stacks == [] && ground == [] && this.worths == worths && this.currency == currency
    {
      this.worths, this.currency, stacks, ground := worths, currency, [], [];
    }

    ghost predicate Valid()
      reads this
    {
      Currency(currency, worths) && Distinct(stacks) && forall s :: s in stacks ==> s !in ground
    }

    ghost function Owned(): set<Stack>
      reads this
    {
      set s | s in stacks
    }

    ghost function Carried(): nat
      reads this, stacks
    {
      Worth(worths, ViewOf(stacks))
    }

    /** All the coins, those on the ground included. */
    ghost function Total(): nat
      reads this, stacks, ground
    {
      Carried() + Worth(worths, ViewOf(ground))
    }

    /** How many pieces of a kind there are, those on the ground included. */
    ghost function CountOf(kind: nat): nat
      reads this, stacks, ground
    {
      Worth(Only(kind), ViewOf(stacks)) + Worth(Only(kind), ViewOf(ground))
    }

    /** `n` more pieces of this kind, and as many as before of every other. */
    twostate predicate Gained(kind: nat, n: nat)
      reads this, stacks, ground
    {
      forall k: nat :: CountOf(k) == old(CountOf(k)) + if k == kind then n else 0
    }

    /** `internalRemoveItem`: `n` pieces, or the whole stack. */
    method RemoveItem(item: Stack, n: nat)
      requires Valid() && item in stacks && 0 < n <= item.count
      modifies `stacks, item
      ensures Valid() && ground == old(ground)
      ensures Total() + Price(worths, Coins(item.kind, n)) == old(Total())
      ensures forall k: nat :: CountOf(k) + (if k == item.kind then n else 0) == old(CountOf(k))
      ensures item in stacks <==> n < old(item.count)
      ensures item in stacks ==> item.count == old(item.count) - n
      ensures forall s :: s in stacks ==> s in old(stacks)
      ensures forall s :: s in old(stacks) && s != item ==> s in stacks
    {
      hide Worth, Price;
      var k := Find(item);
      Distributes(worths, item.kind, n, item.count);
      if n < item.count {
        SetCount(item, k, item.count - n);
      } else {
        ghost var v := ViewOf(stacks);
        WorthRemoved(worths, v, k);
        RemovedOnly(v, k);
        stacks := stacks[..k] + stacks[k + 1..];
        assert ViewOf(stacks) == v[..k] + v[k + 1..];
      }
    }

    method Find(item: Stack) returns (k: nat)
      requires item in stacks
      ensures k < |stacks| && stacks[k] == item
    {
      k := 0;
      while stacks[k] != item
        invariant k < |stacks| && item !in stacks[..k]
        decreases |stacks| - k
      {
        k := k + 1;
      }
    }

    /** `internalAddItem` of one stack of coins: it joins stacks of its kind or becomes a new one;
        if the purse refuses it, it is put on the ground. */
    method AddCoins(kind: nat, count: nat)
      requires Valid() && 0 < count
      modifies `stacks, `ground, Owned()
      ensures Valid() && Total() == old(Total()) + Price(worths, Coins(kind, count)) && Gained(kind, count)
      ensures forall s ::
        s in old(stacks) ==> s in stacks && s.count >= old(s.count) && (s.kind != kind ==> s.count == old(s.count))
      ensures fresh(Owned() - old(Owned()))
    {
      hide Worth, Price, Purse.Total, Purse.CountOf, ViewOf;
      NoCoins(worths, kind);
      var refused: bool := *;
      if refused {
        Drop(kind, count);
        return;
      }
      var left := JoinStacks(kind, count);
      Distributes(worths, kind, left, count);
      if left > 0 {
        AddStack(kind, left);
      }
    }

    method Drop(kind: nat, count: nat)
      requires Valid()
      modifies `ground
      ensures Valid() && Total() == old(Total()) + Price(worths, Coins(kind, count)) && Gained(kind, count)
    {
      hide Worth, Price;
      ghost var g := ViewOf(ground);
      WorthPushed(worths, Coins(kind, count), g);
      PushedOnly(Coins(kind, count), g);
      var item := new Stack(kind, count);
      ground := [item] + ground;
      assert ViewOf(ground) == [Coins(kind, count)] + g;
    }

    method AddStack(kind: nat, count: nat)
      requires Valid()
      modifies `stacks
      ensures Valid() && Total() == old(Total()) + Price(worths, Coins(kind, count)) && Gained(kind, count)
      ensures forall s :: s in old(stacks) ==> s in stacks
      ensures fresh(Owned() - old(Owned()))
    {
      hide Worth, Price;
      ghost var v := ViewOf(stacks);
      WorthPushed(worths, Coins(kind, count), v);
      PushedOnly(Coins(kind, count), v);
      var item := new Stack(kind, count);
      stacks := [item] + stacks;
      assert ViewOf(stacks) == [Coins(kind, count)] + v;
    }

    /** Some of the stacks of this kind that have room take their share. */
    method JoinStacks(kind: nat, count: nat) returns (left: nat)
      requires Valid()
      modifies stacks
      ensures left <= count && Total() == old(Total()) + Price(worths, Coins(kind, count - left))
      ensures Gained(kind, count - left)
      ensures forall s :: s in stacks ==> s.count >= old(s.count) && (s.kind != kind ==> s.count == old(s.count))
    {
      hide Worth, Price, Purse.Total, Purse.CountOf, ViewOf;
      NoCoins(worths, kind);
      left := count;
      for i := 0 to |stacks|
        invariant left <= count && Total() == old(Total()) + Price(worths, Coins(kind, count - left))
        invariant Gained(kind, count - left)
        invariant forall s :: s in stacks ==> s.count >= old(s.count) && (s.kind != kind ==> s.count == old(s.count))
      {
        var s := stacks[i];
        var chosen: bool := *;
        if chosen && s.kind == kind && s.count < STACK_LIMIT {
          var n := if STACK_LIMIT - s.count < left then STACK_LIMIT - s.count else left;
          Shares(worths, kind, s.count, n, count, left);
          SetCount(s, i, s.count + n);
          left := left - n;
        }
      }
    }

    /** `setItemCount`. */
    method SetCount(item: Stack, k: nat, n: nat)
      requires Valid() && k < |stacks| && stacks[k] == item
      modifies item
      ensures item.count == n
      ensures
        Total() + Price(worths, Coins(item.kind, old(item.count))) == old(Total()) + Price(worths, Coins(item.kind, n))
      ensures forall k: nat ::
        CountOf(k) + (if k == item.kind then old(item.count) else 0)
          == old(CountOf(k)) + if k == item.kind then n else 0
    {
      hide Worth, Price;
      ghost var v, g := ViewOf(stacks), ViewOf(ground);
      WorthChanged(worths, v, k, n);
      ChangedOnly(v, k, n);
      assert item in stacks;
      item.count := n;
      assert ViewOf(stacks) == v[k := Coins(item.kind, n)];
      assert ViewOf(ground) == g;
    }

    /** `addMoney`. */
    method AddMoney(amount: nat)
      requires Valid()
      modifies `stacks, `ground, Owned()
      ensures Valid() && Total() + Unpaid(currency, amount) == old(Total()) + amount
      ensures forall k: nat :: CountOf(k) == old(CountOf(k)) + PaidOf(currency, amount, k)
      ensures amount < TWO_TO_THE_32 ==> forall i :: 0 <= i < |currency| ==>
          CountOf(currency[i].kind)
            == old(CountOf(currency[i].kind)) + LeftBefore(currency, amount, i) / currency[i].worth
      ensures forall k: nat ::
        (forall i :: 0 <= i < |currency| ==> currency[i].kind != k) ==> CountOf(k) == old(CountOf(k))
      ensures forall s ::
        s in old(stacks) ==>
        s in stacks && s.count >= old(s.count) && (worths(s.kind) > amount ==> s.count == old(s.count))
      ensures fresh(Owned() - old(Owned()))
    {
      hide Worth, Price, Purse.Total, Purse.CountOf, ViewOf, CoinCount, PaidOf, LeftBefore;
      var money: nat := amount;
      for i := 0 to |currency|
        invariant Valid() && 0 <= money <= amount && Total() == old(Total()) + (amount - money)
        invariant Unpaid(currency[i..], money) == Unpaid(currency, amount)
        invariant forall k: nat ::
          CountOf(k) + PaidOf(currency[i..], money, k) == old(CountOf(k)) + PaidOf(currency, amount, k)
        invariant forall s ::
          s in old(stacks) ==>
          s in stacks && s.count >= old(s.count) && (worths(s.kind) > amount ==> s.count == old(s.count))
        invariant fresh(Owned() - old(Owned()))
      {
        var coin := currency[i];
        assert currency[i..][0] == coin && currency[i..][1..] == currency[i + 1..];
        CoinsFit(coin.worth, money);
        FirstPaid(currency[i..], money);
        var coins := CoinCount(coin.worth, money);
        if coins != 0 {
          MulMonotone(1, coins, coin.worth);
          PayCoins(coin, coins);
          CoinPrice(worths, coin, coins);
          money := money - coins * coin.worth;
        }
      }
      assert currency[|currency|..] == [];
      NothingPaidOf(money);
      WhichCoins(amount);
    }

    lemma WhichCoins(amount: nat)
      requires Valid()
      ensures amount < TWO_TO_THE_32 ==> forall i :: 0 <= i < |currency| ==>
          PaidOf(currency, amount, currency[i].kind) == LeftBefore(currency, amount, i) / currency[i].worth
      ensures forall k: nat ::
        (forall i :: 0 <= i < |currency| ==> currency[i].kind != k) ==> PaidOf(currency, amount, k) == 0
    {
      forall i | 0 <= i < |currency| && amount < TWO_TO_THE_32
        ensures PaidOf(currency, amount, currency[i].kind) == LeftBefore(currency, amount, i) / currency[i].worth
      {
        PaysLargestFirst(currency, amount, i);
      }
      forall k: nat | forall i :: 0 <= i < |currency| ==> currency[i].kind != k
        ensures PaidOf(currency, amount, k) == 0
      {
        OthersPayNone(currency, amount, k);
      }
    }

    /** The inner loop: stacks of at most a hundred coins. */
    method PayCoins(coin: Coin, coins: nat)
      requires Valid() && worths(coin.kind) == coin.worth
      modifies `stacks, `ground, Owned()
      ensures Valid() && Total() == old(Total()) + Price(worths, Coins(coin.kind, coins)) && Gained(coin.kind, coins)
      ensures forall s ::
        s in old(stacks) ==> s in stacks && s.count >= old(s.count) && (s.kind != coin.kind ==> s.count == old(s.count))
      ensures fresh(Owned() - old(Owned()))
    {
      hide Worth, Price, Purse.Total, Purse.CountOf, ViewOf;
      NoCoins(worths, coin.kind);
      var currencyCoins := coins;
      while currencyCoins > 0
        invariant
          && Valid() && 0 <= currencyCoins <= coins
          && Total() == old(Total()) + Price(worths, Coins(coin.kind, coins - currencyCoins))
          && Gained(coin.kind, coins - currencyCoins)
        invariant forall s ::
          s in old(stacks) ==>
          s in stacks && s.count >= old(s.count) && (s.kind != coin.kind ==> s.count == old(s.count))
        invariant fresh(Owned() - old(Owned()))
      {
        var count := if currencyCoins < STACK_LIMIT then currencyCoins else STACK_LIMIT;
        AddCoins(coin.kind, count);
        Distributes(worths, coin.kind, count, coins - currencyCoins + count);
        currencyCoins := currencyCoins - count;
      }
    }

    // ----- removeMoney -----

    /** The worth of a stack; `getWorth` cuts it to 32 bits, which must lose nothing. */
    function Value(s: Stack): nat
      reads s
    {
      Price(worths, Coins(s.kind, s.count))
    }

    ghost predicate NoWrap()
      reads this, stacks
    {
      forall s :: s in stacks ==> Value(s) < TWO_TO_THE_32
    }

    function GetWorth(s: Stack): nat
      reads s
    {
      Value(s) % TWO_TO_THE_32
    }

    /** The entry describes its stack as it is now. */
    ghost predicate Current(e: Entry)
      reads this, e.item
    {
      e.item in stacks && e.worth == Value(e.item) && e.worth > 0
    }

    /** The two search loops: every stack that is worth something, least worth first. */
    method Gather() returns (moneyMap: seq<Entry>, moneyCount: nat)
      requires Valid() && NoWrap()
      ensures Sorted(moneyMap) && EntrySum(moneyMap) == moneyCount == Carried()
      ensures forall e :: e in moneyMap ==> Current(e)
      ensures forall s :: s in stacks && Value(s) > 0 ==> Entry(Value(s), s) in moneyMap
    {
      hide Worth, Price, EntrySum, Emplaced, Recorded, Sorted;
      ghost var value := map s | s in stacks :: Value(s);
      NothingRecorded(worths, stacks, value);
      moneyMap, moneyCount := [], 0;
      for i := 0 to |stacks|
        invariant EntrySum(moneyMap) == moneyCount == Worth(worths, ViewOf(stacks)[..i])
        invariant Recorded(moneyMap, stacks, value, i)
      {
        var item := stacks[i];
        var worth := GetWorth(item);
        assert worth == Value(item) == value[item];
        ghost var v := ViewOf(stacks);
        WorthUpTo(worths, v, i);
        RecordStep(moneyMap, stacks, value, i);
        if worth != 0 {
          moneyCount := moneyCount + worth;
          EmplacedHas(moneyMap, Entry(worth, item));
          moneyMap := Emplaced(moneyMap, Entry(worth, item));
        }
      }
      WorthUpToEnd(worths, ViewOf(stacks));
      RecordedAll(moneyMap, stacks, value);
    }

    /** Pays with part of a stack: the change first, then the pieces. */
    method Split(item: Stack, worth: nat, money: nat) returns (ghost change: nat)
      requires Valid() && item in stacks && worth == Value(item) && 0 < money < worth
      modifies `stacks, `ground, Owned()
      ensures Valid() && Total() + money + Unpaid(currency, change) == old(Total()) && change < worths(item.kind)
      ensures forall s :: s in old(stacks) && s != item ==> s in stacks && s.count >= old(s.count)
      ensures fresh(Owned() - old(Owned()))
    {
      hide Worth, Price, Purse.Total, ViewOf, Unpaid;
      UnitPrice(worths, item.kind, item.count);
      var unit := worth / item.count;
      SplitIsExact(money, unit, item.count);
      var removeCount := CeilDiv(money, unit);
      change := unit * removeCount - money;
      UnitPrice(worths, item.kind, removeCount);
      AddMoney(unit * removeCount - money);
      RemoveItem(item, removeCount);
    }

    /** The spending loop. It always ends at the stack `last`. */
    method Spend(moneyMap: seq<Entry>, price: nat) returns (ghost change: nat, ghost last: nat)
      requires
        Valid() && Sorted(moneyMap) && (forall e :: e in moneyMap ==> Current(e)) && 0 < price <= EntrySum(moneyMap)
      modifies `stacks, `ground, Owned()
      ensures Valid() && Total() + price + Unpaid(currency, change) == old(Total())
      ensures last < |moneyMap| && (change > 0 ==> change < worths(moneyMap[last].item.kind))
      ensures forall a :: 0 <= a < last ==> moneyMap[a].item !in stacks
      ensures forall s ::
        s in old(stacks) && (forall a :: 0 <= a <= last ==> moneyMap[a].item != s) ==>
        s in stacks && s.count >= old(s.count)
    {
      hide Worth, Price, Purse.Total, ViewOf, Unpaid, EntrySum, Sorted;
      var money := price;
      var i := 0;
      while i < |moneyMap|
        invariant 0 <= i <= |moneyMap| && 0 < money && money <= EntrySum(moneyMap[i..])
        invariant Valid() && Sorted(moneyMap[i..]) && Total() + (price - money) == old(Total())
        invariant forall e :: e in moneyMap[i..] ==> Current(e)
        invariant forall a :: 0 <= a < i ==> moneyMap[a].item !in stacks
        invariant forall s ::
          s in old(stacks) && (forall a :: 0 <= a < i ==> moneyMap[a].item != s) ==>
          s in stacks && s.count == old(s.count)
        invariant forall s :: s in stacks ==> s in old(stacks)
      {
        var entry := moneyMap[i];
        var item := entry.item;
        FirstEntry(moneyMap, i);
        UnitPrice(worths, item.kind, item.count);
        last := i;
        if entry.worth < money {
          RemoveItem(item, item.count);
          money := money - entry.worth;
        } else if entry.worth > money {
          change := Split(item, entry.worth, money);
          return;
        } else {
          RemoveItem(item, item.count);
          NothingUnpaid(currency);
          return 0, i;
        }
        i := i + 1;
      }
      NoEntryLeft(moneyMap);
      assert false;
    }

    /** One piece of a stack on the map is worth less than 2^32. */
    lemma PiecesBelow(m: seq<Entry>)
      requires NoWrap() && forall e :: e in m ==> Current(e)
      ensures forall e :: e in m ==> worths(e.item.kind) < TWO_TO_THE_32
    {
      forall e | e in m ensures worths(e.item.kind) < TWO_TO_THE_32 {
        assert Current(e);
        UnitPrice(worths, e.item.kind, e.item.count);
        MulMonotone(1, e.item.count, worths(e.item.kind));
      }
    }

    /** `removeMoney`. `change` is the excess of the pieces taken from the last stack. */
    method RemoveMoney(price: nat) returns (ok: bool, ghost change: nat)
      requires Valid() && NoWrap()
      modifies `stacks, `ground, Owned()
      ensures Valid() && (ok <==> price == 0 || old(Carried()) >= price)
      ensures !ok || price == 0 ==>
        stacks == old(stacks) && ground == old(ground) && forall s :: s in stacks ==> s.count == old(s.count)
      ensures ok ==> Total() + price + Unpaid(currency, change) == old(Total())
      ensures ok && HasUnitCoin(currency) ==> Total() + price == old(Total())
      ensures change > 0 ==> exists s :: s in old(stacks) && change < worths(s.kind)
      ensures ok ==>
        forall x, y :: x in old(stacks) && y in old(stacks) && 0 < old(Value(x)) < old(Value(y)) && x in stacks ==>
          y in stacks && y.count >= old(y.count)
    {
      hide Worth, Price, Purse.Total, Purse.Carried, ViewOf, Unpaid;
      change := 0;
      if price == 0 {
        NothingUnpaid(currency);
        return true, 0;
      }
      var moneyMap, moneyCount := Gather();
      if moneyCount < price {
        return false, 0;
      }
      PiecesBelow(moneyMap);
      ghost var last;
      change, last := Spend(moneyMap, price);
      ok := true;
      if HasUnitCoin(currency) {
        UnitCoinPays(currency, change);
      }
      assert moneyMap[last] in moneyMap;
      forall x, y | x in old(stacks) && y in old(stacks) && 0 < old(Value(x)) < old(Value(y)) && x in stacks
        ensures y in stacks && y.count >= old(y.count)
      {
        LaterThan(moneyMap, last, Entry(old(Value(x)), x), Entry(old(Value(y)), y));
      }
    }
  }

  /** The map holds the first `i` stacks that are worth something. */
  ghost predicate Recorded(m: seq<Entry>, list: seq<Stack>, value: map<Stack, nat>, i: nat) {
    && Sorted(m) && i <= |list|
    && (forall e :: e in m ==> e.item in list && e.item in value && e.worth == value[e.item] > 0)
    && (forall e, k :: e in m && i <= k < |list| ==> e.item != list[k])
    && (forall k :: 0 <= k < i && list[k] in value && value[list[k]] > 0 ==> Entry(value[list[k]], list[k]) in m)
  }

  lemma NothingRecorded(worths: Worths, list: seq<Stack>, value: map<Stack, nat>)
    ensures Recorded([], list, value, 0) && EntrySum([]) == 0 && Worth(worths, []) == 0
  {
  }

  lemma RecordStep(m: seq<Entry>, list: seq<Stack>, value: map<Stack, nat>, i: nat)
    requires Recorded(m, list, value, i) && i < |list| && Distinct(list) && list[i] in value
    ensures Recorded(if value[list[i]] > 0 then Emplaced(m, Entry(value[list[i]], list[i])) else m, list, value, i + 1)
  {
    hide Emplaced, Sorted;
    if value[list[i]] > 0 {
      var e := Entry(value[list[i]], list[i]);
      EmplacedHas(m, e);
      EmplacedSorted(m, e);
      var m' := Emplaced(m, e);
      assert forall k :: i < k < |list| ==> list[i] != list[k];
      assert forall x :: x in m' ==> x in m || x == e;
      assert forall x :: x in m ==> x in m';
    }
  }

  lemma RecordedAll(m: seq<Entry>, list: seq<Stack>, value: map<Stack, nat>)
    requires Recorded(m, list, value, |list|)
    ensures Sorted(m)
    ensures forall e :: e in m ==> e.item in list && e.item in value && e.worth == value[e.item] > 0
    ensures forall s :: s in list && s in value && value[s] > 0 ==> Entry(value[s], s) in m
  {
  }

  lemma FirstEntry(m: seq<Entry>, i: nat)
    requires i < |m| && Sorted(m[i..])
    ensures m[i] in m[i..] && Sorted(m[i + 1..]) && EntrySum(m[i..]) == m[i].worth + EntrySum(m[i + 1..])
    ensures forall e :: e in m[i + 1..] ==> e in m[i..] && m[i].item != e.item && m[i].worth <= e.worth
  {
    assert m[i..][1..] == m[i + 1..] && m[i..][0] == m[i];
  }

  /** An entry that is still there after the loop lies at `last` or later, and so does every
      entry that is worth more. */
  lemma LaterThan(m: seq<Entry>, last: nat, x: Entry, y: Entry)
    requires Sorted(m) && x in m && y in m && x.worth < y.worth && last < |m|
    requires forall a :: 0 <= a < last ==> m[a].item != x.item
    ensures forall a :: 0 <= a <= last ==> m[a].item != y.item
  {
    var i :| 0 <= i < |m| && m[i] == x;
    var j :| 0 <= j < |m| && m[j] == y;
    SortedAt(m);
  }

  lemma {:induction false} SortedAt(m: seq<Entry>)
    requires Sorted(m)
    ensures forall i, j :: 0 <= i < j < |m| ==> m[i].worth <= m[j].worth && m[i].item != m[j].item
  {
    if m != [] {
      SortedAt(m[1..]);
      forall i, j | 0 <= i < j < |m| ensures m[i].worth <= m[j].worth && m[i].item != m[j].item {
        assert m[j] == m[1..][j - 1];
        if i > 0 {
          assert m[i] == m[1..][i - 1];
        }
      }
    }
  }

  lemma NoEntryLeft(m: seq<Entry>)
    ensures EntrySum(m[|m|..]) == 0
  {
  }

  /** The price of a stack, divided by its count, is that of one piece. */
  lemma UnitPrice(worths: Worths, kind: nat, count: nat)
    ensures Price(worths, Coins(kind, count)) == worths(kind) * count
    ensures Price(worths, Coins(kind, count)) > 0 ==>
      count > 0 && Price(worths, Coins(kind, count)) / count == worths(kind) > 0
  {
    if worths(kind) * count > 0 {
      DivExact(worths(kind), count);
    }
  }

  lemma DivExact(a: nat, b: nat)
    requires b > 0
    ensures a * b / b == a
  {
    var q := a * b / b;
    assert a * b == q * b + a * b % b;
    MulStrict(a, q, b);
    MulStrict(q, a, b);
  }

  datatype Entry = Entry(worth: nat, item: Stack)

  /** Least worth first, and every stack once. */
  predicate Sorted(m: seq<Entry>) {
    m != [] ==> (forall x :: x in m[1..] ==> m[0].worth <= x.worth && m[0].item != x.item) && Sorted(m[1..])
  }

  function EntrySum(m: seq<Entry>): nat {
    if m == [] then 0 else m[0].worth + EntrySum(m[1..])
  }

  /** `std::multimap::emplace`: after every entry of the same key. */
  function Emplaced(m: seq<Entry>, e: Entry): seq<Entry> {
    if m == [] || e.worth < m[0].worth then [e] + m else [m[0]] + Emplaced(m[1..], e)
  }

  lemma {:induction false} EmplacedHas(m: seq<Entry>, e: Entry)
    ensures EntrySum(Emplaced(m, e)) == EntrySum(m) + e.worth
    ensures forall x :: x in Emplaced(m, e) ==> x in m || x == e
    ensures forall x :: x in m ==> x in Emplaced(m, e)
    ensures e in Emplaced(m, e)
  {
    var r := Emplaced(m, e);
    if m == [] || e.worth < m[0].worth {
      assert r[1..] == m;
    } else {
      EmplacedHas(m[1..], e);
      assert r[1..] == Emplaced(m[1..], e);
      assert forall x :: x in m <==> x == m[0] || x in m[1..];
    }
  }

  /** The new entry stands behind all of at most its worth and before all of more. */
  lemma {:induction false} EmplacedAt(m: seq<Entry>, e: Entry) returns (i: nat)
    requires Sorted(m)
    ensures i <= |m| && Emplaced(m, e) == m[..i] + [e] + m[i..]
    ensures (forall j :: 0 <= j < i ==> m[j].worth <= e.worth) && (forall j :: i <= j < |m| ==> m[j].worth > e.worth)
  {
    if m == [] || e.worth < m[0].worth {
      i := 0;
      forall j | 0 <= j < |m| ensures m[j].worth > e.worth {
        assert j > 0 ==> m[j] in m[1..];
      }
    } else {
      i := EmplacedAt(m[1..], e);
      i := i + 1;
      assert m[..i] == [m[0]] + m[1..][..i - 1] && m[i..] == m[1..][i - 1..];
      forall j | 0 <= j < |m| ensures if j < i then m[j].worth <= e.worth else m[j].worth > e.worth {
        assert j > 0 ==> m[j] == m[1..][j - 1];
      }
    }
  }

  lemma {:induction false} EmplacedSorted(m: seq<Entry>, e: Entry)
    requires Sorted(m) && forall x :: x in m ==> x.item != e.item
    ensures Sorted(Emplaced(m, e))
  {
    var r := Emplaced(m, e);
    if m == [] {
    } else if e.worth < m[0].worth {
      assert r[1..] == m;
      assert forall x :: x in m ==> x == m[0] || x in m[1..];
    } else {
      EmplacedSorted(m[1..], e);
      EmplacedHas(m[1..], e);
      assert r[1..] == Emplaced(m[1..], e);
    }
  }

  lemma Shares(worths: Worths, kind: nat, have: nat, n: nat, count: nat, left: nat)
    requires n <= left <= count
    ensures Price(worths, Coins(kind, have + n)) == Price(worths, Coins(kind, have)) + Price(worths, Coins(kind, n))
    ensures Price(worths, Coins(kind, count - (left - n))) == Price(worths, Coins(kind, count - left))
      + Price(worths, Coins(kind, n))
  {
    Distributes(worths, kind, have, have + n);
    Distributes(worths, kind, n, count - left + n);
  }
}
