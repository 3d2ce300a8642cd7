/**
 * The table of coins and the pay-out that takes the largest coin as often as it can: which coins
 * are paid, when nothing is left unpaid, and when no other way needs fewer coins.
 */
module Coinage {
  import opened Basics

  /** A coin type of the currency table: what it is worth and which item it is. */
  datatype Coin = Coin(worth: nat, kind: nat)

  // ----- the greedy pay-out -----

  /** The number of coins is cut to 32 bits. */
  function CoinCount(worth: nat, money: nat): nat
    requires worth > 0
  {
    (money / worth) % TWO_TO_THE_32
  }

  /** The table of coins is walked from the largest worth down, and no worth is there twice. */
  predicate Falling(currency: seq<Coin>) {
    forall i, j :: 0 <= i < j < |currency| ==> currency[i].worth > currency[j].worth
  }

  predicate Positive(currency: seq<Coin>) {
    forall i :: 0 <= i < |currency| ==> currency[i].worth > 0
  }

  lemma CoinsFit(worth: nat, money: nat)
    requires worth > 0
    ensures CoinCount(worth, money) * worth <= money
  {
    var q := money / worth;
    assert CoinCount(worth, money) <= q;
    assert q * worth <= money;
    MulMonotone(CoinCount(worth, money), q, worth);
  }

  /** What the pay-out leaves unpaid. */
  function Unpaid(currency: seq<Coin>, money: nat): (u: nat)
    requires Positive(currency)
    ensures u <= money
  {
    if currency == [] then money
    else
      CoinsFit(currency[0].worth, money);
      var worth := currency[0].worth;
      Unpaid(currency[1..], money - CoinCount(worth, money) * worth)
  }

  /** How many coins of a kind the pay-out gives. */
  function PaidOf(currency: seq<Coin>, money: nat, kind: nat): nat
    requires Positive(currency)
  {
    if currency == [] then 0
    else
      CoinsFit(currency[0].worth, money);
      var n := CoinCount(currency[0].worth, money);
      (if currency[0].kind == kind then n else 0) + PaidOf(currency[1..], money - n * currency[0].worth, kind)
  }

  lemma FirstPaid(currency: seq<Coin>, money: nat)
    requires Positive(currency) && currency != []
    ensures CoinCount(currency[0].worth, money) * currency[0].worth <= money
    ensures forall k: nat ::
      PaidOf(currency, money, k)
        == (if currency[0].kind == k then CoinCount(currency[0].worth, money) else 0)
           + PaidOf(currency[1..], money - CoinCount(currency[0].worth, money) * currency[0].worth, k)
  {
    CoinsFit(currency[0].worth, money);
  }

  lemma NothingPaidOf(money: nat)
    ensures forall k: nat :: PaidOf([], money, k) == 0
  {
  }

  // ----- which coins are paid -----

  /** What is left of an amount before the coin at `i` is looked at, if every coin pays as often
      as it can. */
  function LeftBefore(currency: seq<Coin>, money: nat, i: nat): (left: nat)
    requires Positive(currency) && i <= |currency|
    ensures left <= money
  {
    if i == 0 then money else LeftBefore(currency, money, i - 1) % currency[i - 1].worth
  }

  /** The coins of any way to pay, one number for every coin of the table. */
  function Pieces(n: seq<nat>): nat {
    if n == [] then 0 else n[0] + Pieces(n[1..])
  }

  function PaidWith(currency: seq<Coin>, n: seq<nat>): nat
    requires |n| == |currency|
  {
    if n == [] then 0 else n[0] * currency[0].worth + PaidWith(currency[1..], n[1..])
  }

  predicate HasUnitCoin(currency: seq<Coin>) {
    exists i :: 0 <= i < |currency| && currency[i].worth == 1
  }

  /** Any amount below 2^32 is paid in full exactly when there is a coin of worth one. */
  lemma PaidInFullExactlyWhen(currency: seq<Coin>)
    requires Positive(currency)
    ensures (forall money: nat :: money < TWO_TO_THE_32 ==> Unpaid(currency, money) == 0) <==> HasUnitCoin(currency)
  {
    if HasUnitCoin(currency) {
      forall money: nat | money < TWO_TO_THE_32 ensures Unpaid(currency, money) == 0 {
        UnitCoinPays(currency, money);
      }
    } else {
      OneCannotBePaid(currency);
    }
  }

  lemma {:induction false} UnitCoinPays(currency: seq<Coin>, money: nat)
    requires Positive(currency)
    requires HasUnitCoin(currency) && money < TWO_TO_THE_32
    ensures Unpaid(currency, money) == 0
  {
    var worth := currency[0].worth;
    CoinsFit(worth, money);
    if worth == 1 {
      NothingUnpaid(currency[1..]);
    } else {
      var i :| 0 <= i < |currency| && currency[i].worth == 1;
      assert currency[1..][i - 1].worth == 1;
      UnitCoinPays(currency[1..], money - CoinCount(worth, money) * worth);
    }
  }

  lemma {:induction false} NothingUnpaid(currency: seq<Coin>)
    requires Positive(currency)
    ensures Unpaid(currency, 0) == 0
  {
  }

  lemma {:induction false} OneCannotBePaid(currency: seq<Coin>)
    requires Positive(currency)
    requires !HasUnitCoin(currency)
    ensures Unpaid(currency, 1) == 1
  {
    if currency != [] {
      assert currency[0].worth > 1;
      forall i | 0 <= i < |currency[1..]| ensures currency[1..][i].worth != 1 {
        assert currency[1..][i] == currency[i + 1];
      }
      OneCannotBePaid(currency[1..]);
    }
  }

  // ----- the largest coins first -----

  /** How often every coin is paid. */
  function Greedy(currency: seq<Coin>, money: nat): (n: seq<nat>)
    requires Positive(currency)
    ensures |n| == |currency|
  {
    seq(|currency|, i requires 0 <= i < |currency| => LeftBefore(currency, money, i) / currency[i].worth)
  }

  /** The table without its first coin pays what the first one leaves. */
  lemma {:induction false} LeftAfterFirst(currency: seq<Coin>, money: nat, i: nat)
    requires Positive(currency) && i < |currency|
    ensures LeftBefore(currency, money, i + 1) == LeftBefore(currency[1..], money % currency[0].worth, i)
  {
    if i > 0 {
      LeftAfterFirst(currency, money, i - 1);
      assert currency[1..][i - 1] == currency[i];
    } else {
      assert LeftBefore(currency, money, 0) == money;
    }
  }

  lemma GreedyFirst(currency: seq<Coin>, money: nat)
    requires Positive(currency) && currency != []
    ensures Greedy(currency, money)
         == [money / currency[0].worth] + Greedy(currency[1..], money % currency[0].worth)
  {
    var n, m := Greedy(currency, money), Greedy(currency[1..], money % currency[0].worth);
    forall i | 0 < i < |currency| ensures n[i] == m[i - 1] {
      LeftAfterFirst(currency, money, i - 1);
      assert currency[1..][i - 1] == currency[i];
    }
  }

  lemma CountUncut(worth: nat, money: nat)
    requires worth > 0 && money < TWO_TO_THE_32
    ensures CoinCount(worth, money) == money / worth && money - CoinCount(worth, money) * worth == money % worth
  {
    var q := money / worth;
    assert money == q * worth + money % worth;
    MulMonotone(1, worth, q);
  }

  /** Below 2^32 every coin is paid as often as what the coins before it leave has room for it, and
      less than one of it is left. */
  lemma {:induction false} PaysLargestFirst(currency: seq<Coin>, money: nat, i: nat)
    requires Positive(currency) && money < TWO_TO_THE_32 && i < |currency|
    requires forall j, k :: 0 <= j < k < |currency| ==> currency[j].kind != currency[k].kind
    ensures PaidOf(currency, money, currency[i].kind) == LeftBefore(currency, money, i) / currency[i].worth
    ensures LeftBefore(currency, money, i + 1)
         == LeftBefore(currency, money, i)
            - LeftBefore(currency, money, i) / currency[i].worth * currency[i].worth
          < currency[i].worth
  {
    var w := currency[0].worth;
    CountUncut(w, money);
    CountUncut(currency[i].worth, LeftBefore(currency, money, i));
    if i == 0 {
      OthersPayNone(currency[1..], money % w, currency[0].kind);
    } else {
      PaysLargestFirst(currency[1..], money % w, i - 1);
      LeftAfterFirst(currency, money, i - 1);
    }
  }

  lemma {:induction false} OthersPayNone(currency: seq<Coin>, money: nat, kind: nat)
    requires Positive(currency) && forall i :: 0 <= i < |currency| ==> currency[i].kind != kind
    ensures PaidOf(currency, money, kind) == 0
  {
    if currency != [] {
      CoinsFit(currency[0].worth, money);
      OthersPayNone(currency[1..], money - CoinCount(currency[0].worth, money) * currency[0].worth, kind);
    }
  }

  lemma {:induction false} UnpaidIsLeft(currency: seq<Coin>, money: nat)
    requires Positive(currency) && money < TWO_TO_THE_32
    ensures Unpaid(currency, money) == LeftBefore(currency, money, |currency|)
  {
    if currency != [] {
      CountUncut(currency[0].worth, money);
      UnpaidIsLeft(currency[1..], money % currency[0].worth);
      LeftAfterFirst(currency, money, |currency| - 1);
    }
  }

  // ----- no other way needs fewer coins -----

  /** Every worth is a multiple of the next. */
  predicate Multiples(currency: seq<Coin>)
    requires Positive(currency)
  {
    forall i :: 0 < i < |currency| ==> currency[i - 1].worth % currency[i].worth == 0
  }

  lemma {:induction false} GreedyPays(currency: seq<Coin>, money: nat)
    requires Positive(currency)
    ensures PaidWith(currency, Greedy(currency, money)) + LeftBefore(currency, money, |currency|) == money
  {
    hide Greedy, PaidWith, LeftBefore;
    if currency == [] {
      NothingToPay(currency, money);
    } else {
      var w := currency[0].worth;
      GreedyFirst(currency, money);
      GreedyPays(currency[1..], money % w);
      LeftAfterFirst(currency, money, |currency| - 1);
      PaidFirst(currency, money / w, Greedy(currency[1..], money % w));
      assert money == money / w * w + money % w;
    }
  }

  lemma NothingToPay(currency: seq<Coin>, money: nat)
    requires currency == []
    ensures PaidWith(currency, Greedy(currency, money)) == 0 && LeftBefore(currency, money, 0) == money
  {
  }

  lemma PaidFirst(currency: seq<Coin>, a: nat, n: seq<nat>)
    requires |currency| == |n| + 1
    ensures PaidWith(currency, [a] + n) == a * currency[0].worth + PaidWith(currency[1..], n)
  {
    assert ([a] + n)[1..] == n;
  }

  /** Multiples of the coin before are paid with at least as many coins, and leave the same. */
  lemma MoreToPay(currency: seq<Coin>, money: nat, before: nat, d: nat)
    requires Positive(currency) && currency != [] && before > 0 && before % currency[0].worth == 0
    ensures Pieces(Greedy(currency, d * before + money)) >= d + Pieces(Greedy(currency, money))
    ensures LeftBefore(currency, d * before + money, |currency|) == LeftBefore(currency, money, |currency|)
  {
    hide Greedy, LeftBefore, Pieces;
    var w := currency[0].worth;
    WholeCoins(before, w, d, money);
    GreedyFirst(currency, money);
    GreedyFirst(currency, d * before + money);
    PiecesFirst(money / w, Greedy(currency[1..], money % w));
    PiecesFirst((d * before + money) / w, Greedy(currency[1..], money % w));
    LeftAfterFirst(currency, money, |currency| - 1);
    LeftAfterFirst(currency, d * before + money, |currency| - 1);
  }

  lemma PiecesFirst(a: nat, n: seq<nat>)
    ensures Pieces([a] + n) == a + Pieces(n)
  {
    assert ([a] + n)[1..] == n;
  }

  lemma WholeCoins(before: nat, w: nat, d: nat, money: nat)
    requires w > 0 && before > 0 && before % w == 0
    ensures (d * before + money) / w >= d + money / w && (d * before + money) % w == money % w
  {
    var q := before / w;
    var x := d * q + money / w;
    assert before == q * w && q >= 1;
    assert d * before == d * q * w;
    assert money == money / w * w + money % w;
    assert d * before + money == x * w + money % w;
    QuotientIs(d * before + money, w, x, money % w);
    MulMonotone(1, q, d);
  }

  lemma QuotientIs(n: nat, w: nat, q: nat, r: nat)
    requires w > 0 && n == q * w + r && r < w
    ensures n / w == q && n % w == r
  {
    var q', r' := n / w, n % w;
    assert n == q' * w + r';
    MulStrict(q, q', w);
    MulStrict(q', q, w);
  }

  /** Where every worth is a multiple of the next, no other way to pay as much uses fewer coins. */
  lemma {:induction false} FewestCoins(currency: seq<Coin>, money: nat, n: seq<nat>)
    requires Positive(currency) && Multiples(currency) && |n| == |currency|
    requires PaidWith(currency, n) == PaidWith(currency, Greedy(currency, money))
    ensures Pieces(Greedy(currency, money)) <= Pieces(n)
  {
    hide Greedy, PaidWith, LeftBefore, Pieces, Multiples;
    GreedyPays(currency, money);
    if currency == [] {
      NoPieces(n, Greedy(currency, money));
    } else {
      assert n == [n[0]] + n[1..];
      PaidFirst(currency, n[0], n[1..]);
      PiecesFirst(n[0], n[1..]);
      var w, rest := currency[0].worth, currency[1..];
      var m := money % w;
      assert money == money / w * w + m;
      assert n[0] * w <= money;
      AtMostQuotient(n[0], w, money);
      var d := money / w - n[0];
      assert d * w == money / w * w - n[0] * w;
      LeftAfterFirst(currency, money, |currency| - 1);
      GreedyFirst(currency, money);
      PiecesFirst(money / w, Greedy(rest, m));
      if rest == [] {
        NothingToPay(rest, m);
        NothingPaid(rest, n[1..]);
        NoPieces(n[1..], Greedy(rest, m));
        assert d * w == 0;
        assert d > 0 ==> d * w > 0;
      } else {
        MultiplesRest(currency);
        MoreToPay(rest, m, w, d);
        GreedyPays(rest, d * w + m);
        FewestCoins(rest, d * w + m, n[1..]);
      }
    }
  }

  lemma NoPieces(a: seq<nat>, b: seq<nat>)
    requires |a| == |b| == 0
    ensures Pieces(a) == Pieces(b) == 0
  {
  }

  lemma NothingPaid(currency: seq<Coin>, n: seq<nat>)
    requires |n| == |currency| == 0
    ensures PaidWith(currency, n) == 0
  {
  }

  lemma MultiplesRest(currency: seq<Coin>)
    requires Positive(currency) && Multiples(currency) && |currency| > 1
    ensures Multiples(currency[1..]) && currency[0].worth % currency[1..][0].worth == 0
  {
    forall i | 0 < i < |currency[1..]| ensures currency[1..][i - 1].worth % currency[1..][i].worth == 0 {
      assert currency[1..][i - 1] == currency[i] && currency[1..][i] == currency[i + 1];
    }
  }

  lemma AtMostQuotient(n: nat, w: nat, money: nat)
    requires w > 0 && n * w <= money
    ensures n <= money / w
  {
    var q := money / w;
    assert money == q * w + money % w;
    MulStrict(q, n, w);
  }
}
