/**
 * The market functions of the game on the balances and the offers table, with 64-bit balances.
 */
module MarketService {
  import opened Basics
  import opened Market

  const TWO_TO_THE_64 := TWO_TO_THE_32 * TWO_TO_THE_32

  class Service {
    var coins: seq<nat>
    var bank: seq<nat>
    var ground: nat
    var offers: seq<Offer>
    var nextId: nat
    var results: seq<seq<Offer>>
    ghost var fees: nat

    constructor (players: nat)
      ensures Snapshot() == State(seq(players, _ => 0), seq(players, _ => 0), 0, [], 1, 0, [])
    {
      coins, bank, ground := seq(players, _ => 0), seq(players, _ => 0), 0;
      offers, nextId, fees, results := [], 1, 0, [];
    }

    ghost function Snapshot(): State
      reads this
    {
      State(coins, bank, ground, offers, nextId, fees, results)
    }

    /** All gold fits 64 bits. */
    ghost predicate Fits()
      reads this
    {
      Market.Valid(Snapshot()) && Gold(Snapshot()) < TWO_TO_THE_64
    }

    /** `bankBalance += sum`. */
    method Credit(p: nat, sum: nat)
      requires p < |bank| && bank[p] + sum < TWO_TO_THE_64
      modifies `bank
      ensures Snapshot() == Credited(old(Snapshot()), p, sum)
    {
      bank := bank[p := (bank[p] + sum) % TWO_TO_THE_64];
    }

    /** `removeMoney` and `bankBalance -= debitBank`. */
    method Debit(p: nat, sum: nat, dropped: nat)
      requires p < |coins| == |bank| && bank[p] < TWO_TO_THE_64 && CanPay(Snapshot(), p, sum)
      modifies `bank, `coins, `ground
      ensures Snapshot() == Paid(old(Snapshot()), p, sum, dropped)
    {
      var debitCash := if coins[p] < sum then coins[p] else sum;
      var debitBank := sum - debitCash;
      var lost := if dropped < coins[p] - debitCash then dropped else coins[p] - debitCash;
      coins := coins[p := coins[p] - debitCash - lost];
      ground := ground + lost;
      bank := bank[p := (bank[p] - debitBank) % TWO_TO_THE_64];
    }

    method FindByCounter(created: nat, counter: nat) returns (k: nat)
      ensures k == ByCounter(offers, created, counter)
    {
      k := 0;
      while k < |offers| && !(offers[k].created == created && offers[k].id % TWO_TO_THE_16 == counter)
        invariant k <= |offers| && ByCounter(offers, created, counter) == k + ByCounter(offers[k..], created, counter)
      {
        assert offers[k..][1..] == offers[k + 1..];
        k := k + 1;
      }
    }

    method FindById(id: nat) returns (k: nat)
      ensures k == ById(offers, id)
    {
      k := 0;
      while k < |offers| && offers[k].id != id
        invariant k <= |offers| && ById(offers, id) == k + ById(offers[k..], id)
      {
        assert offers[k..][1..] == offers[k + 1..];
        k := k + 1;
      }
    }

    method OfferCount(p: nat) returns (n: nat)
      ensures n == OwnOffers(offers, p)
    {
      n := 0;
      for i := 0 to |offers|
        invariant n + OwnOffers(offers[i..], p) == OwnOffers(offers, p)
      {
        assert offers[i..][1..] == offers[i + 1..];
        if offers[i].player == p {
          n := n + 1;
        }
      }
    }

    /** `createOffer`. */
    method Insert(offer: Offer)
      modifies `offers, `nextId
      ensures Snapshot() == Listed(old(Snapshot()), offer)
    {
      offers := offers + [offer.(id := nextId)];
      nextId := nextId + 1;
    }

    /** `deleteOffer` and `moveOfferToHistory`. */
    method Delete(k: nat)
      requires k < |offers|
      modifies `offers
      ensures Snapshot() == Deleted(old(Snapshot()), k)
    {
      offers := offers[..k] + offers[k + 1..];
    }

    method PlayerCreateMarketOffer(player: nat, side: Side, item: nat, stackable: bool, amount: nat, price: nat,
                                   now: nat, maxOffers: nat, hasItems: bool, found: bool, dropped: nat)
      requires Fits() && player < |bank|
      modifies this
      ensures Snapshot() == Step(old(Snapshot()),
        Create(player, side, item, stackable, amount, price, now, maxOffers, hasItems, found, dropped))
      ensures Fits()
    {
      hide Paid, Market.Valid, Gold, Fee, OwnOffers, ByCounter;
      ghost var a := Create(player, side, item, stackable, amount, price, now, maxOffers, hasItems, found, dropped);
      Safe(Snapshot(), a);
      if amount == 0 || amount > MAX_AMOUNT || price == 0 || price > MAX_PRICE || (!stackable && amount > 1) {
        return;
      }
      if maxOffers != 0 {
        var count := OfferCount(player);
        if count >= maxOffers {
          return;
        }
      }
      var fee := Fee(price, amount);
      var offer := Offer(0, player, side, item, amount, price, now);
      if side == Sell {
        if fee > coins[player] + bank[player] || !hasItems {
          return;
        }
        Debit(player, fee, dropped);
        fees := fees + fee;
        if !stackable && found {
          Insert(offer);
        }
      } else {
        var totalPrice := price * amount + fee;
        if totalPrice > coins[player] + bank[player] {
          return;
        }
        Debit(player, totalPrice, dropped);
        fees := fees + fee;
        Insert(offer);
      }
    }

    method PlayerCancelMarketOffer(player: nat, created: nat, counter: nat, itemKnown: bool)
      requires Fits() && player < |bank|
      modifies this
      ensures Snapshot() == Step(old(Snapshot()), Cancel(player, created, counter, itemKnown))
      ensures Fits()
    {
      hide Market.Valid, Gold, ByCounter, Deleted;
      ghost var a := Cancel(player, created, counter, itemKnown);
      Safe(Snapshot(), a);
      var k := FindByCounter(created, counter);
      if k == |offers| || offers[k].player != player {
        return;
      }
      if offers[k].side == Buy {
        SellerFits(Snapshot(), player, k, offers[k].amount);
        Credit(player, offers[k].price * offers[k].amount);
      } else if !itemKnown {
        return;
      }
      Delete(k);
    }

    method PlayerAcceptMarketOffer(player: nat, created: nat, counter: nat, amount: nat, sameAccount: bool,
                                   itemKnown: bool, hasItems: bool, dropped: nat)
      requires Fits() && player < |bank|
      modifies this
      ensures Snapshot() == Step(old(Snapshot()),
        Accept(player, created, counter, amount, sameAccount, itemKnown, hasItems, dropped))
      ensures Fits()
    {
      hide Market.Valid, Gold, ByCounter, Paid, Credited, Reduced;
      ghost var a := Accept(player, created, counter, amount, sameAccount, itemKnown, hasItems, dropped);
      Safe(Snapshot(), a);
      if amount == 0 || amount > MAX_AMOUNT {
        return;
      }
      var k := FindByCounter(created, counter);
      if k == |offers| || sameAccount || amount > offers[k].amount || !itemKnown {
        return;
      }
      var offer := offers[k];
      var totalPrice := offer.price * amount;
      ghost var s := Snapshot();
      if offer.side == Buy {
        if !hasItems {
          return;
        }
        SellerFits(s, player, k, amount);
        Credit(player, totalPrice);
      } else {
        if totalPrice > coins[player] + bank[player] {
          return;
        }
        BuyerFits(s, player, totalPrice, dropped, offer.player);
        Debit(player, totalPrice, dropped);
        Credit(offer.player, totalPrice);
      }
      Reduce(k, amount);
    }

    /** `acceptOffer`, or `deleteOffer` when nothing is left. */
    method Reduce(k: nat, amount: nat)
      requires k < |offers| && amount <= offers[k].amount
      modifies `offers
      ensures Snapshot() == Reduced(old(Snapshot()), k, amount)
    {
      if amount == offers[k].amount {
        Delete(k);
      } else {
        offers := offers[k := offers[k].(amount := offers[k].amount - amount)];
      }
    }

    /** `processExpiredOffers` on the rows of the oldest query. */
    method ProcessExpiredOffers(inboxFails: nat -> bool)
      requires Market.Valid(Snapshot()) && Gold(Step(Snapshot(), Expire(inboxFails))) < TWO_TO_THE_64
      modifies this
      ensures Snapshot() == Step(old(Snapshot()), Expire(inboxFails))
    {
      hide RowsOf, Agrees, PaidBack, Gold, ById, Deleted, Credited;
      if results == [] {
        NothingToPay(Snapshot(), inboxFails);
        return;
      }
      ghost var paid := PaidBack(Rest(Snapshot()), Due(Snapshot()), inboxFails);
      var rows := results[0];
      results := results[1..];
      assert rows[0..] == rows;
      for i := 0 to |rows|
        invariant Pending(Snapshot(), rows[i..]) && PaidBack(Snapshot(), rows[i..], inboxFails) == paid
      {
        var row := rows[i];
        assert rows[i..][0] == row && rows[i..][1..] == rows[i + 1..];
        ghost var s := Snapshot();
        PayStep(s, rows[i..], inboxFails);
        var k := FindById(row.id);
        if k < |offers| {
          Delete(k);
          if row.side == Buy {
            Credit(row.player, row.price * row.amount);
          } else if inboxFails(row.id) {
            return;
          }
        }
      }
      NothingToPay(Snapshot(), inboxFails);
      assert rows[|rows|..] == [];
    }

    /** The query of `checkExpiredOffers`. */
    method SelectExpired(limit: nat)
      requires Fits()
      modifies `results
      ensures Snapshot() == Step(old(Snapshot()), Select(limit)) && Fits()
    {
      hide Market.Valid, Gold, Overdue;
      Safe(Snapshot(), Select(limit));
      OverdueOf(offers, limit);
      var rows := [];
      for i := 0 to |offers|
        invariant rows + Overdue(offers[i..], limit) == Overdue(offers, limit) && results == old(results)
      {
        OverdueFirst(offers, i, limit);
        if offers[i].created <= limit {
          rows := rows + [offers[i]];
        }
      }
      assert rows == Overdue(offers, limit);
      results := results + [rows];
    }
  }

  /** Balances before and after a step stay below all the gold there is. */
  lemma Safe(s: State, a: Action)
    requires Market.Valid(s) && !a.Expire?
    ensures Market.Valid(Step(s, a)) && Gold(Step(s, a)) == Gold(s) && |s.coins| == |s.bank|
    ensures forall p :: 0 <= p < |s.bank| ==> s.bank[p] + s.coins[p] <= Gold(s)
    ensures forall p :: 0 <= p < |Step(s, a).bank| ==> Step(s, a).bank[p] <= Gold(s)
    ensures forall o :: o in s.offers ==> o.player < |s.bank|
  {
    StepKeepsValid(s, a);
    StepGold(s, a);
    forall p | 0 <= p < |s.bank| ensures s.bank[p] + s.coins[p] <= Gold(s) {
      BalanceWithinGold(s, p);
    }
    forall p | 0 <= p < |Step(s, a).bank| ensures Step(s, a).bank[p] <= Gold(s) {
      BalanceWithinGold(Step(s, a), p);
    }
  }

  /** A balance and what one buy offer holds are parts of all the gold. */
  lemma SellerFits(s: State, p: nat, k: nat, amount: nat)
    requires p < |s.bank| && k < |s.offers| && s.offers[k].side == Buy && amount <= s.offers[k].amount
    ensures s.bank[p] + s.offers[k].price * amount <= Gold(s)
  {
    SumUpdate(s.bank, p, 0);
    EscrowAt(s.offers, k);
    MulMonotone(amount, s.offers[k].amount, s.offers[k].price);
  }

  lemma BuyerFits(s: State, p: nat, sum: nat, dropped: nat, q: nat)
    requires p < |s.coins| == |s.bank| && CanPay(s, p, sum) && q < |s.bank|
    ensures |Paid(s, p, sum, dropped).bank| == |s.bank| && Paid(s, p, sum, dropped).bank[q] + sum <= Gold(s)
  {
    hide Gold, Paid;
    PaidKeeps(s, p, sum, dropped);
    PaidGold(s, p, sum, dropped);
    BalanceWithinGold(Paid(s, p, sum, dropped), q);
  }

  lemma OverdueFirst(offers: seq<Offer>, i: nat, limit: nat)
    requires i < |offers|
    ensures Overdue(offers[i..], limit) == (if offers[i].created <= limit then [offers[i]] else [])
      + Overdue(offers[i + 1..], limit)
  {
    assert offers[i..][1..] == offers[i + 1..];
  }

  lemma OverdueOf(offers: seq<Offer>, limit: nat)
    ensures Overdue(offers[0..], limit) == Overdue(offers, limit) && Overdue(offers[|offers|..], limit) == []
  {
    assert offers[0..] == offers;
  }

  ghost predicate Pending(s: State, rows: seq<Offer>) {
    |s.coins| == |s.bank| && RowsOf(s.offers, |s.bank|, s.nextId) && RowsOf(rows, |s.bank|, s.nextId)
      && Agrees(s.offers, rows)
  }

  lemma NothingToPay(s: State, inboxFails: nat -> bool)
    ensures PaidBack(s, [], inboxFails) == s
  {
  }

  /** One round of the loop, and why the balance it credits cannot wrap. */
  lemma PayStep(s: State, rows: seq<Offer>, inboxFails: nat -> bool)
    requires Pending(s, rows) && rows != []
    ensures rows[0].player < |s.bank|
    ensures var k := ById(s.offers, rows[0].id);
            if k == |s.offers| then
              Pending(s, rows[1..]) && PaidBack(s, rows, inboxFails) == PaidBack(s, rows[1..], inboxFails)
            else if rows[0].side == Buy then
              && Pending(Credited(Deleted(s, k), rows[0].player, Held(rows[0])), rows[1..])
              && PaidBack(s, rows, inboxFails)
                 == PaidBack(Credited(Deleted(s, k), rows[0].player, Held(rows[0])), rows[1..], inboxFails)
              && s.bank[rows[0].player] + Held(rows[0]) <= Gold(PaidBack(s, rows, inboxFails))
            else if inboxFails(rows[0].id) then PaidBack(s, rows, inboxFails) == Deleted(s, k)
            else
              && Pending(Deleted(s, k), rows[1..])
              && PaidBack(s, rows, inboxFails) == PaidBack(Deleted(s, k), rows[1..], inboxFails)
  {
    hide RowsOf, Agrees, Gold, Held;
    var k := ById(s.offers, rows[0].id);
    RestOfRows(s.offers, rows, |s.bank|, s.nextId);
    if k < |s.offers| {
      DeletedRows(s.offers, k, |s.bank|, s.nextId, rows[1..]);
      if rows[0].side == Buy {
        var next := Credited(Deleted(s, k), rows[0].player, Held(rows[0]));
        PaidBackGold(next, rows[1..], inboxFails);
        BalanceWithinGold(next, rows[0].player);
      }
    }
  }
}
