/**
 * Who pays and who is paid: what each step of the market does to the coins, the balance and the
 * offers of every single player.
 */
module MarketShares {
  import opened Basics
  import opened Market

  /** These players alone have other coins or another balance. */
  predicate OthersKeep(s: State, t: State, players: set<nat>) {
    && |t.coins| == |s.coins| && |t.bank| == |s.bank|
    && (forall r :: 0 <= r < |s.coins| && r !in players ==> t.coins[r] == s.coins[r])
    && (forall r :: 0 <= r < |s.bank| && r !in players ==> t.bank[r] == s.bank[r])
  }

  /** A player pays this sum with coins as far as they go and the rest from the balance; some of
      the coins that are left may have fallen to the ground. */
  predicate Pays(s: State, t: State, p: nat, sum: nat)
    requires p < |s.coins| == |s.bank|
  {
    && OthersKeep(s, t, {p})
    && t.ground >= s.ground && sum <= s.coins[p] + s.bank[p]
    && t.coins[p] + (t.ground - s.ground) == s.coins[p] - Min(s.coins[p], sum)
    && t.bank[p] == s.bank[p] - (sum - Min(s.coins[p], sum))
  }

  /** The row with this creation time and counter that a search finds. */
  predicate Finds(s: State, created: nat, counter: nat, k: nat) {
    && k < |s.offers| && s.offers[k].created == created && s.offers[k].id % TWO_TO_THE_16 == counter
    && forall i :: 0 <= i < k ==> s.offers[i].created != created || s.offers[i].id % TWO_TO_THE_16 != counter
  }

  lemma FindsIs(s: State, created: nat, counter: nat, k: nat)
    requires Finds(s, created, counter, k)
    ensures ByCounter(s.offers, created, counter) == k
  {
    assert HasCounter(s.offers[k], created, counter);
  }

  /** No row has this creation time and counter. */
  predicate FindsNone(s: State, created: nat, counter: nat) {
    forall i :: 0 <= i < |s.offers| ==> s.offers[i].created != created || s.offers[i].id % TWO_TO_THE_16 != counter
  }

  lemma FindsNoneIs(s: State, created: nat, counter: nat)
    requires FindsNone(s, created, counter)
    ensures ByCounter(s.offers, created, counter) == |s.offers|
  {
  }

  // ----- accepting -----

  /** Nothing speaks against the acceptance. */
  predicate MayAccept(s: State, a: Action, o: Offer)
    requires a.Accept? && a.player < |s.coins| == |s.bank|
  {
    && 0 < a.amount <= 64000 && a.amount <= o.amount && !a.sameAccount && a.itemKnown
    && (o.side == Buy ==> a.hasItems)
    && (o.side == Sell ==> o.price * a.amount <= s.coins[a.player] + s.bank[a.player])
  }

  /** The offer has been taken up by this much. */
  predicate TakenUp(s: State, t: State, k: nat, amount: nat)
    requires k < |s.offers| && amount <= s.offers[k].amount
  {
    if amount == s.offers[k].amount then t.offers == s.offers[..k] + s.offers[k + 1..]
    else
      && |t.offers| == |s.offers| && (forall i :: 0 <= i < |s.offers| && i != k ==> t.offers[i] == s.offers[i])
      && t.offers[k] == s.offers[k].(amount := s.offers[k].amount - amount)
  }

  /** Of a buy offer the price goes to the one who accepts; of a sell offer it goes from there to
      the owner's balance. Nobody else gains or pays, and the offer is taken up by the amount. */
  lemma AcceptPays(s: State, a: Action, k: nat)
    requires Valid(s) && a.Accept? && Known(s, a) && Finds(s, a.created, a.counter, k)
    ensures var t, o := Step(s, a), s.offers[k];
      var sum := o.price * a.amount;
      if !MayAccept(s, a, o) then t == s
      else
        && TakenUp(s, t, k, a.amount) && t.fees == s.fees && t.nextId == s.nextId && t.results == s.results
        && match o.side
           case Buy =>
             && OthersKeep(s, t, {a.player}) && t.coins == s.coins && t.ground == s.ground
             && t.bank[a.player] == s.bank[a.player] + sum
           case Sell =>
             && o.player < |s.bank|
             && OthersKeep(s, t, {a.player, o.player})
             && (o.player != a.player ==>
                   && t.coins[o.player] == s.coins[o.player] && t.bank[o.player] == s.bank[o.player] + sum
                   && t.ground >= s.ground
                   && t.coins[a.player] + t.bank[a.player] + t.ground + sum
                      == s.coins[a.player] + s.bank[a.player] + s.ground
                   && t.bank[a.player] == s.bank[a.player] - (sum - Min(s.coins[a.player], sum)))
             && (o.player == a.player ==>
                   t.coins[a.player] + t.bank[a.player] + t.ground == s.coins[a.player] + s.bank[a.player] + s.ground)
  {
    FindsIs(s, a.created, a.counter, k);
  }

  lemma AcceptNothing(s: State, a: Action)
    requires a.Accept? && FindsNone(s, a.created, a.counter)
    ensures Step(s, a) == s
  {
    FindsNoneIs(s, a.created, a.counter);
  }

  // ----- cancelling -----

  /** A cancelled buy offer is paid back to its owner; nobody else can cancel it. */
  lemma CancelPays(s: State, a: Action, k: nat)
    requires Valid(s) && a.Cancel? && Known(s, a) && Finds(s, a.created, a.counter, k)
    ensures var t, o := Step(s, a), s.offers[k];
      if o.player != a.player || (o.side == Sell && !a.itemKnown) then t == s
      else
        && t.offers == s.offers[..k] + s.offers[k + 1..] && OthersKeep(s, t, {a.player})
        && t.coins == s.coins && t.ground == s.ground && t.fees == s.fees
        && t.nextId == s.nextId && t.results == s.results
        && t.bank[a.player] == s.bank[a.player] + if o.side == Buy then o.price * o.amount else 0
  {
    FindsIs(s, a.created, a.counter, k);
  }

  lemma CancelNothing(s: State, a: Action)
    requires a.Cancel? && FindsNone(s, a.created, a.counter)
    ensures Step(s, a) == s
  {
    FindsNoneIs(s, a.created, a.counter);
  }

  // ----- creating -----

  /** The rows of one player. */
  function RowsOfPlayer(offers: seq<Offer>, p: nat): set<nat> {
    set i | 0 <= i < |offers| && offers[i].player == p
  }

  lemma {:induction false} OwnOffersAreRows(offers: seq<Offer>, p: nat)
    ensures OwnOffers(offers, p) == |RowsOfPlayer(offers, p)|
    decreases |offers|
  {
    if offers == [] {
      assert RowsOfPlayer(offers, p) == {};
    } else {
      var n := |offers| - 1;
      OwnOffersAreRows(offers[..n], p);
      OwnOffersLast(offers, p);
      var before := RowsOfPlayer(offers[..n], p);
      assert RowsOfPlayer(offers, p) == before + if offers[n].player == p then {n} else {};
    }
  }

  lemma {:induction false} OwnOffersLast(offers: seq<Offer>, p: nat)
    requires offers != []
    ensures OwnOffers(offers, p)
         == OwnOffers(offers[..|offers| - 1], p) + if offers[|offers| - 1].player == p then 1 else 0
    decreases |offers|
  {
    if |offers| > 1 {
      OwnOffersLast(offers[1..], p);
      assert offers[1..][..|offers| - 2] == offers[..|offers| - 1][1..];
    }
  }

  /** Nothing speaks against the offer. */
  predicate MayCreate(s: State, a: Action)
    requires a.Create? && a.player < |s.coins| == |s.bank|
  {
    && 0 < a.amount <= 64000 && 0 < a.price <= 999999999 && (a.stackable || a.amount == 1)
    && (a.maxOffers == 0 || |RowsOfPlayer(s.offers, a.player)| < a.maxOffers)
    && (a.side == Sell ==> a.hasItems)
    && (if a.side == Sell then 0 else a.price * a.amount) + Fee(a.price, a.amount)
       <= s.coins[a.player] + s.bank[a.player]
  }

  /** The one who makes an offer pays the fee and, to buy, the whole price; the offer becomes the
      last row, with the next id, except that a sell offer of stackable items, or of one that is not
      found, enters none. */
  lemma CreatePays(s: State, a: Action)
    requires Valid(s) && a.Create? && Known(s, a)
    ensures var t, fee := Step(s, a), Fee(a.price, a.amount);
      if !MayCreate(s, a) then t == s
      else
        && Pays(s, t, a.player, fee + if a.side == Buy then a.price * a.amount else 0)
        && t.fees == s.fees + fee && t.results == s.results
        && (if a.side == Buy || (!a.stackable && a.found) then
              && t.offers == s.offers + [Offer(s.nextId, a.player, a.side, a.item, a.amount, a.price, a.now)]
              && t.nextId == s.nextId + 1
            else t.offers == s.offers && t.nextId == s.nextId)
  {
    OwnOffersAreRows(s.offers, a.player);
    hide Fee, OwnOffers, RowsOfPlayer, Market.Valid;
  }

  // ----- expiring -----

  /** A query takes exactly the rows created by then. */
  lemma {:induction false} OverdueAre(offers: seq<Offer>, limit: nat)
    ensures forall o :: o in Overdue(offers, limit) <==> o in offers && o.created <= limit
  {
    if offers != [] {
      OverdueAre(offers[1..], limit);
    }
  }

  predicate InTable(offers: seq<Offer>, id: nat) {
    exists o :: o in offers && o.id == id
  }

  /** What these rows pay back to a player: the price of every buy offer that is still there. */
  function Refund(offers: seq<Offer>, rows: seq<Offer>, p: nat): nat {
    if rows == [] then 0
    else
      (if rows[0].player == p && rows[0].side == Buy && InTable(offers, rows[0].id) then
         rows[0].price * rows[0].amount else 0)
      + Refund(offers, rows[1..], p)
  }

  /** A row that another payment deleted pays these rows nothing and takes nothing from them. */
  lemma {:induction false} RefundElsewhere(offers: seq<Offer>, left: seq<Offer>, id: nat, rows: seq<Offer>, p: nat)
    requires forall o :: o in left <==> o in offers && o.id != id
    requires forall o :: o in rows ==> o.id != id
    ensures Refund(left, rows, p) == Refund(offers, rows, p)
  {
    if rows != [] {
      assert rows[0] in rows;
      RefundElsewhere(offers, left, id, rows[1..], p);
      assert InTable(left, rows[0].id) <==> InTable(offers, rows[0].id);
    }
  }

  predicate Among(rows: seq<Offer>, id: nat) {
    exists r :: r in rows && r.id == id
  }

  /** Paying back changes balances and rows only. */
  predicate BankOnly(s: State, t: State) {
    |t.bank| == |s.bank| && t == s.(bank := t.bank, offers := t.offers)
  }

  /** Paying back deletes the rows it reaches and pays every player exactly what the query saw. */
  lemma {:induction false} PaidBackPays(s: State, rows: seq<Offer>, inboxFails: nat -> bool, p: nat)
    requires
      && |s.coins| == |s.bank| && p < |s.bank| && RowsOf(s.offers, |s.bank|, s.nextId)
      && RowsOf(rows, |s.bank|, s.nextId) && Agrees(s.offers, rows)
    ensures var t, reached := PaidBack(s, rows, inboxFails), Reached(s.offers, rows, inboxFails);
      && BankOnly(s, t) && t.bank[p] == s.bank[p] + Refund(s.offers, reached, p)
      && forall o :: o in t.offers <==> o in s.offers && !Among(reached, o.id)
    decreases |rows|
  {
    hide RowsOf, Agrees, Refund, Reached, PaidBack, Credited, Deleted, Among, Held;
    if rows == [] {
      NothingPaidBack(s, inboxFails, p);
    } else {
      var row, rest, k := rows[0], rows[1..], ById(s.offers, rows[0].id);
      RestOfRows(s.offers, rows, |s.bank|, s.nextId);
      if k == |s.offers| {
        PaidBackPays(s, rest, inboxFails, p);
        RowIsGone(s, rows, inboxFails, p);
      } else {
        var s1 := Deleted(s, k);
        DeletedRows(s.offers, k, |s.bank|, s.nextId, rest);
        DeletedIs(s, k);
        var s2 := if row.side == Buy then Credited(s1, row.player, Held(row)) else s1;
        CreditedIs(s1, row.player, Held(row), p);
        FirstPaidBack(s, rows, inboxFails, k);
        HeldBySide(row);
        ByIdFinds(s.offers, row.id);
        if row.side == Sell && inboxFails(row.id) {
          OneRow(s.offers, row, [], p);
          NothingPaidBack(s, inboxFails, p);
        } else {
          PaidBackPays(s2, rest, inboxFails, p);
          ReachedElsewhere(s.offers, s1.offers, row.id, rest, inboxFails);
          var later := Reached(s.offers, rest, inboxFails);
          RefundElsewhere(s.offers, s1.offers, row.id, later, p);
          OneRow(s.offers, row, later, p);
        }
      }
    }
  }

  lemma NothingPaidBack(s: State, inboxFails: nat -> bool, p: nat)
    ensures PaidBack(s, [], inboxFails) == s && Reached(s.offers, [], inboxFails) == []
    ensures Refund(s.offers, [], p) == 0 && forall id :: !Among([], id)
  {
  }

  lemma RowIsGone(s: State, rows: seq<Offer>, inboxFails: nat -> bool, p: nat)
    requires rows != [] && ById(s.offers, rows[0].id) == |s.offers|
    ensures PaidBack(s, rows, inboxFails) == PaidBack(s, rows[1..], inboxFails)
    ensures var later := Reached(s.offers, rows[1..], inboxFails);
      && Reached(s.offers, rows, inboxFails) == [rows[0]] + later
      && Refund(s.offers, [rows[0]] + later, p) == Refund(s.offers, later, p)
      && forall o :: o in s.offers ==> (Among([rows[0]] + later, o.id) <==> Among(later, o.id))
  {
    ByIdFinds(s.offers, rows[0].id);
    OneRow(s.offers, rows[0], Reached(s.offers, rows[1..], inboxFails), p);
  }

  lemma OneRow(offers: seq<Offer>, row: Offer, later: seq<Offer>, p: nat)
    ensures Refund(offers, [row] + later, p)
         == (if row.player == p && row.side == Buy && InTable(offers, row.id) then row.price * row.amount else 0)
            + Refund(offers, later, p)
    ensures forall id :: Among([row] + later, id) <==> id == row.id || Among(later, id)
  {
    var all := [row] + later;
    assert all[1..] == later && row in all && forall r :: r in all <==> r == row || r in later;
    forall id ensures Among(all, id) <==> id == row.id || Among(later, id) {
      if id == row.id {
        assert row in all && row.id == id;
      }
    }
  }

  lemma DeletedIs(s: State, k: nat)
    requires k < |s.offers|
    ensures Deleted(s, k) == s.(offers := s.offers[..k] + s.offers[k + 1..])
  {
  }

  lemma CreditedIs(s: State, q: nat, sum: nat, p: nat)
    requires p < |s.bank| && q < |s.bank|
    ensures BankOnly(s, Credited(s, q, sum)) && Credited(s, q, sum).offers == s.offers
    ensures Credited(s, q, sum).bank[p] == s.bank[p] + if p == q then sum else 0
  {
  }

  /** An expiry pays back the rows of the oldest query. */
  lemma ExpirePays(s: State, inboxFails: nat -> bool, p: nat)
    requires Valid(s) && p < |s.bank| && s.results != []
    ensures var t, reached := Step(s, Expire(inboxFails)), Reached(s.offers, s.results[0], inboxFails);
      && BankOnly(s.(results := s.results[1..]), t)
      && t.bank[p] == s.bank[p] + Refund(s.offers, reached, p)
      && forall o :: o in t.offers <==> o in s.offers && !Among(reached, o.id)
  {
    hide RowsOf, Agrees, PaidBack, Refund, Among, Reached;
    PaidBackPays(Rest(s), Due(s), inboxFails, p);
  }
}
