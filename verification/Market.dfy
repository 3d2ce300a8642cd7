/**
 * The market as a state machine: who holds how much gold while offers are created, accepted,
 * cancelled and expire. Offers expire in two steps, because the rows come from a database task
 * that ran earlier than the loop that pays them back.
 */
module Market {
  import opened Basics

  datatype Side = Buy | Sell

  datatype Offer = Offer(id: nat, player: nat, side: Side, item: nat, amount: nat, price: nat, created: nat)

  /** Coins carried and balance of every player, coins lying on the ground, the rows of the
      offers table, the fees taken so far, and the answers to expiry queries that are still to
      be processed, oldest first. */
  datatype State = State(coins: seq<nat>, bank: seq<nat>, ground: nat, offers: seq<Offer>, nextId: nat, fees: nat,
    results: seq<seq<Offer>>)

  datatype Action =
    | Create(player: nat, side: Side, item: nat, stackable: bool, amount: nat, price: nat, now: nat, maxOffers: nat,
      hasItems: bool, found: bool, dropped: nat)
    | Cancel(player: nat, created: nat, counter: nat, itemKnown: bool)
    | Accept(player: nat, created: nat, counter: nat, amount: nat, sameAccount: bool, itemKnown: bool, hasItems: bool,
      dropped: nat)
    | Select(limit: nat)
    | Expire(inboxFails: nat -> bool)

  const MAX_AMOUNT := 64000
  const MAX_PRICE := 999999999

  // ----- gold -----

  function Sum(s: seq<nat>): nat {
    if s == [] then 0 else s[0] + Sum(s[1..])
  }

  function Held(o: Offer): nat {
    if o.side == Buy then o.price * o.amount else 0
  }

  /** What the open buy offers hold. */
  function Escrow(offers: seq<Offer>): nat {
    if offers == [] then 0 else Held(offers[0]) + Escrow(offers[1..])
  }

  function Gold(s: State): nat {
    Sum(s.coins) + Sum(s.bank) + s.ground + Escrow(s.offers) + s.fees
  }

  // ----- the steps -----

  /** One percent of the volume, at least 20 and at most 1000. */
  function Fee(price: nat, amount: nat): nat {
    var fee := (price as real / 100.0 * amount as real).Floor;
    if fee < 20 then 20 else if fee > 1000 then 1000 else fee
  }

  function Min(a: nat, b: nat): nat { if a < b then a else b }

  predicate CanPay(s: State, p: nat, sum: nat)
    requires p < |s.coins| == |s.bank|
  {
    sum <= s.coins[p] + s.bank[p]
  }

  /** Coins first, then the balance; `dropped` coins of the change found no place. */
  function Paid(s: State, p: nat, sum: nat, dropped: nat): State
    requires p < |s.coins| == |s.bank| && CanPay(s, p, sum)
  {
    var cash := Min(s.coins[p], sum);
    var lost := Min(dropped, s.coins[p] - cash);
    s.(coins := s.coins[p := s.coins[p] - cash - lost], ground := s.ground + lost,
       bank := s.bank[p := s.bank[p] - (sum - cash)])
  }

  function Credited(s: State, p: nat, sum: nat): State {
    if p < |s.bank| then s.(bank := s.bank[p := s.bank[p] + sum]) else s
  }

  function Listed(s: State, o: Offer): State {
    s.(offers := s.offers + [o.(id := s.nextId)], nextId := s.nextId + 1)
  }

  function Deleted(s: State, k: nat): State
    requires k < |s.offers|
  {
    s.(offers := s.offers[..k] + s.offers[k + 1..])
  }

  function OwnOffers(offers: seq<Offer>, p: nat): nat {
    if offers == [] then 0 else (if offers[0].player == p then 1 else 0) + OwnOffers(offers[1..], p)
  }

  predicate HasCounter(o: Offer, created: nat, counter: nat) {
    o.created == created && o.id % TWO_TO_THE_16 == counter
  }

  /** The first row with this creation time and these low 16 bits of its id. */
  function ByCounter(offers: seq<Offer>, created: nat, counter: nat): (k: nat)
    ensures k <= |offers| && (k < |offers| ==> HasCounter(offers[k], created, counter))
    ensures forall i :: 0 <= i < k ==> !HasCounter(offers[i], created, counter)
  {
    if offers == [] || HasCounter(offers[0], created, counter) then 0
    else 1 + ByCounter(offers[1..], created, counter)
  }

  function ById(offers: seq<Offer>, id: nat): (k: nat)
    ensures k <= |offers| && (k < |offers| ==> offers[k].id == id) && (forall i :: 0 <= i < k ==> offers[i].id != id)
  {
    if offers == [] || offers[0].id == id then 0 else 1 + ById(offers[1..], id)
  }

  function Created(s: State, a: Action): State
    requires a.Create? && a.player < |s.coins| == |s.bank|
  {
    var fee := Fee(a.price, a.amount);
    var offer := Offer(0, a.player, a.side, a.item, a.amount, a.price, a.now);
    if a.amount == 0 || a.amount > MAX_AMOUNT || a.price == 0 || a.price > MAX_PRICE then s
    else if !a.stackable && a.amount > 1 then s
    else if a.maxOffers != 0 && OwnOffers(s.offers, a.player) >= a.maxOffers then s
    else if a.side == Sell then
      if !CanPay(s, a.player, fee) || !a.hasItems then s
      else
        var s' := Paid(s, a.player, fee, a.dropped).(fees := s.fees + fee);
        if a.stackable || !a.found then s' else Listed(s', offer)
    else
      var sum := a.price * a.amount + fee;
      if !CanPay(s, a.player, sum) then s
      else Listed(Paid(s, a.player, sum, a.dropped).(fees := s.fees + fee), offer)
  }

  function Cancelled(s: State, a: Action): State
    requires a.Cancel?
  {
    var k := ByCounter(s.offers, a.created, a.counter);
    if k == |s.offers| || s.offers[k].player != a.player then s
    else if s.offers[k].side == Buy then Deleted(Credited(s, a.player, Held(s.offers[k])), k)
    else if !a.itemKnown then s
    else Deleted(s, k)
  }

  /** `amount` pieces of the offer at `k` have changed hands. */
  function Reduced(s: State, k: nat, amount: nat): State
    requires k < |s.offers| && amount <= s.offers[k].amount
  {
    if amount == s.offers[k].amount then Deleted(s, k)
    else s.(offers := s.offers[k := s.offers[k].(amount := s.offers[k].amount - amount)])
  }

  function Accepted(s: State, a: Action): State
    requires a.Accept? && a.player < |s.coins| == |s.bank|
  {
    var k := ByCounter(s.offers, a.created, a.counter);
    if a.amount == 0 || a.amount > MAX_AMOUNT || k == |s.offers| || a.sameAccount || a.amount > s.offers[k].amount
      || !a.itemKnown then s
    else
      var sum := s.offers[k].price * a.amount;
      if s.offers[k].side == Buy then
        if !a.hasItems then s else Reduced(Credited(s, a.player, sum), k, a.amount)
      else if !CanPay(s, a.player, sum) then s
      else Reduced(Credited(Paid(s, a.player, sum, a.dropped), s.offers[k].player, sum), k, a.amount)
  }

  function Overdue(offers: seq<Offer>, limit: nat): seq<Offer> {
    if offers == [] then [] else (if offers[0].created <= limit then [offers[0]] else []) + Overdue(offers[1..], limit)
  }

  /** `processExpiredOffers`: a row that is gone is skipped; a buy offer is paid back with the
      amount the query saw. */
  function PaidBack(s: State, rows: seq<Offer>, inboxFails: nat -> bool): State
    decreases |rows|
  {
    if rows == [] then s
    else
      var row := rows[0];
      var k := ById(s.offers, row.id);
      if k == |s.offers| then PaidBack(s, rows[1..], inboxFails)
      else if row.side == Buy then PaidBack(Credited(Deleted(s, k), row.player, Held(row)), rows[1..], inboxFails)
      else if inboxFails(row.id) then Deleted(s, k)
      else PaidBack(Deleted(s, k), rows[1..], inboxFails)
  }

  /** The rows to be processed next, and the state without them. */
  function Due(s: State): seq<Offer> {
    if s.results == [] then [] else s.results[0]
  }

  function Rest(s: State): State {
    if s.results == [] then s else s.(results := s.results[1..])
  }

  predicate Known(s: State, a: Action) {
    |s.coins| == |s.bank| && ((a.Create? || a.Cancel? || a.Accept?) ==> a.player < |s.bank|)
  }

  function Step(s: State, a: Action): State {
    if !Known(s, a) then s else
    match a
    case Create(_, _, _, _, _, _, _, _, _, _, _) => Created(s, a)
    case Cancel(_, _, _, _) => Cancelled(s, a)
    case Accept(_, _, _, _, _, _, _, _) => Accepted(s, a)
    case Select(limit) => s.(results := s.results + [Overdue(s.offers, limit)])
    case Expire(inboxFails) => PaidBack(Rest(s), Due(s), inboxFails)
  }

  // ----- the invariant -----

  predicate RowsOf(offers: seq<Offer>, players: nat, nextId: nat) {
    && (forall i :: 0 <= i < |offers| ==>
         offers[i].player < players && 1 <= offers[i].id < nextId && offers[i].price > 0)
    && (forall i, j :: 0 <= i < j < |offers| ==> offers[i].id != offers[j].id)
  }

  /** A row of the query and the row of the table with the same id differ in the amount only,
      and that can only have gone down. */
  predicate Tracks(row: Offer, offer: Offer) {
    offer == row.(amount := offer.amount) && offer.amount <= row.amount
  }

  predicate Agrees(offers: seq<Offer>, rows: seq<Offer>) {
    forall row, o :: row in rows && o in offers && row.id == o.id ==> Tracks(row, o)
  }

  predicate Valid(s: State) {
    && |s.coins| == |s.bank|
    && s.nextId >= 1 && RowsOf(s.offers, |s.bank|, s.nextId)
    && QueriesOf(s.results, s.offers, |s.bank|, s.nextId)
  }

  predicate QueriesOf(results: seq<seq<Offer>>, offers: seq<Offer>, players: nat, nextId: nat) {
    forall i :: 0 <= i < |results| ==> RowsOf(results[i], players, nextId) && Agrees(offers, results[i])
  }

  /** The rows `processExpiredOffers` reaches: a full inbox ends the loop. */
  function Reached(offers: seq<Offer>, rows: seq<Offer>, inboxFails: nat -> bool): seq<Offer> {
    if rows == [] then []
    else if ById(offers, rows[0].id) < |offers| && rows[0].side == Sell && inboxFails(rows[0].id) then [rows[0]]
    else [rows[0]] + Reached(offers, rows[1..], inboxFails)
  }

  /** None of these buy offers has been accepted in part since the query. */
  predicate UpToDate(offers: seq<Offer>, rows: seq<Offer>) {
    forall row, o :: row in rows && o in offers && row.id == o.id && row.side == Buy ==> row.amount == o.amount
  }

  // ----- fees -----

  lemma FeeBounds(price: nat, amount: nat)
    ensures 20 <= Fee(price, amount) <= 1000
    ensures price * amount <= 2000 ==> Fee(price, amount) == 20
    ensures 2000 <= price * amount <= 100000 ==> Fee(price, amount) == price * amount / 100
    ensures 100000 <= price * amount ==> Fee(price, amount) == 1000
  {
    var volume := price as real / 100.0 * amount as real;
    assert volume == (price * amount) as real / 100.0;
    assert volume.Floor == price * amount / 100;
  }

  // ----- sums -----

  lemma {:induction false} SumUpdate(s: seq<nat>, k: nat, x: nat)
    requires k < |s|
    ensures Sum(s[k := x]) + s[k] == Sum(s) + x && s[k] <= Sum(s)
  {
    if k > 0 {
      SumUpdate(s[1..], k - 1, x);
      assert s[k := x][1..] == s[1..][k - 1 := x];
    }
  }

  lemma {:induction false} EscrowSplit(a: seq<Offer>, b: seq<Offer>)
    ensures Escrow(a + b) == Escrow(a) + Escrow(b)
  {
    if a == [] {
      assert a + b == b;
    } else {
      assert (a + b)[1..] == a[1..] + b;
      EscrowSplit(a[1..], b);
    }
  }

  lemma EscrowAt(offers: seq<Offer>, k: nat)
    requires k < |offers|
    ensures Escrow(offers) == Escrow(offers[..k]) + Held(offers[k]) + Escrow(offers[k + 1..])
  {
    hide Escrow, Held;
    assert offers == offers[..k] + (offers[k..]);
    EscrowSplit(offers[..k], offers[k..]);
    EscrowFirst(offers[k..]);
    assert offers[k..][1..] == offers[k + 1..];
  }

  lemma EscrowFirst(offers: seq<Offer>)
    requires offers != []
    ensures Escrow(offers) == Held(offers[0]) + Escrow(offers[1..])
  {
  }

  // ----- what each part of a step does to the gold -----

  lemma PaidGold(s: State, p: nat, sum: nat, dropped: nat)
    requires p < |s.coins| == |s.bank| && CanPay(s, p, sum)
    ensures Gold(Paid(s, p, sum, dropped)) + sum == Gold(s)
  {
    var cash := Min(s.coins[p], sum);
    var lost := Min(dropped, s.coins[p] - cash);
    SumUpdate(s.coins, p, s.coins[p] - cash - lost);
    SumUpdate(s.bank, p, s.bank[p] - (sum - cash));
  }

  lemma CreditedGold(s: State, p: nat, sum: nat)
    requires p < |s.bank|
    ensures Gold(Credited(s, p, sum)) == Gold(s) + sum
  {
    SumUpdate(s.bank, p, s.bank[p] + sum);
  }

  lemma DeletedGold(s: State, k: nat)
    requires k < |s.offers|
    ensures Gold(Deleted(s, k)) + Held(s.offers[k]) == Gold(s)
  {
    EscrowAt(s.offers, k);
    EscrowSplit(s.offers[..k], s.offers[k + 1..]);
  }

  lemma ListedGold(s: State, o: Offer)
    ensures Gold(Listed(s, o)) == Gold(s) + Held(o)
  {
    var row := o.(id := s.nextId);
    EscrowSplit(s.offers, [row]);
    assert [row][1..] == [];
  }

  lemma ReducedGold(s: State, k: nat, amount: nat)
    requires k < |s.offers| && amount <= s.offers[k].amount
    ensures Gold(Reduced(s, k, amount)) + (if s.offers[k].side == Buy then s.offers[k].price * amount else 0) == Gold(s)
  {
    var o := s.offers[k];
    if amount == o.amount {
      DeletedGold(s, k);
    } else {
      var o' := o.(amount := o.amount - amount);
      var offers' := s.offers[k := o'];
      EscrowAt(s.offers, k);
      EscrowAt(offers', k);
      assert offers'[..k] == s.offers[..k] && offers'[k + 1..] == s.offers[k + 1..];
      assert o.price * o.amount == o.price * (o.amount - amount) + o.price * amount;
    }
  }

  lemma CreatedGold(s: State, a: Action)
    requires a.Create? && Known(s, a)
    ensures Gold(Created(s, a)) == Gold(s)
    ensures Created(s, a).fees == s.fees || 20 <= Created(s, a).fees - s.fees <= 1000
  {
    hide Gold, Fee, Paid, OwnOffers;
    var fee := Fee(a.price, a.amount);
    FeeBounds(a.price, a.amount);
    var sum := if a.side == Sell then fee else a.price * a.amount + fee;
    if CanPay(s, a.player, sum) {
      PaidGold(s, a.player, sum, a.dropped);
      var s' := Paid(s, a.player, sum, a.dropped);
      PaidKeeps(s, a.player, sum, a.dropped);
      FeeGold(s', s.fees + fee);
      ListedGold(s'.(fees := s.fees + fee), Offer(0, a.player, a.side, a.item, a.amount, a.price, a.now));
    }
  }

  lemma FeeGold(s: State, fees: nat)
    requires s.fees <= fees
    ensures Gold(s.(fees := fees)) == Gold(s) + (fees - s.fees)
  {
  }

  lemma PaidKeeps(s: State, p: nat, sum: nat, dropped: nat)
    requires p < |s.coins| == |s.bank| && CanPay(s, p, sum)
    ensures var s' := Paid(s, p, sum, dropped);
            s'.fees == s.fees && s'.offers == s.offers && s'.nextId == s.nextId && s'.results == s.results
    ensures |Paid(s, p, sum, dropped).bank| == |s.bank| == |Paid(s, p, sum, dropped).coins|
  {
  }

  lemma CancelledGold(s: State, a: Action)
    requires Valid(s) && a.Cancel? && Known(s, a)
    ensures Gold(Cancelled(s, a)) == Gold(s)
  {
    hide Gold, ByCounter, Held, Deleted, Credited;
    var k := ByCounter(s.offers, a.created, a.counter);
    if k < |s.offers| {
      var held := Held(s.offers[k]);
      CreditedGold(s, a.player, held);
      CreditedKeeps(s, a.player, held);
      DeletedGold(Credited(s, a.player, held), k);
      DeletedGold(s, k);
      HeldBySide(s.offers[k]);
    }
  }

  lemma HeldBySide(o: Offer)
    ensures Held(o) == if o.side == Buy then o.price * o.amount else 0
  {
  }

  lemma CreditedKeeps(s: State, p: nat, sum: nat)
    ensures
      && Credited(s, p, sum).offers == s.offers && Credited(s, p, sum).coins == s.coins
      && |Credited(s, p, sum).bank| == |s.bank|
    ensures
      && Credited(s, p, sum).nextId == s.nextId && Credited(s, p, sum).results == s.results
      && Credited(s, p, sum).fees == s.fees
  {
  }

  lemma AcceptedGold(s: State, a: Action)
    requires Valid(s) && a.Accept? && Known(s, a)
    ensures Gold(Accepted(s, a)) == Gold(s)
  {
    hide Gold, ByCounter, Reduced, Credited, Paid, CanPay;
    var k := ByCounter(s.offers, a.created, a.counter);
    if k < |s.offers| && a.amount <= s.offers[k].amount {
      var offer := s.offers[k];
      var sum := offer.price * a.amount;
      assert offer.player < |s.bank|;
      if offer.side == Buy {
        CreditedGold(s, a.player, sum);
        CreditedKeeps(s, a.player, sum);
        ReducedGold(Credited(s, a.player, sum), k, a.amount);
      } else if CanPay(s, a.player, sum) {
        PaidGold(s, a.player, sum, a.dropped);
        PaidKeeps(s, a.player, sum, a.dropped);
        var s' := Paid(s, a.player, sum, a.dropped);
        CreditedGold(s', offer.player, sum);
        CreditedKeeps(s', offer.player, sum);
        ReducedGold(Credited(s', offer.player, sum), k, a.amount);
      }
    }
  }

  // ----- the invariant is kept -----

  lemma DeletedRows(offers: seq<Offer>, k: nat, players: nat, nextId: nat, rows: seq<Offer>)
    requires k < |offers| && RowsOf(offers, players, nextId) && Agrees(offers, rows)
    ensures var left := offers[..k] + offers[k + 1..]; RowsOf(left, players, nextId) && Agrees(left, rows)
    ensures forall o :: o in offers[..k] + offers[k + 1..] <==> o in offers && o.id != offers[k].id
  {
    var left := offers[..k] + offers[k + 1..];
    assert forall i :: 0 <= i < |left| ==> left[i] == offers[if i < k then i else i + 1];
    forall o | o in offers && o.id != offers[k].id ensures o in left {
      var i :| 0 <= i < |offers| && offers[i] == o;
      assert left[if i < k then i else i - 1] == o;
    }
  }

  lemma ReducedRows(offers: seq<Offer>, k: nat, amount: nat, players: nat, nextId: nat, rows: seq<Offer>)
    requires k < |offers| && RowsOf(offers, players, nextId) && Agrees(offers, rows) && amount <= offers[k].amount
    ensures var left := offers[k := offers[k].(amount := offers[k].amount - amount)];
            RowsOf(left, players, nextId) && Agrees(left, rows)
  {
  }

  lemma ListedRows(offers: seq<Offer>, o: Offer, players: nat, nextId: nat, rows: seq<Offer>)
    requires RowsOf(offers, players, nextId) && Agrees(offers, rows) && RowsOf(rows, players, nextId)
    requires o.id == nextId >= 1 && o.player < players && o.price > 0
    ensures RowsOf(offers + [o], players, nextId + 1) && RowsOf(rows, players, nextId + 1) && Agrees(offers + [o], rows)
  {
  }

  /** Pending queries agree with a table of fewer or smaller rows. */
  lemma DeletedQueries(offers: seq<Offer>, left: seq<Offer>, players: nat, nextId: nat, results: seq<seq<Offer>>)
    requires QueriesOf(results, offers, players, nextId) && forall o :: o in left ==> o in offers
    ensures QueriesOf(results, left, players, nextId)
  {
    hide RowsOf;
  }

  lemma ReducedQueries(offers: seq<Offer>, k: nat, amount: nat, players: nat, nextId: nat, results: seq<seq<Offer>>)
    requires k < |offers| && RowsOf(offers, players, nextId) && amount <= offers[k].amount
    requires QueriesOf(results, offers, players, nextId)
    ensures QueriesOf(results, offers[k := offers[k].(amount := offers[k].amount - amount)], players, nextId)
  {
    hide RowsOf, Agrees;
    forall i | 0 <= i < |results|
      ensures Agrees(offers[k := offers[k].(amount := offers[k].amount - amount)], results[i])
    {
      ReducedRows(offers, k, amount, players, nextId, results[i]);
    }
  }

  lemma ListedQueries(offers: seq<Offer>, o: Offer, players: nat, nextId: nat, results: seq<seq<Offer>>)
    requires RowsOf(offers, players, nextId) && QueriesOf(results, offers, players, nextId)
    requires o.id == nextId >= 1 && o.player < players && o.price > 0
    ensures RowsOf(offers + [o], players, nextId + 1) && QueriesOf(results, offers + [o], players, nextId + 1)
  {
    hide RowsOf, Agrees;
    NoRows(players, nextId);
    ListedRows(offers, o, players, nextId, []);
    forall i | 0 <= i < |results|
      ensures RowsOf(results[i], players, nextId + 1) && Agrees(offers + [o], results[i])
    {
      ListedRows(offers, o, players, nextId, results[i]);
    }
  }

  lemma {:induction false} OverdueRows(offers: seq<Offer>, limit: nat, players: nat, nextId: nat)
    requires RowsOf(offers, players, nextId)
    ensures RowsOf(Overdue(offers, limit), players, nextId)
    ensures forall o :: o in Overdue(offers, limit) ==> o in offers
  {
    if offers != [] {
      var rest := offers[1..];
      OverdueRows(rest, limit, players, nextId);
      assert forall o :: o in rest ==> o in offers && o.id != offers[0].id;
    }
  }

  lemma OverdueAgrees(offers: seq<Offer>, limit: nat, players: nat, nextId: nat)
    requires RowsOf(offers, players, nextId)
    ensures RowsOf(Overdue(offers, limit), players, nextId) && Agrees(offers, Overdue(offers, limit))
    ensures UpToDate(offers, Overdue(offers, limit))
  {
    OverdueRows(offers, limit, players, nextId);
    var rows := Overdue(offers, limit);
    forall row, o | row in rows && o in offers && row.id == o.id ensures row == o {
      assert row in offers;
    }
  }

  lemma CreatedKeepsValid(s: State, a: Action)
    requires Valid(s) && a.Create? && Known(s, a)
    ensures Valid(Created(s, a))
  {
    hide Fee, CanPay, OwnOffers, RowsOf, QueriesOf, Paid;
    var fee := Fee(a.price, a.amount);
    var sum := if a.side == Sell then fee else a.price * a.amount + fee;
    if CanPay(s, a.player, sum) && a.price > 0 {
      PaidKeeps(s, a.player, sum, a.dropped);
      ListedQueries(s.offers, Offer(s.nextId, a.player, a.side, a.item, a.amount, a.price, a.now), |s.bank|, s.nextId,
        s.results);
    }
  }

  lemma CancelledKeepsValid(s: State, a: Action)
    requires Valid(s) && a.Cancel? && Known(s, a)
    ensures Valid(Cancelled(s, a))
  {
    hide RowsOf, QueriesOf, ByCounter, Held;
    var k := ByCounter(s.offers, a.created, a.counter);
    if k < |s.offers| {
      NoRows(|s.bank|, s.nextId);
      DeletedRows(s.offers, k, |s.bank|, s.nextId, []);
      DeletedQueries(s.offers, s.offers[..k] + s.offers[k + 1..], |s.bank|, s.nextId, s.results);
    }
  }

  lemma AcceptedKeepsValid(s: State, a: Action)
    requires Valid(s) && a.Accept? && Known(s, a)
    ensures Valid(Accepted(s, a))
  {
    hide RowsOf, QueriesOf, Agrees, ByCounter, Paid, CanPay, Credited;
    var k := ByCounter(s.offers, a.created, a.counter);
    if k < |s.offers| && a.amount <= s.offers[k].amount {
      var sum := s.offers[k].price * a.amount;
      NoRows(|s.bank|, s.nextId);
      NoneAgrees(s.offers);
      DeletedRows(s.offers, k, |s.bank|, s.nextId, []);
      DeletedQueries(s.offers, s.offers[..k] + s.offers[k + 1..], |s.bank|, s.nextId, s.results);
      ReducedRows(s.offers, k, a.amount, |s.bank|, s.nextId, []);
      ReducedQueries(s.offers, k, a.amount, |s.bank|, s.nextId, s.results);
      CreditedKeeps(s, a.player, sum);
      if CanPay(s, a.player, sum) {
        PaidKeeps(s, a.player, sum, a.dropped);
        CreditedKeeps(Paid(s, a.player, sum, a.dropped), s.offers[k].player, sum);
      }
    }
  }

  lemma {:induction false} PaidBackKeepsRows(s: State, rows: seq<Offer>, inboxFails: nat -> bool)
    requires |s.coins| == |s.bank| && RowsOf(s.offers, |s.bank|, s.nextId)
    ensures var s' := PaidBack(s, rows, inboxFails);
            && |s'.coins| == |s'.bank| == |s.bank| && s'.nextId == s.nextId && s'.results == s.results
            && RowsOf(s'.offers, |s.bank|, s.nextId) && forall o :: o in s'.offers ==> o in s.offers
    decreases |rows|
  {
    hide RowsOf, Credited;
    if rows != [] {
      var k := ById(s.offers, rows[0].id);
      if k < |s.offers| {
        NoRows(|s.bank|, s.nextId);
        DeletedRows(s.offers, k, |s.bank|, s.nextId, []);
        CreditedKeeps(Deleted(s, k), rows[0].player, Held(rows[0]));
        PaidBackKeepsRows(Deleted(s, k), rows[1..], inboxFails);
        PaidBackKeepsRows(Credited(Deleted(s, k), rows[0].player, Held(rows[0])), rows[1..], inboxFails);
      } else {
        PaidBackKeepsRows(s, rows[1..], inboxFails);
      }
    }
  }

  lemma NoneAgrees(offers: seq<Offer>)
    ensures Agrees(offers, [])
  {
  }

  lemma NoRows(players: nat, nextId: nat)
    ensures RowsOf([], players, nextId)
  {
  }

  /** Every step keeps the table and the pending query in agreement. */
  lemma StepKeepsValid(s: State, a: Action)
    requires Valid(s)
    ensures Valid(Step(s, a))
  {
    hide Created, Cancelled, Accepted, RowsOf, Agrees, Overdue, PaidBack;
    if Known(s, a) {
      match a
      case Create(_, _, _, _, _, _, _, _, _, _, _) => CreatedKeepsValid(s, a);
      case Cancel(_, _, _, _) => CancelledKeepsValid(s, a);
      case Accept(_, _, _, _, _, _, _, _) => AcceptedKeepsValid(s, a);
      case Select(limit) => OverdueAgrees(s.offers, limit, |s.bank|, s.nextId);
      case Expire(inboxFails) =>
        PaidBackKeepsRows(Rest(s), Due(s), inboxFails);
        DeletedQueries(s.offers, PaidBack(Rest(s), Due(s), inboxFails).offers, |s.bank|, s.nextId, Rest(s).results);
    }
  }

  // ----- paying back -----

  lemma ByIdFinds(offers: seq<Offer>, id: nat)
    ensures ById(offers, id) < |offers| <==> exists o :: o in offers && o.id == id
  {
    var k := ById(offers, id);
    if k == |offers| {
      assert forall i :: 0 <= i < |offers| ==> offers[i].id != id;
    } else {
      assert offers[k] in offers;
    }
  }

  /** Deleting the row of another id changes nothing for these rows. */
  lemma {:induction false} ReachedElsewhere(offers: seq<Offer>, left: seq<Offer>, id: nat, rows: seq<Offer>,
                                            inboxFails: nat -> bool)
    requires forall o :: o in left <==> o in offers && o.id != id
    requires forall o :: o in rows ==> o.id != id
    ensures Reached(left, rows, inboxFails) == Reached(offers, rows, inboxFails)
    ensures forall o :: o in Reached(offers, rows, inboxFails) ==> o in rows
    decreases |rows|
  {
    if rows != [] {
      ByIdFinds(offers, rows[0].id);
      ByIdFinds(left, rows[0].id);
      ReachedElsewhere(offers, left, id, rows[1..], inboxFails);
    }
  }

  /** Whether the first row and the others are up to date can be told one after the other. */
  lemma UpToDateFirst(offers: seq<Offer>, left: seq<Offer>, k: nat, row: Offer, rows: seq<Offer>)
    requires k < |offers| && offers[k].id == row.id && forall o :: o in left <==> o in offers && o.id != row.id
    requires forall i, j :: 0 <= i < j < |offers| ==> offers[i].id != offers[j].id
    requires forall r :: r in rows ==> r.id != row.id
    ensures UpToDate(offers, [row] + rows) <==>
      (row.side == Buy ==> row.amount == offers[k].amount) && UpToDate(left, rows)
  {
    assert forall o :: o in offers && o.id == row.id ==> o == offers[k];
    assert row in [row] + rows && offers[k] in offers;
    assert forall r :: r in [row] + rows <==> r == row || r in rows;
  }

  lemma UpToDateGone(offers: seq<Offer>, row: Offer, rows: seq<Offer>)
    requires forall o :: o in offers ==> o.id != row.id
    ensures UpToDate(offers, [row] + rows) <==> UpToDate(offers, rows)
  {
    assert forall r :: r in [row] + rows <==> r == row || r in rows;
  }

  lemma MulIncreasing(c: nat, a: nat, b: nat)
    requires a <= b && c > 0
    ensures c * a <= c * b && (c * a == c * b <==> a == b)
  {
    var d := b - a;
    assert c * b == c * a + c * d;
    assert d > 0 ==> c * d > 0;
  }

  lemma RefundGold(row: Offer, offer: Offer)
    requires Tracks(row, offer) && offer.price > 0
    ensures Held(row) >= Held(offer)
    ensures Held(row) == Held(offer) <==> (row.side == Buy ==> row.amount == offer.amount)
  {
    MulIncreasing(offer.price, offer.amount, row.amount);
  }

  /** Paying back never destroys gold, and makes none exactly when the rows it reaches are up
      to date. */
  lemma {:induction false} PaidBackGold(s: State, rows: seq<Offer>, inboxFails: nat -> bool)
    requires
      && |s.coins| == |s.bank| && RowsOf(s.offers, |s.bank|, s.nextId) && RowsOf(rows, |s.bank|, s.nextId)
      && Agrees(s.offers, rows)
    ensures Gold(PaidBack(s, rows, inboxFails)) >= Gold(s)
    ensures Gold(PaidBack(s, rows, inboxFails)) == Gold(s) <==> UpToDate(s.offers, Reached(s.offers, rows, inboxFails))
    decreases |rows|, 1
  {
    if rows == [] {
    } else {
      var row, rest, k := rows[0], rows[1..], ById(s.offers, rows[0].id);
      RestOfRows(s.offers, rows, |s.bank|, s.nextId);
      if k == |s.offers| {
        PaidBackGold(s, rest, inboxFails);
        UpToDateGone(s.offers, row, Reached(s.offers, rest, inboxFails));
      } else {
        PaidBackFirst(s, rows, inboxFails, k);
      }
    }
  }

  lemma {:induction false} PaidBackFirst(s: State, rows: seq<Offer>, inboxFails: nat -> bool, k: nat)
    requires
      && |s.coins| == |s.bank| && RowsOf(s.offers, |s.bank|, s.nextId) && RowsOf(rows, |s.bank|, s.nextId)
      && Agrees(s.offers, rows)
    requires rows != [] && k == ById(s.offers, rows[0].id) < |s.offers|
    ensures Gold(PaidBack(s, rows, inboxFails)) >= Gold(s)
    ensures Gold(PaidBack(s, rows, inboxFails)) == Gold(s) <==> UpToDate(s.offers, Reached(s.offers, rows, inboxFails))
    decreases |rows|, 0
  {
    hide PaidBack, Reached, UpToDate, Gold, Held, RowsOf, Agrees, Credited;
    var row, rest, s1 := rows[0], rows[1..], Deleted(s, k);
    RestOfRows(s.offers, rows, |s.bank|, s.nextId);
    DeletedRows(s.offers, k, |s.bank|, s.nextId, rest);
    FirstTracks(s, rows, k);
    DeletedGold(s, k);
    ReachedElsewhere(s.offers, s1.offers, row.id, rest, inboxFails);
    FirstPaidBack(s, rows, inboxFails, k);
    if row.side == Buy {
      UpToDateFirst(s.offers, s1.offers, k, row, Reached(s.offers, rest, inboxFails));
      CreditedGold(s1, row.player, Held(row));
      CreditedKeeps(s1, row.player, Held(row));
      PaidBackGold(Credited(s1, row.player, Held(row)), rest, inboxFails);
    } else if inboxFails(row.id) {
      UpToDateFirst(s.offers, s1.offers, k, row, []);
      NothingLate(s1.offers);
    } else {
      UpToDateFirst(s.offers, s1.offers, k, row, Reached(s.offers, rest, inboxFails));
      PaidBackGold(s1, rest, inboxFails);
    }
  }

  lemma NothingLate(offers: seq<Offer>)
    ensures UpToDate(offers, [])
  {
  }

  lemma FirstTracks(s: State, rows: seq<Offer>, k: nat)
    requires RowsOf(s.offers, |s.bank|, s.nextId) && Agrees(s.offers, rows)
    requires rows != [] && k == ById(s.offers, rows[0].id) < |s.offers|
    ensures Held(rows[0]) >= Held(s.offers[k])
    ensures Held(rows[0]) == Held(s.offers[k]) <==> (rows[0].side == Buy ==> rows[0].amount == s.offers[k].amount)
    ensures rows[0].side == Sell ==> Held(s.offers[k]) == 0
    ensures forall i, j :: 0 <= i < j < |s.offers| ==> s.offers[i].id != s.offers[j].id
  {
    assert rows[0] in rows && s.offers[k] in s.offers;
    assert Tracks(rows[0], s.offers[k]) && s.offers[k].price > 0;
    RefundGold(rows[0], s.offers[k]);
  }

  /** One round of the loop for a row that is still there. */
  lemma FirstPaidBack(s: State, rows: seq<Offer>, inboxFails: nat -> bool, k: nat)
    requires rows != [] && k == ById(s.offers, rows[0].id) < |s.offers|
    ensures PaidBack(s, rows, inboxFails)
         == if rows[0].side == Buy then PaidBack(Credited(Deleted(s, k), rows[0].player, Held(rows[0])), rows[1..],
           inboxFails)
            else if inboxFails(rows[0].id) then Deleted(s, k) else PaidBack(Deleted(s, k), rows[1..], inboxFails)
    ensures Reached(s.offers, rows, inboxFails)
         == if rows[0].side == Sell && inboxFails(rows[0].id) then [rows[0]] + []
            else [rows[0]] + Reached(s.offers, rows[1..], inboxFails)
  {
    assert [rows[0]] + [] == [rows[0]];
  }

  lemma RestOfRows(offers: seq<Offer>, rows: seq<Offer>, players: nat, nextId: nat)
    requires RowsOf(rows, players, nextId) && Agrees(offers, rows) && rows != []
    ensures
      && RowsOf(rows[1..], players, nextId) && Agrees(offers, rows[1..])
      && forall r :: r in rows[1..] ==> r.id != rows[0].id
    ensures rows[0].player < players
  {
  }

  // ----- runs -----

  function Run(s: State, actions: seq<Action>): State
    decreases |actions|
  {
    if actions == [] then s else Run(Step(s, actions[0]), actions[1..])
  }

  /** No payment of the run meets a buy offer that was accepted in part after its query. */
  predicate OnTime(s: State, actions: seq<Action>)
    decreases |actions|
  {
    actions == []
    || (&& (actions[0].Expire? ==> UpToDate(s.offers, Reached(s.offers, Due(s), actions[0].inboxFails)))
        && OnTime(Step(s, actions[0]), actions[1..]))
  }

  lemma DueIsValid(s: State)
    requires Valid(s)
    ensures RowsOf(Due(s), |s.bank|, s.nextId) && Agrees(s.offers, Due(s)) && Gold(Rest(s)) == Gold(s)
  {
  }

  lemma StepGold(s: State, a: Action)
    requires Valid(s)
    ensures Gold(Step(s, a)) >= Gold(s)
    ensures Gold(Step(s, a)) == Gold(s) <==>
      (a.Expire? ==> UpToDate(s.offers, Reached(s.offers, Due(s), a.inboxFails)))
  {
    hide Created, Cancelled, Accepted, UpToDate, Reached, PaidBack, RowsOf, Agrees, Overdue;
    if Known(s, a) {
      match a
      case Create(_, _, _, _, _, _, _, _, _, _, _) => CreatedGold(s, a);
      case Cancel(_, _, _, _) => CancelledGold(s, a);
      case Accept(_, _, _, _, _, _, _, _) => AcceptedGold(s, a);
      case Select(limit) =>
      case Expire(inboxFails) =>
        DueIsValid(s);
        PaidBackGold(Rest(s), Due(s), inboxFails);
    }
  }

  /** Gold is conserved over a run exactly when every payment is on time. */
  lemma {:induction false} RunGold(s: State, actions: seq<Action>)
    requires Valid(s)
    ensures Valid(Run(s, actions)) && Gold(Run(s, actions)) >= Gold(s)
    ensures Gold(Run(s, actions)) == Gold(s) <==> OnTime(s, actions)
    decreases |actions|
  {
    hide Step, Gold, Valid, UpToDate, Reached;
    if actions != [] {
      StepKeepsValid(s, actions[0]);
      StepGold(s, actions[0]);
      RunGold(Step(s, actions[0]), actions[1..]);
    }
  }

  /** A balance is never more than all the gold, so it cannot wrap while that fits 64 bits. */
  lemma BalanceWithinGold(s: State, p: nat)
    requires p < |s.bank| && p < |s.coins|
    ensures s.bank[p] + s.coins[p] <= Gold(s)
  {
    SumUpdate(s.bank, p, 0);
    SumUpdate(s.coins, p, 0);
  }

  /** Nine of ten pieces are sold between the query and the payment; all ten are paid back. */
  lemma LatePaymentMakesGold(inboxFails: nat -> bool)
    ensures var s := State([0, 0], [0, 0], 0, [Offer(1, 0, Buy, 2160, 10, 100, 5)], 2, 0, []);
            var actions := [Select(7), Accept(1, 5, 1, 9, false, true, true, 0), Expire(inboxFails)];
            Valid(s) && Gold(s) == 1000 && Gold(Run(s, actions)) == 1900
  {
    hide Step, Run, Overdue, Reached, UpToDate;
    var offer, left := Offer(1, 0, Buy, 2160, 10, 100, 5), Offer(1, 0, Buy, 2160, 1, 100, 5);
    var s0 := State([0, 0], [0, 0], 0, [offer], 2, 0, []);
    var s1 := s0.(results := [[offer]]);
    var s2 := s1.(bank := [0, 900], offers := [left]);
    var s3 := s2.(bank := [1000, 900], offers := [], results := []);
    var a := Accept(1, 5, 1, 9, false, true, true, 0);
    var actions := [Select(7), a, Expire(inboxFails)];
    Selected(s0, offer);
    SoldInPart(s1, a, s2);
    PaidInFull(s2, inboxFails, s3);
    assert
      actions[1..] == [a, Expire(inboxFails)] && actions[1..][1..] == [Expire(inboxFails)]
      && actions[1..][1..][1..] == [];
    assert Step(s0, actions[0]) == s1 && Step(s1, actions[1..][0]) == s2 && Step(s2, actions[1..][1..][0]) == s3;
    RunFirst(s2, actions[1..][1..]);
    RunFirst(s1, actions[1..]);
    RunFirst(s0, actions);
    RunNothing(s3);
  }

  lemma RunFirst(s: State, actions: seq<Action>)
    requires actions != []
    ensures Run(s, actions) == Run(Step(s, actions[0]), actions[1..])
  {
  }

  lemma RunNothing(s: State)
    ensures Run(s, []) == s
  {
  }

  lemma Selected(s: State, offer: Offer)
    requires |s.coins| == |s.bank| && s.offers == [offer] && s.results == [] && offer.created <= 7
    ensures Step(s, Select(7)) == s.(results := [[offer]])
  {
    assert [offer][1..] == [] && Overdue([offer], 7) == [offer];
    assert [] + [[offer]] == [[offer]];
  }

  lemma SoldInPart(s1: State, a: Action, s2: State)
    requires a == Accept(1, 5, 1, 9, false, true, true, 0)
    requires s1 == State([0, 0], [0, 0], 0, [Offer(1, 0, Buy, 2160, 10, 100, 5)], 2, 0,
                         [[Offer(1, 0, Buy, 2160, 10, 100, 5)]])
    requires s2 == s1.(bank := [0, 900], offers := [Offer(1, 0, Buy, 2160, 1, 100, 5)])
    ensures Step(s1, a) == s2
  {
  }

  lemma PaidInFull(s2: State, inboxFails: nat -> bool, s3: State)
    requires s2 == State([0, 0], [0, 900], 0, [Offer(1, 0, Buy, 2160, 1, 100, 5)], 2, 0,
                         [[Offer(1, 0, Buy, 2160, 10, 100, 5)]])
    requires s3 == State([0, 0], [1000, 900], 0, [], 2, 0, [])
    ensures Step(s2, Expire(inboxFails)) == s3 && Gold(s3) == 1900
  {
    var row, rest := Due(s2)[0], Rest(s2);
    assert rest.results == [] && Due(s2)[1..] == [] && Deleted(rest, 0).offers == [];
    var paid := Credited(Deleted(rest, 0), 0, 1000);
    assert ById(s2.offers, row.id) == 0 && Held(row) == 1000;
    assert PaidBack(rest, Due(s2), inboxFails) == PaidBack(paid, [], inboxFails) == paid;
    assert paid.bank == [1000, 900];
    assert [0, 0][1..] == [0] && [0][1..] == [];
    assert [1000, 900][1..] == [900] && [900][1..] == [];
  }
}
