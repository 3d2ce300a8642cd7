/**
 * Trading between players: each has a state, a partner and an offered item, and the game keeps
 * a map of all offered items. The steps are given on snapshots of the player objects; module
 * TradeService holds the code.
 */
module Trade {
  import opened Basics

  datatype TradeState = NoTrade | Initiated | Accepting | Acknowledge | Transfer

  /** An item object; `references` counts what trades hold on it. */
  class Item {
    var references: nat

    constructor ()
      ensures references == 0
    {
      references := 0;
    }
  }

  class Player {
    const id: nat
    var tradeState: TradeState
    var tradePartner: Player?
    var tradeItem: Item?

    constructor (id: nat)
      ensures this.id == id && tradeState == NoTrade && tradePartner == null && tradeItem == null
    {
      this.id, tradeState, tradePartner, tradeItem := id, NoTrade, null, null;
    }
  }

  datatype Seat = Seat(state: TradeState, partner: Option<Player>, item: Option<Item>)

  const FREE := Seat(NoTrade, None, None)

  type Seats = map<Player, Seat>

  /** Every player's trade fields, `tradeItems`, the references held by trades, and for every
      item the containers around it. */
  datatype State = State(seats: Seats, offers: map<Item, nat>, refs: map<Item, nat>, above: map<Item, set<Item>>)

  function Around(s: State, i: Item): set<Item> {
    if i in s.above then s.above[i] else {}
  }

  // ----- the steps -----

  /** The two loops over `tradeItems` in `playerRequestTrade`. */
  predicate Blocked(s: State, item: Item) {
    exists i :: i in s.offers && (i == item || item in Around(s, i) || i in Around(s, item))
  }

  predicate MayStart(s: State, p: Player, q: Player)
    requires p in s.seats && q in s.seats
  {
    && (s.seats[p].state == NoTrade || (s.seats[p].state == Acknowledge && s.seats[p].partner == Some(q)))
    && (s.seats[q].state == NoTrade || s.seats[q].partner == Some(p))
  }

  function Started(s: State, p: Player, q: Player, item: Item): State
    requires p in s.seats && q in s.seats && item in s.refs
  {
    var seats := s.seats[p := Seat(Initiated, Some(q), Some(item))];
    s.(seats := if s.seats[q].state == NoTrade then seats[q := s.seats[q].(state := Acknowledge, partner := Some(p))]
      else seats,
       offers := s.offers[item := p.id], refs := s.refs[item := s.refs[item] + 1])
  }

  function Requested(s: State, p: Player, q: Player, item: Item, allowed: bool): State
    requires p in s.seats && q in s.seats && item in s.refs
  {
    if p != q && !Blocked(s, item) && allowed && MayStart(s, p, q) then Started(s, p, q, item) else s
  }

  /** The entry of an item, if there is one, and the reference that goes with it. */
  function Released(s: State, item: Option<Item>): State {
    if item.Some? && item.value in s.offers && item.value in s.refs && s.refs[item.value] > 0 then
      s.(offers := s.offers - {item.value}, refs := s.refs[item.value := s.refs[item.value] - 1])
    else s
  }

  function Vacated(s: State, p: Player): State
    requires p in s.seats
  {
    Released(s, s.seats[p].item).(seats := s.seats[p := FREE])
  }

  predicate InTransfer(s: State, p: Player)
    requires p in s.seats
  {
    s.seats[p].state == Transfer
    || (s.seats[p].partner.Some? && s.seats[p].partner.value in s.seats
        && s.seats[s.seats[p].partner.value].state == Transfer)
  }

  /** `internalCloseTrade`. */
  function Closed(s: State, p: Player): State
    requires p in s.seats
  {
    if InTransfer(s, p) then s
    else
      match s.seats[p].partner
      case None => Vacated(s, p)
      case Some(q) => if q in s.seats then Vacated(Vacated(s, p), q) else Vacated(s, p)
  }

  function WithState(s: State, p: Player, state: TradeState): State
    requires p in s.seats
  {
    s.(seats := s.seats[p := s.seats[p].(state := state)])
  }

  /** `playerAcceptTrade` up to the moving of the items. */
  function Accepted(s: State, p: Player, canThrow: bool, allowed: bool): State
    requires p in s.seats
  {
    var seat := s.seats[p];
    if !(seat.state == Acknowledge || seat.state == Initiated) || seat.partner == None
      || seat.partner.value !in s.seats then s
    else
      var q := seat.partner.value;
      var s' := WithState(s, p, Accepting);
      if s'.seats[q].state != Accepting then s'
      else if !canThrow || !allowed then Closed(s', p)
      else Released(Released(WithState(WithState(s', p, Transfer), q, Transfer), seat.item), s.seats[q].item)
  }

  /** The end of `playerAcceptTrade`, whether or not the items could be moved. */
  function Finished(s: State, p: Player): State
    requires p in s.seats
  {
    if s.seats[p].state != Transfer || s.seats[p].partner == None || s.seats[p].partner.value !in s.seats then s
    else s.(seats := s.seats[p := FREE][s.seats[p].partner.value := FREE])
  }

  function ClosedAll(s: State, list: seq<Player>): State
    decreases |list|
    ensures ClosedAll(s, list).above == s.above
  {
    if list == [] then s
    else ClosedAll(if list[0] in s.seats then Closed(s, list[0]) else s, list[1..])
  }

  /** The item and everything inside it have `outer` around them now. */
  function Relocated(s: State, x: Item, outer: set<Item>): State {
    s.(above := map i | i in s.above :: if i == x then outer
      else if x in s.above[i] then (s.above[i] - Around(s, x)) + outer else s.above[i])
  }

  predicate Touches(s: State, x: Item, outer: set<Item>, i: Item) {
    i == x || i in Around(s, x) || i in outer || x in Around(s, i)
  }

  /** `checkTradeState` and the tests beside it end every trade in which the moved item is
      offered, or lies in an offered item, or holds one. */
  predicate Notifies(s: State, x: Item, outer: set<Item>, list: seq<Player>) {
    forall p :: p in s.seats && s.seats[p].item.Some? && Touches(s, x, outer, s.seats[p].item.value) ==> p in list
  }

  datatype Action =
    | Request(p: Player, q: Player, item: Item, allowed: bool)
    | Accept(p: Player, canThrow: bool, allowed: bool)
    | Finish(p: Player)
    | Close(p: Player)
    | Move(x: Item, outer: set<Item>, notified: seq<Player>)

  predicate Possible(s: State, a: Action) {
    match a
    case Request(p, q, item, _) => p in s.seats && q in s.seats && item in s.refs
    case Accept(p, _, _) => p in s.seats
    case Finish(p) => p in s.seats
    case Close(p) => p in s.seats
    case Move(x, outer, notified) => Notifies(s, x, outer, notified)
  }

  function Step(s: State, a: Action): State {
    if !Possible(s, a) then s else
    match a
    case Request(p, q, item, allowed) => Requested(s, p, q, item, allowed)
    case Accept(p, canThrow, allowed) => Accepted(s, p, canThrow, allowed)
    case Finish(p) => Finished(s, p)
    case Close(p) => Closed(s, p)
    case Move(x, outer, notified) => Relocated(ClosedAll(s, notified), x, outer)
  }

  // ----- the invariant -----

  /** Partnership is mutual, a player is free exactly when there is no partner, and a transfer
      is a matter of both. */
  predicate Partners(seats: Seats) {
    forall p :: p in seats ==>
      && (seats[p].state == NoTrade <==> seats[p].partner == None)
      && (seats[p].partner.Some? ==> Mates(seats, p, seats[p].partner.value))
  }

  predicate Mates(seats: Seats, p: Player, q: Player) {
    p in seats && q in seats && p != q && seats[q].partner == Some(p)
      && (seats[p].state == Transfer <==> seats[q].state == Transfer)
  }

  predicate Tidy(seat: Seat) {
    && (seat.state == NoTrade || seat.state == Acknowledge ==> seat.item == None)
    && (seat.state == Initiated ==> seat.item.Some?)
  }

  /** A player holds an offered item from the offer to the acceptance. */
  predicate AllTidy(seats: Seats) {
    forall p :: p in seats ==> Tidy(seats[p])
  }

  predicate Offers(seat: Seat) {
    seat.item.Some? && seat.state != Transfer
  }

  /** `tradeItems` is the map from the offered items to their owners, and no item is offered
      twice. */
  ghost predicate Mapped(seats: Seats, offers: map<Item, nat>) {
    && (forall p ::
        p in seats && Offers(seats[p]) ==> seats[p].item.value in offers && offers[seats[p].item.value] == p.id)
    && (forall i :: i in offers ==> exists p :: p in seats && Offers(seats[p]) && seats[p].item.value == i)
    && (forall p, q ::
        p in seats && q in seats && Offers(seats[p]) && Offers(seats[q]) && seats[p].item == seats[q].item ==> p == q)
  }

  /** One reference is held for every entry. */
  predicate Counted(offers: map<Item, nat>, refs: map<Item, nat>) {
    && (forall i :: i in offers ==> i in refs)
    && (forall i :: i in refs ==> refs[i] == if i in offers then 1 else 0)
  }

  /** No offered item lies in another. */
  predicate Apart(s: State) {
    forall i, j :: i in s.offers && j in s.offers && i != j ==> i !in Around(s, j)
  }

  ghost predicate Inv(s: State) {
    Partners(s.seats) && AllTidy(s.seats) && Mapped(s.seats, s.offers) && Counted(s.offers, s.refs) && Apart(s)
  }

  /** Before anybody trades. */
  lemma FreshHasInv(s: State)
    requires
      && (forall p :: p in s.seats ==> s.seats[p] == FREE) && s.offers == map[]
      && forall i :: i in s.refs ==> s.refs[i] == 0
    ensures Inv(s)
  {
  }

  // ----- pairs -----

  /** Two players who have at most each other as partners get new seats that match. */
  lemma PairKeepsPartners(seats: Seats, p: Player, q: Player, a: Seat, b: Seat)
    requires Partners(seats) && p in seats && q in seats && p != q
    requires seats[p].partner == None || seats[p].partner == Some(q)
    requires seats[q].partner == None || seats[q].partner == Some(p)
    requires (a == FREE && b == FREE)
          || (a.partner == Some(q) && b.partner == Some(p) && a.state != NoTrade && b.state != NoTrade
              && (a.state == Transfer <==> b.state == Transfer))
    ensures Partners(seats[p := a][q := b])
  {
    var after := seats[p := a][q := b];
    forall r | r in after
      ensures
        && (after[r].state == NoTrade <==> after[r].partner == None)
        && (after[r].partner.Some? ==> Mates(after, r, after[r].partner.value))
    {
      if r != p && r != q && seats[r].partner.Some? {
        assert Mates(seats, r, seats[r].partner.value);
      }
    }
  }

  lemma StartKeepsPartners(s: State, p: Player, q: Player, item: Item)
    requires Partners(s.seats) && p in s.seats && q in s.seats && p != q && item in s.refs && MayStart(s, p, q)
    ensures Partners(Started(s, p, q, item).seats)
  {
    var b := if s.seats[q].state == NoTrade then s.seats[q].(state := Acknowledge, partner := Some(p)) else s.seats[q];
    PartnersOf(s.seats, p);
    PartnersOf(s.seats, q);
    hide Partners;
    PairKeepsPartners(s.seats, p, q, Seat(Initiated, Some(q), Some(item)), b);
    assert s.seats[p := Seat(Initiated, Some(q), Some(item))][q := b] == Started(s, p, q, item).seats;
  }

  lemma PartnersOf(seats: Seats, p: Player)
    requires Partners(seats) && p in seats
    ensures seats[p].state == NoTrade <==> seats[p].partner == None
    ensures seats[p].partner.Some? ==> Mates(seats, p, seats[p].partner.value)
  {
  }

  // ----- the map of offered items -----

  /** A free place in the map is taken by a player who offered nothing. */
  lemma OfferKeepsMapped(seats: Seats, offers: map<Item, nat>, p: Player, seat: Seat)
    requires Mapped(seats, offers) && p in seats && !Offers(seats[p])
    requires Offers(seat) && seat.item.value !in offers
    ensures Mapped(seats[p := seat], offers[seat.item.value := p.id])
  {
    var after, offers' := seats[p := seat], offers[seat.item.value := p.id];
    forall i | i in offers' ensures exists r :: r in after && Offers(after[r]) && after[r].item.value == i {
      if i == seat.item.value {
        assert Offers(after[p]);
      } else {
        var r: Player :| r in seats && Offers(seats[r]) && seats[r].item.value == i;
        assert Offers(after[r]);
      }
    }
  }

  /** A seat that offers the same item, or like the old one none. */
  lemma SameOfferKeepsMapped(seats: Seats, offers: map<Item, nat>, p: Player, seat: Seat)
    requires Mapped(seats, offers) && p in seats
    requires Offers(seat) <==> Offers(seats[p])
    requires Offers(seat) ==> seat.item == seats[p].item
    ensures Mapped(seats[p := seat], offers)
  {
    var after := seats[p := seat];
    forall i | i in offers ensures exists r :: r in after && Offers(after[r]) && after[r].item.value == i {
      var r: Player :| r in seats && Offers(seats[r]) && seats[r].item.value == i;
      assert Offers(after[r]);
    }
  }

  /** A player stops offering, and the item leaves the map. */
  lemma WithdrawKeepsMapped(seats: Seats, offers: map<Item, nat>, p: Player, seat: Seat)
    requires Mapped(seats, offers) && p in seats && Offers(seats[p]) && !Offers(seat)
    ensures Mapped(seats[p := seat], offers - {seats[p].item.value})
  {
    var after, offers' := seats[p := seat], offers - {seats[p].item.value};
    forall i | i in offers' ensures exists r :: r in after && Offers(after[r]) && after[r].item.value == i {
      var r: Player :| r in seats && Offers(seats[r]) && seats[r].item.value == i;
      assert Offers(after[r]);
    }
    forall r | r in after && Offers(after[r])
      ensures after[r].item.value in offers' && offers'[after[r].item.value] == r.id
    {
      assert r != p && seats[r].item != seats[p].item;
    }
  }

  lemma WithdrawKeepsCounted(s: State, item: Item)
    requires Counted(s.offers, s.refs) && item in s.offers
    ensures Released(s, Some(item)) == s.(offers := s.offers - {item}, refs := s.refs[item := 0])
    ensures Counted(s.offers - {item}, s.refs[item := 0])
  {
  }

  /** The part of the invariant that a new seat for one player keeps. */
  ghost predicate Kept(s: State) {
    AllTidy(s.seats) && Mapped(s.seats, s.offers) && Counted(s.offers, s.refs) && Apart(s)
  }

  /** What a player offers is taken back with the seat. */
  lemma ReleaseKeeps(s: State, p: Player, seat: Seat)
    requires Kept(s) && p in s.seats && Tidy(seat) && !Offers(seat) && s.seats[p].state != Transfer
    ensures Kept(Released(s, s.seats[p].item).(seats := s.seats[p := seat]))
    ensures Released(s, s.seats[p].item).above == s.above
  {
    hide Mapped, Counted;
    if Offers(s.seats[p]) {
      var i := s.seats[p].item.value;
      OfferIsMapped(s.seats, s.offers, p);
      WithdrawKeepsMapped(s.seats, s.offers, p, seat);
      WithdrawKeepsCounted(s, i);
    } else {
      SameOfferKeepsMapped(s.seats, s.offers, p, seat);
    }
  }

  lemma OfferIsMapped(seats: Seats, offers: map<Item, nat>, p: Player)
    requires Mapped(seats, offers) && p in seats && Offers(seats[p])
    ensures seats[p].item.value in offers
  {
  }

  lemma SeatKeeps(s: State, p: Player, seat: Seat)
    requires Kept(s) && p in s.seats && Tidy(seat)
    requires Offers(seat) <==> Offers(s.seats[p])
    requires Offers(seat) ==> seat.item == s.seats[p].item
    ensures Kept(s.(seats := s.seats[p := seat]))
  {
    hide Mapped, Counted;
    SameOfferKeepsMapped(s.seats, s.offers, p, seat);
  }

  // ----- the steps keep the invariant -----

  lemma RequestKeepsInv(s: State, p: Player, q: Player, item: Item, allowed: bool)
    requires Inv(s) && p in s.seats && q in s.seats && item in s.refs
    ensures Inv(Requested(s, p, q, item, allowed))
  {
    hide Partners, Mapped, Counted;
    if p != q && !Blocked(s, item) && MayStart(s, p, q) {
      StartKeepsPartners(s, p, q, item);
      var seat := Seat(Initiated, Some(q), Some(item));
      assert item !in s.offers;
      OfferKeepsMapped(s.seats, s.offers, p, seat);
      var s1 := s.(seats := s.seats[p := seat], offers := s.offers[item := p.id],
        refs := s.refs[item := s.refs[item] + 1]);
      OfferKeepsCounted(s, p, item);
      assert Kept(s1);
      if s.seats[q].state == NoTrade {
        SeatKeeps(s1, q, s.seats[q].(state := Acknowledge, partner := Some(p)));
      }
    }
  }

  lemma OfferKeepsCounted(s: State, p: Player, item: Item)
    requires Counted(s.offers, s.refs) && item in s.refs && item !in s.offers
    ensures Counted(s.offers[item := p.id], s.refs[item := s.refs[item] + 1])
  {
  }

  lemma CloseKeepsInv(s: State, p: Player)
    requires Inv(s) && p in s.seats
    ensures Inv(Closed(s, p))
  {
    PartnersOf(s.seats, p);
    hide Partners, Mapped, Counted, AllTidy, Apart, Released;
    if !InTransfer(s, p) {
      FreeIsTidy();
      ReleaseKeeps(s, p, FREE);
      var s1 := Vacated(s, p);
      if s.seats[p].partner.Some? {
        var q := s.seats[p].partner.value;
        ReleaseKeeps(s1, q, FREE);
        PairKeepsPartners(s.seats, p, q, FREE, FREE);
      } else {
        AloneKeepsPartners(s.seats, p);
      }
    }
  }

  lemma FreeIsTidy()
    ensures Tidy(FREE) && !Offers(FREE)
  {
  }

  lemma AloneKeepsPartners(seats: Seats, p: Player)
    requires Partners(seats) && p in seats && seats[p].partner == None
    ensures Partners(seats[p := FREE])
  {
    var after := seats[p := FREE];
    forall r | r in after && after[r].partner.Some? ensures Mates(after, r, after[r].partner.value) {
      assert Mates(seats, r, seats[r].partner.value);
    }
  }

  lemma AcceptKeepsInv(s: State, p: Player, canThrow: bool, allowed: bool)
    requires Inv(s) && p in s.seats
    ensures Inv(Accepted(s, p, canThrow, allowed))
  {
    PartnersOf(s.seats, p);
    hide Partners, Mapped, Counted, AllTidy, Apart, Released, Closed;
    var seat := s.seats[p];
    if (seat.state == Acknowledge || seat.state == Initiated) && seat.partner.Some? {
      var q := seat.partner.value;
      var accepting := seat.(state := Accepting);
      var s1 := WithState(s, p, Accepting);
      PartnersOf(s.seats, q);
      PairKeepsPartners(s.seats, p, q, accepting, s.seats[q]);
      assert s.seats[p := accepting][q := s.seats[q]] == s1.seats;
      SeatKeeps(s, p, accepting);
      if s1.seats[q].state == Accepting {
        CloseKeepsInv(s1, p);
        TransferKeepsInv(s1, p, q);
      }
    }
  }

  lemma TransferKeepsInv(s: State, p: Player, q: Player)
    requires Inv(s) && p in s.seats && Mates(s.seats, p, q) && s.seats[p].partner == Some(q)
    requires s.seats[p].state == Accepting && s.seats[q].state == Accepting
    ensures Inv(Released(Released(WithState(WithState(s, p, Transfer), q, Transfer), s.seats[p].item), s.seats[q].item))
  {
    hide Partners, Mapped, Counted, AllTidy, Apart;
    var a, b := s.seats[p].(state := Transfer), s.seats[q].(state := Transfer);
    PairKeepsPartners(s.seats, p, q, a, b);
    ReleaseKeeps(s, p, a);
    var s1 := Released(s, s.seats[p].item).(seats := s.seats[p := a]);
    ReleaseKeeps(s1, q, b);
  }

  lemma FinishKeepsInv(s: State, p: Player)
    requires Inv(s) && p in s.seats
    ensures Inv(Finished(s, p))
  {
    PartnersOf(s.seats, p);
    hide Partners, Mapped, Counted, AllTidy, Apart;
    if s.seats[p].state == Transfer && s.seats[p].partner.Some? {
      var q := s.seats[p].partner.value;
      FreeIsTidy();
      PairKeepsPartners(s.seats, p, q, FREE, FREE);
      SeatKeeps(s, p, FREE);
      SeatKeeps(s.(seats := s.seats[p := FREE]), q, FREE);
    }
  }

  // ----- moving items -----

  /** A close leaves every seat as it is or frees it; the closed player offers nothing. */
  lemma CloseFrees(s: State, p: Player)
    requires Inv(s) && p in s.seats
    ensures Closed(s, p).seats.Keys == s.seats.Keys && !Offers(Closed(s, p).seats[p])
    ensures forall r :: r in s.seats ==> Closed(s, p).seats[r] == s.seats[r] || Closed(s, p).seats[r] == FREE
  {
    PartnersOf(s.seats, p);
    hide Partners, Mapped, Counted, AllTidy, Apart, Released;
  }

  lemma {:induction false} CloseAllFrees(s: State, list: seq<Player>)
    requires Inv(s)
    ensures Inv(ClosedAll(s, list)) && ClosedAll(s, list).seats.Keys == s.seats.Keys
    ensures forall p :: p in list && p in s.seats ==> !Offers(ClosedAll(s, list).seats[p])
    ensures forall r ::
      r in s.seats ==> ClosedAll(s, list).seats[r] == s.seats[r] || ClosedAll(s, list).seats[r] == FREE
    decreases |list|
  {
    hide Inv, Closed;
    if list != [] {
      var p := list[0];
      if p in s.seats {
        CloseKeepsInv(s, p);
        CloseFrees(s, p);
        CloseAllFrees(Closed(s, p), list[1..]);
      } else {
        CloseAllFrees(s, list[1..]);
      }
    }
  }

  lemma MoveKeepsInv(s: State, x: Item, outer: set<Item>, notified: seq<Player>)
    requires Inv(s) && Notifies(s, x, outer, notified)
    ensures Inv(Relocated(ClosedAll(s, notified), x, outer))
  {
    CloseAllFrees(s, notified);
    hide Partners, Mapped, Counted, AllTidy, ClosedAll;
    var s1 := ClosedAll(s, notified);
    var s2 := Relocated(s1, x, outer);
    forall i, j | i in s2.offers && j in s2.offers && i != j ensures i !in Around(s2, j) {
      var p := OwnerOf(s1.seats, s1.offers, j);
      assert p !in notified && s.seats[p].item == Some(j);
      assert !Touches(s, x, outer, j);
      assert Around(s2, j) == Around(s1, j);
    }
  }

  lemma OwnerOf(seats: Seats, offers: map<Item, nat>, i: Item) returns (p: Player)
    requires Mapped(seats, offers) && i in offers
    ensures p in seats && Offers(seats[p]) && seats[p].item.value == i
  {
    p :| p in seats && Offers(seats[p]) && seats[p].item.value == i;
  }

  // ----- runs -----

  function Run(s: State, actions: seq<Action>): State
    decreases |actions|
  {
    if actions == [] then s else Run(Step(s, actions[0]), actions[1..])
  }

  lemma StepKeepsInv(s: State, a: Action)
    requires Inv(s)
    ensures Inv(Step(s, a))
  {
    hide Inv, Requested, Accepted, Finished, Closed, Relocated, ClosedAll;
    if Possible(s, a) {
      match a
      case Request(p, q, item, allowed) => RequestKeepsInv(s, p, q, item, allowed);
      case Accept(p, canThrow, allowed) => AcceptKeepsInv(s, p, canThrow, allowed);
      case Finish(p) => FinishKeepsInv(s, p);
      case Close(p) => CloseKeepsInv(s, p);
      case Move(x, outer, notified) => MoveKeepsInv(s, x, outer, notified);
    }
  }

  /** Whatever any number of players request, accept, close and move, the invariant holds. */
  lemma {:induction false} RunKeepsInv(s: State, actions: seq<Action>)
    requires Inv(s)
    ensures Inv(Run(s, actions))
    decreases |actions|
  {
    hide Inv, Step;
    if actions != [] {
      StepKeepsInv(s, actions[0]);
      RunKeepsInv(Step(s, actions[0]), actions[1..]);
    }
  }

  predicate Ends(a: Action, p: Player, q: Player) {
    a == Finish(p) || a == Finish(q)
  }

  /** Between the start and the end of a transfer nothing changes the two seats: no close, no
      request and no moved item ends it. */
  lemma {:induction false} TransferLasts(s: State, actions: seq<Action>, p: Player, q: Player)
    requires Inv(s) && p in s.seats && s.seats[p].state == Transfer && s.seats[p].partner == Some(q)
    requires forall a :: a in actions ==> !Ends(a, p, q)
    ensures q in s.seats && p in Run(s, actions).seats && q in Run(s, actions).seats
    ensures Run(s, actions).seats[p] == s.seats[p] && Run(s, actions).seats[q] == s.seats[q]
    decreases |actions|
  {
    PartnersOf(s.seats, p);
    hide Inv, Step;
    if actions != [] {
      StepKeepsInv(s, actions[0]);
      StepKeepsTransfer(s, actions[0], p, q);
      assert forall a :: a in actions[1..] ==> a in actions;
      TransferLasts(Step(s, actions[0]), actions[1..], p, q);
    }
  }

  lemma StepKeepsTransfer(s: State, a: Action, p: Player, q: Player)
    requires Inv(s) && p in s.seats && s.seats[p].state == Transfer && s.seats[p].partner == Some(q) && !Ends(a, p, q)
    ensures q in s.seats && p in Step(s, a).seats && q in Step(s, a).seats
    ensures Step(s, a).seats[p] == s.seats[p] && Step(s, a).seats[q] == s.seats[q]
  {
    PartnersOf(s.seats, p);
    PartnersOf(s.seats, q);
    hide Inv, Requested, Accepted, Finished, Closed, ClosedAll;
    if Possible(s, a) {
      match a
      case Request(r, _, item, allowed) => RequestElsewhere(s, a.p, a.q, item, allowed, p);
        RequestElsewhere(s, a.p, a.q, item, allowed, q);
      case Accept(r, canThrow, allowed) => AcceptElsewhere(s, r, canThrow, allowed, p);
        AcceptElsewhere(s, r, canThrow, allowed, q);
      case Finish(r) => FinishElsewhere(s, r, p, q);
      case Close(r) => CloseElsewhere(s, r, p);
        CloseElsewhere(s, r, q);
      case Move(x, outer, notified) => CloseAllElsewhere(s, notified, p);
        CloseAllElsewhere(s, notified, q);
    }
  }

  lemma RequestElsewhere(s: State, p: Player, q: Player, item: Item, allowed: bool, r: Player)
    requires Inv(s) && p in s.seats && q in s.seats && item in s.refs && r in s.seats && s.seats[r].state == Transfer
    ensures r in Requested(s, p, q, item, allowed).seats && Requested(s, p, q, item, allowed).seats[r] == s.seats[r]
  {
    PartnersOf(s.seats, q);
    hide Inv, Blocked;
  }

  lemma CloseElsewhere(s: State, p: Player, r: Player)
    requires Inv(s) && p in s.seats && r in s.seats && s.seats[r].state == Transfer
    ensures r in Closed(s, p).seats && Closed(s, p).seats[r] == s.seats[r]
  {
    PartnersOf(s.seats, p);
    hide Inv;
  }

  lemma {:induction false} CloseAllElsewhere(s: State, list: seq<Player>, r: Player)
    requires Inv(s) && r in s.seats && s.seats[r].state == Transfer
    ensures r in ClosedAll(s, list).seats && ClosedAll(s, list).seats[r] == s.seats[r]
    decreases |list|
  {
    hide Inv, Closed;
    if list != [] {
      if list[0] in s.seats {
        CloseKeepsInv(s, list[0]);
        CloseElsewhere(s, list[0], r);
        CloseAllElsewhere(Closed(s, list[0]), list[1..], r);
      } else {
        CloseAllElsewhere(s, list[1..], r);
      }
    }
  }

  lemma AcceptElsewhere(s: State, p: Player, canThrow: bool, allowed: bool, r: Player)
    requires Inv(s) && p in s.seats && r in s.seats && s.seats[r].state == Transfer
    ensures r in Accepted(s, p, canThrow, allowed).seats && Accepted(s, p, canThrow, allowed).seats[r] == s.seats[r]
  {
    PartnersOf(s.seats, p);
    hide Inv;
  }

  lemma FinishElsewhere(s: State, r: Player, p: Player, q: Player)
    requires Inv(s) && r in s.seats && r != p && r != q
    requires p in s.seats && s.seats[p].partner == Some(q) && Mates(s.seats, p, q)
    ensures p in Finished(s, r).seats && Finished(s, r).seats[p] == s.seats[p]
    ensures q in Finished(s, r).seats && Finished(s, r).seats[q] == s.seats[q]
  {
    PartnersOf(s.seats, r);
    hide Inv;
  }
}
