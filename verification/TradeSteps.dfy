/**
 * What each step of a trade does to the two players, to everybody else, and to the map of offered
 * items, told by the states before and after it.
 */
module TradeSteps {
  import opened Basics
  import opened Trade

  /** Nobody but these two has another seat. */
  predicate OnlyThese(s: State, s': State, p: Player, q: Player) {
    s'.seats.Keys == s.seats.Keys && s'.above == s.above
    && forall r :: r in s.seats && r != p && r != q ==> s'.seats[r] == s.seats[r]
  }

  /** Entry and reference of these items are gone, and those of all others are as they were. */
  predicate Withdrawn(s: State, s': State, items: set<Item>) {
    && s'.offers == s.offers - items && s'.refs.Keys == s.refs.Keys
    && forall i :: i in s.refs ==> s'.refs[i] == if i in items then 0 else s.refs[i]
  }

  /** What a seat offers. */
  function Offered(seat: Seat): set<Item> {
    if seat.item.Some? then {seat.item.value} else {}
  }

  /** Two players who can begin a trade with each other. */
  predicate BothFree(s: State, p: Player, q: Player) {
    p in s.seats && q in s.seats && s.seats[p] == FREE && s.seats[q] == FREE
  }

  // ----- requests -----

  /** The item is offered, lies in an offered one or holds one. */
  predicate Entangled(s: State, item: Item) {
    exists i :: i in s.offers && (i == item || item in Around(s, i) || i in Around(s, item))
  }

  /** A request begins a trade exactly when nothing speaks against it; the item is then entered
      for the player, and a partner who was free has been asked. */
  lemma RequestStartsExactlyWhen(s: State, p: Player, q: Player, item: Item, allowed: bool)
    requires Inv(s) && p in s.seats && q in s.seats && item in s.refs
    ensures var s' := Step(s, Request(p, q, item, allowed));
      if p != q && allowed && !Entangled(s, item)
         && (s.seats[p].partner == None || (s.seats[p].state == Acknowledge && s.seats[p].partner == Some(q)))
         && (s.seats[q].partner == None || s.seats[q].partner == Some(p)) then
        && OnlyThese(s, s', p, q) && s'.seats[p] == Seat(Initiated, Some(q), Some(item))
        && s'.seats[q] == (if s.seats[q].partner == None then Seat(Acknowledge, Some(p), None) else s.seats[q])
        && s'.offers == s.offers[item := p.id] && s'.refs == s.refs[item := 1]
      else s' == s
  {
    PartnersOf(s.seats, p);
    PartnersOf(s.seats, q);
    hide Partners, Mapped, Apart;
    assert Entangled(s, item) <==> Blocked(s, item);
  }

  /** Two free players can begin a trade with any item that is entangled with none. */
  lemma FreePlayersCanStart(s: State, p: Player, q: Player, item: Item)
    requires Inv(s) && BothFree(s, p, q) && p != q && item in s.refs && !Entangled(s, item)
    ensures Step(s, Request(p, q, item, true)).seats[p] == Seat(Initiated, Some(q), Some(item))
  {
    hide Inv;
    RequestStartsExactlyWhen(s, p, q, item, true);
  }

  // ----- acceptances -----

  predicate CanAccept(s: State, p: Player, q: Player) {
    && p in s.seats && q in s.seats && s.seats[p].partner == Some(q)
    && (s.seats[p].state == Acknowledge || s.seats[p].state == Initiated)
  }

  /** The first to accept waits, and nothing else changes. */
  lemma FirstAcceptanceWaits(s: State, p: Player, q: Player, canThrow: bool, allowed: bool)
    requires Inv(s) && CanAccept(s, p, q) && s.seats[q].state != Accepting
    ensures Step(s, Accept(p, canThrow, allowed)) == s.(seats := s.seats[p := s.seats[p].(state := Accepting)])
  {
    PartnersOf(s.seats, p);
    hide Inv;
  }

  /** What becomes of the entries does not depend on the seats. */
  lemma SeatsAside(s: State, seats: Seats, item: Option<Item>)
    ensures Released(s.(seats := seats), item) == Released(s, item).(seats := seats)
  {
  }

  /** The entries of two items are taken back one after the other. */
  function BothReleased(s: State, a: Option<Item>, b: Option<Item>): State {
    Released(Released(s, a), b)
  }

  lemma VacatedBoth(s: State, p: Player, q: Player)
    requires p in s.seats && q in s.seats && p != q
    ensures Vacated(Vacated(s, p), q)
         == BothReleased(s, s.seats[p].item, s.seats[q].item).(seats := s.seats[p := FREE][q := FREE])
  {
    hide Released;
    SeatsAside(s, s.seats, s.seats[p].item);
    SeatsAside(Released(s, s.seats[p].item), s.seats[p := FREE], s.seats[q].item);
  }

  lemma TakenBack(s: State, p: Player, q: Player)
    requires Mapped(s.seats, s.offers) && Counted(s.offers, s.refs) && p in s.seats && q in s.seats && p != q
    requires s.seats[p].state != Transfer && s.seats[q].state != Transfer
    ensures var s' := BothReleased(s, s.seats[p].item, s.seats[q].item);
      Withdrawn(s, s', Offered(s.seats[p]) + Offered(s.seats[q])) && s'.seats == s.seats && s'.above == s.above
  {
    var a, b := s.seats[p].item, s.seats[q].item;
    if a.Some? {
      OfferIsMapped(s.seats, s.offers, p);
    }
    if b.Some? {
      OfferIsMapped(s.seats, s.offers, q);
    }
    hide Mapped;
  }

  /** The second begins the transfer of both items, which are offered no longer, or, if the players
      cannot reach each other or a script objects, ends the trade. */
  lemma SecondAcceptanceDecides(s: State, p: Player, q: Player, canThrow: bool, allowed: bool)
    requires Inv(s) && CanAccept(s, p, q) && s.seats[q].state == Accepting
    ensures var s' := Step(s, Accept(p, canThrow, allowed));
      && OnlyThese(s, s', p, q)
      && Withdrawn(s, s', Offered(s.seats[p]) + Offered(s.seats[q]))
      && (if canThrow && allowed then
            s'.seats[p] == s.seats[p].(state := Transfer) && s'.seats[q] == s.seats[q].(state := Transfer)
          else s'.seats[p] == FREE && s'.seats[q] == FREE)
  {
    PartnersOf(s.seats, p);
    TakenBack(s, p, q);
    SecondAcceptance(s, p, q, canThrow, allowed);
    hide Inv, Withdrawn, BothReleased, Offered, Step;
    var a, b := s.seats[p].item, s.seats[q].item;
    var items := Offered(s.seats[p]) + Offered(s.seats[q]);
    WithdrawnAside(s, BothReleased(s, a, b), Step(s, Accept(p, canThrow, allowed)).seats, items);
  }

  lemma SecondAcceptance(s: State, p: Player, q: Player, canThrow: bool, allowed: bool)
    requires CanAccept(s, p, q) && s.seats[q].state == Accepting && p != q && s.seats[q].partner == Some(p)
    ensures Step(s, Accept(p, canThrow, allowed))
         == BothReleased(s, s.seats[p].item, s.seats[q].item).(
              seats := if canThrow && allowed then
                         s.seats[p := s.seats[p].(state := Transfer)][q := s.seats[q].(state := Transfer)]
                       else s.seats[p := FREE][q := FREE])
  {
    hide Released, Vacated;
    var a, b, s1 := s.seats[p].item, s.seats[q].item, WithState(s, p, Accepting);
    var s2 := WithState(WithState(s1, p, Transfer), q, Transfer);
    VacatedBoth(s1, p, q);
    EntriesAside(s, s1.seats, a, b);
    EntriesAside(s, s2.seats, a, b);
    assert s1.seats[p := FREE] == s.seats[p := FREE];
    assert s2.seats == s.seats[p := s.seats[p].(state := Transfer)][q := s.seats[q].(state := Transfer)];
  }

  lemma EntriesAside(s: State, seats: Seats, a: Option<Item>, b: Option<Item>)
    ensures BothReleased(s.(seats := seats), a, b) == BothReleased(s, a, b).(seats := seats)
  {
    SeatsAside(s, seats, a);
    SeatsAside(Released(s, a), seats, b);
  }

  lemma WithdrawnAside(s: State, s': State, seats: Seats, items: set<Item>)
    requires Withdrawn(s, s', items)
    ensures Withdrawn(s, s'.(seats := seats), items)
  {
  }

  /** Nobody else's acceptance does anything. */
  lemma OtherAcceptancesDoNothing(s: State, p: Player, canThrow: bool, allowed: bool)
    requires Inv(s) && p in s.seats && (s.seats[p].state == NoTrade || s.seats[p].state == Accepting
                                        || s.seats[p].state == Transfer)
    ensures Step(s, Accept(p, canThrow, allowed)) == s
  {
  }

  // ----- ends -----

  /** The end of a transfer frees both players and changes nothing else. */
  lemma FinishFreesBoth(s: State, p: Player, q: Player)
    requires Inv(s) && p in s.seats && s.seats[p].state == Transfer && s.seats[p].partner == Some(q)
    ensures var s' := Step(s, Finish(p));
      p != q && BothFree(s', p, q) && OnlyThese(s, s', p, q) && s'.offers == s.offers && s'.refs == s.refs
  {
    PartnersOf(s.seats, p);
    hide Inv;
  }

  /** Both can then begin another trade, also with each other. */
  lemma FinishLetsTradeAgain(s: State, p: Player, q: Player, item: Item)
    requires Inv(s) && p in s.seats && s.seats[p].state == Transfer && s.seats[p].partner == Some(q)
    requires item in s.refs && !Entangled(s, item)
    ensures var s' := Step(s, Finish(p));
      && p in s'.seats && q in s'.seats && item in s'.refs
      && Step(s', Request(p, q, item, true)).seats[p] == Seat(Initiated, Some(q), Some(item))
      && Step(s', Request(q, p, item, true)).seats[q] == Seat(Initiated, Some(p), Some(item))
  {
    hide Inv, Step, Around;
    FinishFreesBoth(s, p, q);
    StepKeepsInv(s, Finish(p));
    AroundAside(s, Step(s, Finish(p)));
    FreePlayersCanStart(Step(s, Finish(p)), p, q, item);
    FreePlayersCanStart(Step(s, Finish(p)), q, p, item);
  }

  lemma AroundAside(s: State, s': State)
    requires s'.above == s.above
    ensures forall i :: Around(s', i) == Around(s, i)
  {
  }

  /** A close outside a transfer frees the player and the partner, and takes back what both offer;
      inside one it does nothing. */
  lemma CloseFreesBoth(s: State, p: Player)
    requires Inv(s) && p in s.seats
    ensures var s' := Step(s, Close(p));
      match s.seats[p].partner
      case None => s' == s
      case Some(q) =>
        if s.seats[p].state == Transfer then s' == s
        else
          && q in s.seats && BothFree(s', p, q) && OnlyThese(s, s', p, q)
          && Withdrawn(s, s', Offered(s.seats[p]) + Offered(s.seats[q]))
  {
    PartnersOf(s.seats, p);
    if s.seats[p].partner.Some? && s.seats[p].state != Transfer {
      var q := s.seats[p].partner.value;
      TakenBack(s, p, q);
      VacatedBoth(s, p, q);
      WithdrawnAside(s, BothReleased(s, s.seats[p].item, s.seats[q].item), s.seats[p := FREE][q := FREE],
        Offered(s.seats[p]) + Offered(s.seats[q]));
      hide Inv, Withdrawn, Released, Vacated, Offered;
    } else if s.seats[p].partner == None {
      FreeSeat(s, p);
    }
  }

  lemma FreeSeat(s: State, p: Player)
    requires AllTidy(s.seats) && p in s.seats && s.seats[p].state == NoTrade && s.seats[p].partner == None
    ensures Vacated(s, p) == s
  {
    assert s.seats[p := FREE] == s.seats;
  }

  // ----- moved items -----

  /** A player who is not notified, and whose partner is not, keeps the seat. */
  lemma {:induction false} OthersKeepSeats(s: State, list: seq<Player>, r: Player)
    requires Inv(s) && r in s.seats && r !in list && (s.seats[r].partner.Some? ==> s.seats[r].partner.value !in list)
    ensures r in ClosedAll(s, list).seats && ClosedAll(s, list).seats[r] == s.seats[r]
    decreases |list|
  {
    hide Inv, Closed, Withdrawn, BothFree;
    if list != [] {
      var p := list[0];
      if p in s.seats {
        CloseFreesBoth(s, p);
        CloseKeepsInv(s, p);
        PartnerOrFree(s, p);
        OthersKeepSeats(Closed(s, p), list[1..], r);
      } else {
        OthersKeepSeats(s, list[1..], r);
      }
    }
  }

  /** A notified player, and the partner, are free afterwards, unless they are in a transfer. */
  lemma {:induction false} NotifiedAreFree(s: State, list: seq<Player>, p: Player)
    requires Inv(s) && p in s.seats && p in list && s.seats[p].state != Transfer
    ensures p in ClosedAll(s, list).seats && ClosedAll(s, list).seats[p] == FREE
    ensures s.seats[p].partner.Some? ==>
      && s.seats[p].partner.value in ClosedAll(s, list).seats
      && ClosedAll(s, list).seats[s.seats[p].partner.value] == FREE
    decreases |list|
  {
    hide Inv, Closed, Withdrawn;
    var x := list[0];
    if x in s.seats {
      var s1 := Closed(s, x);
      CloseFreesBoth(s, x);
      CloseKeepsInv(s, x);
      PartnerOrFree(s, p);
      PartnerOrFree(s, x);
      if s1.seats[p] == FREE {
        CloseAllFrees(s1, list[1..]);
      } else {
        NotifiedAreFree(s1, list[1..], p);
      }
    } else {
      NotifiedAreFree(s, list[1..], p);
    }
  }

  lemma PartnerOrFree(s: State, p: Player)
    requires Inv(s) && p in s.seats
    ensures match s.seats[p].partner
      case None => s.seats[p] == FREE
      case Some(q) => p != q && q in s.seats && s.seats[q].partner == Some(p)
                      && (s.seats[p].state == Transfer <==> s.seats[q].state == Transfer)
  {
    PartnersOf(s.seats, p);
    hide Partners;
    assert Tidy(s.seats[p]);
  }

  /** Moving an item ends every trade it touches and no other. */
  lemma MoveEndsTouched(s: State, x: Item, outer: set<Item>, notified: seq<Player>, p: Player)
    requires Inv(s) && Notifies(s, x, outer, notified) && p in s.seats
    ensures var s' := Step(s, Move(x, outer, notified));
      && p in s'.seats
      && (s.seats[p].state != Transfer && s.seats[p].item.Some? && Touches(s, x, outer, s.seats[p].item.value) ==>
            s'.seats[p] == FREE)
      && (p !in notified && (s.seats[p].partner.Some? ==> s.seats[p].partner.value !in notified) ==>
            s'.seats[p] == s.seats[p])
  {
    hide Inv, ClosedAll, Touches;
    CloseAllFrees(s, notified);
    if p in notified && s.seats[p].state != Transfer {
      NotifiedAreFree(s, notified, p);
    }
    if p !in notified && (s.seats[p].partner.Some? ==> s.seats[p].partner.value !in notified) {
      OthersKeepSeats(s, notified, p);
    }
  }
}
