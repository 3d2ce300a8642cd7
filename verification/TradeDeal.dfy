/**
 * What a player has accepted: between the acceptance and the answer of the partner the deal
 * stands as it was, except that a partner who had offered nothing can still make an offer.
 */
module TradeDeal {
  import opened Basics
  import opened Trade

  predicate Waiting(s: State, q: Player, p: Player) {
    q in s.seats && p in s.seats && s.seats[q].state == Accepting && s.seats[q].partner == Some(p)
  }

  /** The one who waits has the same seat, and an item of the partner's is still the one offered. */
  predicate Stands(s: State, s': State, q: Player, p: Player)
    requires q in s.seats && p in s.seats
  {
    && q in s'.seats && p in s'.seats && s'.seats[q] == s.seats[q]
    && (s.seats[p].item.Some? ==> s'.seats[p].item == s.seats[p].item)
  }

  /** After a step the deal stands, or the waiting is over. */
  predicate StandsOrOver(s: State, s': State, q: Player, p: Player)
    requires q in s.seats && p in s.seats
  {
    q in s'.seats && (s'.seats[q].state == Accepting ==> Stands(s, s', q, p))
  }

  lemma RequestLeavesDeal(s: State, q: Player, p: Player, r: Player, t: Player, item: Item, allowed: bool)
    requires Inv(s) && Waiting(s, q, p) && r in s.seats && t in s.seats && item in s.refs
    ensures StandsOrOver(s, Requested(s, r, t, item, allowed), q, p)
  {
    hide Blocked, Mapped, Counted, Apart;
    PartnersOf(s.seats, q);
    PartnersOf(s.seats, p);
  }

  lemma AcceptLeavesDeal(s: State, q: Player, p: Player, r: Player, canThrow: bool, allowed: bool)
    requires Inv(s) && Waiting(s, q, p) && r in s.seats
    ensures StandsOrOver(s, Accepted(s, r, canThrow, allowed), q, p)
  {
    hide Mapped, Counted, Apart, AllTidy;
    PartnersOf(s.seats, q);
    PartnersOf(s.seats, p);
    PartnersOf(s.seats, r);
  }

  lemma FinishLeavesDeal(s: State, q: Player, p: Player, r: Player)
    requires Inv(s) && Waiting(s, q, p) && r in s.seats
    ensures StandsOrOver(s, Finished(s, r), q, p)
  {
    hide Mapped, Counted, Apart, AllTidy;
    PartnersOf(s.seats, q);
    PartnersOf(s.seats, p);
    PartnersOf(s.seats, r);
  }

  lemma CloseLeavesDeal(s: State, q: Player, p: Player, r: Player)
    requires Inv(s) && Waiting(s, q, p) && r in s.seats
    ensures StandsOrOver(s, Closed(s, r), q, p)
  {
    hide Mapped, Counted, Apart, AllTidy;
    PartnersOf(s.seats, q);
    PartnersOf(s.seats, p);
    PartnersOf(s.seats, r);
  }

  lemma CloseAcceptsNothing(s: State, q: Player, r: Player)
    requires q in s.seats && r in s.seats && s.seats[q].state != Accepting
    ensures q in Closed(s, r).seats && Closed(s, r).seats[q].state != Accepting
  {
  }

  lemma {:induction false} CloseAllAcceptsNothing(s: State, q: Player, list: seq<Player>)
    requires q in s.seats && s.seats[q].state != Accepting
    ensures q in ClosedAll(s, list).seats && ClosedAll(s, list).seats[q].state != Accepting
    decreases |list|
  {
    hide Closed;
    if list != [] {
      if list[0] in s.seats {
        CloseAcceptsNothing(s, q, list[0]);
        CloseAllAcceptsNothing(Closed(s, list[0]), q, list[1..]);
      } else {
        CloseAllAcceptsNothing(s, q, list[1..]);
      }
    }
  }

  lemma {:induction false} CloseAllLeavesDeal(s: State, q: Player, p: Player, list: seq<Player>)
    requires Inv(s) && Waiting(s, q, p)
    ensures StandsOrOver(s, ClosedAll(s, list), q, p)
    decreases |list|
  {
    hide Inv, Closed;
    if list != [] {
      if list[0] in s.seats {
        var s1 := Closed(s, list[0]);
        CloseKeepsInv(s, list[0]);
        CloseLeavesDeal(s, q, p, list[0]);
        if s1.seats[q].state == Accepting {
          CloseAllLeavesDeal(s1, q, p, list[1..]);
        } else {
          CloseAllAcceptsNothing(s1, q, list[1..]);
        }
      } else {
        CloseAllLeavesDeal(s, q, p, list[1..]);
      }
    }
  }

  lemma StepLeavesDeal(s: State, a: Action, q: Player, p: Player)
    requires Inv(s) && Waiting(s, q, p)
    ensures StandsOrOver(s, Step(s, a), q, p)
  {
    hide Inv, Requested, Accepted, Finished, Closed, ClosedAll;
    if Possible(s, a) {
      match a
      case Request(r, t, item, allowed) => RequestLeavesDeal(s, q, p, r, t, item, allowed);
      case Accept(r, canThrow, allowed) => AcceptLeavesDeal(s, q, p, r, canThrow, allowed);
      case Finish(r) => FinishLeavesDeal(s, q, p, r);
      case Close(r) => CloseLeavesDeal(s, q, p, r);
      case Move(x, outer, notified) => CloseAllLeavesDeal(s, q, p, notified);
    }
  }

  /** The player waits all through the run. */
  predicate StillWaiting(s: State, actions: seq<Action>, q: Player)
    decreases |actions|
  {
    && q in s.seats && s.seats[q].state == Accepting
    && (actions == [] || StillWaiting(Step(s, actions[0]), actions[1..], q))
  }

  /** Whatever anybody does while a player waits, the deal stands. */
  lemma {:induction false} DealStands(s: State, actions: seq<Action>, q: Player, p: Player)
    requires Inv(s) && Waiting(s, q, p) && StillWaiting(s, actions, q)
    ensures Inv(Run(s, actions)) && Stands(s, Run(s, actions), q, p)
    decreases |actions|
  {
    hide Inv, Step;
    if actions != [] {
      StepKeepsInv(s, actions[0]);
      StepLeavesDeal(s, actions[0], q, p);
      DealStands(Step(s, actions[0]), actions[1..], q, p);
    }
  }

  predicate CanAnswer(s: State, p: Player) {
    p in s.seats && (s.seats[p].state == Initiated || s.seats[p].state == Acknowledge)
  }

  /** The transfer that the partner's answer starts is of the items that stood when the player
      accepted, exactly unless the partner had offered nothing then and has made an offer since. */
  lemma TransfersWhatStoodExactlyWhen(s: State, actions: seq<Action>, q: Player, p: Player)
    requires Inv(s) && Waiting(s, q, p) && StillWaiting(s, actions, q) && CanAnswer(Run(s, actions), p)
    ensures var s' := Run(s, actions);
      var t := Step(s', Accept(p, true, true));
      && p in t.seats && q in t.seats && t.seats[p].state == t.seats[q].state == Transfer
      && t.seats[q].item == s.seats[q].item && t.seats[p].item == s'.seats[p].item
      && (t.seats[p].item == s.seats[p].item <==> s.seats[p].item.Some? || s'.seats[p].item == None)
  {
    DealStands(s, actions, q, p);
    var s' := Run(s, actions);
    hide Mapped, Counted, Apart, AllTidy, StillWaiting, Run;
    PartnersOf(s'.seats, q);
    PartnersOf(s'.seats, p);
  }

  /** It happens: the first player offers and accepts at once; the second then makes an offer and
      accepts it, and both are in the transfer of an item the first has never accepted. */
  lemma UnseenOfferIsTransferred(s: State, p: Player, q: Player, x: Item, y: Item)
    requires p in s.seats && q in s.seats && p != q && s.seats[p] == FREE && s.seats[q] == FREE
    requires
      && s.offers == map[] && x in s.refs && y in s.refs && x != y && s.refs[x] == 0 && s.refs[y] == 0
      && x !in Around(s, y) && y !in Around(s, x)
    ensures var s1 := Step(Step(s, Request(p, q, x, true)), Accept(p, true, true));
      var s2 := Step(Step(s1, Request(q, p, y, true)), Accept(q, true, true));
      && Waiting(s1, p, q) && s1.seats[q].item == None
      && p in s2.seats && q in s2.seats
      && s2.seats[p] == Seat(Transfer, Some(q), Some(x)) && s2.seats[q] == Seat(Transfer, Some(p), Some(y))
  {
    var asked := Step(s, Request(p, q, x, true));
    assert asked.seats[p] == Seat(Initiated, Some(q), Some(x)) && asked.seats[q] == Seat(Acknowledge, Some(p), None);
    assert asked.offers == map[x := p.id];
    var s1 := Step(asked, Accept(p, true, true));
    assert s1.seats[p] == Seat(Accepting, Some(q), Some(x)) && s1.offers == map[x := p.id];
    var answered := Step(s1, Request(q, p, y, true));
    assert !Blocked(s1, y);
    assert answered.seats[q] == Seat(Initiated, Some(p), Some(y)) && answered.seats[p] == s1.seats[p];
  }
}
