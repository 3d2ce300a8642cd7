/**
 * The trade functions of the game on player objects.
 */
module TradeService {
  import opened Basics
  import opened Trade

  class Game {
    var tradeItems: map<Item, nat>
    var above: map<Item, set<Item>>
    ghost const players: set<Player>
    ghost const items: set<Item>

    constructor (ghost players: set<Player>, ghost items: set<Item>, above: map<Item, set<Item>>)
      ensures this.players == players && this.items == items && tradeItems == map[] && this.above == above
    {
      this.players, this.items, this.above := players, items, above;
      tradeItems := map[];
    }

    ghost function Snapshot(): State
      reads this, players, items
    {
      State(map p | p in players :: SeatOf(p), tradeItems, map i | i in items :: i.references, above)
    }

    ghost predicate Valid()
      reads this, players, items
    {
      Inv(Snapshot())
    }

    /** `isHoldingItem`. */
    predicate IsHolding(container: Item, item: Item)
      reads this
    {
      item in above && container in above[item]
    }

    method SetSeat(p: Player, state: TradeState, partner: Player?, item: Item?)
      requires p in players
      modifies p
      ensures p.tradeState == state && p.tradePartner == partner && p.tradeItem == item
      ensures Snapshot() == old(Snapshot()).(seats :=
        old(Snapshot()).seats[p := Seat(state, PlayerOpt(partner), ItemOpt(item))])
    {
      p.tradeState, p.tradePartner, p.tradeItem := state, partner, item;
    }

    /** `incrementReferenceCounter` and the entry in `tradeItems`. */
    method Enter(item: Item, id: nat)
      requires item in items
      modifies `tradeItems, item
      ensures Snapshot() == old(Snapshot()).(offers := old(Snapshot()).offers[item := id],
                                             refs := old(Snapshot()).refs[item := old(Snapshot()).refs[item] + 1])
    {
      item.references := item.references + 1;
      tradeItems := tradeItems[item := id];
    }

    lemma SeatIs(p: Player)
      ensures p in Snapshot().seats <==> p in players
      ensures p in players ==> Snapshot().seats[p] == SeatOf(p)
    {
    }

    lemma InItems(i: Item)
      ensures i in Snapshot().refs <==> i in items
    {
    }

    /** `tradeItems.find`, `ReleaseItem` and `erase`. */
    method Release(item: Item?)
      requires Counted(Snapshot().offers, Snapshot().refs)
      modifies `tradeItems, items
      ensures Snapshot() == Released(old(Snapshot()), ItemOpt(item)) && Counted(Snapshot().offers, Snapshot().refs)
    {
      if item != null && item in tradeItems {
        item.references := item.references - 1;
        tradeItems := tradeItems - {item};
      }
    }

    /** The loops of `playerRequestTrade` over `tradeItems`. */
    method IsBlocked(tradeItem: Item) returns (blocked: bool)
      ensures blocked == Blocked(Snapshot(), tradeItem)
    {
      var left := tradeItems.Keys;
      while left != {}
        invariant left <= tradeItems.Keys
        invariant Blocked(Snapshot(), tradeItem) ==> exists i :: i in left && Clashes(i, tradeItem)
        decreases |left|
      {
        var item :| item in left;
        if tradeItem == item || IsHolding(tradeItem, item) || IsHolding(item, tradeItem) {
          assert Clashes(item, tradeItem);
          return true;
        }
        left := left - {item};
      }
      blocked := false;
    }

    ghost predicate Clashes(i: Item, item: Item)
      reads this, players, items
    {
      i == item || item in Around(Snapshot(), i) || i in Around(Snapshot(), item)
    }

    /** `playerRequestTrade`, and `internalStartTrade` where nothing stands against it. */
    method RequestTrade(player: Player, tradePartner: Player, tradeItem: Item, allowed: bool)
      requires Valid() && player in players && tradePartner in players && tradeItem in items
      modifies this, players, items
      ensures Snapshot() == Step(old(Snapshot()), Request(player, tradePartner, tradeItem, allowed)) && Valid()
    {
      hide Blocked, Inv;
      StepKeepsInv(Snapshot(), Request(player, tradePartner, tradeItem, allowed));
      if player == tradePartner {
        return;
      }
      var blocked := IsBlocked(tradeItem);
      if blocked || !allowed {
        return;
      }
      var started := InternalStartTrade(player, tradePartner, tradeItem);
    }

    method InternalStartTrade(player: Player, tradePartner: Player, tradeItem: Item) returns (started: bool)
      requires player in players && tradePartner in players && tradeItem in items && player != tradePartner
      modifies this, players, items
      ensures started == MayStart(old(Snapshot()), player, tradePartner)
      ensures
        Snapshot() == if started then Started(old(Snapshot()), player, tradePartner, tradeItem) else old(Snapshot())
    {
      hide Game.Snapshot;
      SeatIs(player);
      SeatIs(tradePartner);
      InItems(tradeItem);
      if player.tradeState != NoTrade && !(player.tradeState == Acknowledge && player.tradePartner == tradePartner) {
        return false;
      }
      if tradePartner.tradeState != NoTrade && tradePartner.tradePartner != player {
        return false;
      }
      SetSeat(player, Initiated, tradePartner, tradeItem);
      Enter(tradeItem, player.id);
      SeatIs(tradePartner);
      if tradePartner.tradeState == NoTrade {
        SetSeat(tradePartner, Acknowledge, player, tradePartner.tradeItem);
      }
      started := true;
    }

    /** A player's part of `internalCloseTrade`. */
    method Vacate(player: Player)
      requires player in players && Counted(Snapshot().offers, Snapshot().refs)
      modifies `tradeItems, items, player
      ensures Snapshot() == Vacated(old(Snapshot()), player)
      ensures Counted(Snapshot().offers, Snapshot().refs)
    {
      if player.tradeItem != null {
        Release(player.tradeItem);
      }
      SetSeat(player, NoTrade, null, null);
    }

    method InternalCloseTrade(player: Player)
      requires Valid() && player in players
      modifies this, players, items
      ensures Snapshot() == Step(old(Snapshot()), Close(player)) && Valid()
    {
      StepKeepsInv(Snapshot(), Close(player));
      PartnersOf(Snapshot().seats, player);
      var tradePartner := player.tradePartner;
      if (tradePartner != null && tradePartner.tradeState == Transfer) || player.tradeState == Transfer {
        return;
      }
      Vacate(player);
      if tradePartner != null {
        Vacate(tradePartner);
      }
    }

    /** `playerAcceptTrade` up to the moving of the items; `canThrow` and `allowed` are the answers
        of the map and of the event. */
    method AcceptTrade(player: Player, canThrow: bool, allowed: bool)
      requires Valid() && player in players
      modifies this, players, items
      ensures Snapshot() == Step(old(Snapshot()), Accept(player, canThrow, allowed)) && Valid()
    {
      hide Game.Snapshot, Inv, Partners, Mapped, Counted, Apart, AllTidy, Released, Closed;
      SeatIs(player);
      StepKeepsInv(Snapshot(), Accept(player, canThrow, allowed));
      PartnerOf(Snapshot(), player);
      if !(player.tradeState == Acknowledge || player.tradeState == Initiated) {
        return;
      }
      var tradePartner := player.tradePartner;
      if tradePartner == null {
        return;
      }
      SeatIs(tradePartner);
      AcceptingKeepsInv(Snapshot(), player);
      SetSeat(player, Accepting, tradePartner, player.tradeItem);
      if tradePartner.tradeState == Accepting {
        if !canThrow || !allowed {
          InternalCloseTrade(player);
          return;
        }
        BeginTransfer(player, tradePartner);
      }
    }

    method BeginTransfer(player: Player, tradePartner: Player)
      requires Valid() && player in players && tradePartner in players && player != tradePartner
      requires player.tradePartner == tradePartner && tradePartner.tradePartner == player
      modifies this, players, items
      ensures var s := WithState(WithState(old(Snapshot()), player, Transfer), tradePartner, Transfer);
              Snapshot() == Released(Released(s, old(Snapshot()).seats[player].item),
                old(Snapshot()).seats[tradePartner].item)
    {
      CountedOf(Snapshot());
      hide Game.Snapshot, Inv, Released;
      SeatIs(player);
      SeatIs(tradePartner);
      SetSeat(player, Transfer, tradePartner, player.tradeItem);
      SetSeat(tradePartner, Transfer, player, tradePartner.tradeItem);
      Release(player.tradeItem);
      Release(tradePartner.tradeItem);
    }

    /** The end of `playerAcceptTrade`. */
    method FinishTrade(player: Player)
      requires Valid() && player in players
      modifies this, players
      ensures Snapshot() == Step(old(Snapshot()), Finish(player)) && Valid()
    {
      StepKeepsInv(Snapshot(), Finish(player));
      PartnersOf(Snapshot().seats, player);
      var tradePartner := player.tradePartner;
      if player.tradeState != Transfer || tradePartner == null {
        return;
      }
      SetSeat(player, NoTrade, null, null);
      SetSeat(tradePartner, NoTrade, null, null);
    }
  }

  function PlayerOpt(p: Player?): Option<Player> { if p == null then None else Some(p) }

  function ItemOpt(i: Item?): Option<Item> { if i == null then None else Some(i) }

  function SeatOf(p: Player): Seat
    reads p
  {
    Seat(p.tradeState, PlayerOpt(p.tradePartner), ItemOpt(p.tradeItem))
  }

  lemma CountedOf(s: State)
    requires Inv(s)
    ensures Counted(s.offers, s.refs)
  {
  }

  lemma PartnerOf(s: State, p: Player)
    requires Inv(s) && p in s.seats
    ensures s.seats[p].partner.Some? ==> Mates(s.seats, p, s.seats[p].partner.value)
  {
    PartnersOf(s.seats, p);
  }

  /** The first half of an acceptance is a step of its own. */
  lemma AcceptingKeepsInv(s: State, p: Player)
    requires
      && Inv(s) && p in s.seats && s.seats[p].partner.Some?
      && (s.seats[p].state == Acknowledge || s.seats[p].state == Initiated)
    ensures Inv(WithState(s, p, Accepting))
  {
    PartnersOf(s.seats, p);
    hide Partners, Mapped, Counted, AllTidy, Apart;
    var q := s.seats[p].partner.value;
    PartnersOf(s.seats, q);
    PairKeepsPartners(s.seats, p, q, s.seats[p].(state := Accepting), s.seats[q]);
    assert s.seats[p := s.seats[p].(state := Accepting)][q := s.seats[q]] == WithState(s, p, Accepting).seats;
    SeatKeeps(s, p, s.seats[p].(state := Accepting));
  }
}
