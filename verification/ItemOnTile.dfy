/**
 * A load puts items on the tile of a house, and an item that stands there may begin to decay:
 * what comes back there, and exactly when it is the item that was saved.
 */
module ItemOnTile {
  import opened Basics
  import opened ItemCodec
  import opened ItemRoundTrip
  import opened ItemFaithful

  /** `canDecay` of an item that stands somewhere. */
  predicate Decays(it: ItemType, own: Fields) {
    && (if ATTR_DECAYTO in own.attrs then Signed(NumOf(own, ATTR_DECAYTO), 4) else it.decayTo) >= 0
    && it.decayTime != 0 && ATTR_UNIQUE_ID !in own.attrs
  }

  /** `startDecay`. None stands for an item whose time is up: it decays at once. */
  function StartDecay(it: ItemType, own: Fields): Option<Fields> {
    if !Decays(it, own) || Unsigned(NumOf(own, ATTR_DECAYING_STATE), 1) == DECAYING_TRUE then Some(own)
    else if Unsigned(NumOf(own, ATTR_DURATION), 4) > 0 then Some(Put(own, ATTR_DECAYING_STATE, DECAYING_TRUE))
    else None
  }

  /** What has a unique id, no time to decay, or nothing to decay to is left alone, and so is what is
      decaying already; any other item begins to decay if it has time left. */
  lemma StartDecayIs(it: ItemType, own: Fields)
    requires forall tag :: tag in own.attrs && tag in {ATTR_DECAYTO, ATTR_DURATION, ATTR_DECAYING_STATE} ==>
      own.attrs[tag].Num? && 0 <= own.attrs[tag].n < 0x8000_0000
    requires ATTR_DECAYING_STATE in own.attrs ==> own.attrs[ATTR_DECAYING_STATE].n < 256
    ensures ATTR_UNIQUE_ID in own.attrs || it.decayTime == 0 || (ATTR_DECAYTO !in own.attrs && it.decayTo < 0) ==>
      StartDecay(it, own) == Some(own)
    ensures At(own, ATTR_DECAYING_STATE) == Some(Num(1)) ==> StartDecay(it, own) == Some(own)
    ensures
      && ATTR_UNIQUE_ID !in own.attrs && it.decayTime != 0 && (ATTR_DECAYTO in own.attrs || it.decayTo >= 0)
      && At(own, ATTR_DECAYING_STATE) != Some(Num(1)) ==>
      StartDecay(it, own) == if NumOf(own, ATTR_DURATION) > 0
                             then Some(own.(attrs := own.attrs[ATTR_DECAYING_STATE := Num(1)])) else None
  {
    SpanOfFour();
  }

  /** `startDecaying`: a container hands it on to what it holds and does not decay itself. */
  function StartDecaying(types: Types, t: Item): (r: Option<Item>)
    ensures r.Some? ==> r.value.id == t.id && (r.value.Box? <==> t.Box?)
    decreases t
  {
    match t
    case Plain(id, own) =>
      (match StartDecay(types(id), own) case None => None case Some(started) => Some(Plain(id, started)))
    case Box(_, _, items, _) =>
      (match StartAll(types, items) case None => None case Some(kids) => Some(t.(items := kids)))
  }

  function StartAll(types: Types, items: seq<Item>): (r: Option<seq<Item>>)
    ensures r.Some? ==> |r.value| == |items|
    decreases items
  {
    if items == [] then Some([])
    else
      match StartDecaying(types, items[0])
      case None => None
      case Some(first) =>
        match StartAll(types, items[1..]) case None => None case Some(later) => Some([first] + later)
  }

  /** Weights do not depend on decay, so the cached ones stay right. */
  lemma {:induction false} StartKeepsWeight(types: Types, t: Item)
    ensures StartDecaying(types, t).Some? ==> Weight(types, StartDecaying(types, t).value) == Weight(types, t)
  {
  }

  lemma {:induction false} StartKeepsSum(types: Types, items: seq<Item>)
    ensures StartAll(types, items).Some? ==> SumWeight(types, StartAll(types, items).value) == SumWeight(types, items)
    decreases items
  {
    if items != [] && StartAll(types, items).Some? {
      StartKeepsWeight(types, items[0]);
      StartKeepsSum(types, items[1..]);
      assert StartAll(types, items).value[1..] == StartAll(types, items[1..]).value;
    }
  }

  /** An item that can decay has to be decaying, with time left; a container, and what cannot
      decay, keeps at most a pending decay. */
  predicate FaithfulOnTile(types: Types, t: Item)
    decreases t
  {
    && AllElseLasts(types(t.id), t.own)
    && match t
       case Plain(id, own) =>
         && RingId(id) == id
         && if Decays(types(id), own) then
              At(own, ATTR_DECAYING_STATE) == Some(Num(DECAYING_TRUE)) && NumOf(own, ATTR_DURATION) > 0
            else DecayLasts(own)
       case Box(_, own, items, total) =>
         && DecayLasts(own) && total == SumWeight(types, items) % TWO_TO_THE_32
         && forall c :: c in items ==> FaithfulOnTile(types, c)
  }

  lemma DecayAgrees(it: ItemType, a: Fields, b: Fields)
    requires AgreeElse(a, b)
    ensures Decays(it, a) == Decays(it, b) && NumOf(a, ATTR_DURATION) == NumOf(b, ATTR_DURATION)
  {
    assert At(a, ATTR_DECAYTO) == At(b, ATTR_DECAYTO) && At(a, ATTR_UNIQUE_ID) == At(b, ATTR_UNIQUE_ID);
    assert At(a, ATTR_DURATION) == At(b, ATTR_DURATION);
  }

  /** A positive duration that lasts is one of 32 bits. */
  lemma DurationLeft(it: ItemType, own: Fields)
    requires WellTyped(own) && AllElseLasts(it, own)
    ensures Unsigned(NumOf(own, ATTR_DURATION), 4) > 0 <==> NumOf(own, ATTR_DURATION) > 0
  {
    SpanOfFour();
    if ATTR_DURATION in own.attrs {
      assert Lasts(it, ATTR_DURATION, own.attrs[ATTR_DURATION]);
    }
  }

  lemma Differ(a: Fields, b: Fields)
    requires AgreeElse(a, b)
    ensures At(a, ATTR_DECAYING_STATE) == At(b, ATTR_DECAYING_STATE) <==> a == b
    ensures forall n :: Put(a, ATTR_DECAYING_STATE, n) == b <==> At(b, ATTR_DECAYING_STATE) == Some(Num(n))
  {
    if At(a, ATTR_DECAYING_STATE) == At(b, ATTR_DECAYING_STATE) {
      SameAttrs(a, b);
    }
    forall n | At(b, ATTR_DECAYING_STATE) == Some(Num(n)) ensures Put(a, ATTR_DECAYING_STATE, n) == b {
      var c := Put(a, ATTR_DECAYING_STATE, n);
      forall tag ensures At(c, tag) == At(b, tag) {
        assert tag != ATTR_DECAYING_STATE ==> At(c, tag) == At(a, tag);
      }
      SameAttrs(c, b);
    }
  }

  /** What is started differs from what was loaded in the decay state at most. */
  lemma StartAgrees(it: ItemType, own: Fields)
    ensures StartDecay(it, own).Some? ==> AgreeElse(own, StartDecay(it, own).value)
  {
  }

  lemma PlainOnTile(types: Types, t: Item)
    requires t.Plain? && Savable(types, t)
    ensures StartDecaying(types, Normal(types, t, false)) == Some(t) <==> FaithfulOnTile(types, t)
  {
    hide NormalOwn, WellTyped, AllElseLasts, AgreeElse, Decays, Unsigned;
    var it, own, r := types(t.id), t.own, NormalOwn(types, t, false);
    if RingId(t.id) == t.id {
      NormalOwnIff(types, t, false);
      StartAgrees(it, r);
      PendingIsNotRunning();
      if AgreeElse(r, own) {
        DecayAgrees(it, r, own);
        Differ(r, own);
        DurationLeft(it, own);
      }
    }
  }

  lemma PendingIsNotRunning()
    ensures Unsigned(DECAYING_PENDING, 1) != DECAYING_TRUE && Unsigned(0, 1) != DECAYING_TRUE
  {
    SpanOfFour();
  }

  /** On the tile exactly these trees come back unchanged. */
  lemma {:induction false} TileRoundTrip(types: Types, t: Item)
    requires Savable(types, t)
    ensures StartDecaying(types, Normal(types, t, false)) == Some(t) <==> FaithfulOnTile(types, t)
    decreases t
  {
    hide NormalOwn, WellTyped, AllElseLasts, DecayLasts, Weight, StartDecay;
    match t
    case Plain(_, _) => PlainOnTile(types, t);
    case Box(_, _, items, _) =>
      NormalOwnIff(types, t, false);
      AllOnTile(types, items);
      StartKeepsSum(types, NormalAll(types, items, false));
  }

  lemma {:induction false} AllOnTile(types: Types, items: seq<Item>)
    requires forall c :: c in items ==> Savable(types, c)
    ensures StartAll(types, NormalAll(types, items, false)) == Some(items)
       <==> forall c :: c in items ==> FaithfulOnTile(types, c)
    decreases items
  {
    hide Normal, Savable, FaithfulOnTile, StartDecaying;
    if items != [] {
      TileRoundTrip(types, items[0]);
      AllOnTile(types, items[1..]);
      assert items == [items[0]] + items[1..];
      assert NormalAll(types, items, false)[1..] == NormalAll(types, items[1..], false);
    }
  }
}
