/**
 * Saving an item tree and loading it again: what comes back, for every tree, and that its
 * cached weights are right.
 */
module ItemRoundTrip {
  import opened Basics
  import opened ItemCodec

  // ----- what can be saved -----

  /** The types of what an item stores: strings under the tags of strings, an 8-bit count,
      custom numbers of 64 bits. */
  predicate WellTyped(own: Fields) {
    && own.count < 256
    && (forall tag :: tag in own.attrs ==> (own.attrs[tag].Str? <==> PayloadOf(tag).Text?))
    && (own.custom.Some? ==>
          |own.custom.value| < Span(8)
          && forall i :: 0 <= i < |own.custom.value| ==> WellTypedCustom(own.custom.value[i].1))
  }

  predicate WellTypedCustom(c: Custom) {
    match c case Whole(n) => n < Span(8) case Real(bits) => bits < Span(8) case _ => true
  }

  /** An item that exists: its type can be created, and is a container type just for boxes. */
  predicate Savable(types: Types, t: Item)
    decreases t
  {
    && t.id < TWO_TO_THE_16
    && WellTyped(t.own)
    && !types(t.id).deprecated && types(t.id).id != 0
    && (types(t.id).container <==> t.Box?)
    && (t.Box? ==> |t.items| < TWO_TO_THE_32 && forall c :: c in t.items ==> Savable(types, c))
  }

  // ----- what comes back -----

  /** A string too long for its 16-bit length is written as an empty one. */
  function KeptString(s: seq<byte>): seq<byte> {
    if |s| > MAX_STRING then [] else s
  }

  function KeptCustom(c: Custom): Custom {
    match c case Word(s) => Word(KeptString(s)) case _ => c
  }

  function PutEntries(custom: Option<CustomMap>, m: CustomMap): Option<CustomMap>
    decreases |m|
  {
    if m == [] then custom else PutEntries(PutCustom(custom, KeptString(m[0].0), KeptCustom(m[0].1)), m[1..])
  }

  /** What an item of the type `it` stores after the record was read. */
  function PutRecord(it: ItemType, own: Fields, tag: byte, r: Option<Record>): Fields {
    match r
    case None => own
    case Some(OneNumber(n)) => PutNumber(it, own, tag, n)
    case Some(OneString(s)) => PutString(own, tag, KeptString(s))
    case Some(Entries(m)) => own.(custom := PutEntries(own.custom, m))
  }

  /** What an item of the type `to` that stores `base` stores after reading the records that one
      of the type `from` wrote. */
  function Restored(from: ItemType, own: Fields, to: ItemType, base: Fields, tags: seq<byte>): Fields
    decreases |tags|
  {
    if tags == [] then base
    else Restored(from, own, to, PutRecord(to, base, tags[0], Written(from, own, tags[0])), tags[1..])
  }

  /** The count a row holds beside the attributes; a stream holds none. */
  function CountColumn(types: Types, t: Item, row: bool): nat {
    if row then SubType(types(t.id), t.own) else 0
  }

  function LoadedId(t: Item): nat {
    if t.Box? then t.id else RingId(t.id)
  }

  function NormalOwn(types: Types, t: Item, row: bool): Fields {
    Restored(types(t.id), t.own, types(LoadedId(t)), BlankOwn(types, t.id, t.Box?, CountColumn(types, t, row)), ORDER)
  }

  /** What comes back of an item that was saved in a row or a stream. */
  function Normal(types: Types, t: Item, row: bool): (r: Item)
    ensures r.Box? <==> t.Box?
    decreases t
  {
    match t
    case Plain(id, _) => Plain(RingId(id), NormalOwn(types, t, row))
    case Box(id, _, items, _) =>
      var kids := NormalAll(types, items, row);
      Box(id, NormalOwn(types, t, row), kids, SumWeight(types, kids) % TWO_TO_THE_32)
  }

  function NormalAll(types: Types, items: seq<Item>, row: bool): (r: seq<Item>)
    ensures |r| == |items|
    decreases items
  {
    if items == [] then [] else [Normal(types, items[0], row)] + NormalAll(types, items[1..], row)
  }

  // ----- attributes -----

  lemma StringRoundTrip(s: seq<byte>, rest: seq<byte>)
    ensures ReadString(EncodeString(s) + rest) == Some((KeptString(s), rest))
  {
    hide LittleEndian, FromLittleEndian, Span;
    var kept := KeptString(s);
    var head := LittleEndian(|kept|, 2);
    var all := EncodeString(s) + rest;
    SpanOfFour();
    LittleEndianRoundTrip(|kept|, 2);
    assert all == head + (kept + rest);
    assert all[..2] == head && all[2..] == kept + rest;
    assert (kept + rest)[..|kept|] == kept && (kept + rest)[|kept|..] == rest;
  }

  lemma NumberRoundTrip(n: nat, width: nat, rest: seq<byte>)
    requires n < Span(width)
    ensures ReadNumber(LittleEndian(n, width) + rest, width) == Some((n, rest))
  {
    LittleEndianRoundTrip(n, width);
    var all := LittleEndian(n, width) + rest;
    assert all[..width] == LittleEndian(n, width) && all[width..] == rest;
  }

  lemma NumberAttr(it: ItemType, isBox: bool, own: Fields, tag: byte, w: nat, n: nat, rest: seq<byte>)
    requires tag != 0 && PayloadOf(tag) == Number(w) && n < Span(w)
    ensures ReadAttrs(it, isBox, own, [tag] + LittleEndian(n, w) + rest)
         == ReadAttrs(it, isBox, PutNumber(it, own, tag, n), rest)
  {
    hide PayloadOf, PutNumber;
    var s := [tag] + LittleEndian(n, w) + rest;
    assert s[1..] == LittleEndian(n, w) + rest;
    NumberRoundTrip(n, w, rest);
  }

  lemma StringAttr(it: ItemType, isBox: bool, own: Fields, tag: byte, str: seq<byte>, rest: seq<byte>)
    requires tag != 0 && PayloadOf(tag) == Text
    ensures ReadAttrs(it, isBox, own, [tag] + EncodeString(str) + rest)
         == ReadAttrs(it, isBox, PutString(own, tag, KeptString(str)), rest)
  {
    hide PayloadOf, PutString;
    var s := [tag] + EncodeString(str) + rest;
    assert s[1..] == EncodeString(str) + rest;
    StringRoundTrip(str, rest);
  }

  lemma CustomRoundTrip(c: Custom, rest: seq<byte>)
    requires WellTypedCustom(c)
    ensures ReadCustom(EncodeCustom(c) + rest) == Some((KeptCustom(c), rest))
  {
    hide LittleEndian, FromLittleEndian, ReadNumber, ReadString, EncodeString, KeptString, Span;
    var s, body := EncodeCustom(c) + rest, PayloadBytes(c) + rest;
    assert s == [EncodeCustom(c)[0]] + body && s[1..] == body;
    FirstByte(s);
    match c
    case Word(str) => StringRoundTrip(str, rest);
    case Whole(n) => NumberRoundTrip(n, 8, rest);
    case Real(bits) => NumberRoundTrip(bits, 8, rest);
    case Flag(b) =>
      FirstByte(body);
      assert body[1..] == rest;
  }

  /** What follows the byte that says which kind of value it is. */
  function PayloadBytes(c: Custom): seq<byte> {
    match c
    case Word(s) => EncodeString(s)
    case Whole(n) => LittleEndian(n, 8)
    case Real(bits) => LittleEndian(bits, 8)
    case Flag(b) => [if b then 1 else 0]
  }

  lemma FirstByte(s: seq<byte>)
    ensures ReadNumber(s, 1) == if s == [] then None else Some((s[0] as nat, s[1..]))
  {
    if s != [] {
      assert s[..1][1..] == [];
      assert FromLittleEndian(s[..1]) == s[0] as nat + 256 * FromLittleEndian(s[..1][1..]);
    }
  }

  lemma {:induction false} EntriesRoundTrip(m: CustomMap, custom: Option<CustomMap>, rest: seq<byte>)
    requires forall i :: 0 <= i < |m| ==> WellTypedCustom(m[i].1)
    ensures ReadCustoms(EncodeEntries(m) + rest, |m|, custom) == CustomsRead(true, PutEntries(custom, m), rest)
    decreases |m|
  {
    hide EncodeString, EncodeCustom, ReadString, ReadCustom, PutCustom, KeptString, KeptCustom, ReadCustoms;
    if m == [] {
      assert EncodeEntries(m) + rest == rest;
      NoEntryRead(rest, custom);
    } else {
      var more := EncodeEntries(m[1..]) + rest;
      assert EncodeEntries(m) + rest == EncodeString(m[0].0) + (EncodeCustom(m[0].1) + more);
      StringRoundTrip(m[0].0, EncodeCustom(m[0].1) + more);
      CustomRoundTrip(m[0].1, more);
      EntriesRoundTrip(m[1..], PutCustom(custom, KeptString(m[0].0), KeptCustom(m[0].1)), rest);
      EntryRead(EncodeEntries(m) + rest, |m|, custom, KeptString(m[0].0), EncodeCustom(m[0].1) + more,
                KeptCustom(m[0].1), more);
    }
  }

  lemma NoEntryRead(s: seq<byte>, custom: Option<CustomMap>)
    ensures ReadCustoms(s, 0, custom) == CustomsRead(true, custom, s)
  {
  }

  lemma EntryRead(s: seq<byte>, n: nat, custom: Option<CustomMap>, key: seq<byte>, body: seq<byte>, c: Custom,
                  rest: seq<byte>)
    requires n > 0 && ReadString(s) == Some((key, body)) && ReadCustom(body) == Some((c, rest))
    ensures ReadCustoms(s, n, custom) == ReadCustoms(rest, n - 1, PutCustom(custom, key, c))
  {
    hide ReadString, ReadCustom, PutCustom;
  }

  lemma EntriesAttr(it: ItemType, isBox: bool, own: Fields, m: CustomMap, rest: seq<byte>)
    requires |m| < Span(8) && forall i :: 0 <= i < |m| ==> WellTypedCustom(m[i].1)
    ensures ReadAttrs(it, isBox, own, EncodeRecord(ATTR_CUSTOM_ATTRIBUTES, Entries(m)) + rest)
         == ReadAttrs(it, isBox, own.(custom := PutEntries(own.custom, m)), rest)
  {
    hide LittleEndian, FromLittleEndian, EncodeEntries, ReadCustoms, PutEntries, Span;
    var s := EncodeRecord(ATTR_CUSTOM_ATTRIBUTES, Entries(m)) + rest;
    assert s[1..] == LittleEndian(|m|, 8) + (EncodeEntries(m) + rest);
    NumberRoundTrip(|m|, 8, EncodeEntries(m) + rest);
    EntriesRoundTrip(m, own.custom, rest);
  }

  /** What is written under a tag fits its payload. */
  lemma WrittenFits(it: ItemType, own: Fields, tag: byte)
    requires WellTyped(own) && tag in ORDER
    ensures match Written(it, own, tag)
            case None => true
            case Some(OneNumber(n)) => PayloadOf(tag).Number? && n < Span(PayloadOf(tag).width)
            case Some(OneString(_)) => PayloadOf(tag).Text?
            case Some(Entries(m)) => tag == ATTR_CUSTOM_ATTRIBUTES && own.custom == Some(m)
  {
  }

  lemma TagRoundTrip(from: ItemType, own: Fields, tag: byte, to: ItemType, isBox: bool, base: Fields, rest: seq<byte>)
    requires WellTyped(own) && tag in ORDER
    ensures ReadAttrs(to, isBox, base, EncodeTag(from, own, tag) + rest)
         == ReadAttrs(to, isBox, PutRecord(to, base, tag, Written(from, own, tag)), rest)
  {
    WrittenFits(from, own, tag);
    assert tag != 0 by { assert PayloadOf(0) == Unknown; }
    hide ReadAttrs, Written, PayloadOf, PutNumber, PutString, PutEntries;
    match Written(from, own, tag)
    case None => assert [] + rest == rest;
    case Some(OneNumber(n)) => NumberAttr(to, isBox, base, tag, PayloadOf(tag).width, n, rest);
    case Some(OneString(s)) => StringAttr(to, isBox, base, tag, s, rest);
    case Some(Entries(m)) => EntriesAttr(to, isBox, base, m, rest);
  }

  lemma {:induction false} AttrsRoundTrip(from: ItemType, own: Fields, to: ItemType, isBox: bool, base: Fields,
                                          tags: seq<byte>, rest: seq<byte>)
    requires WellTyped(own) && forall tag :: tag in tags ==> tag in ORDER
    ensures ReadAttrs(to, isBox, base, EncodeTags(from, own, tags) + rest)
         == ReadAttrs(to, isBox, Restored(from, own, to, base, tags), rest)
    decreases |tags|
  {
    hide ReadAttrs, EncodeTag, PutRecord, Written;
    if tags == [] {
      assert EncodeTags(from, own, tags) + rest == rest;
    } else {
      var more := EncodeTags(from, own, tags[1..]) + rest;
      assert EncodeTags(from, own, tags) + rest == EncodeTag(from, own, tags[0]) + more;
      TagRoundTrip(from, own, tags[0], to, isBox, base, more);
      AttrsRoundTrip(from, own, to, isBox, PutRecord(to, base, tags[0], Written(from, own, tags[0])), tags[1..], rest);
    }
  }

  // ----- item trees -----

  /** The announcement of the children, as the attribute reader of a box sees it. */
  lemma ChildrenHeader(it: ItemType, own: Fields, n: nat, rest: seq<byte>)
    requires n < TWO_TO_THE_32
    ensures ReadAttrs(it, true, own, [ATTR_CONTAINER_ITEMS] + LittleEndian(n, 4) + rest)
         == AttrsRead(true, own, n, rest)
  {
    hide LittleEndian, FromLittleEndian, Span, PutNumber, PutString, ReadCustoms, ReadString;
    SpanOfFour();
    var s := [ATTR_CONTAINER_ITEMS] + LittleEndian(n, 4) + rest;
    assert s[1..] == LittleEndian(n, 4) + rest;
    NumberRoundTrip(n, 4, rest);
  }

  lemma SpanOfFour()
    ensures Span(1) == 256 && Span(2) == TWO_TO_THE_16 && Span(4) == TWO_TO_THE_32
  {
    assert Span(2) == 256 * Span(1) == 256 * 256 * Span(0);
    assert Span(4) == 256 * Span(3) == 256 * 256 * Span(2);
  }

  /** What a load starts from once the identifier has been read. */
  lemma IdRoundTrip(types: Types, t: Item, rest: seq<byte>)
    requires Savable(types, t)
    ensures ReadNumber(LittleEndian(t.id, 2) + rest, 2) == Some((t.id, rest))
  {
    SpanOfFour();
    NumberRoundTrip(t.id, 2, rest);
  }

  lemma {:induction false} PlainRoundTrip(types: Types, t: Item, rest: seq<byte>)
    requires t.Plain? && Savable(types, t)
    ensures ReadItem(types, Encode(types, t) + rest) == Some((Some(Normal(types, t, false)), rest))
  {
    hide EncodeTags, Restored, BlankOwn, Created, LittleEndian, FromLittleEndian, ReadNumber;
    var tail := [0] + rest;
    var it, to, base := types(t.id), types(RingId(t.id)), BlankOwn(types, t.id, false, 0);
    var body := EncodeAttrs(it, t.own) + tail;
    assert Encode(types, t) + rest == LittleEndian(t.id, 2) + body;
    IdRoundTrip(types, t, body);
    AttrsRoundTrip(it, t.own, to, false, base, ORDER, tail);
    var own := NormalOwn(types, t, false);
    assert ReadAttrs(to, false, own, tail) == AttrsRead(true, own, 0, rest) by {
      assert tail[1..] == rest;
    }
  }

  /** The bytes of a box between its identifier and the byte string `rest`. */
  lemma BoxHeader(types: Types, t: Item, rest: seq<byte>)
    requires t.Box? && Savable(types, t)
    ensures var kids := EncodeReversed(types, t.items) + [0] + rest;
            && ReadNumber(Encode(types, t) + rest, 2).Some?
            && ReadNumber(Encode(types, t) + rest, 2).value.0 == t.id
            && ReadAttrs(types(t.id), true, BlankOwn(types, t.id, true, 0),
                         ReadNumber(Encode(types, t) + rest, 2).value.1)
               == AttrsRead(true, NormalOwn(types, t, false), |t.items|, kids)
  {
    hide EncodeTags, Restored, BlankOwn, Created, LittleEndian, FromLittleEndian, ReadNumber, ReadAttrs;
    var kids := EncodeReversed(types, t.items) + [0] + rest;
    var head := [ATTR_CONTAINER_ITEMS] + LittleEndian(|t.items|, 4) + kids;
    var body := EncodeAttrs(types(t.id), t.own) + head;
    assert Encode(types, t) + rest == LittleEndian(t.id, 2) + body;
    IdRoundTrip(types, t, body);
    AttrsRoundTrip(types(t.id), t.own, types(t.id), true, BlankOwn(types, t.id, true, 0), ORDER, head);
    ChildrenHeader(types(t.id), NormalOwn(types, t, false), |t.items|, kids);
  }

  /** Loading the encoding of any savable item, whatever follows it, yields its normal form
      and leaves exactly what follows. */
  lemma {:induction false} LoadInvertsSave(types: Types, t: Item, rest: seq<byte>)
    requires Savable(types, t)
    ensures ReadItem(types, Encode(types, t) + rest) == Some((Some(Normal(types, t, false)), rest))
    decreases t
  {
    hide NormalOwn, ReadItem, Encode;
    if t.Plain? {
      PlainRoundTrip(types, t, rest);
    } else {
      var blank := Box(t.id, NormalOwn(types, t, false), [], 0);
      ChildrenRoundTrip(types, t.items, blank, [0] + rest);
      BoxRoundTrip(types, t, blank, rest);
    }
  }

  lemma BoxRoundTrip(types: Types, t: Item, blank: Item, rest: seq<byte>)
    requires t.Box? && Savable(types, t) && blank == Box(t.id, NormalOwn(types, t, false), [], 0)
    requires ReadChildren(types, EncodeReversed(types, t.items) + ([0] + rest), |t.items|, blank)
          == Some((Filled(types, blank, t.items), [0] + rest))
    ensures ReadItem(types, Encode(types, t) + rest) == Some((Some(Normal(types, t, false)), rest))
  {
    hide Encode, EncodeReversed, ReadItem, ReadAttrs, ReadChildren, ReadNumber, NormalOwn, BlankOwn;
    BoxHeader(types, t, rest);
    assert EncodeReversed(types, t.items) + [0] + rest == EncodeReversed(types, t.items) + ([0] + rest);
    assert NormalAll(types, t.items, false) + [] == NormalAll(types, t.items, false);
    ReadBox(types, Encode(types, t) + rest, t.id, NormalOwn(types, t, false), |t.items|,
            EncodeReversed(types, t.items) + ([0] + rest), Filled(types, blank, t.items), [0] + rest);
    assert ([0] + rest)[1..] == rest;
  }

  lemma ReadBox(types: Types, s: seq<byte>, id: nat, own: Fields, n: nat, kids: seq<byte>, box: Item, tail: seq<byte>)
    requires ReadNumber(s, 2).Some? && ReadNumber(s, 2).value.0 == id
    requires !types(id).deprecated && types(id).id != 0 && types(id).container
    requires ReadAttrs(types(id), true, BlankOwn(types, id, true, 0), ReadNumber(s, 2).value.1)
          == AttrsRead(true, own, n, kids)
    requires ReadChildren(types, kids, n, Box(id, own, [], 0)) == Some((box, tail))
    requires tail != [] && tail[0] == 0
    ensures ReadItem(types, s) == Some((Some(box), tail[1..]))
  {
    hide ReadAttrs, BlankOwn, ReadNumber;
  }

  /** A box after its children `items` were loaded in front of those it already had. */
  function Filled(types: Types, box: Item, items: seq<Item>): Item
    requires box.Box?
  {
    var kids := NormalAll(types, items, false);
    box.(items := kids + box.items,
         totalWeight := if items == [] then box.totalWeight
                        else (box.totalWeight + SumWeight(types, kids)) % TWO_TO_THE_32)
  }

  lemma {:induction false} ChildrenRoundTrip(types: Types, items: seq<Item>, box: Item, rest: seq<byte>)
    requires box.Box? && forall c :: c in items ==> Savable(types, c)
    ensures ReadChildren(types, EncodeReversed(types, items) + rest, |items|, box)
         == Some((Filled(types, box, items), rest))
    decreases items
  {
    hide ReadItem, Encode, Savable, Normal, Weight;
    if items == [] {
      assert EncodeReversed(types, items) + rest == rest;
      assert NormalAll(types, items, false) + box.items == box.items;
    } else {
      var k := |items| - 1;
      var last, init := items[k], items[..k];
      var more := EncodeReversed(types, init) + rest;
      assert EncodeReversed(types, items) + rest == Encode(types, last) + more;
      LoadInvertsSave(types, last, more);
      var box' := PushFront(types, box, Normal(types, last, false));
      ChildrenRoundTrip(types, init, box', rest);
      FilledFromTheBack(types, box, items);
    }
  }

  lemma FilledFromTheBack(types: Types, box: Item, items: seq<Item>)
    requires box.Box? && items != []
    ensures Filled(types, PushFront(types, box, Normal(types, items[|items| - 1], false)), items[..|items| - 1])
         == Filled(types, box, items)
  {
    hide NormalOwn, Weight;
    var k := |items| - 1;
    var last, init := Normal(types, items[k], false), items[..k];
    NormalSplit(types, init, [items[k]], false);
    assert init + [items[k]] == items;
    assert NormalAll(types, [items[k]], false) == [last];
    SumSplit(types, NormalAll(types, init, false), [last]);
    assert NormalAll(types, init, false) + ([last] + box.items) == NormalAll(types, items, false) + box.items;
    WrapTwice(box.totalWeight + Weight(types, last), SumWeight(types, NormalAll(types, init, false)));
  }

  lemma WrapTwice(a: nat, b: nat)
    ensures (a % TWO_TO_THE_32 + b) % TWO_TO_THE_32 == (a + b) % TWO_TO_THE_32
  {
    var q := a / TWO_TO_THE_32;
    assert a == q * TWO_TO_THE_32 + a % TWO_TO_THE_32;
  }

  lemma {:induction false} NormalSplit(types: Types, a: seq<Item>, b: seq<Item>, row: bool)
    ensures NormalAll(types, a + b, row) == NormalAll(types, a, row) + NormalAll(types, b, row)
  {
    if a == [] {
      assert a + b == b;
    } else {
      assert (a + b)[1..] == a[1..] + b;
      NormalSplit(types, a[1..], b, row);
    }
  }

  lemma {:induction false} SumSplit(types: Types, a: seq<Item>, b: seq<Item>)
    ensures SumWeight(types, a + b) == SumWeight(types, a) + SumWeight(types, b)
  {
    if a == [] {
      assert a + b == b;
    } else {
      assert (a + b)[1..] == a[1..] + b;
      SumSplit(types, a[1..], b);
    }
  }

  // ----- cached weights -----

  /** The weight of an item and everything inside it, counted without any cache. */
  function FullWeight(types: Types, t: Item): nat
    decreases t
  {
    OwnWeight(types, t) + match t case Plain(_, _) => 0 case Box(_, _, items, _) => FullWeights(types, items)
  }

  function FullWeights(types: Types, items: seq<Item>): nat
    decreases items
  {
    if items == [] then 0 else FullWeight(types, items[0]) + FullWeights(types, items[1..])
  }

  /** The caches of a loaded item add up to the whole subtree, modulo 2^32. */
  lemma {:induction false} LoadedWeight(types: Types, t: Item, row: bool)
    ensures Weight(types, Normal(types, t, row)) == FullWeight(types, Normal(types, t, row)) % TWO_TO_THE_32
    ensures t.Box? ==>
      Normal(types, t, row).totalWeight == FullWeights(types, Normal(types, t, row).items) % TWO_TO_THE_32
    decreases t
  {
    hide NormalOwn, SumWeight, OwnWeight;
    OwnWeightWraps(types, Normal(types, t, row));
    match t
    case Plain(id, _) =>
    case Box(id, _, items, _) =>
      var kids := NormalAll(types, items, row);
      var own := OwnWeight(types, Normal(types, t, row));
      assert Normal(types, t, row) == Box(id, NormalOwn(types, t, row), kids, SumWeight(types, kids) % TWO_TO_THE_32);
      LoadedWeights(types, items, row);
      WrapTwice(SumWeight(types, kids), own);
      WrapTwice(FullWeights(types, kids), own);
  }

  lemma OwnWeightWraps(types: Types, t: Item)
    ensures OwnWeight(types, t) == OwnWeight(types, t) % TWO_TO_THE_32
  {
  }

  lemma {:induction false} LoadedWeights(types: Types, items: seq<Item>, row: bool)
    ensures SumWeight(types, NormalAll(types, items, row)) % TWO_TO_THE_32
         == FullWeights(types, NormalAll(types, items, row)) % TWO_TO_THE_32
    decreases items
  {
    if items == [] {
    } else {
      var kids := NormalAll(types, items, row);
      LoadedWeight(types, items[0], row);
      LoadedWeights(types, items[1..], row);
      assert kids[1..] == NormalAll(types, items[1..], row);
      WrapSum(Weight(types, kids[0]), FullWeight(types, kids[0]),
              SumWeight(types, kids[1..]), FullWeights(types, kids[1..]));
    }
  }

  lemma WrapSum(a: nat, a': nat, b: nat, b': nat)
    requires a == a' % TWO_TO_THE_32 && b % TWO_TO_THE_32 == b' % TWO_TO_THE_32
    ensures (a + b) % TWO_TO_THE_32 == (a' + b') % TWO_TO_THE_32
  {
    WrapTwice(a', b);
    WrapTwice(b, a');
    WrapTwice(b', a');
  }
}
