/**
 * Exactly when a saved item comes back unchanged: conditions on what it stores, attribute by
 * attribute, and the proof that they are neither too weak nor too strong.
 */
module ItemFaithful {
  import opened Basics
  import opened ItemCodec
  import opened ItemRoundTrip

  /** Under a tag other than that of the decay state: what the reader gives back of this value. */
  predicate Lasts(it: ItemType, tag: byte, v: Value) {
    match v
    case Str(s) => 0 < |s| <= MAX_STRING
    case Num(n) =>
      if tag == ATTR_CHARGES then
        !it.fluid && !it.stackable && it.charges != 0 && (0 < n < TWO_TO_THE_16 || n == it.charges % TWO_TO_THE_16)
      else if tag == ITEM_FLUIDTYPE then it.fluid && 0 <= n < 256
      else if tag == ATTR_ACTION_ID then it.moveable && 100 <= n < TWO_TO_THE_16
      else if tag == ATTR_WRITTENDATE then n != 0 && 0 - TWO_TO_THE_31 <= n < TWO_TO_THE_31
      else if tag == ATTR_DURATION then 0 <= n < TWO_TO_THE_31
      else if tag == ATTR_WEIGHT then 0 <= n < TWO_TO_THE_32
      else if tag == ATTR_ATTACK_SPEED then 100 <= n < TWO_TO_THE_32
      else if tag in {ATTR_ATTACK, ATTR_DEFENSE, ATTR_EXTRADEFENSE, ATTR_ARMOR, ATTR_DECAYTO} then
        0 - TWO_TO_THE_31 <= n < TWO_TO_THE_31
      else if tag == ATTR_HITCHANCE then -128 <= n < 128
      else if tag in {ATTR_SHOOTRANGE, ATTR_STOREITEM} then 0 <= n < 256
      else tag == ATTR_WRAPID && 0 <= n < TWO_TO_THE_16
  }

  /** Its type gives a new item nothing that this one has lost. */
  predicate HasDefaults(it: ItemType, own: Fields) {
    && (it.fluid ==> ITEM_FLUIDTYPE in own.attrs)
    && (!it.fluid && !it.stackable && it.charges != 0 ==> ATTR_CHARGES in own.attrs)
    && (DefaultDuration(it) != 0 ==> ATTR_DURATION in own.attrs)
    && (it.fluid || !it.stackable ==> own.count == 1)
  }

  /** Names and strings that can be written, names in small letters, no name twice. */
  predicate CustomLasts(m: CustomMap) {
    && m != []
    && (forall i :: 0 <= i < |m| ==> |m[i].0| <= MAX_STRING && Lower(m[i].0) == m[i].0)
    && (forall i :: 0 <= i < |m| && m[i].1.Word? ==> |m[i].1.s| <= MAX_STRING)
    && (forall i, j :: 0 <= i < j < |m| ==> m[i].0 != m[j].0)
  }

  /** Everything but the decay state comes back. */
  predicate AllElseLasts(it: ItemType, own: Fields) {
    && (forall tag :: tag in own.attrs && tag != ATTR_DECAYING_STATE ==> Lasts(it, tag, own.attrs[tag]))
    && HasDefaults(it, own)
    && (own.custom.Some? ==> CustomLasts(own.custom.value))
  }

  /** Decay comes back as pending. */
  predicate DecayLasts(own: Fields) {
    ATTR_DECAYING_STATE in own.attrs ==> own.attrs[ATTR_DECAYING_STATE] == Num(DECAYING_PENDING)
  }

  /** No lit ring, nothing stored that is not written or does not fit, nothing missing that a new
      item has, no decay but a pending one, and every cached weight that of the children. */
  predicate Faithful(types: Types, t: Item)
    decreases t
  {
    && AllElseLasts(types(t.id), t.own) && DecayLasts(t.own)
    && match t
       case Plain(id, _) => RingId(id) == id
       case Box(_, _, items, total) =>
         total == SumWeight(types, items) % TWO_TO_THE_32 && forall c :: c in items ==> Faithful(types, c)
  }

  /** What is stored under a tag. */
  function At(own: Fields, tag: byte): Option<Value> {
    if tag in own.attrs then Some(own.attrs[tag]) else None
  }

  /** A record of the tail changes what is stored under its own tag only, ... */
  lemma RecordFrame(it: ItemType, own: Fields, from: ItemType, src: Fields, tag: byte, k: byte)
    requires tag in TAIL && WellTyped(src)
    ensures var own' := PutRecord(it, own, tag, Written(from, src, tag));
            && own'.count == own.count
            && (k != tag ==> At(own', k) == At(own, k))
            && (tag != ATTR_CUSTOM_ATTRIBUTES ==> own'.custom == own.custom)
            && (tag == ATTR_CUSTOM_ATTRIBUTES ==> own'.attrs == own.attrs)
  {
    WrittenFits(from, src, tag);
    hide Written;
  }

  /** ... and in a way that depends on nothing else. */
  lemma RecordAlike(it: ItemType, a: Fields, b: Fields, from: ItemType, src: Fields, tag: byte)
    requires tag in TAIL && At(a, tag) == At(b, tag)
    ensures At(PutRecord(it, a, tag, Written(from, src, tag)), tag)
         == At(PutRecord(it, b, tag, Written(from, src, tag)), tag)
  {
    hide Written;
  }

  lemma {:induction false} RestoredAt(it: ItemType, from: ItemType, src: Fields, base: Fields, tags: seq<byte>, k: byte)
    requires WellTyped(src) && (forall tag :: tag in tags ==> tag in TAIL)
    requires forall i, j :: 0 <= i < j < |tags| ==> tags[i] != tags[j]
    ensures var r := Restored(from, src, it, base, tags);
            && r.count == base.count
            && At(r, k) == (if k in tags then At(PutRecord(it, base, k, Written(from, src, k)), k) else At(base, k))
            && r.custom == (if ATTR_CUSTOM_ATTRIBUTES in tags && src.custom.Some?
                            then PutEntries(base.custom, src.custom.value) else base.custom)
    decreases |tags|
  {
    if tags != [] {
      var tag := tags[0];
      var next := PutRecord(it, base, tag, Written(from, src, tag));
      RecordFrame(it, base, from, src, tag, k);
      RestoredAt(it, from, src, next, tags[1..], k);
      if k in tags[1..] {
        RecordAlike(it, next, base, from, src, k);
      }
    }
  }
  // ----- the sub-type: the first two records -----

  /** What an item stores after the first two records were read. */
  function Counted(it: ItemType, own: Fields, base: Fields): Fields {
    var counted := PutRecord(it, base, ATTR_COUNT, Written(it, own, ATTR_COUNT));
    PutRecord(it, counted, ATTR_CHARGES, Written(it, own, ATTR_CHARGES))
  }

  lemma RestoredByParts(it: ItemType, own: Fields, base: Fields)
    ensures Restored(it, own, it, base, ORDER) == Restored(it, own, it, Counted(it, own, base), TAIL)
  {
    hide PutRecord, Written;
    assert ORDER[1..][1..] == TAIL;
    var counted := PutRecord(it, base, ATTR_COUNT, Written(it, own, ATTR_COUNT));
    assert Restored(it, own, it, counted, ORDER[1..]) == Restored(it, own, it, Counted(it, own, base), TAIL);
  }

  predicate CountLasts(it: ItemType, own: Fields) {
    && (it.fluid ==> ITEM_FLUIDTYPE in own.attrs)
    && (!it.fluid && !it.stackable && it.charges != 0 ==> ATTR_CHARGES in own.attrs)
    && (it.fluid || !it.stackable ==> own.count == 1)
    && (forall tag :: tag in own.attrs && tag in {ITEM_FLUIDTYPE, ATTR_CHARGES} ==> Lasts(it, tag, own.attrs[tag]))
  }

  /** What `CreateItem` may be given for this item. */
  predicate GivenCount(it: ItemType, own: Fields, count: nat) {
    count == 0 || count == SubType(it, own) || (it.stackable && count == 1)
  }

  lemma CountedIs(it: ItemType, own: Fields, base: Fields)
    ensures var charges := Unsigned(NumOf(own, ATTR_CHARGES), 2);
            var counted :=
              if it.stackable || it.fluid then SetSubType(it, base, Unsigned(SubType(it, own), 1)) else base;
            Counted(it, own, base) == if charges != 0 then SetSubType(it, counted, charges) else counted
  {
    hide Unsigned, SetSubType, SubType;
  }

  /** The count that `CreateItem` is given is none, or the sub-type, or one for a stack of none. */
  lemma CountIff(it: ItemType, own: Fields, count: nat)
    requires WellTyped(own) && GivenCount(it, own, count)
    ensures var r := Counted(it, own, Created(it, count));
            (CountLasts(it, own) <==>
             r.count == own.count && At(r, ITEM_FLUIDTYPE) == At(own, ITEM_FLUIDTYPE)
             && At(r, ATTR_CHARGES) == At(own, ATTR_CHARGES))
  {
    hide Counted, Span, DefaultDuration;
    CountedIs(it, own, Created(it, count));
    SpanOfFour();
  }

  lemma CountFrame(it: ItemType, own: Fields, count: nat)
    ensures Started(it, Counted(it, own, Created(it, count)))
  {
    hide Counted, Unsigned, SubType, DefaultDuration;
    CountedIs(it, own, Created(it, count));
  }

  // ----- the other attributes -----

  lemma UnsignedBack(n: int, w: nat)
    requires w in {1, 2, 4}
    ensures Unsigned(n, w) == n <==> 0 <= n < (if w == 1 then 256 else if w == 2 then TWO_TO_THE_16 else TWO_TO_THE_32)
  {
    SpanOfFour();
  }

  lemma SignedBack(n: int, w: nat)
    requires w == 1 || w == 4
    ensures Signed(Unsigned(n, w), w) == n
       <==> if w == 1 then -128 <= n < 128 else 0 - TWO_TO_THE_31 <= n < TWO_TO_THE_31
    ensures Signed(0, w) == 0
  {
    SpanOfFour();
  }

  predicate DurationDefault(it: ItemType, base: Fields) {
    At(base, ATTR_DURATION) == if DefaultDuration(it) != 0 then Some(Num(DefaultDuration(it))) else None
  }

  /** A string comes back just when it can be written and is not empty. */
  lemma StringIff(it: ItemType, own: Fields, base: Fields, tag: byte)
    requires WellTyped(own) && tag in TAIL && PayloadOf(tag).Text? && At(base, tag) == None
    ensures At(PutRecord(it, base, tag, Written(it, own, tag)), tag) == At(own, tag)
       <==> (tag in own.attrs ==> Lasts(it, tag, own.attrs[tag]))
  {
  }

  /** A number that is written whenever it is there. */
  lemma PlainNumberIff(it: ItemType, own: Fields, base: Fields, tag: byte)
    requires WellTyped(own) && tag in TAIL && PayloadOf(tag).Number? && At(base, tag) == None
    requires tag !in {ATTR_ACTION_ID, ATTR_WRITTENDATE, ATTR_DURATION, ATTR_DECAYING_STATE}
    ensures At(PutRecord(it, base, tag, Written(it, own, tag)), tag) == At(own, tag)
       <==> (tag in own.attrs ==> Lasts(it, tag, own.attrs[tag]))
  {
    hide Span, Unsigned, Signed;
    if tag in own.attrs {
      var n, w := own.attrs[tag].n, PayloadOf(tag).width;
      UnsignedBack(n, w);
      if w != 2 {
        SignedBack(n, w);
      }
      assert Written(it, own, tag) == Some(OneNumber(Unsigned(n, w)));
    }
  }

  /** The numbers with rules of their own. */
  lemma SpecialNumberIff(it: ItemType, own: Fields, base: Fields, tag: byte)
    requires WellTyped(own) && tag in {ATTR_ACTION_ID, ATTR_WRITTENDATE, ATTR_DURATION}
    requires if tag == ATTR_DURATION then DurationDefault(it, base) else At(base, tag) == None
    ensures At(PutRecord(it, base, tag, Written(it, own, tag)), tag) == At(own, tag)
       <==> (&& (tag in own.attrs ==> Lasts(it, tag, own.attrs[tag]))
             && (tag == ATTR_DURATION && DefaultDuration(it) != 0 ==> tag in own.attrs))
  {
    hide Span, Unsigned, Signed, DefaultDuration;
    SpanOfFour();
    var n := NumOf(own, tag);
    UnsignedBack(n, 2);
    UnsignedBack(0, 2);
    SignedBack(n, 4);
  }

  lemma TailIff(it: ItemType, own: Fields, base: Fields, tag: byte)
    requires WellTyped(own) && tag in TAIL && tag != ATTR_DECAYING_STATE && tag != ATTR_CUSTOM_ATTRIBUTES
    requires if tag == ATTR_DURATION then DurationDefault(it, base) else At(base, tag) == None
    ensures At(PutRecord(it, base, tag, Written(it, own, tag)), tag) == At(own, tag)
       <==> (&& (tag in own.attrs ==> Lasts(it, tag, own.attrs[tag]))
             && (tag == ATTR_DURATION && DefaultDuration(it) != 0 ==> tag in own.attrs))
  {
    hide PutRecord, Written, Lasts, DefaultDuration, WellTyped;
    if tag in {ATTR_ACTION_ID, ATTR_WRITTENDATE, ATTR_DURATION} {
      SpecialNumberIff(it, own, base, tag);
    } else if PayloadOf(tag).Text? {
      StringIff(it, own, base, tag);
    } else {
      PlainNumberIff(it, own, base, tag);
    }
  }

  /** Any decay that is written comes back as a pending one. */
  lemma DecayIs(it: ItemType, own: Fields, base: Fields)
    requires WellTyped(own) && At(base, ATTR_DECAYING_STATE) == None
    ensures var tag := ATTR_DECAYING_STATE;
            var r := At(PutRecord(it, base, tag, Written(it, own, tag)), tag);
            && r == (if NumOf(own, ATTR_DECAYING_STATE) % 256 in {DECAYING_TRUE, DECAYING_PENDING}
                     then Some(Num(DECAYING_PENDING)) else None)
            && (r == At(own, ATTR_DECAYING_STATE) <==> DecayLasts(own))
  {
    SpanOfFour();
    hide Span;
  }

  // ----- the custom attributes -----

  function KeptEntry(e: (seq<byte>, Custom)): (seq<byte>, Custom) {
    (Lower(KeptString(e.0)), KeptCustom(e.1))
  }

  function KeptEntries(m: CustomMap): (r: CustomMap)
    ensures |r| == |m| && forall i :: 0 <= i < |m| ==> r[i] == KeptEntry(m[i])
  {
    seq(|m|, i requires 0 <= i < |m| => KeptEntry(m[i]))
  }

  /** No two names of the entries are the same, nor are any of the entries and of `have`. */
  predicate Apart(have: CustomMap, m: CustomMap) {
    && (forall i, j :: 0 <= i < |have| && 0 <= j < |m| ==> have[i].0 != KeptEntry(m[j]).0)
    && (forall i, j :: 0 <= i < j < |m| ==> KeptEntry(m[i]).0 != KeptEntry(m[j]).0)
  }

  lemma {:induction false} WithoutIs(m: CustomMap, key: seq<byte>)
    ensures |Without(m, key)| <= |m|
    ensures (forall i :: 0 <= i < |m| ==> m[i].0 != key) ==> Without(m, key) == m
    ensures (exists i :: 0 <= i < |m| && m[i].0 == key) ==> |Without(m, key)| < |m|
    decreases |m|
  {
    if m != [] {
      WithoutIs(m[1..], key);
      assert m == [m[0]] + m[1..];
      if m[0].0 != key && exists i :: 0 <= i < |m| && m[i].0 == key {
        var i :| 0 <= i < |m| && m[i].0 == key;
        assert m[1..][i - 1].0 == key;
      }
    }
  }

  /** Entries with names of their own are appended; otherwise one of them replaces another. */
  lemma {:induction false} EntriesAppend(have: CustomMap, m: CustomMap)
    ensures PutEntries(Some(have), m).Some?
    ensures Apart(have, m) ==> PutEntries(Some(have), m) == Some(have + KeptEntries(m))
    ensures !Apart(have, m) ==> |PutEntries(Some(have), m).value| < |have| + |m|
    ensures |PutEntries(Some(have), m).value| <= |have| + |m|
    decreases |m|
  {
    hide Apart, Without, PutCustom, KeptEntry, KeptString, KeptCustom, Lower;
    if m == [] {
      assert have + KeptEntries(m) == have;
      ApartNone(have);
    } else {
      var e := KeptEntry(m[0]);
      var next := Without(have, e.0) + [e];
      WithoutIs(have, e.0);
      PutEntry(have, m[0]);
      EntriesAppend(next, m[1..]);
      if i :| 0 <= i < |have| && have[i].0 == e.0 {
        Clash(have, m, i);
      } else {
        ApartStep(have, m);
        assert have + KeptEntries(m) == next + KeptEntries(m[1..]);
      }
    }
  }

  lemma PutEntry(have: CustomMap, e: (seq<byte>, Custom))
    ensures PutCustom(Some(have), KeptString(e.0), KeptCustom(e.1))
         == Some(Without(have, KeptEntry(e).0) + [KeptEntry(e)])
  {
  }

  lemma ApartNone(have: CustomMap)
    ensures Apart(have, [])
  {
  }

  lemma Clash(have: CustomMap, m: CustomMap, i: nat)
    requires i < |have| && m != [] && have[i].0 == KeptEntry(m[0]).0
    ensures !Apart(have, m)
  {
  }

  lemma ApartStep(have: CustomMap, m: CustomMap)
    requires m != [] && forall i :: 0 <= i < |have| ==> have[i].0 != KeptEntry(m[0]).0
    ensures Apart(have, m) <==> Apart(have + [KeptEntry(m[0])], m[1..])
  {
    hide KeptEntry;
    var next := have + [KeptEntry(m[0])];
    if Apart(next, m[1..]) {
      forall i, j | 0 <= i < |have| && 0 <= j < |m| ensures have[i].0 != KeptEntry(m[j]).0 {
        if j > 0 { assert next[i].0 != KeptEntry(m[1..][j - 1]).0; }
      }
      forall i, j | 0 <= i < j < |m| ensures KeptEntry(m[i]).0 != KeptEntry(m[j]).0 {
        if i == 0 {
          assert next[|have|].0 != KeptEntry(m[1..][j - 1]).0;
        } else {
          assert KeptEntry(m[1..][i - 1]).0 != KeptEntry(m[1..][j - 1]).0;
        }
      }
    }
    if Apart(have, m) {
      forall i, j | 0 <= i < |next| && 0 <= j < |m[1..]| ensures next[i].0 != KeptEntry(m[1..][j]).0 {
        assert m[1..][j] == m[j + 1];
      }
    }
  }

  lemma CustomIff(m: CustomMap)
    ensures PutEntries(None, m) == Some(m) <==> CustomLasts(m)
  {
    if m != [] {
      PutFirst(m);
      EntriesAppend([], m);
      assert [] + KeptEntries(m) == KeptEntries(m);
      EntriesLast(m);
    }
  }

  lemma PutFirst(m: CustomMap)
    requires m != []
    ensures PutEntries(None, m) == PutEntries(Some([]), m)
  {
    assert [] + [KeptEntry(m[0])] == [KeptEntry(m[0])];
  }

  lemma EntriesLast(m: CustomMap)
    requires m != []
    ensures KeptEntries(m) == m && Apart([], m) <==> CustomLasts(m)
  {
    if CustomLasts(m) {
      assert forall i :: 0 <= i < |m| ==> KeptEntry(m[i]) == m[i];
    }
    if KeptEntries(m) == m {
      forall i | 0 <= i < |m| ensures |m[i].0| <= MAX_STRING && Lower(m[i].0) == m[i].0 {
        assert KeptEntry(m[i]) == m[i];
      }
      forall i | 0 <= i < |m| && m[i].1.Word? ensures |m[i].1.s| <= MAX_STRING {
        assert KeptEntry(m[i]) == m[i];
      }
    }
  }

  // ----- the whole item -----

  /** Both agree in everything but the decay state. */
  ghost predicate AgreeElse(a: Fields, b: Fields) {
    && a.count == b.count && a.custom == b.custom
    && forall tag :: tag != ATTR_DECAYING_STATE ==> At(a, tag) == At(b, tag)
  }

  /** What has to be true of one tag, apart from those of the sub-type and the decay state. */
  predicate TagLasts(it: ItemType, own: Fields, tag: byte) {
    && (tag in own.attrs ==> Lasts(it, tag, own.attrs[tag]))
    && (tag == ATTR_DURATION && DefaultDuration(it) != 0 ==> tag in own.attrs)
  }

  /** What the first two records leave for the others. */
  ghost predicate Started(it: ItemType, base: Fields) {
    && base.custom == None && DurationDefault(it, base)
    && forall k :: k !in {ITEM_FLUIDTYPE, ATTR_CHARGES, ATTR_DURATION} ==> At(base, k) == None
  }

  lemma TailTags()
    ensures forall i, j :: 0 <= i < j < |TAIL| ==> TAIL[i] != TAIL[j]
    ensures forall tag :: PayloadOf(tag).Text? ==> tag in TAIL
    ensures ITEM_FLUIDTYPE !in TAIL && ATTR_CHARGES !in TAIL && ATTR_DURATION in TAIL && ATTR_CUSTOM_ATTRIBUTES in TAIL
    ensures ATTR_DECAYING_STATE in TAIL
  {
  }

  lemma TagIff(it: ItemType, own: Fields, base: Fields, tag: byte)
    requires WellTyped(own) && Started(it, base) && tag !in {ITEM_FLUIDTYPE, ATTR_CHARGES, ATTR_DECAYING_STATE}
    ensures At(Restored(it, own, it, base, TAIL), tag) == At(own, tag) <==> TagLasts(it, own, tag)
  {
    TailTags();
    RestoredAt(it, it, own, base, TAIL, tag);
    hide Restored, PutRecord, Written, Lasts, DefaultDuration, PutEntries;
    if tag == ATTR_CUSTOM_ATTRIBUTES || tag !in TAIL {
      OutsideIff(it, own, base, tag);
    } else {
      TailIff(it, own, base, tag);
    }
  }

  /** What is stored under no tag of the tail is not written. */
  lemma OutsideIff(it: ItemType, own: Fields, base: Fields, tag: byte)
    requires WellTyped(own) && Started(it, base) && tag !in {ITEM_FLUIDTYPE, ATTR_CHARGES, ATTR_DECAYING_STATE}
    requires tag == ATTR_CUSTOM_ATTRIBUTES || tag !in TAIL
    ensures tag in own.attrs ==> !Lasts(it, tag, own.attrs[tag])
    ensures At(base, tag) == None && tag != ATTR_DURATION
    ensures At(PutRecord(it, base, ATTR_CUSTOM_ATTRIBUTES, Written(it, own, ATTR_CUSTOM_ATTRIBUTES)), tag) == None
  {
    TailTags();
    hide PutEntries, DefaultDuration;
  }

  lemma OwnIff(it: ItemType, own: Fields, count: nat)
    requires WellTyped(own) && GivenCount(it, own, count)
    ensures var r := Restored(it, own, it, Created(it, count), ORDER);
            && (AgreeElse(r, own) <==> AllElseLasts(it, own))
            && At(r, ATTR_DECAYING_STATE)
               == (if NumOf(own, ATTR_DECAYING_STATE) % 256 in {DECAYING_TRUE, DECAYING_PENDING}
                   then Some(Num(DECAYING_PENDING)) else None)
            && (At(r, ATTR_DECAYING_STATE) == At(own, ATTR_DECAYING_STATE) <==> DecayLasts(own))
  {
    hide Restored, Created, PutRecord, Written, Counted, DefaultDuration, CustomLasts, Lasts, PutEntries, SubType;
    var base := Counted(it, own, Created(it, count));
    var r := Restored(it, own, it, base, TAIL);
    RestoredByParts(it, own, Created(it, count));
    CountIff(it, own, count);
    CountFrame(it, own, count);
    TailTags();
    RestoredAt(it, it, own, base, TAIL, ITEM_FLUIDTYPE);
    RestoredAt(it, it, own, base, TAIL, ATTR_CHARGES);
    RestoredAt(it, it, own, base, TAIL, ATTR_DECAYING_STATE);
    forall tag | tag !in {ITEM_FLUIDTYPE, ATTR_CHARGES, ATTR_DECAYING_STATE}
      ensures At(r, tag) == At(own, tag) <==> TagLasts(it, own, tag)
    {
      TagIff(it, own, base, tag);
    }
    DecayIs(it, own, base);
    if own.custom.Some? {
      CustomIff(own.custom.value);
    }
    LastsByParts(it, own);
  }

  lemma LastsByParts(it: ItemType, own: Fields)
    ensures AllElseLasts(it, own)
       <==> (&& CountLasts(it, own) && (own.custom.Some? ==> CustomLasts(own.custom.value))
             && forall tag :: tag !in {ITEM_FLUIDTYPE, ATTR_CHARGES, ATTR_DECAYING_STATE} ==> TagLasts(it, own, tag))
  {
    hide Lasts, DefaultDuration, CustomLasts;
    if forall tag :: tag !in {ITEM_FLUIDTYPE, ATTR_CHARGES, ATTR_DECAYING_STATE} ==> TagLasts(it, own, tag) {
      assert TagLasts(it, own, ATTR_DURATION);
      forall tag | tag in own.attrs && tag !in {ITEM_FLUIDTYPE, ATTR_CHARGES, ATTR_DECAYING_STATE}
        ensures Lasts(it, tag, own.attrs[tag])
      {
        assert TagLasts(it, own, tag);
      }
    }
  }

  /** Two items that store the same under every tag have the same attributes. */
  lemma SameAttrs(a: Fields, b: Fields)
    requires forall tag :: At(a, tag) == At(b, tag)
    ensures a.attrs == b.attrs
  {
    forall tag ensures tag in a.attrs <==> tag in b.attrs {
      assert At(a, tag) == At(b, tag);
    }
    forall tag | tag in a.attrs ensures a.attrs[tag] == b.attrs[tag] {
      assert At(a, tag) == At(b, tag);
    }
  }

  lemma NormalOwnIff(types: Types, t: Item, row: bool)
    requires WellTyped(t.own) && LoadedId(t) == t.id
    ensures var r := NormalOwn(types, t, row);
            && (AgreeElse(r, t.own) <==> AllElseLasts(types(t.id), t.own))
            && At(r, ATTR_DECAYING_STATE)
               == (if NumOf(t.own, ATTR_DECAYING_STATE) % 256 in {DECAYING_TRUE, DECAYING_PENDING}
                   then Some(Num(DECAYING_PENDING)) else None)
            && (r == t.own <==> AllElseLasts(types(t.id), t.own) && DecayLasts(t.own))
  {
    hide Restored, Created, AllElseLasts, DecayLasts, WellTyped, SubType;
    var it, column := types(t.id), CountColumn(types, t, row);
    var count := if t.Box? then 0 else if it.stackable && column == 0 then 1 else column;
    OwnIff(it, t.own, count);
    assert NormalOwn(types, t, row) == Restored(it, t.own, it, Created(it, count), ORDER);
    var r := NormalOwn(types, t, row);
    if AgreeElse(r, t.own) && At(r, ATTR_DECAYING_STATE) == At(t.own, ATTR_DECAYING_STATE) {
      SameAttrs(r, t.own);
    }
  }

  /** Exactly the faithful trees survive a save and a load unchanged, in a row or a stream. */
  lemma {:induction false} NormalIffFaithful(types: Types, t: Item, row: bool)
    requires Savable(types, t)
    ensures Normal(types, t, row) == t <==> Faithful(types, t)
    decreases t
  {
    hide NormalOwn, WellTyped, AllElseLasts, DecayLasts, Weight;
    if LoadedId(t) == t.id {
      NormalOwnIff(types, t, row);
    }
    match t
    case Plain(_, _) =>
    case Box(_, _, items, _) =>
      NormalAllIffFaithful(types, items, row);
  }

  lemma {:induction false} NormalAllIffFaithful(types: Types, items: seq<Item>, row: bool)
    requires forall c :: c in items ==> Savable(types, c)
    ensures NormalAll(types, items, row) == items <==> forall c :: c in items ==> Faithful(types, c)
    decreases items
  {
    hide Normal, Savable, Faithful;
    if items == [] {
    } else {
      NormalIffFaithful(types, items[0], row);
      NormalAllIffFaithful(types, items[1..], row);
      assert items == [items[0]] + items[1..];
      assert NormalAll(types, items, row)[1..] == NormalAll(types, items[1..], row);
    }
  }

  /** The round trip gives back the very tree that was saved just for faithful trees. */
  lemma ExactRoundTrip(types: Types, t: Item, rest: seq<byte>)
    requires Savable(types, t)
    ensures ReadItem(types, Encode(types, t) + rest) == Some((Some(t), rest)) <==> Faithful(types, t)
  {
    LoadInvertsSave(types, t, rest);
    NormalIffFaithful(types, t, false);
  }
}
