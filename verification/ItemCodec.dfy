/**
 * Items as values, the table of item types, and the two byte encodings that
 * `Item::serializeAttr` and `IOMapSerialize::saveItem` write. Reading is given as functions
 * of the remaining bytes; module ItemStream holds the code that runs on streams.
 */
module ItemCodec {
  import opened Basics

  /** The value of an attribute: a 64-bit number or a string. */
  datatype Value = Num(n: int) | Str(s: seq<byte>)

  /** A value that a script attached to an item under a name of its own. */
  datatype Custom = Word(s: seq<byte>) | Whole(n: nat) | Real(bits: nat) | Flag(b: bool)

  /** The custom attributes, in the order in which they are walked. */
  type CustomMap = seq<(seq<byte>, Custom)>

  /** What an item stores of its own: the 8-bit count, the attributes it has, each under its
      tag, and the custom attributes, if it has that attribute. */
  datatype Fields = Fields(count: nat, attrs: map<byte, Value>, custom: Option<CustomMap>)

  /** A box is a container: its children front first, and the weight it caches for them. */
  datatype Item =
    | Plain(id: nat, own: Fields)
    | Box(id: nat, own: Fields, items: seq<Item>, totalWeight: nat)

  /** `fluid` stands for fluid containers and splashes. */
  datatype ItemType = ItemType(id: nat, deprecated: bool, container: bool, stackable: bool, fluid: bool,
                               moveable: bool, charges: nat, decayTime: nat, decayTo: int, weight: nat)

  type Types = nat -> ItemType

  const ATTR_ACTION_ID: byte := 4
  const ATTR_UNIQUE_ID: byte := 5
  const ATTR_TEXT: byte := 6
  const ATTR_DESC: byte := 7
  const ATTR_TELE_DEST: byte := 8
  const ATTR_DEPOT_ID: byte := 10
  const ATTR_RUNE_CHARGES: byte := 12
  const ATTR_HOUSEDOORID: byte := 14
  const ATTR_COUNT: byte := 15
  const ATTR_DURATION: byte := 16
  const ATTR_DECAYING_STATE: byte := 17
  const ATTR_WRITTENDATE: byte := 18
  const ATTR_WRITTENBY: byte := 19
  const ATTR_SLEEPERGUID: byte := 20
  const ATTR_SLEEPSTART: byte := 21
  const ATTR_CHARGES: byte := 22
  const ATTR_CONTAINER_ITEMS: byte := 23
  const ATTR_NAME: byte := 24
  const ATTR_ARTICLE: byte := 25
  const ATTR_PLURALNAME: byte := 26
  const ATTR_WEIGHT: byte := 27
  const ATTR_ATTACK: byte := 28
  const ATTR_DEFENSE: byte := 29
  const ATTR_EXTRADEFENSE: byte := 30
  const ATTR_ARMOR: byte := 31
  const ATTR_HITCHANCE: byte := 32
  const ATTR_SHOOTRANGE: byte := 33
  const ATTR_DECAYTO: byte := 35
  const ATTR_WRAPID: byte := 36
  const ATTR_STOREITEM: byte := 37
  const ATTR_ATTACK_SPEED: byte := 38
  const ATTR_CUSTOM_ATTRIBUTES: byte := 34

  // Attributes that have no tag of their own in a stream.
  const ITEM_FLUIDTYPE: byte := 128
  const ITEM_OWNER: byte := 129
  const ITEM_CORPSEOWNER: byte := 130
  const ITEM_DOORID: byte := 131

  const DECAYING_TRUE := 1
  const DECAYING_PENDING := 2
  const MAX_STRING := 65535

  /** How the payload of a tag is laid out. Skipped ones belong to subclasses of items. */
  datatype Payload = Number(width: nat) | Text | Skipped(width: nat) | Children | Customs | Unknown

  function PayloadOf(tag: byte): Payload {
    if tag in {ATTR_COUNT, ATTR_RUNE_CHARGES, ATTR_DECAYING_STATE, ATTR_HITCHANCE, ATTR_SHOOTRANGE, ATTR_STOREITEM}
      then Number(1)
    else if tag in {ATTR_ACTION_ID, ATTR_UNIQUE_ID, ATTR_CHARGES, ATTR_WRAPID} then Number(2)
    else if tag in {ATTR_WRITTENDATE, ATTR_DURATION, ATTR_WEIGHT, ATTR_ATTACK, ATTR_ATTACK_SPEED, ATTR_DEFENSE,
                    ATTR_EXTRADEFENSE, ATTR_ARMOR, ATTR_DECAYTO} then Number(4)
    else if tag in {ATTR_TEXT, ATTR_DESC, ATTR_WRITTENBY, ATTR_NAME, ATTR_ARTICLE, ATTR_PLURALNAME} then Text
    else if tag == ATTR_HOUSEDOORID then Skipped(1)
    else if tag == ATTR_DEPOT_ID then Skipped(2)
    else if tag in {ATTR_SLEEPERGUID, ATTR_SLEEPSTART} then Skipped(4)
    else if tag == ATTR_TELE_DEST then Skipped(5)
    else if tag == ATTR_CONTAINER_ITEMS then Children
    else if tag == ATTR_CUSTOM_ATTRIBUTES then Customs
    else Unknown
  }

  // ----- creating items -----

  /** Lit rings are replaced by their unlit form whenever an item is created. */
  function RingId(id: nat): nat {
    if 2210 <= id <= 2212 then id - 3
    else if id == 2215 || id == 2216 then id - 2
    else if 2202 <= id <= 2206 then id - 37
    else id
  }

  /** The number as an unsigned one of this many bytes, ... */
  function Unsigned(n: int, width: nat): nat { n % Span(width) }

  /** ... and as a signed one. */
  function Signed(n: int, width: nat): int
    requires width > 0
  {
    if Unsigned(n, width) < Span(width) / 2 then Unsigned(n, width) else Unsigned(n, width) - Span(width)
  }

  function Put(own: Fields, tag: byte, n: int): Fields {
    own.(attrs := own.attrs[tag := Num(n)])
  }

  /** The constructor of `Item`. */
  function Created(it: ItemType, count: nat): Fields {
    var bare := Fields(1, map[], None);
    var counted :=
      if it.fluid then Put(bare, ITEM_FLUIDTYPE, count)
      else if it.stackable then
        bare.(count := Unsigned(if count != 0 then count else if it.charges != 0 then it.charges else 1, 1))
      else if it.charges != 0 then Put(bare, ATTR_CHARGES, if count != 0 then count else Unsigned(it.charges, 2))
      else bare;
    if DefaultDuration(it) != 0 then Put(counted, ATTR_DURATION, DefaultDuration(it)) else counted
  }

  /** `decayTime * 1000`, first in 32 bits without and then with a sign. */
  function DefaultDuration(it: ItemType): int { Signed(it.decayTime * 1000, 4) }

  /** `CreateItem`: what a new item of this type stores. */
  function BlankOwn(types: Types, id: nat, isBox: bool, count: nat): Fields {
    if isBox then Created(types(id), 0)
    else Created(types(RingId(id)), if types(id).stackable && count == 0 then 1 else count)
  }

  function CreateItem(types: Types, id: nat, count: nat): Option<Item> {
    var it := types(id);
    if it.deprecated || it.id == 0 then None
    else if it.container then Some(Box(id, BlankOwn(types, id, true, count), [], 0))
    else Some(Plain(RingId(id), BlankOwn(types, id, false, count)))
  }

  // ----- attributes -----

  /** `getIntAttr`. */
  function NumOf(own: Fields, tag: byte): int {
    if tag in own.attrs && own.attrs[tag].Num? then own.attrs[tag].n else 0
  }

  /** `getStrAttr`. */
  function StrOf(own: Fields, tag: byte): seq<byte> {
    if tag in own.attrs && own.attrs[tag].Str? then own.attrs[tag].s else []
  }

  /** `getSubType`. */
  function SubType(it: ItemType, own: Fields): nat {
    if it.fluid then Unsigned(NumOf(own, ITEM_FLUIDTYPE), 2)
    else if it.stackable || it.charges == 0 then own.count
    else Unsigned(NumOf(own, ATTR_CHARGES), 2)
  }

  /** `setSubType`. */
  function SetSubType(it: ItemType, own: Fields, n: nat): Fields {
    if it.fluid then Put(own, ITEM_FLUIDTYPE, n)
    else if it.stackable || it.charges == 0 then own.(count := Unsigned(n, 1))
    else Put(own, ATTR_CHARGES, n)
  }

  // ----- weight -----

  function OwnWeight(types: Types, item: Item): nat {
    var base :=
      if ATTR_WEIGHT in item.own.attrs then Unsigned(NumOf(item.own, ATTR_WEIGHT), 4) else types(item.id).weight;
    var count := item.own.count;
    if types(item.id).stackable then (base * (if count > 1 then count else 1)) % TWO_TO_THE_32 else base % TWO_TO_THE_32
  }

  /** `getWeight`: 32-bit arithmetic throughout. */
  function Weight(types: Types, item: Item): nat {
    match item
    case Plain(_, _) => OwnWeight(types, item)
    case Box(_, _, _, total) => (OwnWeight(types, item) + total) % TWO_TO_THE_32
  }

  function SumWeight(types: Types, items: seq<Item>): nat {
    if items == [] then 0
    else Weight(types, items[0]) + SumWeight(types, items[1..])
  }

  /** `internalAddThing` on a container without a parent: push front, add the weight. */
  function PushFront(types: Types, box: Item, child: Item): Item
    requires box.Box?
  {
    box.(items := [child] + box.items, totalWeight := (box.totalWeight + Weight(types, child)) % TWO_TO_THE_32)
  }

  // ----- writing -----

  function EncodeString(s: seq<byte>): seq<byte> {
    if |s| > MAX_STRING then LittleEndian(0, 2) else LittleEndian(|s|, 2) + s
  }

  /** One record after its tag. */
  datatype Record = OneNumber(n: nat) | OneString(s: seq<byte>) | Entries(m: CustomMap)

  /** The record that `serializeAttr` writes for a tag, if any. */
  function Written(it: ItemType, own: Fields, tag: byte): Option<Record> {
    var n, s := NumOf(own, tag), StrOf(own, tag);
    if tag == ATTR_COUNT then
      if it.stackable || it.fluid then Some(OneNumber(Unsigned(SubType(it, own), 1))) else None
    else if tag == ATTR_CHARGES then
      if Unsigned(n, 2) != 0 then Some(OneNumber(Unsigned(n, 2))) else None
    else if tag == ATTR_ACTION_ID then
      if it.moveable && Unsigned(n, 2) != 0 then Some(OneNumber(Unsigned(n, 2))) else None
    else if tag in {ATTR_TEXT, ATTR_WRITTENBY, ATTR_DESC} then
      if s != [] then Some(OneString(s)) else None
    else if tag == ATTR_WRITTENDATE then
      if n != 0 then Some(OneNumber(Unsigned(n, 4))) else None
    else if tag == ATTR_DECAYING_STATE then
      if Unsigned(n, 1) in {DECAYING_TRUE, DECAYING_PENDING} then Some(OneNumber(Unsigned(n, 1))) else None
    else if tag == ATTR_CUSTOM_ATTRIBUTES then
      match own.custom case None => None case Some(m) => Some(Entries(m))
    else if tag !in own.attrs then None
    else
      match PayloadOf(tag)
      case Number(w) => Some(OneNumber(Unsigned(n, w)))
      case _ => Some(OneString(s))
  }

  /** The tags in the order of `serializeAttr`. */
  const ORDER: seq<byte> := [ATTR_COUNT, ATTR_CHARGES] + TAIL

  const TAIL: seq<byte> :=
    [ATTR_ACTION_ID, ATTR_TEXT, ATTR_WRITTENDATE, ATTR_WRITTENBY, ATTR_DESC, ATTR_DURATION, ATTR_DECAYING_STATE,
     ATTR_NAME, ATTR_ARTICLE, ATTR_PLURALNAME, ATTR_WEIGHT, ATTR_ATTACK, ATTR_ATTACK_SPEED, ATTR_DEFENSE,
     ATTR_EXTRADEFENSE, ATTR_ARMOR, ATTR_HITCHANCE, ATTR_SHOOTRANGE, ATTR_DECAYTO, ATTR_WRAPID, ATTR_STOREITEM,
     ATTR_CUSTOM_ATTRIBUTES]

  function EncodeCustom(c: Custom): seq<byte> {
    match c
    case Word(s) => [1] + EncodeString(s)
    case Whole(n) => [2] + LittleEndian(n, 8)
    case Real(bits) => [3] + LittleEndian(bits, 8)
    case Flag(b) => [4] + [if b then 1 else 0]
  }

  function EncodeEntries(m: CustomMap): seq<byte> {
    if m == [] then [] else EncodeString(m[0].0) + EncodeCustom(m[0].1) + EncodeEntries(m[1..])
  }

  function EncodeRecord(tag: byte, r: Record): seq<byte> {
    [tag] + match r
            case OneNumber(n) => (match PayloadOf(tag) case Number(w) => LittleEndian(n, w) case _ => [])
            case OneString(s) => EncodeString(s)
            case Entries(m) => LittleEndian(|m|, 8) + EncodeEntries(m)
  }

  function EncodeTag(it: ItemType, own: Fields, tag: byte): seq<byte> {
    match Written(it, own, tag) case None => [] case Some(r) => EncodeRecord(tag, r)
  }

  function EncodeTags(it: ItemType, own: Fields, tags: seq<byte>): seq<byte> {
    if tags == [] then [] else EncodeTag(it, own, tags[0]) + EncodeTags(it, own, tags[1..])
  }

  /** `serializeAttr`. */
  function EncodeAttrs(it: ItemType, own: Fields): seq<byte> { EncodeTags(it, own, ORDER) }

  function Encode(types: Types, item: Item): seq<byte>
    decreases item
  {
    LittleEndian(item.id, 2) + EncodeAttrs(types(item.id), item.own)
    + (if item.Box? then [ATTR_CONTAINER_ITEMS] + LittleEndian(|item.items|, 4) + EncodeReversed(types, item.items)
       else [])
    + [0]
  }

  /** The children are written last to first. */
  function EncodeReversed(types: Types, items: seq<Item>): seq<byte>
    decreases items
  {
    if items == [] then [] else Encode(types, items[|items| - 1]) + EncodeReversed(types, items[..|items| - 1])
  }

  // ----- reading -----

  function ReadNumber(s: seq<byte>, width: nat): (r: Option<(nat, seq<byte>)>) {
    if |s| < width then None else Some((FromLittleEndian(s[..width]), s[width..]))
  }

  function ReadString(s: seq<byte>): Option<(seq<byte>, seq<byte>)> {
    match ReadNumber(s, 2)
    case None => None
    case Some((n, rest)) => if |rest| < n then None else Some((rest[..n], rest[n..]))
  }

  /** What `readAttr` does with a number. */
  function PutNumber(it: ItemType, own: Fields, tag: byte, n: nat): Fields {
    if tag in {ATTR_COUNT, ATTR_RUNE_CHARGES, ATTR_CHARGES} then SetSubType(it, own, n)
    else if tag == ATTR_UNIQUE_ID then if tag in own.attrs then own else Put(own, tag, n)
    else if tag in {ATTR_ACTION_ID, ATTR_ATTACK_SPEED} then Put(own, tag, if n < 100 then 100 else n)
    else if tag == ATTR_DURATION then Put(own, tag, if Signed(n, 4) < 0 then 0 else Signed(n, 4))
    else if tag == ATTR_DECAYING_STATE then if n != 0 then Put(own, tag, DECAYING_PENDING) else own
    else if tag in {ATTR_WRITTENDATE, ATTR_ATTACK, ATTR_DEFENSE, ATTR_EXTRADEFENSE, ATTR_ARMOR, ATTR_DECAYTO} then
      Put(own, tag, Signed(n, 4))
    else if tag == ATTR_HITCHANCE then Put(own, tag, Signed(n, 1))
    else Put(own, tag, n)
  }

  /** ... and with a string: an empty one is not kept. */
  function PutString(own: Fields, tag: byte, s: seq<byte>): Fields {
    if s == [] then own else own.(attrs := own.attrs[tag := Str(s)])
  }

  function Lower(key: seq<byte>): (r: seq<byte>)
    ensures |r| == |key|
  {
    seq(|key|, i requires 0 <= i < |key| => if 65 <= key[i] <= 90 then key[i] + 32 else key[i])
  }

  function Without(m: CustomMap, key: seq<byte>): CustomMap {
    if m == [] then [] else (if m[0].0 == key then [] else [m[0]]) + Without(m[1..], key)
  }

  /** `setCustomAttribute`. */
  function PutCustom(custom: Option<CustomMap>, key: seq<byte>, c: Custom): Option<CustomMap> {
    match custom
    case None => Some([(Lower(key), c)])
    case Some(m) => Some(Without(m, Lower(key)) + [(Lower(key), c)])
  }

  function ReadCustom(s: seq<byte>): Option<(Custom, seq<byte>)> {
    match ReadNumber(s, 1)
    case None => None
    case Some((pos, rest)) =>
      if pos == 1 then (match ReadString(rest) case None => None case Some((str, r)) => Some((Word(str), r)))
      else if pos == 2 then (match ReadNumber(rest, 8) case None => None case Some((n, r)) => Some((Whole(n), r)))
      else if pos == 3 then (match ReadNumber(rest, 8) case None => None case Some((n, r)) => Some((Real(n), r)))
      else if pos == 4 then (match ReadNumber(rest, 1) case None => None case Some((n, r)) => Some((Flag(n != 0), r)))
      else None
  }

  /** The attributes read so far, whether the reading went on to its end, and what is left. */
  datatype CustomsRead = CustomsRead(ok: bool, custom: Option<CustomMap>, rest: seq<byte>)

  function ReadCustoms(s: seq<byte>, n: nat, custom: Option<CustomMap>): (r: CustomsRead)
    ensures |r.rest| <= |s|
  {
    if n == 0 then CustomsRead(true, custom, s)
    else
      match ReadString(s)
      case None => CustomsRead(false, custom, s)
      case Some((key, body)) =>
        match ReadCustom(body)
        case None => CustomsRead(false, custom, s)
        case Some((c, rest)) => ReadCustoms(rest, n - 1, PutCustom(custom, key, c))
  }

  /** The result of `unserializeAttr`: whether it succeeded, what the item stores then, the
      number of children announced, and the bytes that are left. */
  datatype AttrsRead = AttrsRead(ok: bool, own: Fields, count: nat, rest: seq<byte>)

  function ReadAttrs(it: ItemType, isBox: bool, own: Fields, s: seq<byte>): (r: AttrsRead)
    ensures |r.rest| <= |s|
    decreases |s|
  {
    if s == [] then AttrsRead(true, own, 0, [])
    else if s[0] == 0 then AttrsRead(true, own, 0, s[1..])
    else
      var tag, body := s[0], s[1..];
      var failed := AttrsRead(false, own, 0, body);
      match PayloadOf(tag)
      case Number(w) => (
        match ReadNumber(body, w)
        case None => failed
        case Some((n, rest)) => ReadAttrs(it, isBox, PutNumber(it, own, tag, n), rest))
      case Text => (
        match ReadString(body)
        case None => failed
        case Some((str, rest)) => ReadAttrs(it, isBox, PutString(own, tag, str), rest))
      case Customs => (
        match ReadNumber(body, 8)
        case None => failed
        case Some((n, rest)) =>
          var r := ReadCustoms(rest, n, own.custom);
          if r.ok then ReadAttrs(it, isBox, own.(custom := r.custom), r.rest)
          else AttrsRead(false, own.(custom := r.custom), 0, body))
      case Skipped(w) => if |body| < w then failed else ReadAttrs(it, isBox, own, body[w..])
      case Children =>
        if !isBox then failed
        else (match ReadNumber(body, 4) case None => failed case Some((n, rest)) => AttrsRead(true, own, n, rest))
      case Unknown => failed
  }

  /** `loadItem` into a container: None is a reported failure. An unknown type reads its id only
      and yields no item. */
  function ReadItem(types: Types, s: seq<byte>): (r: Option<(Option<Item>, seq<byte>)>)
    ensures r.Some? ==> |r.value.1| < |s|
    decreases |s|, 0, 0
  {
    match ReadNumber(s, 2)
    case None => None
    case Some((id, body)) =>
      match CreateItem(types, id, 0)
      case None => Some((None, body))
      case Some(blank) =>
        var r := ReadAttrs(types(blank.id), blank.Box?, blank.own, body);
        if !r.ok then None
        else if blank.Plain? then Some((Some(blank.(own := r.own)), r.rest))
        else
          match ReadChildren(types, r.rest, r.count, blank.(own := r.own))
          case None => None
          case Some((box, tail)) =>
            if tail == [] || tail[0] != 0 then None else Some((Some(box), tail[1..]))
  }

  /** The loop of `loadContainer`: `n` more items, each pushed to the front. */
  function ReadChildren(types: Types, s: seq<byte>, n: nat, box: Item): (r: Option<(Item, seq<byte>)>)
    requires box.Box?
    ensures r.Some? ==> r.value.0.Box? && |r.value.1| <= |s|
    decreases |s|, 1, n
  {
    if n == 0 then Some((box, s))
    else
      match ReadItem(types, s)
      case None => None
      case Some((child, rest)) =>
        ReadChildren(types, rest, n - 1, if child.Some? then PushFront(types, box, child.value) else box)
  }
}
