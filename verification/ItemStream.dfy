/**
 * `PropStream`, `PropWriteStream` and the code of `IOMapSerialize` that runs on them:
 * a read position that moves, a buffer that grows, and the countdown in `loadContainer`.
 */
module ItemStream {
  import opened Basics
  import opened ItemCodec
  import opened ItemRoundTrip
  import opened ItemFaithful
  import opened ItemOnTile

  class PropWriteStream {
    var buffer: seq<byte>

    constructor ()
      ensures buffer == []
    {
      buffer := [];
    }

    method Write(n: nat, width: nat)
      modifies this
      ensures buffer == old(buffer) + LittleEndian(n, width)
    {
      var rest := n;
      ghost var goal := old(buffer) + LittleEndian(n, width);
      for k := 0 to width
        invariant buffer + LittleEndian(rest, width - k) == goal
      {
        buffer := buffer + [(rest % 256) as byte];
        rest := rest / 256;
      }
    }

    /** A string too long for its length field is written as an empty one. */
    method WriteString(str: seq<byte>)
      modifies this
      ensures buffer == old(buffer) + EncodeString(str)
    {
      if |str| > MAX_STRING {
        Write(0, 2);
        return;
      }
      Write(|str|, 2);
      buffer := buffer + str;
    }

    method WriteCustom(c: Custom)
      modifies this
      ensures buffer == old(buffer) + EncodeCustom(c)
    {
      match c {
        case Word(s) =>
          buffer := buffer + [1];
          WriteString(s);
        case Whole(n) =>
          buffer := buffer + [2];
          Write(n, 8);
        case Real(bits) =>
          buffer := buffer + [3];
          Write(bits, 8);
        case Flag(b) =>
          buffer := buffer + [4, if b then 1 else 0];
      }
    }

    /** The loop of `serializeAttr` over the custom attributes. */
    method WriteCustoms(m: CustomMap)
      modifies this
      ensures buffer == old(buffer) + (LittleEndian(|m|, 8) + EncodeEntries(m))
    {
      hide EncodeCustom, EncodeString, LittleEndian;
      Write(|m|, 8);
      assert m[0..] == m;
      for i := 0 to |m|
        invariant buffer + EncodeEntries(m[i..]) == old(buffer) + (LittleEndian(|m|, 8) + EncodeEntries(m))
      {
        assert m[i..][1..] == m[i + 1..];
        Associates(buffer, EncodeString(m[i].0), EncodeCustom(m[i].1));
        Associates(buffer, EncodeString(m[i].0) + EncodeCustom(m[i].1), EncodeEntries(m[i + 1..]));
        WriteString(m[i].0);
        WriteCustom(m[i].1);
      }
    }

    /** One attribute of `serializeAttr`: its test, its tag and its value. */
    method WriteTag(it: ItemType, own: Fields, tag: byte)
      requires WellTyped(own) && tag in ORDER
      modifies this
      ensures buffer == old(buffer) + EncodeTag(it, own, tag)
    {
      hide LittleEndian, EncodeString, EncodeEntries, Written;
      WrittenFits(it, own, tag);
      match Written(it, own, tag) {
        case None =>
        case Some(OneNumber(n)) =>
          buffer := buffer + [tag];
          Write(n, PayloadOf(tag).width);
        case Some(OneString(s)) =>
          buffer := buffer + [tag];
          WriteString(s);
        case Some(Entries(m)) =>
          buffer := buffer + [tag];
          WriteCustoms(m);
      }
    }

    method SerializeAttr(it: ItemType, own: Fields)
      requires WellTyped(own)
      modifies this
      ensures buffer == old(buffer) + EncodeAttrs(it, own)
    {
      hide EncodeTag, WellTyped;
      assert ORDER[0..] == ORDER;
      for i := 0 to |ORDER|
        invariant buffer + EncodeTags(it, own, ORDER[i..]) == old(buffer) + EncodeAttrs(it, own)
      {
        Associates(buffer, EncodeTag(it, own, ORDER[i]), EncodeTags(it, own, ORDER[i + 1..]));
        assert ORDER[i..][1..] == ORDER[i + 1..];
        WriteTag(it, own, ORDER[i]);
      }
    }

    /** `saveItem`: identifier, attributes, the children from last to first, an end byte. */
    method SaveItem(types: Types, item: Item)
      requires Savable(types, item)
      modifies this
      ensures buffer == old(buffer) + Encode(types, item)
      decreases item, 1
    {
      hide Encode, EncodeAttrs, EncodeReversed, LittleEndian, WellTyped;
      EncodeOnto(types, buffer, item);
      Write(item.id, 2);
      SerializeAttr(types(item.id), item.own);
      if item.Box? {
        buffer := buffer + [ATTR_CONTAINER_ITEMS];
        Write(|item.items|, 4);
        SaveReversed(types, item, item.items);
        ghost var head := old(buffer) + LittleEndian(item.id, 2) + EncodeAttrs(types(item.id), item.own);
        Associates(head, [ATTR_CONTAINER_ITEMS] + LittleEndian(|item.items|, 4), EncodeReversed(types, item.items));
        Associates(head, [ATTR_CONTAINER_ITEMS], LittleEndian(|item.items|, 4));
      }
      buffer := buffer + [0];
    }

    /** The loop of `saveItem` over `getReversedItems`. */
    method SaveReversed(types: Types, ghost parent: Item, items: seq<Item>)
      requires parent.Box? && parent.items == items && forall c :: c in items ==> Savable(types, c)
      modifies this
      ensures buffer == old(buffer) + EncodeReversed(types, items)
      decreases parent, 0
    {
      hide Encode, Savable;
      var i := |items|;
      assert items[..i] == items;
      while i > 0
        invariant 0 <= i <= |items|
        invariant buffer + EncodeReversed(types, items[..i]) == old(buffer) + EncodeReversed(types, items)
      {
        i := i - 1;
        assert items[..i + 1][..i] == items[..i] && items[..i + 1][i] == items[i];
        Associates(buffer, Encode(types, items[i]), EncodeReversed(types, items[..i]));
        SaveItem(types, items[i]);
      }
    }
  }

  /** The pieces of an encoding, in the order in which they are appended. */
  lemma EncodeOnto(types: Types, b: seq<byte>, item: Item)
    ensures b + Encode(types, item)
         == b + LittleEndian(item.id, 2) + EncodeAttrs(types(item.id), item.own)
            + (if item.Box? then
                 [ATTR_CONTAINER_ITEMS] + LittleEndian(|item.items|, 4) + EncodeReversed(types, item.items)
               else [])
            + [0]
  {
  }

  lemma Associates(a: seq<byte>, b: seq<byte>, c: seq<byte>)
    ensures a + (b + c) == a + b + c
  {
  }

  class PropStream {
    const data: seq<byte>
    var p: nat

    ghost predicate Valid() reads this { p <= |data| }

    /** The bytes not read yet. */
    ghost function Rest(): seq<byte>
      requires Valid()
      reads this
    {
      data[p..]
    }

    constructor (data: seq<byte>)
      ensures Valid() && Rest() == data
    {
      this.data := data;
      p := 0;
    }

    method Read(width: nat) returns (r: Option<nat>)
      requires Valid()
      modifies this
      ensures Valid()
      ensures match ReadNumber(old(Rest()), width)
              case None => r == None && p == old(p)
              case Some((n, rest)) => r == Some(n) && Rest() == rest
    {
      if |data| - p < width {
        return None;
      }
      r := Some(FromLittleEndian(data[p..p + width]));
      assert data[p..][..width] == data[p..p + width] && data[p..][width..] == data[p + width..];
      p := p + width;
    }

    method ReadStr() returns (r: Option<seq<byte>>)
      requires Valid()
      modifies this
      ensures Valid()
      ensures match ReadString(old(Rest()))
              case None => r == None
              case Some((s, rest)) => r == Some(s) && Rest() == rest
      ensures old(p) <= p
    {
      var strLen := Read(2);
      if strLen.None? || |data| - p < strLen.value {
        return None;
      }
      var n := strLen.value;
      assert data[p..][..n] == data[p..p + n] && data[p..][n..] == data[p + n..];
      r := Some(data[p..p + n]);
      p := p + n;
    }

    method Skip(n: nat) returns (ok: bool)
      requires Valid()
      modifies this
      ensures Valid()
      ensures ok <==> |old(Rest())| >= n
      ensures if ok then Rest() == old(Rest())[n..] else p == old(p)
    {
      if |data| - p < n {
        return false;
      }
      assert data[p..][n..] == data[p + n..];
      p := p + n;
      ok := true;
    }

    /** The value of one custom attribute. */
    method UnserializeCustom() returns (r: Option<Custom>)
      requires Valid()
      modifies this
      ensures Valid()
      ensures match ReadCustom(old(Rest()))
              case None => r == None
              case Some((c, rest)) => r == Some(c) && Rest() == rest
    {
      hide FromLittleEndian;
      var pos := Read(1);
      if pos == None {
        return None;
      }
      if pos.value == 1 {
        var str := ReadStr();
        r := if str.None? then None else Some(Word(str.value));
      } else if pos.value == 2 {
        var n := Read(8);
        r := if n.None? then None else Some(Whole(n.value));
      } else if pos.value == 3 {
        var bits := Read(8);
        r := if bits.None? then None else Some(Real(bits.value));
      } else if pos.value == 4 {
        var b := Read(1);
        r := if b.None? then None else Some(Flag(b.value != 0));
      } else {
        r := None;
      }
    }

    /** The loop of `readAttr` over the custom attributes. */
    method UnserializeCustoms(size: nat, start: Option<CustomMap>) returns (ok: bool, custom: Option<CustomMap>)
      requires Valid()
      modifies this
      ensures Valid()
      ensures var r := ReadCustoms(old(Rest()), size, start);
              ok == r.ok && custom == r.custom && (ok ==> Rest() == r.rest)
      ensures ok ==> old(p) <= p
    {
      hide ReadCustom, ReadString, PutCustom;
      custom := start;
      for i := 0 to size
        invariant Valid() && ReadCustoms(Rest(), size - i, custom) == ReadCustoms(old(Rest()), size, start)
      {
        var key := ReadStr();
        if key == None {
          return false, custom;
        }
        var val := UnserializeCustom();
        if val == None {
          return false, custom;
        }
        custom := PutCustom(custom, key.value, val.value);
      }
      ok := true;
    }

    /** `unserializeAttr` with the `readAttr` of a plain item or of a container. What was read
        before a failure stays. */
    method UnserializeAttr(it: ItemType, isBox: bool, start: Fields) returns (ok: bool, own: Fields, count: nat)
      requires Valid()
      modifies this
      ensures Valid()
      ensures var r := ReadAttrs(it, isBox, start, old(Rest()));
              ok == r.ok && own == r.own && (ok ==> count == r.count && Rest() == r.rest)
    {
      hide FromLittleEndian, PutNumber, PutString, ReadCustoms, ReadString;
      own := start;
      ghost var all := ReadAttrs(it, isBox, start, Rest());
      while true
        invariant Valid() && ReadAttrs(it, isBox, own, Rest()) == all
        decreases |data| - p
      {
        ghost var s := Rest();
        var tag := Read(1);
        ReadTag(s);
        if tag.None? || tag.value == 0 {
          return true, own, 0;
        }
        var t := tag.value as byte;
        match PayloadOf(t) {
          case Number(w) =>
            var n := Read(w);
            if n.None? {
              return false, own, 0;
            }
            own := PutNumber(it, own, t, n.value);
          case Text =>
            var str := ReadStr();
            if str.None? {
              return false, own, 0;
            }
            own := PutString(own, t, str.value);
          case Customs =>
            var size := Read(8);
            if size.None? {
              return false, own, 0;
            }
            var good, custom := UnserializeCustoms(size.value, own.custom);
            own := own.(custom := custom);
            if !good {
              return false, own, 0;
            }
          case Skipped(w) =>
            var skipped := Skip(w);
            if !skipped {
              return false, own, 0;
            }
          case Children =>
            if !isBox {
              return false, own, 0;
            }
            var n := Read(4);
            if n.None? {
              return false, own, 0;
            }
            return true, own, n.value;
          case Unknown =>
            return false, own, 0;
        }
      }
    }

    /** `loadItem` into a cylinder that does not stand on a tile. None is a failure. */
    method LoadItem(types: Types) returns (r: Option<Option<Item>>)
      requires Valid()
      modifies this
      ensures Valid()
      ensures match ReadItem(types, old(Rest()))
              case None => r == None
              case Some((item, rest)) => r == Some(item) && Rest() == rest
      decreases |data| - p, 0, 0
    {
      hide ReadAttrs, BlankOwn, FromLittleEndian;
      var id := Read(2);
      if id.None? {
        return None;
      }
      var item := CreateItem(types, id.value, 0);
      if item.None? {
        return Some(None);
      }
      var ok, own, count := UnserializeAttr(types(item.value.id), item.value.Box?, item.value.own);
      if !ok {
        return None;
      }
      var loaded := item.value.(own := own);
      if loaded.Box? {
        var full := LoadContainer(types, loaded, count);
        if full.None? {
          return None;
        }
        loaded := full.value;
      }
      r := Some(Some(loaded));
    }

    /** `loadItem` onto a tile, for a type that is created anew there: the item is added and
        begins to decay. */
    method LoadOnTile(types: Types) returns (r: Landing)
      requires Valid()
      modifies this
      ensures Valid()
      ensures match ReadItem(types, old(Rest()))
              case None => r == Failed
              case Some((None, rest)) => r == Nothing && Rest() == rest
              case Some((Some(item), rest)) =>
                && Rest() == rest
                && r == match StartDecaying(types, item) case None => DecaysAtOnce case Some(t) => Lands(t)
    {
      hide ReadItem, StartDecaying;
      var read := LoadItem(types);
      match read {
        case None => r := Failed;
        case Some(None) => r := Nothing;
        case Some(Some(item)) =>
          var started := StartDecaying(types, item);
          r := if started.None? then DecaysAtOnce else Lands(started.value);
      }
    }

    /** `loadContainer`: counts `serializationCount` down to zero, then expects the end byte. */
    method LoadContainer(types: Types, box: Item, count: nat) returns (r: Option<Item>)
      requires Valid() && box.Box?
      modifies this
      ensures Valid()
      ensures match ReadChildren(types, old(Rest()), count, box)
              case None => r == None
              case Some((full, tail)) =>
                if tail == [] || tail[0] != 0 then r == None else r == Some(full) && Rest() == tail[1..]
      decreases |data| - p, 1, count
    {
      var container := box;
      var serializationCount := count;
      ghost var all := ReadChildren(types, Rest(), count, box);
      while serializationCount > 0
        invariant Valid() && container.Box? && old(p) <= p
        invariant ReadChildren(types, Rest(), serializationCount, container) == all
      {
        var child := LoadItem(types);
        if child.None? {
          return None;
        }
        if child.value.Some? {
          container := PushFront(types, container, child.value.value);
        }
        serializationCount := serializationCount - 1;
      }
      ReadTag(Rest());
      var endAttr := Read(1);
      if endAttr.None? || endAttr.value != 0 {
        return None;
      }
      r := Some(container);
    }
  }

  /** What a load onto a tile leaves there. */
  datatype Landing = Failed | Nothing | DecaysAtOnce | Lands(item: Item)

  lemma ReadTag(s: seq<byte>)
    ensures ReadNumber(s, 1) == (if s == [] then None else Some((s[0] as nat, s[1..])))
  {
    if s != [] {
      assert s[..1][1..] == [];
      assert FromLittleEndian(s[..1]) == s[0] as nat + 256 * FromLittleEndian(s[..1][1..]);
    }
  }

  /** Both methods in sequence, on any item and any bytes that follow it in the stream. */
  method SaveThenLoad(types: Types, item: Item, following: seq<byte>)
    returns (r: Option<Option<Item>>, unread: seq<byte>)
    requires Savable(types, item)
    ensures r == Some(Some(Normal(types, item, false))) && unread == following
    ensures r == Some(Some(item)) <==> Faithful(types, item)
  {
    hide Encode, ReadItem, Savable, Normal, Faithful;
    var out := new PropWriteStream();
    out.SaveItem(types, item);
    var propStream := new PropStream(out.buffer + following);
    assert out.buffer + following == Encode(types, item) + following;
    LoadInvertsSave(types, item, following);
    NormalIffFaithful(types, item, false);
    r := propStream.LoadItem(types);
    unread := propStream.data[propStream.p..];
  }

  /** The same with a load onto a tile. */
  method SaveThenLand(types: Types, item: Item, following: seq<byte>) returns (r: Landing, unread: seq<byte>)
    requires Savable(types, item)
    ensures r == Lands(item) <==> FaithfulOnTile(types, item)
    ensures unread == following
  {
    hide Encode, ReadItem, Savable, Normal, FaithfulOnTile, StartDecaying;
    var out := new PropWriteStream();
    out.SaveItem(types, item);
    var propStream := new PropStream(out.buffer + following);
    assert out.buffer + following == Encode(types, item) + following;
    LoadInvertsSave(types, item, following);
    TileRoundTrip(types, item);
    r := propStream.LoadOnTile(types);
    unread := propStream.data[propStream.p..];
  }
}
