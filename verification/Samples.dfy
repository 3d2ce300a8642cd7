/**
 * A few small inputs, byte by byte: a tree file, a container with a stack of coins as it is saved,
 * and a secret with its key. They fix what the general results leave open, the markers, tags,
 * byte order and alphabet.
 */
module Samples {
  import opened Basics
  import Base32
  import OtbGrammar
  import opened ItemCodec
  import opened ItemRows

  // ----- a tree file -----

  const FILE: seq<byte> := [0x4F, 0x54, 0x42, 0x49, 0xFE, 0x00, 0x01, 0xFD, 0xFE, 0xFE, 0x07, 0xFF, 0xFF]

  const CHILD := OtbGrammar.Form(7, [], [])
  const ROOT := OtbGrammar.Form(0, [1, 0xFD, 0xFE], [OtbGrammar.Kid(CHILD, [])])

  lemma RootText()
    ensures FILE[4..] == OtbGrammar.Text(ROOT) + [] && OtbGrammar.WellFormed(ROOT)
  {
    var kids := ROOT.kids;
    assert kids[1..] == [];
    assert OtbGrammar.Text(CHILD) == [0xFE, 7, 0xFF];
    assert OtbGrammar.KidsText(kids) == [0xFE, 7, 0xFF];
    assert OtbGrammar.Text(ROOT) == FILE[4..];
    assert ROOT.props[1..] == [0xFD, 0xFE] && ROOT.props[1..][2..] == [];
    assert OtbGrammar.Quiet([]) && OtbGrammar.Quiet(ROOT.props);
    assert OtbGrammar.WellFormedKids(kids[1..]) && OtbGrammar.WellFormedKids([]);
  }

  lemma RootNode()
    ensures OtbGrammar.NodeAt(ROOT, 4) == OtbGrammar.Tree(0, 6, 9, [OtbGrammar.Tree(7, 11, 11, [])])
  {
    assert ROOT.kids[1..] == [] && OtbGrammar.NodeAt(CHILD, 9) == OtbGrammar.Tree(7, 11, 11, []);
    assert OtbGrammar.KidsAt(ROOT.kids, 9) == [OtbGrammar.NodeAt(CHILD, 9)] + [];
  }

  /** A root of kind 0 with the bytes 1 and 254 as properties, and one child of kind 7. */
  lemma SmallFile()
    ensures OtbGrammar.Parse(FILE) == Some(OtbGrammar.Tree(0, 6, 9, [OtbGrammar.Tree(7, 11, 11, [])]))
    ensures OtbGrammar.Unescaped(FILE[6..9], false) == [1, 0xFE]
  {
    hide OtbGrammar.Parse, OtbGrammar.Text, OtbGrammar.WellFormed, OtbGrammar.NodeAt;
    RootText();
    RootNode();
    assert OtbGrammar.Quiet([]);
    OtbGrammar.ParseComplete(FILE, ROOT, []);
    var raw := FILE[6..9];
    assert raw == [1, 0xFD, 0xFE] && raw[1..] == [0xFD, 0xFE] && raw[1..][1..] == [0xFE] && raw[1..][1..][1..] == [];
  }

  // ----- a saved container -----

  const COIN := ItemType(2148, false, false, true, false, true, 0, 0, -1, 10)
  const BAG := ItemType(1987, false, true, false, false, true, 0, 0, -1, 800)

  function SampleTypes(id: nat): ItemType { if id == 1987 then BAG else COIN }

  lemma {:induction false} NoneDue(it: ItemType, own: Fields, tags: seq<byte>)
    requires forall tag :: tag in tags ==> Written(it, own, tag) == None
    ensures EncodeTags(it, own, tags) == []
  {
    if tags != [] {
      NoneDue(it, own, tags[1..]);
    }
  }

  lemma Number16(n: nat)
    ensures LittleEndian(n, 2) == [(n % 256) as byte, (n / 256 % 256) as byte]
  {
    assert LittleEndian(n / 256, 1) == [(n / 256 % 256) as byte] + LittleEndian(n / 256 / 256, 0);
  }

  lemma CoinBytes()
    ensures Encode(SampleTypes, Plain(2148, Fields(50, map[], None))) == [0x64, 0x08, 15, 50, 0]
  {
    var own := Fields(50, map[], None);
    Number16(2148);
    assert ORDER[0] == ATTR_COUNT;
    assert LittleEndian(50, 1) == [50] + LittleEndian(0, 0);
    assert EncodeTag(COIN, own, ATTR_COUNT) == [15, 50];
    NoneDue(COIN, own, ORDER[1..]);
  }

  lemma Number32()
    ensures LittleEndian(1, 4) == [1, 0, 0, 0]
  {
    assert LittleEndian(1, 4) == [1] + LittleEndian(0, 3);
    assert LittleEndian(0, 3) == [0] + LittleEndian(0, 2);
    Number16(0);
  }

  lemma OneChild(items: seq<Item>)
    requires |items| == 1
    ensures EncodeReversed(SampleTypes, items) == Encode(SampleTypes, items[0])
  {
    assert items[..0] == [] && EncodeReversed(SampleTypes, items[..0]) == [];
    assert Encode(SampleTypes, items[0]) + [] == Encode(SampleTypes, items[0]);
  }

  /** A bag with fifty coins: identifiers and counts lowest byte first, the count under tag 15, the
      number of children under tag 23, an end byte for each item. */
  lemma BagBytes()
    ensures Encode(SampleTypes, Box(1987, Fields(1, map[], None), [Plain(2148, Fields(50, map[], None))], 500))
         == [0xC3, 0x07, 23, 1, 0, 0, 0, 0x64, 0x08, 15, 50, 0, 0]
  {
    var own, items := Fields(1, map[], None), [Plain(2148, Fields(50, map[], None))];
    CoinBytes();
    OneChild(items);
    Number16(1987);
    Number32();
    NothingDue(own);
    hide EncodeReversed, LittleEndian, EncodeTags, EncodeAttrs;
  }

  lemma NothingDue(own: Fields)
    requires own == Fields(1, map[], None)
    ensures EncodeAttrs(BAG, own) == []
  {
    NoneDue(BAG, own, ORDER);
  }

  /** The row of the coins in a bag with the number 101: parent, own number, type, count, attributes. */
  lemma CoinRow()
    ensures ToRow(SampleTypes, (101, Plain(2148, Fields(50, map[], None))), 102) == Row(101, 102, 2148, 50, [15, 50])
  {
    var own := Fields(50, map[], None);
    assert ORDER[0] == ATTR_COUNT;
    assert LittleEndian(50, 1) == [50] + LittleEndian(0, 0);
    assert EncodeTag(COIN, own, ATTR_COUNT) == [15, 50];
    NoneDue(COIN, own, ORDER[1..]);
  }

  /** The weights of the two: fifty coins weigh fifty times one coin. */
  lemma BagWeight()
    ensures Weight(SampleTypes, Plain(2148, Fields(50, map[], None))) == 500
    ensures
      Weight(SampleTypes, Box(1987, Fields(1, map[], None), [Plain(2148, Fields(50, map[], None))], 500)) == 1300
  {
  }

  /** Lit rings and their unlit forms. */
  lemma Rings()
    ensures RingId(2210) == 2207 && RingId(2212) == 2209 && RingId(2215) == 2213 && RingId(2216) == 2214
    ensures RingId(2202) == 2165 && RingId(2206) == 2169 && RingId(2207) == 2207 && RingId(2148) == 2148
  {
  }

  // ----- a secret -----

  /** A test vector of section 10 of RFC 4648. */
  lemma Fo()
    ensures Base32.Decoded("MZXQ") == [102, 111]
  {
    var values := Base32.Values("MZXQ");
    assert values == [12, 25, 23, 16];
    assert values[..3] == [12, 25, 23] && values[..3][..2] == [12, 25] && values[..3][..2][..1] == [12];
    assert values[..3][..2][..1][..0] == [];
    assert Base32.Number(Base32.Five, [12]) == 12;
    assert Base32.Number(Base32.Five, [12, 25]) == 409;
    assert Base32.Number(Base32.Five, [12, 25, 23]) == 13111;
    assert Base32.Number(Base32.Five, values) == 419568;
    assert Base32.Pow2(4) == 16;
    assert Base32.Digits(Base32.Eight, 102, 1) == Base32.Digits(Base32.Eight, 0, 0) + [102];
    assert Base32.Digits(Base32.Eight, 26223, 2) == Base32.Digits(Base32.Eight, 102, 1) + [111];
  }
}
