/**
 * `decodeSecret`: the base 32 decoding of section 6 of RFC 4648, without padding characters.
 */
module Base32 {
  import opened Basics

  function Pow2(n: nat): (p: nat)
    ensures p > 0
  {
    if n == 0 then 1 else 2 * Pow2(n - 1)
  }

  lemma ThreeMore(n: nat)
    ensures Pow2(n + 1) == 2 * Pow2(n) && Pow2(n + 2) == 4 * Pow2(n) && Pow2(n + 3) == 8 * Pow2(n)
  {
    assert Pow2(n + 1) == 2 * Pow2(n);
    assert Pow2(n + 2) == 2 * Pow2(n + 1);
  }

  lemma FiveMore(n: nat)
    ensures Pow2(n + 5) == 32 * Pow2(n)
  {
    ThreeMore(n);
    ThreeMore(n + 2);
  }

  lemma EightMore(n: nat)
    ensures Pow2(n + 8) == 256 * Pow2(n)
  {
    FiveMore(n + 3);
    ThreeMore(n);
  }

  // ----- numbers and their digits of five or eight bits, most significant first -----

  datatype Width = Five | Eight

  function Bits(w: Width): nat { if w == Five then 5 else 8 }

  function Below(w: Width): nat { if w == Five then 32 else 256 }

  function Append(w: Width, v: nat, d: nat): nat { if w == Five then 32 * v + d else 256 * v + d }

  function Rest(w: Width, v: nat): nat { if w == Five then v / 32 else v / 256 }

  function Last(w: Width, v: nat): nat { if w == Five then v % 32 else v % 256 }

  predicate DigitsOf(w: Width, digits: seq<nat>) {
    forall i :: 0 <= i < |digits| ==> digits[i] < Below(w)
  }

  function Number(w: Width, digits: seq<nat>): nat {
    if digits == [] then 0 else Append(w, Number(w, digits[..|digits| - 1]), digits[|digits| - 1])
  }

  /** The last `n` digits of a number. */
  function Digits(w: Width, v: nat, n: nat): (digits: seq<nat>)
    ensures |digits| == n && DigitsOf(w, digits)
  {
    if n == 0 then [] else Digits(w, Rest(w, v), n - 1) + [Last(w, v)]
  }

  lemma {:induction false} DigitsOfNumber(w: Width, digits: seq<nat>)
    requires DigitsOf(w, digits)
    ensures Digits(w, Number(w, digits), |digits|) == digits
  {
    if digits != [] {
      var most, last := digits[..|digits| - 1], digits[|digits| - 1];
      DigitsOfNumber(w, most);
      assert digits == most + [last];
    }
  }

  lemma WidthMore(w: Width, n: nat)
    ensures Pow2(Bits(w) * (n + 1)) == Append(w, Pow2(Bits(w) * n), 0)
  {
    FiveMore(5 * n);
    EightMore(8 * n);
  }

  lemma {:induction false} NumberOfDigits(w: Width, v: nat, n: nat)
    requires v < Pow2(Bits(w) * n)
    ensures Number(w, Digits(w, v, n)) == v
  {
    if n > 0 {
      var digits := Digits(w, v, n);
      assert digits[..n - 1] == Digits(w, Rest(w, v), n - 1);
      WidthMore(w, n - 1);
      NumberOfDigits(w, Rest(w, v), n - 1);
    }
  }

  lemma {:induction false} NumberBelow(w: Width, digits: seq<nat>)
    requires DigitsOf(w, digits)
    ensures Number(w, digits) < Pow2(Bits(w) * |digits|)
  {
    if digits != [] {
      NumberBelow(w, digits[..|digits| - 1]);
      WidthMore(w, |digits| - 1);
    }
  }

  // ----- the alphabet -----

  function Value(c: char): Option<nat> {
    if 'A' <= c <= 'Z' then Some(c as nat - 'A' as nat)
    else if '2' <= c <= '7' then Some(c as nat - 24)
    else None
  }

  function Letter(v: nat): (c: char)
    requires v < 32
    ensures Value(c) == Some(v)
  {
    if v < 26 then 'A' + v as char else '2' + (v - 26) as char
  }

  predicate Readable(secret: string) {
    forall i :: 0 <= i < |secret| ==> Value(secret[i]).Some?
  }

  function Values(secret: string): (values: seq<nat>)
    requires Readable(secret)
    ensures |values| == |secret| && DigitsOf(Five, values)
  {
    seq(|secret|, i requires 0 <= i < |secret| => Value(secret[i]).value)
  }

  function Letters(values: seq<nat>): (secret: string)
    requires DigitsOf(Five, values)
    ensures Readable(secret) && Values(secret) == values
  {
    seq(|values|, i requires 0 <= i < |values| => Letter(values[i]))
  }

  function Quotient(a: nat, b: nat): nat
    requires b > 0
  {
    a / b
  }

  /** The whole bytes at the front of the bits the letters stand for. */
  function Decoded(secret: string): (key: seq<nat>)
    ensures |key| == if Readable(secret) then 5 * |secret| / 8 else 0
    ensures DigitsOf(Eight, key)
  {
    if !Readable(secret) then []
    else Digits(Eight, Quotient(Number(Five, Values(secret)), Pow2(5 * |secret| % 8)), 5 * |secret| / 8)
  }

  /** How many zero bits fill up the last letter. */
  function Padding(bytes: nat): (p: nat)
    ensures p < 5 && (8 * bytes + p) % 5 == 0
  {
    (5 - 8 * bytes % 5) % 5
  }

  /** Base 32 without padding characters: the bits of the bytes in groups of five. */
  function Encoded(bytes: seq<nat>): string
    requires DigitsOf(Eight, bytes)
  {
    var p := Padding(|bytes|);
    Letters(Digits(Five, Number(Eight, bytes) * Pow2(p), (8 * |bytes| + p) / 5))
  }

  // ----- round trip -----

  /** Multiplying by a small power of two is a shift, and dividing by it shifts back. */
  lemma Shifted(v: nat, n: nat, p: nat)
    requires v < Pow2(n) && p < 8
    ensures v * Pow2(p) < Pow2(n + p) && Quotient(v * Pow2(p), Pow2(p)) == v
  {
    SmallPow2(n, p);
    SmallPow2(0, p);
    var k := Pow2(p);
    assert k in {1, 2, 4, 8, 16, 32, 64, 128};
    if k == 1 {} else if k == 2 {} else if k == 4 {} else if k == 8 {}
    else if k == 16 {} else if k == 32 {} else if k == 64 {} else {}
  }

  lemma SmallPow2(n: nat, p: nat)
    requires p < 8
    ensures Pow2(n + p) == (if p == 0 then 1 else if p == 1 then 2 else if p == 2 then 4 else if p == 3 then 8
                            else if p == 4 then 16 else if p == 5 then 32 else if p == 6 then 64 else 128) * Pow2(n)
  {
    ThreeMore(n);
    ThreeMore(n + 3);
    ThreeMore(n + 6);
  }

  /** Decoding undoes encoding, for every string of bytes. */
  lemma DecodeInvertsEncode(bytes: seq<nat>)
    requires DigitsOf(Eight, bytes)
    ensures Decoded(Encoded(bytes)) == bytes
  {
    hide Pow2, Quotient, Digits, Number, Letters, Values, Readable, Padding, DigitsOf;
    var n, p, v := |bytes|, Padding(|bytes|), Number(Eight, bytes);
    var m := (8 * n + p) / 5;
    NumberBelow(Eight, bytes);
    Shifted(v, 8 * n, p);
    assert 8 * n + p == 5 * m;
    NumberOfDigits(Five, v * Pow2(p), m);
    assert 5 * m % 8 == p && 5 * m / 8 == n;
    DigitsOfNumber(Eight, bytes);
  }

  // ----- the code -----

  function Table(left: nat): (t: nat)
    requires left < 8
    ensures t > 0
  {
    if left == 0 then 1 else if left == 1 then 2 else if left == 2 then 4 else if left == 3 then 8
    else if left == 4 then 16 else if left == 5 then 32 else if left == 6 then 64 else 128
  }

  lemma TableIsPow2(left: nat)
    requires left < 8
    ensures Table(left) == Pow2(left)
  {
    SmallPow2(0, left);
  }

  /** Five more bits that do not complete a byte leave the bytes as they are. */
  lemma NoByteYet(v: nat, d: nat, left: nat)
    requires d < 32 && left < 3
    ensures Quotient(32 * v + d, Table(left + 5)) == Quotient(v, Table(left))
  {
    if left == 0 {} else if left == 1 {} else {}
  }

  /** The byte that is completed stands in the low thirteen bits, so the 32 bits of the buffer are
      enough. */
  lemma ByteComplete(v: nat, d: nat, left: nat, buffer: nat)
    requires d < 32 && 3 <= left < 8 && buffer == (32 * v + d) % TWO_TO_THE_32
    ensures
      Quotient(32 * v + d, Table(left - 3)) == 256 * Quotient(v, Table(left)) + Quotient(buffer, Table(left - 3)) % 256
  {
    LowBits(32 * v + d, buffer, left - 3);
    HighBits(v, d, left);
    hide Quotient, Table;
    var w := Quotient(32 * v + d, Table(left - 3));
    assert w == 256 * (w / 256) + w % 256;
  }

  lemma HighBits(v: nat, d: nat, left: nat)
    requires d < 32 && 3 <= left < 8
    ensures Quotient(32 * v + d, Table(left - 3)) / 256 == Quotient(v, Table(left))
  {
    if left == 3 {} else if left == 4 {} else if left == 5 {} else if left == 6 {} else {}
  }

  lemma LowBits(w: nat, buffer: nat, k: nat)
    requires k < 5 && buffer == w % TWO_TO_THE_32
    ensures Quotient(buffer, Table(k)) % 256 == Quotient(w, Table(k)) % 256
  {
    var q := w / TWO_TO_THE_32;
    LowByte(w, buffer, q, k);
  }

  lemma LowByte(w: nat, buffer: nat, q: nat, k: nat)
    requires k < 5 && w == 0x1_0000_0000 * q + buffer
    ensures Quotient(buffer, Table(k)) % 256 == Quotient(w, Table(k)) % 256
  {
    var m := (if k == 0 then 0x100_0000 else if k == 1 then 0x80_0000
      else if k == 2 then 0x40_0000 else if k == 3 then 0x20_0000 else 0x10_0000) * q;
    QuotientAdd(k, 256 * m, buffer);
    hide Quotient;
    ModAdd(m, Quotient(buffer, Table(k)));
  }

  lemma QuotientAdd(k: nat, x: nat, b: nat)
    requires k < 5
    ensures Quotient(Table(k) * x + b, Table(k)) == x + Quotient(b, Table(k))
  {
    if k == 0 {} else if k == 1 {} else if k == 2 {} else if k == 3 {} else {}
  }

  lemma ModAdd(m: nat, b: nat)
    ensures (256 * m + b) % 256 == b % 256
  {
  }

  /** A letter more, in the number and in the buffer. */
  lemma LetterMore(secret: string, i: nat, buffer: nat)
    requires i < |secret| && Readable(secret[..i]) && Value(secret[i]).Some?
    requires buffer == Number(Five, Values(secret[..i])) % TWO_TO_THE_32
    ensures Readable(secret[..i + 1])
    ensures Number(Five, Values(secret[..i + 1])) == 32 * Number(Five, Values(secret[..i])) + Value(secret[i]).value
    ensures
      (buffer * 32) % TWO_TO_THE_32 + Value(secret[i]).value == Number(Five, Values(secret[..i + 1])) % TWO_TO_THE_32
  {
    assert secret[..i + 1] == secret[..i] + [secret[i]];
    var values := Values(secret[..i + 1]);
    assert values[..i] == Values(secret[..i]) && values[i] == Value(secret[i]).value;
    ShiftIn(Number(Five, Values(secret[..i])), Value(secret[i]).value, buffer);
  }

  lemma ShiftIn(v: nat, d: nat, buffer: nat)
    requires d < 32 && buffer == v % TWO_TO_THE_32
    ensures (buffer * 32) % TWO_TO_THE_32 + d == (32 * v + d) % TWO_TO_THE_32
  {
    var q := v / TWO_TO_THE_32;
    assert v == q * 0x1_0000_0000 + buffer;
  }

  method DecodeSecret(secret: string) returns (key: seq<nat>)
    ensures key == Decoded(secret)
  {
    hide Number, Digits, Values, Quotient, Table, Readable, DigitsOf;
    key := [];
    var buffer, left := 0, 0;
    Nothing(secret);
    for i := 0 to |secret|
      invariant 0 <= left < 8 && 8 * |key| + left == 5 * i && DigitsOf(Eight, key)
      invariant Readable(secret[..i]) && buffer == Number(Five, Values(secret[..i])) % TWO_TO_THE_32
      invariant Number(Eight, key) == Quotient(Number(Five, Values(secret[..i])), Table(left))
    {
      var ch := secret[i];
      buffer := buffer * 32 % TWO_TO_THE_32;
      if 'A' <= ch <= 'Z' {
        buffer := buffer + (ch as nat % 32 - 1);
      } else if '2' <= ch <= '7' {
        buffer := buffer + (ch as nat - 24);
      } else {
        Unreadable(secret, i);
        return [];
      }
      LetterMore(secret, i, Number(Five, Values(secret[..i])) % TWO_TO_THE_32);
      ghost var v, d := Number(Five, Values(secret[..i])), Value(ch).value;
      if left + 5 >= 8 {
        ByteComplete(v, d, left, buffer);
        left := left - 3;
        key := Pushed(key, Shifts(buffer, left) % 256);
      } else {
        NoByteYet(v, d, left);
        left := left + 5;
      }
    }
    Finish(secret, key, left);
  }

  /** `buffer >> left`. */
  function Shifts(buffer: nat, left: nat): (r: nat)
    requires left < 8
    ensures r == Quotient(buffer, Table(left))
  {
    buffer / Table(left)
  }

  /** `push_back`. */
  function Pushed(key: seq<nat>, b: nat): (r: seq<nat>)
    requires DigitsOf(Eight, key) && b < 256
    ensures DigitsOf(Eight, r) && |r| == |key| + 1 && Number(Eight, r) == 256 * Number(Eight, key) + b
  {
    assert (key + [b])[..|key|] == key;
    key + [b]
  }

  lemma Nothing(secret: string)
    ensures Readable(secret[..0]) && DigitsOf(Eight, []) && Number(Eight, []) == 0
    ensures Number(Five, Values(secret[..0])) == 0 && Quotient(0, Table(0)) == 0
  {
  }

  lemma Unreadable(secret: string, i: nat)
    requires i < |secret| && Value(secret[i]) == None
    ensures !Readable(secret)
  {
  }

  lemma Finish(secret: string, key: seq<nat>, left: nat)
    requires Readable(secret[..|secret|]) && left < 8 && 8 * |key| + left == 5 * |secret| && DigitsOf(Eight, key)
    requires Number(Eight, key) == Quotient(Number(Five, Values(secret[..|secret|])), Table(left))
    ensures key == Decoded(secret)
  {
    hide Number, Digits, Values, Quotient, Table, DigitsOf;
    assert secret[..|secret|] == secret;
    assert left == 5 * |secret| % 8 && |key| == 5 * |secret| / 8;
    TableIsPow2(left);
    DigitsOfNumber(Eight, key);
  }
}
