/**
 The character layer of the canonical JSON codec: bytes, Unicode scalar values,
 the UTF-8 encoding of one scalar value, the decoder the parser uses on raw
 string characters, and the byte order by which object keys are sorted.
 */
module JsonText {
  import opened Bytes

  /** A Unicode scalar value: any code point that is not a surrogate. */
  type Rune = r: int | 0 <= r < 0xD800 || 0xE000 <= r <= 0x10FFFF

  datatype Decoded = Malformed | Decoded(rune: Rune, width: nat)

  predicate Continuation(b: byte) {
    0x80 <= b <= 0xBF
  }

  function EncodeRune(r: Rune): (s: seq<byte>)
    ensures 1 <= |s| <= 4
    ensures r < 0x80 <==> s == [r]
    ensures r >= 0x80 ==> forall k :: 0 <= k < |s| ==> s[k] >= 0x80
  {
    if r < 0x80 then [r]
    else if r < 0x800 then [0xC0 + r / 0x40, 0x80 + r % 0x40]
    else if r < 0x10000 then [0xE0 + r / 0x1000, 0x80 + r / 0x40 % 0x40, 0x80 + r % 0x40]
    else [0xF0 + r / 0x40000, 0x80 + r / 0x1000 % 0x40, 0x80 + r / 0x40 % 0x40, 0x80 + r % 0x40]
  }

  function Encode(text: seq<Rune>): seq<byte> {
    if text == [] then [] else EncodeRune(text[0]) + Encode(text[1..])
  }

  /** The well-formed lead/continuation byte patterns, by length. */
  predicate Pair(a: byte, b: byte) {
    0xC2 <= a <= 0xDF && Continuation(b)
  }

  predicate Triple(a: byte, b: byte, c: byte) {
    0xE0 <= a <= 0xEF && Continuation(b) && Continuation(c) && (a == 0xE0 ==> b >= 0xA0) && (a == 0xED ==> b <= 0x9F)
  }

  predicate Quad(a: byte, b: byte, c: byte, d: byte) {
    0xF0 <= a <= 0xF4 && Continuation(b) && Continuation(c) && Continuation(d)
    && (a == 0xF0 ==> b >= 0x90) && (a == 0xF4 ==> b <= 0x8F)
  }

  function PairValue(a: int, b: int): int { (a - 0xC0) * 0x40 + (b - 0x80) }

  function TripleValue(a: int, b: int, c: int): int { (a - 0xE0) * 0x1000 + (b - 0x80) * 0x40 + (c - 0x80) }

  function QuadValue(a: int, b: int, c: int, d: int): int {
    (a - 0xF0) * 0x40000 + (b - 0x80) * 0x1000 + (c - 0x80) * 0x40 + (d - 0x80)
  }

  /** One step of UTF-8 decoding at position `i`: overlong forms, surrogates,
      values above U+10FFFF and truncated sequences are malformed. */
  function DecodeRune(data: seq<byte>, i: nat): (d: Decoded)
    requires i < |data|
    ensures d.Decoded? ==> 1 <= d.width <= 4 && i + d.width <= |data|
  {
    var left := |data| - i;
    if data[i] < 0x80 then Decoded(data[i], 1)
    else if left >= 2 && Pair(data[i], data[i + 1]) then Decoded(PairValue(data[i], data[i + 1]), 2)
    else if left >= 3 && Triple(data[i], data[i + 1], data[i + 2]) then
      Decoded(TripleValue(data[i], data[i + 1], data[i + 2]), 3)
    else if left >= 4 && Quad(data[i], data[i + 1], data[i + 2], data[i + 3]) then
      Decoded(QuadValue(data[i], data[i + 1], data[i + 2], data[i + 3]), 4)
    else Malformed
  }

  lemma PairEncodes(a: byte, b: byte)
    requires Pair(a, b)
    ensures 0x80 <= PairValue(a, b) < 0x800 && EncodeRune(PairValue(a, b)) == [a, b]
  {
  }

  lemma TripleEncodes(a: byte, b: byte, c: byte)
    requires Triple(a, b, c)
    ensures var r := TripleValue(a, b, c);
      (0x800 <= r < 0xD800 || 0xE000 <= r < 0x10000) && EncodeRune(r) == [a, b, c]
  {
    var r := TripleValue(a, b, c);
    assert r / 0x40 == (a - 0xE0) * 0x40 + (b - 0x80);
    assert r / 0x1000 == a - 0xE0;
  }

  /** Splitting off the last six bits, once and twice. */
  lemma Base64Digits(high: int, low: int)
    requires 0 <= high && 0 <= low < 0x40
    ensures (high * 0x40 + low) / 0x40 == high && (high * 0x40 + low) % 0x40 == low
    ensures (high * 0x40 + low) / 0x1000 == high / 0x40 && (high * 0x40 + low) / 0x40000 == high / 0x1000
  {
  }

  lemma QuadEncodes(a: byte, b: byte, c: byte, d: byte)
    requires Quad(a, b, c, d)
    ensures var r := QuadValue(a, b, c, d); 0x10000 <= r <= 0x10FFFF && EncodeRune(r) == [a, b, c, d]
  {
    var high := (a - 0xF0) * 0x40 + (b - 0x80);
    Base64Digits(high * 0x40 + (c - 0x80), d - 0x80);
    Base64Digits(high, c - 0x80);
    Base64Digits(a - 0xF0, b - 0x80);
  }

  /** The byte pattern of one encoded scalar value, and the value it carries. */
  lemma EncodedShape(r: Rune)
    ensures var s := EncodeRune(r);
      && (r < 0x80 ==> s == [r])
      && (0x80 <= r < 0x800 ==> |s| == 2 && Pair(s[0], s[1]) && PairValue(s[0], s[1]) == r)
      && (0x800 <= r < 0x10000 ==> |s| == 3 && Triple(s[0], s[1], s[2]) && TripleValue(s[0], s[1], s[2]) == r)
      && (0x10000 <= r ==> |s| == 4 && Quad(s[0], s[1], s[2], s[3]) && QuadValue(s[0], s[1], s[2], s[3]) == r)
  {
    if 0x800 <= r < 0x10000 {
      assert r / 0x1000 == r / 0x40 / 0x40;
    } else if 0x10000 <= r {
      assert r / 0x1000 == r / 0x40 / 0x40;
      assert r / 0x40000 == r / 0x1000 / 0x40;
    }
  }

  lemma DecodedIsEncoded(data: seq<byte>, i: nat)
    requires i < |data| && DecodeRune(data, i).Decoded?
    ensures var d := DecodeRune(data, i); d.width == |EncodeRune(d.rune)| && data[i..i + d.width] == EncodeRune(d.rune)
  {
    var d := DecodeRune(data, i);
    match d.width {
      case 1 =>
      case 2 => PairEncodes(data[i], data[i + 1]);
      case 3 => TripleEncodes(data[i], data[i + 1], data[i + 2]);
      case _ => QuadEncodes(data[i], data[i + 1], data[i + 2], data[i + 3]);
    }
  }

  lemma EncodedIsDecoded(data: seq<byte>, i: nat, r: Rune)
    requires i + |EncodeRune(r)| <= |data| && data[i..i + |EncodeRune(r)|] == EncodeRune(r)
    ensures DecodeRune(data, i) == Decoded(r, |EncodeRune(r)|)
  {
    hide EncodeRune;
    EncodedShape(r);
    var s := EncodeRune(r);
    var t := data[i..i + |s|];
    assert forall k :: 0 <= k < |s| ==> t[k] == data[i + k];
  }

  /** Whole-document UTF-8 validity, as one left-to-right scan. */
  predicate ValidFrom(data: seq<byte>, i: nat)
    requires i <= |data|
    decreases |data| - i
  {
    i == |data| ||
    (DecodeRune(data, i).Decoded? && ValidFrom(data, i + DecodeRune(data, i).width))
  }

  predicate Valid(data: seq<byte>) {
    ValidFrom(data, 0)
  }

  lemma ValidSkipsOne(data: seq<byte>, i: nat, r: Rune)
    requires At(data, i, EncodeRune(r))
    ensures ValidFrom(data, i) <==> ValidFrom(data, i + |EncodeRune(r)|)
  {
    hide EncodeRune, DecodeRune;
    EncodedIsDecoded(data, i, r);
  }

  /** UTF-8 encoding loses nothing: equal bytes are equal text. */
  lemma {:induction false} EncodeInjective(a: seq<Rune>, b: seq<Rune>)
    requires Encode(a) == Encode(b)
    ensures a == b
    decreases |a|
  {
    hide EncodeRune, DecodeRune;
    if a != [] && b != [] {
      var data := Encode(a);
      assert data[0..0 + |EncodeRune(a[0])|] == EncodeRune(a[0]);
      assert data[0..0 + |EncodeRune(b[0])|] == EncodeRune(b[0]);
      EncodedIsDecoded(data, 0, a[0]);
      EncodedIsDecoded(data, 0, b[0]);
      assert a[0] == b[0];
      assert Encode(a[1..]) == data[|EncodeRune(a[0])|..] == Encode(b[1..]);
      EncodeInjective(a[1..], b[1..]);
    }
  }

  /** The portable key order: UTF-8 bytes, compared lexicographically. */
  predicate KeyLess(a: seq<Rune>, b: seq<Rune>) {
    BytesLess(Encode(a), Encode(b))
  }

  lemma KeyTrichotomy(a: seq<Rune>, b: seq<Rune>)
    ensures KeyLess(a, b) || a == b || KeyLess(b, a)
    ensures !(KeyLess(a, b) && KeyLess(b, a))
    ensures a == b ==> !KeyLess(a, b)
  {
    BytesTrichotomy(Encode(a), Encode(b));
    if Encode(a) == Encode(b) { EncodeInjective(a, b); }
  }

  lemma KeyTransitive(a: seq<Rune>, b: seq<Rune>, c: seq<Rune>)
    requires KeyLess(a, b) && KeyLess(b, c)
    ensures KeyLess(a, c)
  {
    BytesTransitive(Encode(a), Encode(b), Encode(c));
  }
}
