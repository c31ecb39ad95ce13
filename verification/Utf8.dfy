/**
 Go's conversions between strings and rune slices: UTF-8 as defined in section 3 of RFC 3629, with
 every byte that does not start a valid sequence decoded as U+FFFD.
 */
module Utf8 {

  type Byte = b: int | 0 <= b < 256

  /** A Unicode scalar value: a code point outside the surrogate range. */
  type Rune = r: int | 0 <= r < 0xD800 || 0xE000 <= r < 0x110000

  const REPLACEMENT: Rune := 0xFFFD

  function Tail(x: int): Byte
    requires 0 <= x < 64
  {
    0x80 + x
  }

  function EncodeRune(r: Rune): (bs: seq<Byte>)
    ensures 1 <= |bs| <= 4
  {
    if r < 0x80 then
      [r]
    else if r < 0x800 then
      [0xC0 + r / 64, Tail(r % 64)]
    else if r < 0x10000 then
      [0xE0 + r / 4096, Tail(r / 64 % 64), Tail(r % 64)]
    else
      [0xF0 + r / 262144, Tail(r / 4096 % 64), Tail(r / 64 % 64), Tail(r % 64)]
  }

  function Encode(rs: seq<Rune>): seq<Byte> {
    if rs == [] then [] else EncodeRune(rs[0]) + Encode(rs[1..])
  }

  predicate IsTail(bs: seq<Byte>, i: nat, lo: int, hi: int) {
    i < |bs| && lo <= bs[i] <= hi
  }

  function Low(b: int): int {
    b - 0x80
  }

  /** The first rune of a non-empty byte string and how many bytes it takes. */
  function DecodeRune(bs: seq<Byte>): (r: (Rune, nat))
    requires bs != []
    ensures 1 <= r.1 <= |bs| && r.1 <= 4
  {
    var b: int := bs[0];
    if b < 0x80 then
      (b, 1)
    else if 0xC2 <= b <= 0xDF && IsTail(bs, 1, 0x80, 0xBF) then
      ((b - 0xC0) * 64 + Low(bs[1]), 2)
    else if 0xE0 <= b <= 0xEF
      && IsTail(bs, 1, if b == 0xE0 then 0xA0 else 0x80, if b == 0xED then 0x9F else 0xBF)
      && IsTail(bs, 2, 0x80, 0xBF) then
      ((b - 0xE0) * 4096 + Low(bs[1]) * 64 + Low(bs[2]), 3)
    else if 0xF0 <= b <= 0xF4
      && IsTail(bs, 1, if b == 0xF0 then 0x90 else 0x80, if b == 0xF4 then 0x8F else 0xBF)
      && IsTail(bs, 2, 0x80, 0xBF) && IsTail(bs, 3, 0x80, 0xBF) then
      ((b - 0xF0) * 262144 + Low(bs[1]) * 4096 + Low(bs[2]) * 64 + Low(bs[3]), 4)
    else
      (REPLACEMENT, 1)
  }

  function Decode(bs: seq<Byte>): seq<Rune>
    decreases |bs|
  {
    if bs == [] then []
    else
      var (r, n) := DecodeRune(bs);
      [r] + Decode(bs[n..])
  }

  /** One example of each length, from section 7 of RFC 3629. */
  lemma EncodingExamples()
    ensures EncodeRune(0x41) == [0x41] && EncodeRune(0x391) == [0xCE, 0x91]
    ensures EncodeRune(0x2262) == [0xE2, 0x89, 0xA2] && EncodeRune(0x233B4) == [0xF0, 0xA3, 0x8E, 0xB4]
  {
  }

  /** A valid UTF-8 string is the encoding of some runes. */
  ghost predicate Valid(bs: seq<Byte>) {
    exists rs: seq<Rune> :: Encode(rs) == bs
  }

  /** The base-64 digits that a code point is cut into. */
  lemma Digits(r: Rune)
    ensures r == r / 64 * 64 + r % 64
    ensures r == r / 4096 * 4096 + r / 64 % 64 * 64 + r % 64
    ensures r == r / 262144 * 262144 + r / 4096 % 64 * 4096 + r / 64 % 64 * 64 + r % 64
  {
    var q := r / 64;
    assert q == q / 64 * 64 + q % 64;
    assert q / 64 == r / 4096;
    assert q / 64 / 64 == r / 262144;
  }

  lemma DecodeEncodedRune(r: Rune, rest: seq<Byte>)
    ensures DecodeRune(EncodeRune(r) + rest) == (r, |EncodeRune(r)|)
  {
    var bs := EncodeRune(r) + rest;
    Digits(r);
    assert bs[0] == EncodeRune(r)[0];
    if r >= 0x80 {
      assert bs[1] == EncodeRune(r)[1];
    }
    if r >= 0x800 {
      assert bs[2] == EncodeRune(r)[2];
    }
    if r >= 0x10000 {
      assert bs[3] == EncodeRune(r)[3];
    }
  }

  /** Decoding undoes encoding. */
  lemma {:induction false} DecodeEncode(rs: seq<Rune>)
    ensures Decode(Encode(rs)) == rs
  {
    if rs != [] {
      var first, rest := EncodeRune(rs[0]), Encode(rs[1..]);
      DecodeEncodedRune(rs[0], rest);
      assert (first + rest)[|first|..] == rest;
      DecodeEncode(rs[1..]);
    }
  }

  /** Re-encoding what was decoded gives the bytes back exactly when they were valid. */
  lemma EncodeDecodeIff(bs: seq<Byte>)
    ensures Encode(Decode(bs)) == bs <==> Valid(bs)
  {
    if Valid(bs) {
      var rs: seq<Rune> :| Encode(rs) == bs;
      DecodeEncode(rs);
    }
  }

  lemma {:induction false} EncodeAppend(a: seq<Rune>, b: seq<Rune>)
    ensures Encode(a + b) == Encode(a) + Encode(b)
  {
    if a == [] {
      assert a + b == b;
    } else {
      assert (a + b)[1..] == a[1..] + b;
      EncodeAppend(a[1..], b);
    }
  }

  /** An ASCII byte is never swallowed by the bytes before it, valid or not. */
  lemma DecodeRuneStops(a: seq<Byte>, c: Byte, b: seq<Byte>)
    requires a != [] && c < 0x80
    ensures DecodeRune(a + [c] + b) == DecodeRune(a)
  {
    var s := a + [c] + b;
    assert s[|a|] == c;
    assert forall i | 0 <= i < |a| :: s[i] == a[i];
  }

  /** So decoding splits at every ASCII byte. */
  lemma {:induction false} DecodeSplits(a: seq<Byte>, c: Byte, b: seq<Byte>)
    requires c < 0x80
    ensures Decode(a + [c] + b) == Decode(a) + [c] + Decode(b)
    decreases |a|
  {
    var s := a + [c] + b;
    if a == [] {
      assert s[1..] == b;
    } else {
      DecodeRuneStops(a, c, b);
      var (r, n) := DecodeRune(a);
      assert s[n..] == a[n..] + [c] + b;
      DecodeSplits(a[n..], c, b);
    }
  }

  /** An ASCII rune is decoded only from the same byte. */
  lemma {:induction false} AsciiSurvives(bs: seq<Byte>, c: Byte)
    requires c < 0x80
    ensures c in Decode(bs) <==> c in bs
    decreases |bs|
  {
    if bs != [] {
      var (r, n) := DecodeRune(bs);
      AsciiSurvives(bs[n..], c);
      assert bs == bs[..n] + bs[n..];
      assert r == c <==> bs[0] == c;
      assert forall i | 1 <= i < n :: bs[i] >= 0x80;
    }
  }
}
