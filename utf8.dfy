/** UTF-8 as `TextEncoder` and `TextDecoder` apply it (section 3 of RFC 3629;
    the decoder follows the UTF-8 decoder of the WHATWG Encoding standard,
    which turns each maximal ill-formed subsequence into U+FFFD). */
module Utf8 {
  import opened Text

  const Replacement: char := '\U{FFFD}'
  const ByteOrderMark: char := '\U{FEFF}'

  /** The UTF-8 bytes of one Unicode scalar value. */
  function EncodeChar(c: char): (b: seq<byte>)
    ensures 1 <= |b| <= 4
  {
    var cp := c as int;
    if cp < 0x80 then [cp]
    else if cp < 0x800 then [0xC0 + cp / 64, 0x80 + cp % 64]
    else if cp < 0x10000 then [0xE0 + cp / 4096, 0x80 + (cp / 64) % 64, 0x80 + cp % 64]
    else [0xF0 + cp / 262144, 0x80 + (cp / 4096) % 64, 0x80 + (cp / 64) % 64, 0x80 + cp % 64]
  }

  /** `new TextEncoder().encode(s)`. */
  function Encode(s: string): (b: seq<byte>)
    ensures |s| <= |b| <= 4 * |s|
  {
    if s == [] then [] else EncodeChar(s[0]) + Encode(s[1..])
  }

  predicate InRange(x: byte, lo: int, hi: int) {
    lo <= x <= hi
  }

  /** One step of the decoder at the head of `b`: the character produced and
      the number of bytes consumed. A lead byte that cannot start a sequence,
      a continuation byte outside its allowed range, or an early end yields
      U+FFFD and consumes the bytes read so far (at least one); the offending
      continuation byte is left to start the next step. */
  function DecodeOne(b: seq<byte>): (r: (char, nat))
    requires |b| > 0
    ensures 1 <= r.1 <= |b|
  {
    var lead := b[0] as int;
    if lead < 0x80 then (lead as char, 1)
    else if 0xC2 <= lead <= 0xDF then
      if |b| < 2 || !InRange(b[1], 0x80, 0xBF) then (Replacement, 1)
      else (((lead - 0xC0) * 64 + (b[1] as int - 0x80)) as char, 2)
    else if 0xE0 <= lead <= 0xEF then
      var lo := if lead == 0xE0 then 0xA0 else 0x80;
      var hi := if lead == 0xED then 0x9F else 0xBF;
      if |b| < 2 || !InRange(b[1], lo, hi) then (Replacement, 1)
      else if |b| < 3 || !InRange(b[2], 0x80, 0xBF) then (Replacement, 2)
      else (((lead - 0xE0) * 4096 + (b[1] as int - 0x80) * 64 + (b[2] as int - 0x80)) as char, 3)
    else if 0xF0 <= lead <= 0xF4 then
      var lo := if lead == 0xF0 then 0x90 else 0x80;
      var hi := if lead == 0xF4 then 0x8F else 0xBF;
      if |b| < 2 || !InRange(b[1], lo, hi) then (Replacement, 1)
      else if |b| < 3 || !InRange(b[2], 0x80, 0xBF) then (Replacement, 2)
      else if |b| < 4 || !InRange(b[3], 0x80, 0xBF) then (Replacement, 3)
      else (((lead - 0xF0) * 262144 + (b[1] as int - 0x80) * 4096 + (b[2] as int - 0x80) * 64 + (b[3] as int - 0x80)) as char, 4)
    else (Replacement, 1)
  }

  /** The decoder run over all of `b`, keeping a leading U+FEFF (a
      `TextDecoder` constructed with `ignoreBOM: true`). */
  function Decode(b: seq<byte>): (s: string)
    ensures |s| <= |b|
    decreases |b|
  {
    if |b| == 0 then []
    else
      var r := DecodeOne(b);
      [r.0] + Decode(b[r.1..])
  }

  /** `new TextDecoder().decode(b)`, the default decoder: a U+FEFF decoded
      at the very start is taken for a byte-order mark and dropped. */
  function DecodeStrippingBom(b: seq<byte>): (s: string)
  {
    DropBom(Decode(b))
  }

  /** `s` without its first character when that is U+FEFF. */
  function DropBom(s: string): string {
    if |s| > 0 && s[0] == ByteOrderMark then s[1..] else s
  }

  // ---------------------------------------------------------------------------
  // Round trip
  // ---------------------------------------------------------------------------

  /** A code point as base-64 digits: `cp == d2 * 4096 + d1 * 64 + d0`. */
  lemma ThreeDigits(cp: nat)
    ensures cp / 4096 == (cp / 64) / 64
    ensures cp == (cp / 4096) * 4096 + ((cp / 64) % 64) * 64 + cp % 64
  {
    var q, r := cp / 64, cp % 64;
    var q2, r2 := q / 64, q % 64;
    assert cp == q * 64 + r;
    assert q == q2 * 64 + r2;
    assert cp == q2 * 4096 + (r2 * 64 + r);
  }

  lemma FourDigits(cp: nat)
    ensures cp / 262144 == (cp / 4096) / 64
    ensures cp == (cp / 262144) * 262144 + ((cp / 4096) % 64) * 4096 + ((cp / 64) % 64) * 64 + cp % 64
  {
    ThreeDigits(cp);
    var q := cp / 4096;
    var q2, r2 := q / 64, q % 64;
    assert q == q2 * 64 + r2;
    assert cp == q2 * 262144 + (r2 * 4096 + ((cp / 64) % 64) * 64 + cp % 64);
  }

  lemma DecodeTwoBytes(c: char, rest: seq<byte>)
    requires 0x80 <= c as int < 0x800
    ensures DecodeOne(EncodeChar(c) + rest) == (c, 2)
  {
    var cp := c as int;
    var b := EncodeChar(c) + rest;
    assert b[0] == 0xC0 + cp / 64 && b[1] == 0x80 + cp % 64;
  }

  lemma DecodeThreeBytes(c: char, rest: seq<byte>)
    requires 0x800 <= c as int < 0x10000
    ensures DecodeOne(EncodeChar(c) + rest) == (c, 3)
  {
    var cp := c as int;
    ThreeDigits(cp);
    var b := EncodeChar(c) + rest;
    assert b[0] == 0xE0 + cp / 4096 && b[1] == 0x80 + (cp / 64) % 64 && b[2] == 0x80 + cp % 64;
    assert cp < 0xD800 || 0xE000 <= cp;
  }

  lemma DecodeFourBytes(c: char, rest: seq<byte>)
    requires 0x10000 <= c as int
    ensures DecodeOne(EncodeChar(c) + rest) == (c, 4)
  {
    var cp := c as int;
    FourDigits(cp);
    var b := EncodeChar(c) + rest;
    assert b[0] == 0xF0 + cp / 262144;
    assert b[1] == 0x80 + (cp / 4096) % 64 && b[2] == 0x80 + (cp / 64) % 64 && b[3] == 0x80 + cp % 64;
  }

  /** The decoder reads one encoded character back and consumes exactly its
      bytes. */
  lemma DecodeOneEncodeChar(c: char, rest: seq<byte>)
    ensures DecodeOne(EncodeChar(c) + rest) == (c, |EncodeChar(c)|)
  {
    var cp := c as int;
    if cp < 0x80 {
    } else if cp < 0x800 {
      DecodeTwoBytes(c, rest);
    } else if cp < 0x10000 {
      DecodeThreeBytes(c, rest);
    } else {
      DecodeFourBytes(c, rest);
    }
  }

  /** Decoding undoes `TextEncoder` for every string, a leading U+FEFF
      included. */
  lemma {:induction false} DecodeEncode(s: string)
    ensures Decode(Encode(s)) == s
  {
    if s != [] {
      var e := EncodeChar(s[0]);
      var b := Encode(s);
      assert b == e + Encode(s[1..]);
      DecodeOneEncodeChar(s[0], Encode(s[1..]));
      assert b[|e|..] == Encode(s[1..]);
      DecodeEncode(s[1..]);
    }
  }

  /** With the default decoder the round trip holds exactly for the strings
      that do not begin with U+FEFF. */
  lemma DecodeStrippingBomEncode(s: string)
    ensures DecodeStrippingBom(Encode(s)) == DropBom(s)
    ensures DecodeStrippingBom(Encode(s)) == s <==> (s == [] || s[0] != ByteOrderMark)
  {
    DecodeEncode(s);
  }

  /** A concrete input on which the default decoder loses a character: the
      text U+FEFF, 'h', 'i' comes back as "hi". */
  lemma LeadingBomLost()
    ensures DecodeStrippingBom(Encode([ByteOrderMark, 'h', 'i'])) == ['h', 'i']
  {
    DecodeEncode([ByteOrderMark, 'h', 'i']);
  }
}
