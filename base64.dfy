/** Base64 as the browser provides it: `btoa` writes the standard alphabet
    with `=` padding (section 4 of RFC 4648); `atob` reads it back with the
    forgiving-base64 decode of the WHATWG Infra standard (ASCII white space is
    ignored, padding is optional, a length of 1 modulo 4 is refused). */
module Base64 {
  import opened Wrappers
  import opened Text

  /** A character of the standard alphabet `A-Z a-z 0-9 + /`. */
  predicate IsBase64Char(c: char) {
    ('A' <= c <= 'Z') || ('a' <= c <= 'z') || ('0' <= c <= '9') || c == '+' || c == '/'
  }

  /** The character for a 6-bit value. */
  function CharOf(v: nat): (c: char)
    requires v < 64
    ensures IsBase64Char(c)
  {
    if v < 26 then ('A' as int + v) as char
    else if v < 52 then ('a' as int + (v - 26)) as char
    else if v < 62 then ('0' as int + (v - 52)) as char
    else if v == 62 then '+'
    else '/'
  }

  /** The 6-bit value of an alphabet character. */
  function ValueOf(c: char): (v: nat)
    requires IsBase64Char(c)
    ensures v < 64 && CharOf(v) == c
  {
    if 'A' <= c <= 'Z' then c as int - 'A' as int
    else if 'a' <= c <= 'z' then 26 + (c as int - 'a' as int)
    else if '0' <= c <= '9' then 52 + (c as int - '0' as int)
    else if c == '+' then 62
    else 63
  }

  predicate AllSextets(v: seq<nat>) {
    forall i :: 0 <= i < |v| ==> v[i] < 64
  }

  /** Three bytes as four 6-bit groups. */
  function EncodeGroup(x: byte, y: byte, z: byte): (v: seq<nat>)
    ensures |v| == 4 && AllSextets(v)
  {
    [x / 4, (x % 4) * 16 + y / 16, (y % 16) * 4 + z / 64, z % 64]
  }

  /** The 6-bit groups of `b`, three bytes to four groups, with a short last
      group zero-filled on the right. */
  function Sextets(b: seq<byte>): (v: seq<nat>)
    ensures AllSextets(v) && |v| % 4 != 1
    decreases |b|
  {
    if |b| == 0 then []
    else if |b| == 1 then [b[0] / 4, (b[0] % 4) * 16]
    else if |b| == 2 then [b[0] / 4, (b[0] % 4) * 16 + b[1] / 16, (b[1] % 16) * 4]
    else EncodeGroup(b[0], b[1], b[2]) + Sextets(b[3..])
  }

  lemma {:induction false} SextetsLength(b: seq<byte>)
    ensures |Sextets(b)| == 4 * (|b| / 3) + (if |b| % 3 == 0 then 0 else |b| % 3 + 1)
    decreases |b|
  {
    if |b| >= 3 {
      SextetsLength(b[3..]);
    }
  }

  function Chars(v: seq<nat>): (s: string)
    requires AllSextets(v)
    ensures |s| == |v|
    ensures forall i :: 0 <= i < |v| ==> IsBase64Char(s[i]) && s[i] == CharOf(v[i])
  {
    seq(|v|, i requires 0 <= i < |v| => CharOf(v[i]))
  }

  /** The `=` characters that complete the last quantum. */
  function Padding(n: nat): string {
    if n % 3 == 1 then "==" else if n % 3 == 2 then "=" else ""
  }

  /** Standard base64 of `b` (`btoa(String.fromCharCode.apply(null, b))`):
      four characters per started group of three bytes, each from the
      alphabet or the padding character. */
  function Encode(b: seq<byte>): (s: string)
    ensures |s| == 4 * ((|b| + 2) / 3)
    ensures forall i :: 0 <= i < |s| ==> IsBase64Char(s[i]) || s[i] == '='
  {
    SextetsLength(b);
    Chars(Sextets(b)) + Padding(|b|)
  }

  // ---------------------------------------------------------------------------
  // Decoding
  // ---------------------------------------------------------------------------

  /** The ASCII white space that forgiving-base64 decode removes first. */
  predicate IsAsciiWhitespace(c: char) {
    c == '\t' || c == '\n' || c == '\U{000C}' || c == '\r' || c == ' '
  }

  function StripWhitespace(s: string): (r: string)
    ensures |r| <= |s|
    ensures forall i :: 0 <= i < |r| ==> !IsAsciiWhitespace(r[i])
  {
    if s == [] then []
    else if IsAsciiWhitespace(s[0]) then StripWhitespace(s[1..])
    else [s[0]] + StripWhitespace(s[1..])
  }

  /** When the length is a multiple of four, one or two trailing `=` go. */
  function StripPadding(s: string): string {
    if |s| % 4 == 0 && |s| >= 2 && s[|s| - 2..] == "==" then s[..|s| - 2]
    else if |s| % 4 == 0 && |s| >= 1 && s[|s| - 1] == '=' then s[..|s| - 1]
    else s
  }

  predicate AllBase64(s: string) {
    forall i :: 0 <= i < |s| ==> IsBase64Char(s[i])
  }

  function Values(s: string): (v: seq<nat>)
    requires AllBase64(s)
    ensures |v| == |s| && AllSextets(v)
  {
    seq(|s|, i requires 0 <= i < |s| => ValueOf(s[i]))
  }

  /** Four 6-bit groups back to three bytes. */
  function DecodeGroup(a: nat, b: nat, c: nat, d: nat): (r: seq<byte>)
    requires a < 64 && b < 64 && c < 64 && d < 64
    ensures |r| == 3
  {
    [a * 4 + b / 16, (b % 16) * 16 + c / 4, (c % 4) * 64 + d]
  }

  /** 6-bit groups back to bytes, four to three; a last run of two or three
      groups gives one or two bytes and the left-over bits are dropped. */
  function Octets(v: seq<nat>): (b: seq<byte>)
    requires AllSextets(v) && |v| % 4 != 1
    decreases |v|
  {
    if |v| == 0 then []
    else if |v| == 2 then [v[0] * 4 + v[1] / 16]
    else if |v| == 3 then [v[0] * 4 + v[1] / 16, (v[1] % 16) * 16 + v[2] / 4]
    else DecodeGroup(v[0], v[1], v[2], v[3]) + Octets(v[4..])
  }

  /** `atob` as bytes: `None` where the browser throws `InvalidCharacterError`. */
  function Decode(s: string): Option<seq<byte>> {
    var t := StripPadding(StripWhitespace(s));
    if |t| % 4 == 1 || !AllBase64(t) then None
    else Some(Octets(Values(t)))
  }

  lemma Split16(a: nat, b: nat)
    requires b < 16
    ensures (a * 16 + b) / 16 == a && (a * 16 + b) % 16 == b
  {
  }

  lemma Split4(a: nat, b: nat)
    requires b < 4
    ensures (a * 4 + b) / 4 == a && (a * 4 + b) % 4 == b
  {
  }

  /** One full group: three bytes to four sextets and back. */
  lemma GroupRoundTrip(x: byte, y: byte, z: byte)
    ensures var v := EncodeGroup(x, y, z); DecodeGroup(v[0], v[1], v[2], v[3]) == [x, y, z]
  {
    Split16(x % 4, y / 16);
    Split4(y % 16, z / 64);
  }

  lemma OneByteRoundTrip(x: byte)
    ensures Octets(Sextets([x])) == [x]
  {
    var v := Sextets([x]);
    assert v == [x / 4, (x % 4) * 16];
    Split16(x % 4, 0);
    assert v[0] * 4 + v[1] / 16 == x;
  }

  lemma TwoBytesRoundTrip(x: byte, y: byte)
    ensures Octets(Sextets([x, y])) == [x, y]
  {
    var v := Sextets([x, y]);
    assert v == [x / 4, (x % 4) * 16 + y / 16, (y % 16) * 4];
    Split16(x % 4, y / 16);
    Split4(y % 16, 0);
    assert v[0] * 4 + v[1] / 16 == x;
    assert (v[1] % 16) * 16 + v[2] / 4 == y;
  }

  lemma OctetsAppend(g: seq<nat>, rest: seq<nat>)
    requires |g| == 4 && AllSextets(g) && AllSextets(rest) && |rest| % 4 != 1
    ensures AllSextets(g + rest) && Octets(g + rest) == Octets(g) + Octets(rest)
  {
    assert (g + rest)[4..] == rest;
    assert g[4..] == [];
    assert (g + rest)[..4] == g;
  }

  lemma {:induction false} OctetsOfSextets(b: seq<byte>)
    ensures Octets(Sextets(b)) == b
    decreases |b|
  {
    if |b| >= 3 {
      var g := EncodeGroup(b[0], b[1], b[2]);
      OctetsAppend(g, Sextets(b[3..]));
      GroupRoundTrip(b[0], b[1], b[2]);
      OctetsOfSextets(b[3..]);
      assert b == [b[0], b[1], b[2]] + b[3..];
    } else if |b| == 2 {
      assert b == [b[0], b[1]];
      TwoBytesRoundTrip(b[0], b[1]);
    } else if |b| == 1 {
      assert b == [b[0]];
      OneByteRoundTrip(b[0]);
    }
  }

  lemma StripWhitespaceUnchanged(s: string)
    requires forall i :: 0 <= i < |s| ==> !IsAsciiWhitespace(s[i])
    ensures StripWhitespace(s) == s
  {
    if s != [] {
      StripWhitespaceUnchanged(s[1..]);
    }
  }

  lemma StripPaddingOf(c: string, n: nat)
    requires AllBase64(c) && (|c| + |Padding(n)|) % 4 == 0
    requires n % 3 != 0 ==> |c| >= 1
    ensures StripPadding(c + Padding(n)) == c
  {
    var s := c + Padding(n);
    if n % 3 == 1 {
      assert s[|s| - 2..] == "==" && s[..|s| - 2] == c;
    } else if n % 3 == 2 {
      assert s[|s| - 2] == c[|c| - 1];
      assert s[|s| - 2..] != "==";
      assert s[|s| - 1] == '=' && s[..|s| - 1] == c;
    } else {
      assert s == c;
      if |s| >= 1 {
        assert s[|s| - 1] != '=';
        assert |s| >= 2 ==> s[|s| - 2..][1] == s[|s| - 1];
      }
    }
  }

  lemma EncodeShape(b: seq<byte>)
    ensures Encode(b) == Chars(Sextets(b)) + Padding(|b|)
    ensures (|Chars(Sextets(b))| + |Padding(|b|)|) % 4 == 0
    ensures |b| % 3 != 0 ==> |Chars(Sextets(b))| >= 1
  {
    SextetsLength(b);
    var q, r := |b| / 3, |b| % 3;
    if r == 0 {
      assert |Chars(Sextets(b))| + |Padding(|b|)| == 4 * q;
      MultipleOfFour(q);
    } else {
      assert |Chars(Sextets(b))| + |Padding(|b|)| == 4 * (q + 1);
      MultipleOfFour(q + 1);
    }
  }

  lemma {:induction false} MultipleOfFour(k: nat)
    ensures (4 * k) % 4 == 0
  {
    if k > 0 {
      MultipleOfFour(k - 1);
      assert 4 * k == 4 * (k - 1) + 4;
    }
  }

  lemma ValuesOfChars(v: seq<nat>)
    requires AllSextets(v)
    ensures AllBase64(Chars(v)) && Values(Chars(v)) == v
  {
    assert forall i :: 0 <= i < |v| ==> ValueOf(CharOf(v[i])) == v[i];
  }

  /** Decoding undoes encoding, for every byte sequence. */
  lemma DecodeEncode(b: seq<byte>)
    ensures Decode(Encode(b)) == Some(b)
  {
    var e := Encode(b);
    var v := Sextets(b);
    var c := Chars(v);
    assert StripWhitespace(e) == e by {
      StripWhitespaceUnchanged(e);
    }
    assert AllBase64(c) && Values(c) == v by {
      ValuesOfChars(v);
    }
    assert StripPadding(e) == c by {
      EncodeShape(b);
      StripPaddingOf(c, |b|);
    }
    assert Octets(v) == b by {
      OctetsOfSextets(b);
    }
  }

  /** The encoded length for the key slices: 344 characters for 256 bytes,
      1368 for 1024. */
  lemma EncodedSliceLengths(b: seq<byte>)
    ensures |b| == 256 ==> |Encode(b)| == 344
    ensures |b| == 1024 ==> |Encode(b)| == 1368
  {
  }

  // ---------------------------------------------------------------------------
  // The string-level browser functions
  // ---------------------------------------------------------------------------

  /** `btoa(s)`: `None` (an `InvalidCharacterError`) when some character does
      not fit in one byte. */
  function Btoa(s: string): (r: Option<string>)
    ensures r.Some? <==> IsLatin1(s)
  {
    if IsLatin1(s) then Some(Encode(Latin1Bytes(s))) else None
  }

  /** `atob(s)`: the decoded bytes as a Latin-1 string. */
  function Atob(s: string): (r: Option<string>)
    ensures r.Some? ==> IsLatin1(r.value)
  {
    match Decode(s)
    case None => None
    case Some(b) => Some(Latin1(b))
  }

  /** `atob` undoes `btoa` on every string `btoa` accepts. */
  lemma AtobBtoa(s: string)
    requires IsLatin1(s)
    ensures Btoa(s).Some? && Atob(Btoa(s).value) == Some(s)
  {
    DecodeEncode(Latin1Bytes(s));
    Latin1RoundTrip([], s);
  }

  /** Text made of the alphabet and the pad character only. */
  predicate IsBase64Text(s: string) {
    forall i :: 0 <= i < |s| ==> IsBase64Char(s[i]) || s[i] == '='
  }

  /** Such text is Latin-1, holds no line feed, and has no white space at
      either end. */
  lemma Base64TextFacts(s: string)
    requires IsBase64Text(s)
    ensures IsLatin1(s) && '\n' !in s
    ensures s == [] || (!IsTrimmable(s[0]) && !IsTrimmable(s[|s| - 1]))
  {
  }

  /** `encodeBase64(data)` of both key modules, `btoa` over the bytes'
      Latin-1 string: never throws, and `atob` gives the same bytes back. */
  function EncodeBase64(data: seq<byte>): (s: string)
    ensures |s| == 4 * ((|data| + 2) / 3)
  {
    Encode(data)
  }

  lemma EncodeBase64Facts(data: seq<byte>)
    ensures var s := EncodeBase64(data);
      Btoa(Latin1(data)) == Some(s) && Decode(s) == Some(data) && IsBase64Text(s)
  {
    Latin1RoundTrip(data, []);
    DecodeEncode(data);
  }
}
