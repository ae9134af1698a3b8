/** Character-level building blocks shared by both browser modules: bytes and
    their Latin-1 strings, decimal numerals, splitting on line breaks,
    `String.prototype.trim`, and the shape of an ISO-8601 timestamp. */
module Text {
  import opened Wrappers

  /** One element of a `Uint8Array`. */
  type byte = x: int | 0 <= x < 256

  // ---------------------------------------------------------------------------
  // Latin-1 strings: `String.fromCharCode.apply(null, bytes)` and back
  // ---------------------------------------------------------------------------

  /** Every code point fits in one byte (what `btoa` accepts and `atob` yields). */
  predicate IsLatin1(s: string) {
    forall i :: 0 <= i < |s| ==> s[i] as int < 256
  }

  /** A concatenation fits in one byte per character exactly when both of
      its parts do. */
  lemma Latin1Concat(a: string, b: string)
    ensures IsLatin1(a + b) <==> IsLatin1(a) && IsLatin1(b)
  {
    if IsLatin1(a + b) {
      assert forall i :: 0 <= i < |a| ==> a[i] == (a + b)[i];
      assert forall i :: 0 <= i < |b| ==> b[i] == (a + b)[|a| + i];
    }
  }

  /** The string whose i-th character has code `b[i]`. */
  function Latin1(b: seq<byte>): (s: string)
    ensures |s| == |b| && IsLatin1(s)
    ensures forall i :: 0 <= i < |b| ==> s[i] as int == b[i]
  {
    seq(|b|, i requires 0 <= i < |b| => b[i] as char)
  }

  /** The bytes of a Latin-1 string, one per character. */
  function Latin1Bytes(s: string): (b: seq<byte>)
    requires IsLatin1(s)
    ensures |b| == |s|
    ensures forall i :: 0 <= i < |s| ==> b[i] == s[i] as int
  {
    seq(|s|, i requires 0 <= i < |s| => s[i] as int)
  }

  /** The two conversions are inverse to each other. */
  lemma Latin1RoundTrip(b: seq<byte>, s: string)
    requires IsLatin1(s)
    ensures Latin1Bytes(Latin1(b)) == b
    ensures Latin1(Latin1Bytes(s)) == s
  {
    assert Latin1Bytes(Latin1(b)) == b;
    assert forall i :: 0 <= i < |s| ==> Latin1(Latin1Bytes(s))[i] == s[i];
  }

  // ---------------------------------------------------------------------------
  // Decimal numerals: `String(n)` for a non-negative integer, and its parse
  // ---------------------------------------------------------------------------

  predicate IsDigit(c: char) {
    '0' <= c <= '9'
  }

  function DigitChar(d: nat): (c: char)
    requires d < 10
    ensures IsDigit(c)
  {
    ('0' as int + d) as char
  }

  function DigitValue(c: char): (d: nat)
    requires IsDigit(c)
    ensures d < 10 && DigitChar(d) == c
  {
    c as int - '0' as int
  }

  /** `String(n)` for an integer below 10^21: its decimal digits, with no
      leading zero. */
  function NatText(n: nat): (s: string)
    ensures |s| > 0
    ensures forall i :: 0 <= i < |s| ==> IsDigit(s[i])
    ensures s[0] == '0' ==> n == 0
    decreases n
  {
    if n < 10 then [DigitChar(n)] else NatText(n / 10) + [DigitChar(n % 10)]
  }

  /** The number a string of decimal digits denotes. */
  function DigitsValue(s: string): nat
    requires forall i :: 0 <= i < |s| ==> IsDigit(s[i])
  {
    if |s| == 0 then 0 else DigitsValue(s[..|s| - 1]) * 10 + DigitValue(s[|s| - 1])
  }

  lemma {:induction false} NatTextValue(n: nat)
    ensures DigitsValue(NatText(n)) == n
    decreases n
  {
    if n >= 10 {
      var s := NatText(n);
      assert s[..|s| - 1] == NatText(n / 10);
      NatTextValue(n / 10);
    }
  }

  /** Length of the longest run of digits at the head of `s`. */
  function DigitRun(s: string): (k: nat)
    ensures k <= |s|
    ensures forall i :: 0 <= i < k ==> IsDigit(s[i])
    ensures k < |s| ==> !IsDigit(s[k])
  {
    if |s| == 0 || !IsDigit(s[0]) then 0 else 1 + DigitRun(s[1..])
  }

  /** A JSON number literal that is a non-negative integer (`0` or a digit run
      without a leading zero) at the head of `s`, with the text after it. */
  function ParseNat(s: string): Option<(nat, string)>
  {
    var k := DigitRun(s);
    if k == 0 || (s[0] == '0' && k > 1) then None
    else Some((DigitsValue(s[..k]), s[k..]))
  }

  lemma {:induction false} DigitRunOfDigits(d: string, rest: string)
    requires forall i :: 0 <= i < |d| ==> IsDigit(d[i])
    requires rest == [] || !IsDigit(rest[0])
    ensures DigitRun(d + rest) == |d|
  {
    if |d| > 0 {
      assert (d + rest)[1..] == d[1..] + rest;
      DigitRunOfDigits(d[1..], rest);
    }
  }

  /** Parsing a printed number gives the number back and stops where the
      digits end. */
  lemma ParseNatText(n: nat, rest: string)
    requires rest == [] || !IsDigit(rest[0])
    ensures ParseNat(NatText(n) + rest) == Some((n, rest))
  {
    var d := NatText(n);
    var s := d + rest;
    DigitRunOfDigits(d, rest);
    assert s[..|d|] == d && s[|d|..] == rest;
    NatTextValue(n);
  }

  function Pow10(k: nat): nat {
    if k == 0 then 1 else 10 * Pow10(k - 1)
  }

  /** A number below 10^k takes at most k digits. */
  lemma {:induction false} NatTextLength(n: nat, k: nat)
    requires 0 < k && n < Pow10(k)
    ensures |NatText(n)| <= k
    decreases k
  {
    if n >= 10 {
      assert k > 1;
      NatTextLength(n / 10, k - 1);
    }
  }

  /** `numbers.join(', ')`. */
  function JoinComma(ns: seq<nat>): (s: string)
    ensures '\n' !in s
  {
    if |ns| == 0 then ""
    else if |ns| == 1 then NatText(ns[0])
    else NatText(ns[0]) + ", " + JoinComma(ns[1..])
  }

  // ---------------------------------------------------------------------------
  // Lines: a multi-line template literal and `text.split('\n')`
  // ---------------------------------------------------------------------------

  /** Lines separated by a line feed, as a template literal spanning several
      source lines produces them. */
  function JoinLines(ls: seq<string>): string
    requires |ls| > 0
  {
    if |ls| == 1 then ls[0] else ls[0] + "\n" + JoinLines(ls[1..])
  }

  /** `s.split('\n')`: the pieces between line feeds, one more than there are
      line feeds. */
  function Lines(s: string): (ls: seq<string>)
    ensures |ls| > 0
    ensures forall i :: 0 <= i < |ls| ==> '\n' !in ls[i]
  {
    if s == [] then [""]
    else
      var tail := Lines(s[1..]);
      if s[0] == '\n' then [""] + tail
      else [[s[0]] + tail[0]] + tail[1..]
  }

  lemma {:induction false} LinesOfPrefix(a: string, rest: string)
    requires '\n' !in a
    ensures Lines(a + rest) == [a + Lines(rest)[0]] + Lines(rest)[1..]
  {
    if a != [] {
      var ls := Lines(rest);
      assert (a + rest)[1..] == a[1..] + rest;
      assert (a + rest)[0] == a[0] && a[0] != '\n';
      LinesOfPrefix(a[1..], rest);
      var tail := Lines(a[1..] + rest);
      assert tail == [a[1..] + ls[0]] + ls[1..];
      assert tail[0] == a[1..] + ls[0] && tail[1..] == ls[1..];
      assert [a[0]] + (a[1..] + ls[0]) == a + ls[0];
    } else {
      var ls := Lines(rest);
      assert a + rest == rest && a + ls[0] == ls[0];
      assert [ls[0]] + ls[1..] == ls;
    }
  }

  /** Splitting joined lines gives the same lines back when none of them holds
      a line feed. */
  lemma {:induction false} LinesOfJoin(ls: seq<string>)
    requires |ls| > 0
    requires forall i :: 0 <= i < |ls| ==> '\n' !in ls[i]
    ensures Lines(JoinLines(ls)) == ls
  {
    if |ls| == 1 {
      LinesOfPrefix(ls[0], "");
      assert ls[0] + "" == ls[0] && Lines("") == [""];
      assert [ls[0]] == ls;
    } else {
      var tail := JoinLines(ls[1..]);
      assert ls[0] + "\n" + tail == ls[0] + ("\n" + tail);
      LinesOfPrefix(ls[0], "\n" + tail);
      assert ("\n" + tail)[1..] == tail;
      LinesOfJoin(ls[1..]);
      assert Lines("\n" + tail) == [""] + ls[1..];
      assert ls[0] + "" == ls[0];
      assert [ls[0]] + ls[1..] == ls;
    }
  }

  // ---------------------------------------------------------------------------
  // `String.prototype.length`
  // ---------------------------------------------------------------------------

  /** `s.length`: JavaScript strings are UTF-16, so a character outside the
      Basic Multilingual Plane counts as two code units. */
  function Utf16Length(s: string): (n: nat)
    ensures |s| <= n <= 2 * |s|
  {
    if s == [] then 0 else (if s[0] as int >= 0x10000 then 2 else 1) + Utf16Length(s[1..])
  }

  /** Code units add up over concatenation. */
  lemma {:induction false} Utf16LengthConcat(a: string, b: string)
    ensures Utf16Length(a + b) == Utf16Length(a) + Utf16Length(b)
  {
    if a != [] {
      assert (a + b)[1..] == a[1..] + b;
      Utf16LengthConcat(a[1..], b);
    } else {
      assert a + b == b;
    }
  }

  /** Within the Basic Multilingual Plane there is one code unit per
      character. */
  lemma {:induction false} BmpUtf16Length(s: string)
    requires forall i :: 0 <= i < |s| ==> s[i] as int < 0x10000
    ensures Utf16Length(s) == |s|
  {
    if s != [] {
      BmpUtf16Length(s[1..]);
    }
  }

  /** A single emoji is one character but two code units. */
  lemma AstralUtf16Length()
    ensures Utf16Length(['\U{1F600}']) == 2
  {
    assert ['\U{1F600}'][1..] == [];
  }

  /** Index of the first line longer than `bound` UTF-16 code units, as
      `lines.find(line => line.length > bound)` picks it. */
  function FindLongLine(ls: seq<string>, bound: nat): (r: Option<nat>)
    ensures r.Some? ==> r.value < |ls| && Utf16Length(ls[r.value]) > bound
    ensures r.Some? ==> forall j :: 0 <= j < r.value ==> Utf16Length(ls[j]) <= bound
    ensures r.None? ==> forall j :: 0 <= j < |ls| ==> Utf16Length(ls[j]) <= bound
  {
    if |ls| == 0 then None
    else if Utf16Length(ls[0]) > bound then Some(0)
    else match FindLongLine(ls[1..], bound)
      case None => None
      case Some(k) => Some(k + 1)
  }

  /** A first line of at most half the bound followed by a line longer than
      the bound: the search stops at the second line. */
  lemma SecondLineFound(ls: seq<string>, bound: nat)
    requires |ls| >= 2 && 2 * |ls[0]| <= bound && |ls[1]| > bound
    ensures FindLongLine(ls, bound) == Some(1)
  {
    assert ls[1..][0] == ls[1];
    assert Utf16Length(ls[1]) > bound;
  }

  // ---------------------------------------------------------------------------
  // `String.prototype.trim`
  // ---------------------------------------------------------------------------

  /** The WhiteSpace and LineTerminator code points of ECMAScript, which
      `trim` removes from both ends. */
  predicate IsTrimmable(c: char) {
    || c == '\t' || c == '\n' || c == '\U{000B}' || c == '\U{000C}' || c == '\r'
    || c == ' ' || c == '\U{00A0}' || c == '\U{1680}' || ('\U{2000}' <= c <= '\U{200A}')
    || c == '\U{2028}' || c == '\U{2029}' || c == '\U{202F}' || c == '\U{205F}'
    || c == '\U{3000}' || c == '\U{FEFF}'
  }

  function LeadingSpace(s: string): (k: nat)
    ensures k <= |s|
    ensures forall i :: 0 <= i < k ==> IsTrimmable(s[i])
    ensures k < |s| ==> !IsTrimmable(s[k])
  {
    if |s| == 0 || !IsTrimmable(s[0]) then 0 else 1 + LeadingSpace(s[1..])
  }

  function TrailingSpace(s: string): (k: nat)
    ensures k <= |s|
    ensures forall i :: |s| - k <= i < |s| ==> IsTrimmable(s[i])
    ensures k < |s| ==> !IsTrimmable(s[|s| - 1 - k])
  {
    if |s| == 0 || !IsTrimmable(s[|s| - 1]) then 0 else 1 + TrailingSpace(s[..|s| - 1])
  }

  /** `s.trim()`: the longest infix of `s` that neither starts nor ends with
      white space, reached by removing only white space. */
  function Trim(s: string): (r: string)
    ensures r == [] || (!IsTrimmable(r[0]) && !IsTrimmable(r[|r| - 1]))
    ensures exists i, j ::
      && 0 <= i <= j <= |s| && r == s[i..j]
      && (forall k :: 0 <= k < i ==> IsTrimmable(s[k]))
      && (forall k :: j <= k < |s| ==> IsTrimmable(s[k]))
  {
    var a := LeadingSpace(s);
    if a == |s| then
      assert s[a..a] == [];
      []
    else
      var b := TrailingSpace(s);
      assert !IsTrimmable(s[a]);
      assert forall k :: |s| - b <= k < |s| ==> IsTrimmable(s[k]);
      s[a..|s| - b]
  }

  /** Text with no white space at either end is left as it is. */
  lemma TrimUnchanged(s: string)
    requires s == [] || (!IsTrimmable(s[0]) && !IsTrimmable(s[|s| - 1]))
    ensures Trim(s) == s
  {
  }

  // ---------------------------------------------------------------------------
  // Timestamps
  // ---------------------------------------------------------------------------

  predicate IsIsoChar(c: char) {
    IsDigit(c) || c == '-' || c == '+' || c == ':' || c == 'T' || c == '.' || c == 'Z'
  }

  /** The shape of `Date.prototype.toISOString()`: 24 characters for years
      0 to 9999, 27 for the expanded six-digit years, drawn from digits and
      the separators `-+:T.Z`. */
  predicate IsIsoShape(s: string) {
    && (|s| == 24 || |s| == 27)
    && forall i :: 0 <= i < |s| ==> IsIsoChar(s[i])
  }

  /** A rendered timestamp, supplied by the caller's clock. */
  type IsoDate = s: string | IsIsoShape(s) witness "1970-01-01T00:00:00.000Z"
}
