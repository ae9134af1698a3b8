/** The part of JSON (RFC 8259) that the two browser modules write and read
    back: `JSON.stringify` of flat objects whose values are strings,
    non-negative integers, booleans and arrays of non-negative integers, in
    the compact layout and in the two-space indented layout, and a parser
    for exactly those layouts. */
module Json {
  import opened Wrappers
  import opened Text

  // ---------------------------------------------------------------------------
  // Strings
  // ---------------------------------------------------------------------------

  function HexDigit(d: nat): (c: char)
    requires d < 16
    ensures IsHexDigit(c)
  {
    if d < 10 then DigitChar(d) else ('a' as int + d - 10) as char
  }

  predicate IsHexDigit(c: char) {
    IsDigit(c) || 'a' <= c <= 'f' || 'A' <= c <= 'F'
  }

  function HexValue(c: char): (d: nat)
    requires IsHexDigit(c)
    ensures d < 16
  {
    if IsDigit(c) then DigitValue(c)
    else if 'a' <= c <= 'f' then c as int - 'a' as int + 10
    else c as int - 'A' as int + 10
  }

  lemma HexValueOfDigit(d: nat)
    requires d < 16
    ensures HexValue(HexDigit(d)) == d
  {
  }

  /** What `JSON.stringify` writes for one character of a string: the two
      characters that must be escaped, the five control characters with a
      short escape, `\u00xx` in lower-case hexadecimal for the other control
      characters, and every other character as it is. */
  function EscapeChar(c: char): (s: string)
    ensures |s| >= 1 && '\n' !in s
    ensures IsLatin1(s) <==> IsLatin1([c])
  {
    if c == '"' then "\\\""
    else if c == '\\' then "\\\\"
    else if c == '\U{0008}' then "\\b"
    else if c == '\t' then "\\t"
    else if c == '\n' then "\\n"
    else if c == '\U{000C}' then "\\f"
    else if c == '\r' then "\\r"
    else if (c as int) < 0x20 then "\\u00" + [HexDigit(c as int / 16), HexDigit(c as int % 16)]
    else [c]
  }

  function Escape(s: string): (r: string)
    ensures '\n' !in r
    ensures IsLatin1(r) <==> IsLatin1(s)
  {
    if s == [] then []
    else
      Latin1Concat(EscapeChar(s[0]), Escape(s[1..]));
      Latin1Concat([s[0]], s[1..]);
      assert [s[0]] + s[1..] == s;
      EscapeChar(s[0]) + Escape(s[1..])
  }

  /** `JSON.stringify(s)` for a string `s`. */
  function Quote(s: string): (r: string)
    ensures '\n' !in r
    ensures IsLatin1(r) <==> IsLatin1(s)
  {
    Latin1Concat("\"", Escape(s));
    Latin1Concat("\"" + Escape(s), "\"");
    "\"" + Escape(s) + "\""
  }

  /** The character a two-character escape `\e` stands for. */
  function Unescape(e: char): Option<char> {
    if e == '"' then Some('"')
    else if e == '\\' then Some('\\')
    else if e == '/' then Some('/')
    else if e == 'b' then Some('\U{0008}')
    else if e == 'f' then Some('\U{000C}')
    else if e == 'n' then Some('\n')
    else if e == 'r' then Some('\r')
    else if e == 't' then Some('\t')
    else None
  }

  function Prepend(c: char, r: Option<(string, string)>): Option<(string, string)> {
    match r
    case None => None
    case Some(p) => Some(([c] + p.0, p.1))
  }

  /** The characters of a string literal up to its closing quote, and the
      text after that quote. A raw control character, an unknown escape, or
      a `\u` escape naming a surrogate code unit is refused. */
  function ParseStringBody(t: string): (r: Option<(string, string)>)
    ensures r.Some? ==> |r.value.1| < |t|
    decreases |t|
  {
    if |t| == 0 then None
    else if t[0] == '"' then Some(([], t[1..]))
    else if (t[0] as int) < 0x20 then None
    else if t[0] == '\\' then
      if |t| < 2 then None
      else if t[1] == 'u' then
        if |t| < 6 || !(IsHexDigit(t[2]) && IsHexDigit(t[3]) && IsHexDigit(t[4]) && IsHexDigit(t[5])) then None
        else
          var v := HexValue(t[2]) * 4096 + HexValue(t[3]) * 256 + HexValue(t[4]) * 16 + HexValue(t[5]);
          if 0xD800 <= v < 0xE000 then None
          else Prepend(v as char, ParseStringBody(t[6..]))
      else
        match Unescape(t[1])
        case None => None
        case Some(c) => Prepend(c, ParseStringBody(t[2..]))
    else Prepend(t[0], ParseStringBody(t[1..]))
  }

  /** A string literal at the head of `t`: its value and the text after it. */
  function ParseString(t: string): (r: Option<(string, string)>)
    ensures r.Some? ==> |r.value.1| < |t|
  {
    if |t| > 0 && t[0] == '"' then ParseStringBody(t[1..]) else None
  }

  lemma ParseControlEscape(c: char, t: string)
    requires (c as int) < 0x20
    requires c !in ['\U{0008}', '\t', '\n', '\U{000C}', '\r']
    ensures ParseStringBody(EscapeChar(c) + t) == Prepend(c, ParseStringBody(t))
  {
    var hi, lo := c as int / 16, c as int % 16;
    var u := EscapeChar(c) + t;
    assert u[0] == '\\' && u[1] == 'u' && u[2] == '0' && u[3] == '0';
    assert u[4] == HexDigit(hi) && u[5] == HexDigit(lo);
    HexValueOfDigit(hi);
    HexValueOfDigit(lo);
    assert u[6..] == t;
  }

  /** The parser reads one escaped character back and goes on after it. */
  lemma ParseEscapeChar(c: char, t: string)
    ensures ParseStringBody(EscapeChar(c) + t) == Prepend(c, ParseStringBody(t))
  {
    var u := EscapeChar(c) + t;
    if (c as int) < 0x20 && c !in ['\U{0008}', '\t', '\n', '\U{000C}', '\r'] {
      ParseControlEscape(c, t);
    } else if |EscapeChar(c)| == 2 {
      assert u[2..] == t;
    } else {
      assert u[1..] == t;
    }
  }

  lemma {:induction false} ParseEscaped(s: string, rest: string)
    ensures ParseStringBody(Escape(s) + "\"" + rest) == Some((s, rest))
  {
    if s == [] {
      assert Escape(s) + "\"" + rest == "\"" + rest;
    } else {
      var t := Escape(s[1..]) + "\"" + rest;
      ParseEscaped(s[1..], rest);
      assert Escape(s) + "\"" + rest == EscapeChar(s[0]) + t;
      ParseEscapeChar(s[0], t);
      assert [s[0]] + s[1..] == s;
    }
  }

  /** Every string survives `JSON.stringify` followed by `JSON.parse`, and
      the parser stops right after the closing quote. */
  lemma ParseQuote(s: string, rest: string)
    ensures ParseString(Quote(s) + rest) == Some((s, rest))
  {
    var body := Escape(s) + "\"" + rest;
    assert Quote(s) + rest == "\"" + body;
    assert ("\"" + body)[1..] == body;
    ParseEscaped(s, rest);
  }

  // ---------------------------------------------------------------------------
  // Literal text
  // ---------------------------------------------------------------------------

  /** The text after `lit` when `t` starts with it. */
  function Expect(lit: string, t: string): (r: Option<string>)
    ensures r.Some? ==> t == lit + r.value
  {
    if lit <= t then Some(t[|lit|..]) else None
  }

  lemma ExpectPrefix(lit: string, rest: string)
    ensures Expect(lit, lit + rest) == Some(rest)
  {
    assert (lit + rest)[|lit|..] == rest;
  }

  // ---------------------------------------------------------------------------
  // Values
  // ---------------------------------------------------------------------------

  datatype Value =
    | JString(str: string)
    | JNumber(num: nat)
    | JBool(b: bool)
    | JNumbers(nums: seq<nat>)

  /** The elements of a non-empty number array, separated by commas. */
  function NumbersText(ns: seq<nat>): (s: string)
    requires |ns| > 0
    ensures '\n' !in s && IsLatin1(s)
  {
    if |ns| == 1 then NatText(ns[0]) else NatText(ns[0]) + "," + NumbersText(ns[1..])
  }

  /** `JSON.stringify(v)` in the compact layout. */
  function ValueText(v: Value): (s: string)
    ensures |s| > 0 && '\n' !in s
    ensures !v.JString? ==> IsLatin1(s)
    ensures v.JString? ==> (IsLatin1(s) <==> IsLatin1(v.str))
  {
    match v
    case JString(str) => Quote(str)
    case JNumber(n) => NatText(n)
    case JBool(b) => if b then "true" else "false"
    case JNumbers(ns) => if ns == [] then "[]" else "[" + NumbersText(ns) + "]"
  }

  /** The elements of a number array after its `[`, up to and including the
      closing `]`. */
  function ParseNumberItems(t: string): (r: Option<(seq<nat>, string)>)
    ensures r.Some? ==> |r.value.1| < |t|
    decreases |t|
  {
    match ParseNat(t)
    case None => None
    case Some(p) =>
      var (n, u) := p;
      if |u| > 0 && u[0] == ']' then Some(([n], u[1..]))
      else if |u| > 0 && u[0] == ',' && |u| < |t| then
        match ParseNumberItems(u[1..])
        case None => None
        case Some(q) => Some(([n] + q.0, q.1))
      else None
  }

  /** A value at the head of `t` and the text after it. */
  function ParseValue(t: string): Option<(Value, string)> {
    if |t| == 0 then None
    else if t[0] == '"' then
      match ParseString(t)
      case None => None
      case Some(p) => Some((JString(p.0), p.1))
    else if t[0] == '[' then
      if |t| > 1 && t[1] == ']' then Some((JNumbers([]), t[2..]))
      else
        match ParseNumberItems(t[1..])
        case None => None
        case Some(p) => Some((JNumbers(p.0), p.1))
    else if "true" <= t then Some((JBool(true), t[4..]))
    else if "false" <= t then Some((JBool(false), t[5..]))
    else
      match ParseNat(t)
      case None => None
      case Some(p) => Some((JNumber(p.0), p.1))
  }

  lemma ParseNatShorter(n: nat, rest: string)
    requires rest == [] || !IsDigit(rest[0])
    ensures ParseNat(NatText(n) + rest) == Some((n, rest))
    ensures |rest| < |NatText(n) + rest|
  {
    ParseNatText(n, rest);
  }

  lemma {:induction false} ParseNumbersText(ns: seq<nat>, rest: string)
    requires |ns| > 0
    ensures ParseNumberItems(NumbersText(ns) + "]" + rest) == Some((ns, rest))
  {
    var t := NumbersText(ns) + "]" + rest;
    if |ns| == 1 {
      assert t == NatText(ns[0]) + ("]" + rest);
      ParseNatShorter(ns[0], "]" + rest);
      assert ("]" + rest)[1..] == rest;
      assert [ns[0]] == ns;
    } else {
      ParseNumbersText(ns[1..], rest);
      ParseNumbersStep(ns, rest);
    }
  }

  /** One step of the array parser: the first number, the comma, then the
      numbers after it as read by the recursive call. */
  lemma ParseNumbersStep(ns: seq<nat>, rest: string)
    requires |ns| > 1
    requires ParseNumberItems(NumbersText(ns[1..]) + "]" + rest) == Some((ns[1..], rest))
    ensures ParseNumberItems(NumbersText(ns) + "]" + rest) == Some((ns, rest))
  {
    var tail := NumbersText(ns[1..]) + "]" + rest;
    NumbersTextSplit(ns, rest);
    ParseItemsCons(ns[0], tail, (ns[1..], rest));
    assert [ns[0]] + ns[1..] == ns;
  }

  lemma NumbersTextSplit(ns: seq<nat>, rest: string)
    requires |ns| > 1
    ensures NumbersText(ns) + "]" + rest == NatText(ns[0]) + ("," + (NumbersText(ns[1..]) + "]" + rest))
  {
    var a, b := NatText(ns[0]), NumbersText(ns[1..]);
    assert NumbersText(ns) == a + "," + b;
    RegroupItems(a, ",", b, "]", rest);
  }

  lemma RegroupItems(a: string, b: string, c: string, d: string, e: string)
    ensures a + b + c + d + e == a + (b + (c + d + e))
  {
  }

  /** A number and a comma in front of items the parser reads. */
  lemma ParseItemsCons(n: nat, tail: string, q: (seq<nat>, string))
    requires ParseNumberItems(tail) == Some(q)
    ensures ParseNumberItems(NatText(n) + ("," + tail)) == Some(([n] + q.0, q.1))
  {
    ParseNatShorter(n, "," + tail);
    assert ("," + tail)[1..] == tail;
  }

  /** Text that cannot continue a number, so that a number before it ends
      where its digits end. */
  predicate EndsNumber(rest: string) {
    rest == [] || !IsDigit(rest[0])
  }

  lemma ParseBoolText(b: bool, rest: string)
    ensures ParseValue(ValueText(JBool(b)) + rest) == Some((JBool(b), rest))
  {
    var t := ValueText(JBool(b)) + rest;
    if b {
      assert t == "true" + rest;
      assert "true" <= t && t[4..] == rest;
    } else {
      assert t == "false" + rest;
      assert t[3] == 's';
      assert !("true" <= t);
      assert "false" <= t && t[5..] == rest;
    }
  }

  lemma ParseArrayText(ns: seq<nat>, rest: string)
    ensures ParseValue(ValueText(JNumbers(ns)) + rest) == Some((JNumbers(ns), rest))
  {
    var t := ValueText(JNumbers(ns)) + rest;
    if ns == [] {
      assert t == "[]" + rest;
      assert t[2..] == rest;
    } else {
      assert t == "[" + (NumbersText(ns) + "]" + rest);
      assert t[1..] == NumbersText(ns) + "]" + rest;
      ParseNumbersText(ns, rest);
      assert t[1] == NumbersText(ns)[0];
      assert IsDigit(NatText(ns[0])[0]);
    }
  }

  /** Every value is read back from its text, and the parser stops right
      after it. */
  lemma ParseValueText(v: Value, rest: string)
    requires EndsNumber(rest)
    ensures ParseValue(ValueText(v) + rest) == Some((v, rest))
  {
    match v
    case JString(s) =>
      ParseQuote(s, rest);
    case JNumber(n) =>
      ParseNatText(n, rest);
      assert IsDigit((NatText(n) + rest)[0]);
    case JBool(b) =>
      ParseBoolText(b, rest);
    case JNumbers(ns) =>
      ParseArrayText(ns, rest);
  }

  // ---------------------------------------------------------------------------
  // Objects
  // ---------------------------------------------------------------------------

  /** Where `JSON.stringify` puts white space around an object's members. */
  datatype Layout = Layout(open: string, sep: string, colon: string, close: string)

  /** `JSON.stringify(o)`. */
  const Compact := Layout("{", ",", ":", "}")

  /** `JSON.stringify(o, null, 2)` for an object none of whose values is a
      non-empty array (those are the only objects written this way here). */
  const Indented := Layout("{\n  ", ",\n  ", ": ", "\n}")

  type Member = (string, Value)

  function MemberText(layout: Layout, m: Member): string {
    Quote(m.0) + layout.colon + ValueText(m.1)
  }

  function MembersText(layout: Layout, ms: seq<Member>): string
    requires |ms| > 0
  {
    if |ms| == 1 then MemberText(layout, ms[0])
    else MemberText(layout, ms[0]) + layout.sep + MembersText(layout, ms[1..])
  }

  /** A non-empty object with its members in insertion order. */
  function ObjectText(layout: Layout, ms: seq<Member>): string
    requires |ms| > 0
  {
    layout.open + MembersText(layout, ms) + layout.close
  }

  function Keys(ms: seq<Member>): (ks: seq<string>)
    ensures |ks| == |ms|
    ensures forall i :: 0 <= i < |ms| ==> ks[i] == ms[i].0
  {
    if ms == [] then [] else [ms[0].0] + Keys(ms[1..])
  }

  function Values(ms: seq<Member>): (vs: seq<Value>)
    ensures |vs| == |ms|
    ensures forall i :: 0 <= i < |ms| ==> vs[i] == ms[i].1
  {
    if ms == [] then [] else [ms[0].1] + Values(ms[1..])
  }

  /** The members named `keys`, in that order, at the head of `t`; the text
      after the last value is returned. */
  function ParseMembers(layout: Layout, keys: seq<string>, t: string): Option<(seq<Value>, string)>
    requires |keys| > 0
    decreases |keys|
  {
    var t1 :- Expect(Quote(keys[0]) + layout.colon, t);
    match ParseValue(t1)
    case None => None
    case Some(p) =>
      if |keys| == 1 then Some(([p.0], p.1))
      else
        var t3 :- Expect(layout.sep, p.1);
        match ParseMembers(layout, keys[1..], t3)
        case None => None
        case Some(q) => Some(([p.0] + q.0, q.1))
  }

  /** `JSON.parse(t)` for an object written in `layout` whose members are
      `keys` in that order; any other text is refused. */
  function ParseObject(layout: Layout, keys: seq<string>, t: string): Option<seq<Value>>
    requires |keys| > 0
  {
    var t1 :- Expect(layout.open, t);
    match ParseMembers(layout, keys, t1)
    case None => None
    case Some(p) =>
      var t3 :- Expect(layout.close, p.1);
      if t3 == [] then Some(p.0) else None
  }

  /** The separators of a layout cannot continue a number. */
  predicate WellSeparated(layout: Layout) {
    |layout.sep| > 0 && !IsDigit(layout.sep[0]) && |layout.close| > 0 && !IsDigit(layout.close[0])
  }

  /** The parser reads the first member back and stops right after its
      value. */
  lemma ParseFirstMember(layout: Layout, m: Member, rest: string)
    requires EndsNumber(rest)
    ensures Expect(Quote(m.0) + layout.colon, MemberText(layout, m) + rest) == Some(ValueText(m.1) + rest)
    ensures ParseValue(ValueText(m.1) + rest) == Some((m.1, rest))
  {
    var lit := Quote(m.0) + layout.colon;
    assert MemberText(layout, m) + rest == lit + (ValueText(m.1) + rest);
    ExpectPrefix(lit, ValueText(m.1) + rest);
    ParseValueText(m.1, rest);
  }

  lemma {:induction false} ParseMembersText(layout: Layout, ms: seq<Member>, rest: string)
    requires |ms| > 0 && WellSeparated(layout)
    requires |rest| > 0 && rest[0] == layout.close[0]
    ensures ParseMembers(layout, Keys(ms), MembersText(layout, ms) + rest) == Some((Values(ms), rest))
  {
    if |ms| == 1 {
      ParseFirstMember(layout, ms[0], rest);
      assert Keys(ms) == [ms[0].0] && Values(ms) == [ms[0].1];
    } else {
      ParseMembersText(layout, ms[1..], rest);
      ParseMembersStep(layout, ms, rest);
    }
  }

  /** One step of the parser: the first member, the separator, then the
      members after it as read by the recursive call. */
  lemma ParseMembersStep(layout: Layout, ms: seq<Member>, rest: string)
    requires |ms| > 1 && WellSeparated(layout)
    requires |rest| > 0 && rest[0] == layout.close[0]
    requires ParseMembers(layout, Keys(ms[1..]), MembersText(layout, ms[1..]) + rest) == Some((Values(ms[1..]), rest))
    ensures ParseMembers(layout, Keys(ms), MembersText(layout, ms) + rest) == Some((Values(ms), rest))
  {
    var tail := MembersText(layout, ms[1..]) + rest;
    var after := layout.sep + tail;
    var v := ms[0].1;
    MembersTextSplit(layout, ms, rest);
    ParseFirstMember(layout, ms[0], after);
    ExpectPrefix(layout.sep, tail);
    KeysValuesStep(ms);
  }

  lemma MembersTextSplit(layout: Layout, ms: seq<Member>, rest: string)
    requires |ms| > 1
    ensures MembersText(layout, ms) + rest
      == MemberText(layout, ms[0]) + (layout.sep + (MembersText(layout, ms[1..]) + rest))
  {
    var a, b, c := MemberText(layout, ms[0]), layout.sep, MembersText(layout, ms[1..]);
    assert MembersText(layout, ms) == a + b + c;
    ConcatAssoc(a, b, c, rest);
  }

  lemma ConcatAssoc(a: string, b: string, c: string, d: string)
    ensures a + b + c + d == a + (b + (c + d))
  {
  }

  lemma KeysValuesStep(ms: seq<Member>)
    requires |ms| > 1
    ensures Keys(ms)[0] == ms[0].0 && Keys(ms)[1..] == Keys(ms[1..])
    ensures [ms[0].1] + Values(ms[1..]) == Values(ms)
  {
  }

  /** Every object written in a layout is read back, member by member, by
      the parser for that layout. */
  lemma ParseObjectText(layout: Layout, ms: seq<Member>)
    requires |ms| > 0 && WellSeparated(layout)
    ensures ParseObject(layout, Keys(ms), ObjectText(layout, ms)) == Some(Values(ms))
  {
    var body := MembersText(layout, ms) + layout.close;
    assert ObjectText(layout, ms) == layout.open + body;
    ExpectPrefix(layout.open, body);
    ParseMembersText(layout, ms, layout.close);
    ExpectPrefix(layout.close, []);
    assert layout.close + [] == layout.close;
  }

  predicate KeysLatin1(ms: seq<Member>) {
    forall i :: 0 <= i < |ms| ==> IsLatin1(ms[i].0)
  }

  /** Every string value fits in one byte per character. */
  predicate ValuesLatin1(ms: seq<Member>) {
    forall i :: 0 <= i < |ms| ==> ValueLatin1(ms[i].1)
  }

  predicate ValueLatin1(v: Value) {
    v.JString? ==> IsLatin1(v.str)
  }

  predicate LayoutLatin1(layout: Layout) {
    IsLatin1(layout.open) && IsLatin1(layout.sep) && IsLatin1(layout.colon) && IsLatin1(layout.close)
  }

  lemma MemberTextLatin1(layout: Layout, m: Member)
    requires LayoutLatin1(layout) && IsLatin1(m.0)
    ensures IsLatin1(MemberText(layout, m)) <==> ValueLatin1(m.1)
  {
    Latin1Concat(Quote(m.0), layout.colon);
    Latin1Concat(Quote(m.0) + layout.colon, ValueText(m.1));
  }

  lemma {:induction false} MembersTextLatin1(layout: Layout, ms: seq<Member>)
    requires |ms| > 0 && LayoutLatin1(layout) && KeysLatin1(ms)
    ensures IsLatin1(MembersText(layout, ms)) <==> ValuesLatin1(ms)
  {
    MemberTextLatin1(layout, ms[0]);
    if |ms| > 1 {
      MembersTextLatin1(layout, ms[1..]);
      Latin1Concat(MemberText(layout, ms[0]), layout.sep);
      Latin1Concat(MemberText(layout, ms[0]) + layout.sep, MembersText(layout, ms[1..]));
      assert ValuesLatin1(ms) <==> ValueLatin1(ms[0].1) && ValuesLatin1(ms[1..]) by {
        if ValueLatin1(ms[0].1) && ValuesLatin1(ms[1..]) {
          forall i | 0 <= i < |ms|
            ensures ValueLatin1(ms[i].1)
          {
            if i > 0 {
              assert ms[i] == ms[1..][i - 1];
            }
          }
        }
      }
    }
  }

  /** With Latin-1 keys, an object is written in Latin-1 exactly when its
      string values are, which decides whether `btoa` accepts it. */
  lemma ObjectTextLatin1(layout: Layout, ms: seq<Member>)
    requires |ms| > 0 && LayoutLatin1(layout) && KeysLatin1(ms)
    ensures IsLatin1(ObjectText(layout, ms)) <==> ValuesLatin1(ms)
  {
    MembersTextLatin1(layout, ms);
    Latin1Concat(layout.open, MembersText(layout, ms));
    Latin1Concat(layout.open + MembersText(layout, ms), layout.close);
  }

  lemma LayoutsWellSeparated()
    ensures WellSeparated(Compact) && WellSeparated(Indented)
  {
  }

  // ---------------------------------------------------------------------------
  // The indented layout, line by line
  // ---------------------------------------------------------------------------

  /** The lines of an indented object: the braces on lines of their own and
      one member per line, each but the last followed by a comma. */
  function IndentedLines(ms: seq<Member>): (ls: seq<string>)
    requires |ms| > 0
  {
    ["{"] + MemberLines(ms) + ["}"]
  }

  function MemberLines(ms: seq<Member>): (ls: seq<string>)
    requires |ms| > 0
    ensures |ls| == |ms|
    ensures forall i :: 0 <= i < |ls| ==> '\n' !in ls[i]
  {
    var line := "  " + MemberText(Indented, ms[0]);
    if |ms| == 1 then [line] else [line + ","] + MemberLines(ms[1..])
  }

  lemma JoinStep(first: string, restText: string, restLines: seq<string>)
    requires |restLines| > 0 && "  " + restText == JoinLines(restLines)
    ensures "  " + (first + ",\n  " + restText) == JoinLines(["  " + first + ","] + restLines)
  {
    var ls := ["  " + first + ","] + restLines;
    assert ls[1..] == restLines;
    assert ",\n  " == "," + "\n" + "  ";
    RegroupLine("  ", first, ",", "\n", "  ", restText);
  }

  lemma RegroupLine(a: string, b: string, c: string, d: string, e: string, f: string)
    ensures a + (b + (c + d + e) + f) == (a + b + c) + d + (e + f)
  {
  }

  lemma {:induction false} MembersAsLines(ms: seq<Member>)
    requires |ms| > 0
    ensures "  " + MembersText(Indented, ms) == JoinLines(MemberLines(ms))
  {
    if |ms| > 1 {
      MembersAsLines(ms[1..]);
      JoinStep(MemberText(Indented, ms[0]), MembersText(Indented, ms[1..]), MemberLines(ms[1..]));
    }
  }

  /** An indented object is its lines joined by line feeds. */
  lemma IndentedObjectJoin(ms: seq<Member>)
    requires |ms| > 0
    ensures ObjectText(Indented, ms) == JoinLines(IndentedLines(ms))
  {
    var mt := MembersText(Indented, ms);
    MembersAsLines(ms);
    JoinAround(MemberLines(ms));
    assert "{\n  " == "{" + "\n" + "  " && "\n}" == "\n" + "}";
    calc {
      ObjectText(Indented, ms);
      "{\n  " + mt + "\n}";
      { SeqAssoc("{" + "\n", "  ", mt, "\n", "}"); }
      "{" + "\n" + ("  " + mt) + "\n" + "}";
    }
  }

  lemma SeqAssoc(a: string, b: string, c: string, d: string, e: string)
    ensures (a + b) + c + (d + e) == a + (b + c) + d + e
  {
  }

  lemma IndentedLinesNoLineFeed(ms: seq<Member>)
    requires |ms| > 0
    ensures forall i :: 0 <= i < |IndentedLines(ms)| ==> '\n' !in IndentedLines(ms)[i]
  {
    var ml := MemberLines(ms);
    var ls := IndentedLines(ms);
    forall i | 0 <= i < |ls|
      ensures '\n' !in ls[i]
    {
      if i == 0 {
        assert ls[i] == "{";
      } else if i == |ls| - 1 {
        assert ls[i] == "}";
      } else {
        assert ls[i] == ml[i - 1];
      }
    }
  }

  /** Splitting an indented object on line feeds gives one line per member
      between the two brace lines. */
  lemma IndentedObjectLines(ms: seq<Member>)
    requires |ms| > 0
    ensures Lines(ObjectText(Indented, ms)) == IndentedLines(ms)
  {
    IndentedObjectJoin(ms);
    IndentedLinesNoLineFeed(ms);
    LinesOfJoin(IndentedLines(ms));
  }

  lemma {:induction false} JoinAround(ls: seq<string>)
    requires |ls| > 0
    ensures JoinLines(["{"] + ls + ["}"]) == "{" + "\n" + JoinLines(ls) + "\n" + "}"
  {
    var whole := ["{"] + ls + ["}"];
    assert whole[1..] == ls + ["}"];
    JoinAppend(ls, "}");
  }

  lemma {:induction false} JoinAppend(ls: seq<string>, last: string)
    requires |ls| > 0
    ensures JoinLines(ls + [last]) == JoinLines(ls) + "\n" + last
  {
    if |ls| > 1 {
      assert (ls + [last])[1..] == ls[1..] + [last];
      JoinAppend(ls[1..], last);
    } else {
      assert (ls + [last])[1..] == [last];
    }
  }
}
