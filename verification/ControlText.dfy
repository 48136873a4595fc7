/** Text the control server writes and compares: jsonEscape and verifyPin of src/control_server.cpp. */
module ControlText {
  import opened Text
  import opened Json
  import opened JsonGrammar
  import opened JsonCorrect
  import Chunked

  // ---- Escaping for JSON ----

  /** Written as a six-character escape. */
  predicate NeedsHex(c: char) {
    c as int < 32 && EscapeChar(c).None?
  }

  function EscapeOne(c: char): string {
    if EscapeChar(c).Some? then ['\\', EscapeChar(c).value]
    else if NeedsHex(c) then ['\\', 'u', '0', '0', Chunked.HexDigit(c as int / 16), Chunked.HexDigit(c as int % 16)]
    else [c]
  }

  function JsonEscaped(s: string): string {
    if s == "" then "" else EscapeOne(s[0]) + JsonEscaped(s[1..])
  }

  method JsonEscape(s: string) returns (out: string)
    ensures out == JsonEscaped(s)
  {
    hide EscapeOne;
    out := "";
    for i := 0 to |s|
      invariant JsonEscaped(s) == out + JsonEscaped(s[i..])
    {
      out := out + EscapeCase(s[i]);
    }
  }

  /** The switch of jsonEscape. */
  function EscapeCase(c: char): (r: string)
    ensures r == EscapeOne(c)
  {
    match c
    case '"' => "\\\""
    case '\\' => "\\\\"
    case '\U{0008}' => "\\b"
    case '\U{000C}' => "\\f"
    case '\n' => "\\n"
    case '\r' => "\\r"
    case '\t' => "\\t"
    case _ =>
      if c as int < 32 then "\\u00" + [Chunked.HexDigit(c as int / 16), Chunked.HexDigit(c as int % 16)] else [c]
  }

  /** What the parser makes of one escaped character. */
  function ReadsAs(c: char): string {
    if NeedsHex(c) then ['u', '0', '0', Chunked.HexDigit(c as int / 16), Chunked.HexDigit(c as int % 16)] else [c]
  }

  /** A six-character escape is read as its five last characters. */
  lemma HexDecodes(h: char, l: char, rest: string)
    requires RawOk(rest) && h != '"' && h != '\\' && l != '"' && l != '\\'
    ensures var text := ['\\', 'u', '0', '0', h, l] + rest;
            RawOk(text) && Decode(text) == ['u', '0', '0', h, l] + Decode(rest)
  {
    hide Decode, RawOk;
    var t1, d := [l] + rest, Decode(rest);
    var t2 := [h] + t1;
    var t3 := ['0'] + t2;
    PlainDecodes(l, rest);
    PlainDecodes(h, t1);
    PlainDecodes('0', t2);
    PlainDecodes('0', t3);
    EscapeDecodes('u', ['0'] + t3);
    assert ['\\', 'u', '0', '0', h, l] + rest == ['\\', 'u'] + (['0'] + t3);
    assert ['u'] + (['0'] + (['0'] + ([h] + ([l] + d)))) == ['u', '0', '0', h, l] + d;
  }

  lemma OneDecodes(c: char, rest: string)
    requires RawOk(rest)
    ensures RawOk(EscapeOne(c) + rest) && Decode(EscapeOne(c) + rest) == ReadsAs(c) + Decode(rest)
  {
    hide Decode, RawOk;
    if EscapeChar(c).Some? {
      EscapeDecodes(EscapeChar(c).value, rest);
    } else if NeedsHex(c) {
      HexDecodes(Chunked.HexDigit(c as int / 16), Chunked.HexDigit(c as int % 16), rest);
    } else {
      PlainDecodes(c, rest);
    }
  }

  lemma EscapeDecodes(e: char, rest: string)
    requires RawOk(rest)
    ensures RawOk(['\\', e] + rest) && Decode(['\\', e] + rest) == [Unescape(e)] + Decode(rest)
  {
  }

  lemma PlainDecodes(c: char, rest: string)
    requires RawOk(rest) && c != '"' && c != '\\'
    ensures RawOk([c] + rest) && Decode([c] + rest) == [c] + Decode(rest)
  {
  }

  lemma {:induction false} EscapedDecodes(s: string)
    ensures RawOk(JsonEscaped(s))
    ensures |Decode(JsonEscaped(s))| >= |s|
    ensures Decode(JsonEscaped(s)) == s <==> forall i :: 0 <= i < |s| ==> !NeedsHex(s[i])
    ensures (exists i :: 0 <= i < |s| && NeedsHex(s[i])) ==> |Decode(JsonEscaped(s))| > |s|
    decreases |s|
  {
    hide EscapeOne, NeedsHex;
    if s != "" {
      var rest := s[1..];
      EscapedDecodes(rest);
      OneDecodes(s[0], JsonEscaped(rest));
    }
  }

  /**
   What jsonEscape writes is one JSON string whatever the text holds; the project's own parser reads the
   text back exactly when it has no control character that needs a six-character escape.
   */
  lemma EscapeReadsBack(s: string, before: string, after: string)
    ensures var text, p := before + Quoted(JsonEscaped(s)) + after, |before|;
      && ParseStr(text, p).1 == p + |Quoted(JsonEscaped(s))|
      && (ParseStr(text, p).0 == s <==> forall i :: 0 <= i < |s| ==> !NeedsHex(s[i]))
  {
    hide ParseStr, NeedsHex, JsonEscaped;
    var quoted := Quoted(JsonEscaped(s));
    var text := before + quoted + after;
    EscapedDecodes(s);
    StrAt(text, |before|, JsonEscaped(s));
  }

  // ---- And against the standard ----

  /** The two-character escapes of section 7 of RFC 8259. */
  function StandardEscape(e: char): Option<char> {
    match e
    case '"' => Some('"')
    case '\\' => Some('\\')
    case '/' => Some('/')
    case 'b' => Some('\U{0008}')
    case 'f' => Some('\U{000C}')
    case 'n' => Some('\U{000A}')
    case 'r' => Some('\U{000D}')
    case 't' => Some('\U{0009}')
    case _ => None
  }

  predicate FourHex(s: string) {
    |s| >= 4 && Chunked.IsHex(s[0]) && Chunked.IsHex(s[1]) && Chunked.IsHex(s[2]) && Chunked.IsHex(s[3])
  }

  /** The code of a six-character escape, behind its `u`. */
  function CodeOf(s: string): nat
    requires FourHex(s)
  {
    4096 * Chunked.HexValueOf(s[0]) + 256 * Chunked.HexValueOf(s[1]) + 16 * Chunked.HexValueOf(s[2])
    + Chunked.HexValueOf(s[3])
  }

  function Before(c: char, rest: Option<string>): Option<string> {
    if rest.Some? then Some([c] + rest.value) else None
  }

  /**
   A string body as section 7 of RFC 8259 reads it: no bare quote or control character, and only the escapes
   named there; six-character ones if `hex` says so, without surrogates.
   */
  function StandardRead(raw: string, hex: bool): Option<string> {
    if raw == "" then Some("")
    else if raw[0] == '"' || raw[0] as int < 32 then None
    else if raw[0] != '\\' then Before(raw[0], StandardRead(raw[1..], hex))
    else if |raw| >= 2 && StandardEscape(raw[1]).Some? then
      Before(StandardEscape(raw[1]).value, StandardRead(raw[2..], hex))
    else if hex && |raw| >= 6 && raw[1] == 'u' && FourHex(raw[2..]) && CodeOf(raw[2..]) < 0xD800 then
      Before(CodeOf(raw[2..]) as char, StandardRead(raw[6..], hex))
    else None
  }

  lemma PlainStandard(c: char, rest: string)
    requires c != '"' && c != '\\' && c as int >= 32
    ensures StandardRead([c] + rest, true) == Before(c, StandardRead(rest, true))
  {
    hide Before, StandardEscape, FourHex, CodeOf;
    assert ([c] + rest)[1..] == rest;
  }

  lemma ShortStandard(c: char, e: char, rest: string)
    requires StandardEscape(e) == Some(c)
    ensures StandardRead(['\\', e] + rest, true) == Before(c, StandardRead(rest, true))
  {
    hide Before, StandardEscape, FourHex, CodeOf;
    assert (['\\', e] + rest)[2..] == rest;
  }

  lemma HexStandard(h: char, l: char, rest: string)
    requires Chunked.IsHex(h) && Chunked.IsHex(l)
    ensures var c := (16 * Chunked.HexValueOf(h) + Chunked.HexValueOf(l)) as char;
            StandardRead(['\\', 'u', '0', '0', h, l] + rest, true) == Before(c, StandardRead(rest, true))
  {
    hide Before, FourHex, CodeOf;
    var text := ['\\', 'u', '0', '0', h, l] + rest;
    var digits := ['0', '0', h, l] + rest;
    assert text[2..] == digits && text[6..] == rest;
    HexCode(h, l, rest);
  }

  lemma HexCode(h: char, l: char, rest: string)
    requires Chunked.IsHex(h) && Chunked.IsHex(l)
    ensures FourHex(['0', '0', h, l] + rest)
    ensures CodeOf(['0', '0', h, l] + rest) == 16 * Chunked.HexValueOf(h) + Chunked.HexValueOf(l) < 256
  {
  }

  lemma EscapesStandard(c: char)
    ensures EscapeChar(c).Some? ==> StandardEscape(EscapeChar(c).value) == Some(c)
    ensures EscapeChar(c).None? ==> c != '"' && c != '\\'
  {
  }

  lemma OneStandard(c: char, rest: string)
    ensures StandardRead(EscapeOne(c) + rest, true) == Before(c, StandardRead(rest, true))
  {
    hide StandardRead, Before, StandardEscape, EscapeChar;
    EscapesStandard(c);
    if EscapeChar(c).Some? {
      ShortStandard(c, EscapeChar(c).value, rest);
    } else if NeedsHex(c) {
      HexStandard(Chunked.HexDigit(c as int / 16), Chunked.HexDigit(c as int % 16), rest);
    } else {
      PlainStandard(c, rest);
    }
  }

  /** Every standard reader gives back what was escaped, whatever the text holds. */
  lemma {:induction false} EscapeIsStandard(s: string)
    ensures StandardRead(JsonEscaped(s), true) == Some(s)
    decreases |s|
  {
    hide EscapeOne, StandardRead;
    if s == "" {
      NothingStandard();
    } else {
      OneStandard(s[0], JsonEscaped(s[1..]));
      EscapeIsStandard(s[1..]);
      assert [s[0]] + s[1..] == s;
    }
  }

  lemma NothingStandard()
    ensures StandardRead("", true) == Some("")
  {
  }

  /** The configuration parser reads every standard string without six-character escapes as the standard does. */
  lemma {:induction false} ParsesStandard(raw: string)
    requires StandardRead(raw, false).Some?
    ensures RawOk(raw) && Decode(raw) == StandardRead(raw, false).value
    decreases |raw|
  {
    if raw != "" {
      ParsesStandard(if raw[0] == '\\' then raw[2..] else raw[1..]);
    }
  }

  // ---- Comparing the PIN ----

  function ByteAt(s: seq<bv8>, i: nat): bv8 {
    if i < |s| then s[i] else 0
  }

  /** verifyPin: true exactly for the configured PIN, and never when none is configured. */
  method VerifyPin(expected: seq<bv8>, pin: seq<bv8>) returns (ok: bool)
    ensures ok <==> expected != [] && pin == expected
  {
    if expected == [] {
      return false;
    }
    if pin == [] {
      return false;
    }
    var n := if |pin| >= |expected| then |pin| else |expected|;
    var diff: bv8 := 0;
    for i := 0 to n
      invariant diff == 0 <==> forall j :: 0 <= j < i ==> ByteAt(pin, j) == ByteAt(expected, j)
    {
      diff := diff | (ByteAt(pin, i) ^ ByteAt(expected, i));
    }
    ok := diff == 0 && |pin| == |expected|;
    assert ok ==> forall j :: 0 <= j < n ==> pin[j] == ByteAt(pin, j) && expected[j] == ByteAt(expected, j);
  }
}
