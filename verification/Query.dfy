/**
 Query strings of the wait page's adjustment request: urlDecode and queryValue of
 src/control_server.cpp against the percent-encoding (section 2.1 of RFC 3986) that the
 page built in src/relay.cpp applies.  Strings are byte strings: every character is below 256.
 */
module Query {
  import opened Text
  import Chunked

  // ---- Percent-decoding ----

  function ByteOf(high: char, low: char): char
    requires Chunked.IsHex(high) && Chunked.IsHex(low)
  {
    (16 * Chunked.HexValueOf(high) + Chunked.HexValueOf(low)) as char
  }

  predicate IsTriplet(s: string) {
    |s| > 2 && s[0] == '%' && Chunked.IsHex(s[1]) && Chunked.IsHex(s[2])
  }

  function Decode(s: string): string {
    if s == "" then ""
    else if IsTriplet(s) then [ByteOf(s[1], s[2])] + Decode(s[3..])
    else [s[0]] + Decode(s[1..])
  }

  /** -1 for anything but a hexadecimal digit. */
  function HexVal(c: char): (v: int)
    ensures v >= 0 <==> Chunked.IsHex(c)
    ensures Chunked.IsHex(c) ==> v == Chunked.HexValueOf(c)
  {
    if '0' <= c <= '9' then c as int - '0' as int
    else if 'a' <= c <= 'f' then c as int - 'a' as int + 10
    else if 'A' <= c <= 'F' then c as int - 'A' as int + 10
    else -1
  }

  lemma ByteIs(high: char, low: char)
    requires Chunked.IsHex(high) && Chunked.IsHex(low)
    ensures 0 <= 16 * HexVal(high) + HexVal(low) < 256
    ensures ByteOf(high, low) == (16 * HexVal(high) + HexVal(low)) as char
  {
  }

  method UrlDecode(s: string) returns (out: string)
    ensures out == Decode(s)
  {
    hide ByteOf;
    out := "";
    var i := 0;
    assert s[0..] == s;
    while i < |s|
      invariant i <= |s| && Decode(s) == out + Decode(s[i..])
    {
      ghost var rest := s[i..];
      assert rest[1..] == s[i + 1..];
      if s[i] == '%' && i + 2 < |s| {
        assert rest[3..] == s[i + 3..];
        var h, l := HexVal(s[i + 1]), HexVal(s[i + 2]);
        if h >= 0 && l >= 0 {
          ghost var byte := ByteOf(s[i + 1], s[i + 2]);
          Snoc(out, byte, Decode(s[i + 3..]));
          ByteIs(s[i + 1], s[i + 2]);
          out := out + [(16 * h + l) as char];
          i := i + 3;
          continue;
        }
      }
      Snoc(out, s[i], Decode(s[i + 1..]));
      out := out + [s[i]];
      i := i + 1;
    }
    assert s[i..] == "";
  }

  lemma ByteSays(h: char, l: char)
    requires Chunked.IsHex(h) && Chunked.IsHex(l)
    ensures ByteOf(h, l) == (16 * Chunked.HexValueOf(h) + Chunked.HexValueOf(l)) as char
  {
  }

  /** A triplet of hexadecimal digits in either case is one byte; anything else stands for itself. */
  lemma DecodeReads(h: char, l: char, c: char, rest: string)
    requires Chunked.IsHex(h) && Chunked.IsHex(l)
    requires c == '%' ==> |rest| < 2 || !Chunked.IsHex(rest[0]) || !Chunked.IsHex(rest[1])
    ensures Decode(['%', h, l] + rest)
         == [(16 * Chunked.HexValueOf(h) + Chunked.HexValueOf(l)) as char] + Decode(rest)
    ensures Decode([c] + rest) == [c] + Decode(rest)
  {
    hide ByteOf;
    var triplet, plain := ['%', h, l] + rest, [c] + rest;
    assert triplet[3..] == rest && IsTriplet(triplet);
    assert plain[1..] == rest && !IsTriplet(plain);
    assert ByteOf(h, l) == (16 * Chunked.HexValueOf(h) + Chunked.HexValueOf(l)) as char by {
      ByteSays(h, l);
    }
  }

  // ---- Looking up a key ----

  /** First position of `c`, or the length. */
  function Index(s: string, c: char): (k: nat)
    ensures k <= |s|
  {
    match Find(s, c, 0)
    case Some(k) => k
    case None => |s|
  }

  /** Searching from a position is searching what follows it. */
  lemma {:induction false} FindInRest(s: string, c: char, from: nat, i: nat)
    requires from + i <= |s|
    ensures var r := Find(s[from..], c, i);
            Find(s, c, from + i) == if r.None? then None else Some(from + r.value)
    decreases |s| - i
  {
    if from + i < |s| {
      FindInRest(s, c, from, i + 1);
    }
  }

  method IndexFrom(s: string, c: char, from: nat) returns (k: nat)
    requires from <= |s|
    ensures k == from + Index(s[from..], c)
  {
    hide Find;
    var found := FindChar(s, c, from);
    FindInRest(s, c, from, 0);
    k := if found.Some? then found.value else |s|;
  }

  /** The value of one field, when its key is the one asked for. */
  function FieldValue(kv: string, key: string): Option<string> {
    var eq := Index(kv, '=');
    if kv[..eq] != key then None else Some(if eq == |kv| then "" else Decode(kv[eq + 1..]))
  }

  /** The fields after the question mark, in order. */
  function Lookup(query: string, key: string): string
    decreases |query|
  {
    var amp := Index(query, '&');
    match FieldValue(query[..amp], key)
    case Some(value) => value
    case None => if amp == |query| then "" else Lookup(query[amp + 1..], key)
  }

  function QueryValueOf(path: string, key: string): string {
    var q := Index(path, '?');
    if q == |path| then "" else Lookup(path[q + 1..], key)
  }

  /** The split of one field at its equals sign. */
  method ReadField(kv: string, key: string) returns (value: Option<string>)
    ensures value == FieldValue(kv, key)
  {
    hide Decode, Index;
    var eq := IndexFrom(kv, '=', 0);
    var k := if eq == |kv| then kv else kv[..eq];
    if k != key {
      return None;
    }
    if eq == |kv| {
      return Some("");
    }
    var decoded := UrlDecode(kv[eq + 1..]);
    value := Some(decoded);
  }

  method QueryValue(path: string, key: string) returns (value: string)
    ensures value == QueryValueOf(path, key)
  {
    hide FieldValue, Index;
    var q := IndexFrom(path, '?', 0);
    if q == |path| {
      return "";
    }
    var pos := q + 1;
    while pos <= |path|
      invariant pos <= |path| && Lookup(path[pos..], key) == QueryValueOf(path, key)
      decreases |path| - pos
    {
      var amp := IndexFrom(path, '&', pos);
      ghost var rest := path[pos..];
      assert path[pos..amp] == rest[..amp - pos];
      var found := ReadField(path[pos..amp], key);
      if found.Some? {
        return found.value;
      }
      if amp == |path| {
        break;
      }
      pos := amp + 1;
    }
    value := "";
  }

  // ---- The encoder, and looking up what it wrote ----

  predicate Bytes(s: string) {
    forall i :: 0 <= i < |s| ==> s[i] as int < 256
  }

  /** What encodeURIComponent leaves alone. */
  predicate Unreserved(c: char) {
    || 'a' <= c <= 'z' || 'A' <= c <= 'Z' || '0' <= c <= '9'
    || c in "-_.!~*'()"
  }

  function UpperHex(d: nat): (c: char)
    requires d < 16
    ensures Chunked.IsHex(c) && Chunked.HexValueOf(c) == d && Unreserved(c)
  {
    "0123456789ABCDEF"[d]
  }

  function EncodeByte(c: char): string
    requires c as int < 256
  {
    if Unreserved(c) then [c] else ['%', UpperHex(c as int / 16), UpperHex(c as int % 16)]
  }

  function Encode(s: string): string
    requires Bytes(s)
  {
    if s == "" then "" else EncodeByte(s[0]) + Encode(s[1..])
  }

  /** An encoded value has none of the characters that separate fields. */
  lemma {:induction false} EncodedIsSafe(s: string)
    requires Bytes(s)
    ensures forall i :: 0 <= i < |Encode(s)| ==> Unreserved(Encode(s)[i]) || Encode(s)[i] == '%'
    decreases |s|
  {
    hide Unreserved;
    if s != "" {
      EncodedIsSafe(s[1..]);
    }
  }

  /** One encoded byte decodes to itself, whatever follows. */
  lemma EncodedByte(c: char, rest: string)
    requires c as int < 256
    ensures Decode(EncodeByte(c) + rest) == [c] + Decode(rest)
  {
    var text := EncodeByte(c) + rest;
    if Unreserved(c) {
      assert text[0] == c && text[1..] == rest;
      assert c != '%';
    } else {
      assert text[3..] == rest && IsTriplet(text);
    }
  }

  lemma {:induction false} DecodeEncode(s: string)
    requires Bytes(s)
    ensures Decode(Encode(s)) == s
    decreases |s|
  {
    if s != "" {
      EncodedByte(s[0], Encode(s[1..]));
      DecodeEncode(s[1..]);
    }
  }

  /** A field; a bare one has no equals sign, and stands for an empty value. */
  datatype Param = Param(key: string, value: string, bare: bool)

  predicate WfParam(p: Param) {
    '=' !in p.key && '&' !in p.key && Bytes(p.value) && (p.bare ==> p.value == "")
  }

  predicate WfParams(ps: seq<Param>) {
    forall i :: 0 <= i < |ps| ==> WfParam(ps[i])
  }

  function ShowParam(p: Param): string
    requires WfParam(p)
  {
    p.key + if p.bare then "" else "=" + Encode(p.value)
  }

  function ShowParams(ps: seq<Param>): string
    requires WfParams(ps) && ps != []
  {
    if |ps| == 1 then ShowParam(ps[0]) else ShowParam(ps[0]) + "&" + ShowParams(ps[1..])
  }

  /** The first value given for a key, empty when there is none. */
  function ValueIn(ps: seq<Param>, key: string): string {
    if ps == [] then "" else if ps[0].key == key then ps[0].value else ValueIn(ps[1..], key)
  }

  lemma {:induction false} FindPast(s: string, c: char, rest: string, i: nat)
    requires c !in s && (rest != "" ==> rest[0] == c) && i <= |s|
    ensures Find(s + rest, c, i) == if rest == "" then None else Some(|s|)
    decreases |s| - i
  {
    if i < |s| {
      FindPast(s, c, rest, i + 1);
    }
  }

  lemma IndexAfter(s: string, c: char, rest: string)
    requires c !in s && (rest != "" ==> rest[0] == c)
    ensures Index(s + rest, c) == |s|
  {
    FindPast(s, c, rest, 0);
  }

  lemma FieldReads(p: Param, key: string)
    requires WfParam(p)
    ensures FieldValue(ShowParam(p), key) == (if p.key == key then Some(p.value) else None)
    ensures '&' !in ShowParam(p)
  {
    hide Index, Encode, Decode;
    var tail := if p.bare then "" else "=" + Encode(p.value);
    var kv := ShowParam(p);
    assert kv == p.key + tail;
    IndexAfter(p.key, '=', tail);
    assert kv[..|p.key|] == p.key && (!p.bare ==> kv[|p.key| + 1..] == Encode(p.value));
    DecodeEncode(p.value);
    EncodedIsSafe(p.value);
    assert !Unreserved('&');
  }

  /** In a list of encoded fields every key finds the value it was given. */
  lemma {:induction false} LookupFinds(ps: seq<Param>, key: string)
    requires WfParams(ps) && ps != []
    ensures Lookup(ShowParams(ps), key) == ValueIn(ps, key)
    decreases |ps|
  {
    hide Index, FieldValue, ShowParam, WfParam;
    FieldReads(ps[0], key);
    var first, query := ShowParam(ps[0]), ShowParams(ps);
    if |ps| == 1 {
      IndexAfter(first, '&', "");
      assert first + "" == first && query[..|first|] == first;
      assert ps[1..] == [] && ValueIn([], key) == "";
    } else {
      var tail := "&" + ShowParams(ps[1..]);
      assert query == first + tail;
      IndexAfter(first, '&', tail);
      assert query[..|first|] == first && query[|first| + 1..] == ShowParams(ps[1..]);
      LookupFinds(ps[1..], key);
    }
  }

  /** The same for a whole path. */
  lemma PathFinds(path: string, ps: seq<Param>, key: string)
    requires '?' !in path && WfParams(ps) && ps != []
    ensures QueryValueOf(path + "?" + ShowParams(ps), key) == ValueIn(ps, key)
  {
    hide Index, Lookup, ShowParams, ValueIn;
    var tail := "?" + ShowParams(ps);
    assert path + "?" + ShowParams(ps) == path + tail;
    IndexAfter(path, '?', tail);
    LookupFinds(ps, key);
  }

  // ---- The request of the wait page ----

  /** The URL path the page builds; the seconds are written as they are. */
  function RefreshPath(name: string, listen: string, secs: int, token: string): string
    requires Bytes(name) && Bytes(listen) && Bytes(token)
  {
    "/__set_refresh?name=" + Encode(name) + "&listen=" + Encode(listen) + "&secs=" + ToString(secs)
    + "&token=" + Encode(token)
  }

  lemma {:induction false} PlainEncode(s: string)
    requires forall i :: 0 <= i < |s| ==> Unreserved(s[i])
    ensures Bytes(s) && Encode(s) == s
    decreases |s|
  {
    if s != "" {
      PlainEncode(s[1..]);
    }
  }

  lemma NumberIsPlain(n: int)
    ensures Bytes(ToString(n)) && Encode(ToString(n)) == ToString(n)
  {
    hide Numeral;
    var s := ToString(n);
    PlainEncode(s);
  }

  function RefreshParams(name: string, listen: string, secs: int, token: string): seq<Param> {
    [Param("name", name, false), Param("listen", listen, false), Param("secs", ToString(secs), false),
     Param("token", token, false)]
  }

  lemma ShowOne(p: Param)
    requires WfParam(p)
    ensures ShowParams([p]) == ShowParam(p)
  {
  }

  lemma ShowMore(p: Param, ps: seq<Param>)
    requires WfParam(p) && WfParams(ps) && ps != []
    ensures WfParams([p] + ps) && ShowParams([p] + ps) == ShowParam(p) + "&" + ShowParams(ps)
  {
  }

  lemma Concatenates(n: string, l: string, s: string, t: string)
    ensures "/__set_refresh?name=" + n + "&listen=" + l + "&secs=" + s + "&token=" + t ==
            "/__set_refresh" + "?" + ("name=" + n + "&" + ("listen=" + l + "&" + ("secs=" + s + "&" + ("token=" + t))))
  {
    var tokens := "token=" + t;
    assert "&token=" + t == "&" + tokens;
    var secs := "secs=" + s + "&" + tokens;
    assert "&secs=" + s + ("&" + tokens) == "&" + secs;
    var listens := "listen=" + l + "&" + secs;
    assert "&listen=" + l + ("&" + secs) == "&" + listens;
    assert "/__set_refresh?name=" + n + ("&" + listens) == "/__set_refresh" + "?" + ("name=" + n + "&" + listens);
  }

  lemma OneIsWf(p: Param)
    requires WfParam(p)
    ensures WfParams([p])
  {
  }

  lemma RefreshPathIs(name: string, listen: string, secs: int, token: string)
    requires Bytes(name) && Bytes(listen) && Bytes(token)
    ensures var ps := RefreshParams(name, listen, secs, token);
            WfParams(ps) && RefreshPath(name, listen, secs, token) == "/__set_refresh" + "?" + ShowParams(ps)
  {
    hide Encode, ToString, ShowParams, WfParams;
    NumberIsPlain(secs);
    var n, l := Param("name", name, false), Param("listen", listen, false);
    var s, t := Param("secs", ToString(secs), false), Param("token", token, false);
    assert WfParams([t]) by {
      OneIsWf(t);
    }
    ShowOne(t);
    ShowMore(s, [t]);
    ShowMore(l, [s] + [t]);
    ShowMore(n, [l] + ([s] + [t]));
    assert RefreshParams(name, listen, secs, token) == [n] + ([l] + ([s] + [t]));
    assert ShowParam(n) == "name=" + Encode(name) && ShowParam(l) == "listen=" + Encode(listen);
    assert ShowParam(s) == "secs=" + ToString(secs) && ShowParam(t) == "token=" + Encode(token);
    Concatenates(Encode(name), Encode(listen), ToString(secs), Encode(token));
  }

  /** Whatever the name, the address and the token contain, the server reads back all four as they were. */
  lemma RefreshRoundTrip(name: string, listen: string, secs: int, token: string)
    requires Bytes(name) && Bytes(listen) && Bytes(token)
    ensures var path := RefreshPath(name, listen, secs, token);
      && QueryValueOf(path, "name") == name
      && QueryValueOf(path, "listen") == listen
      && QueryValueOf(path, "secs") == ToString(secs)
      && QueryValueOf(path, "token") == token
  {
    hide RefreshPath, QueryValueOf, ShowParams, ToString;
    var ps := RefreshParams(name, listen, secs, token);
    RefreshPathIs(name, listen, secs, token);
    PathFinds("/__set_refresh", ps, "name");
    PathFinds("/__set_refresh", ps, "listen");
    PathFinds("/__set_refresh", ps, "secs");
    PathFinds("/__set_refresh", ps, "token");
    RefreshValues(name, listen, secs, token);
  }

  lemma RefreshValues(name: string, listen: string, secs: int, token: string)
    ensures var ps := RefreshParams(name, listen, secs, token);
      && ValueIn(ps, "name") == name && ValueIn(ps, "listen") == listen
      && ValueIn(ps, "secs") == ToString(secs) && ValueIn(ps, "token") == token
  {
    hide ToString;
    var ps := RefreshParams(name, listen, secs, token);
    var a, b := ps[1..], ps[1..][1..];
    var c := b[1..];
    assert ValueIn(a, "secs") == ValueIn(b, "secs") && ValueIn(b, "token") == ValueIn(c, "token");
  }
}
