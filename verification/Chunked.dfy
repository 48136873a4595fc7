/**
 Chunked streaming of command output: the frames of src/relay_posix.cpp and the
 terminator of src/control_server.cpp, against a decoder for section 7.1 of RFC 9112.
 */
module Chunked {
  import opened Text

  const CRLF: string := "\r\n"

  // ---- Hexadecimal lengths ----

  function HexDigit(d: nat): (c: char)
    requires d < 16
    ensures IsHex(c) && HexValueOf(c) == d
  {
    "0123456789abcdef"[d]
  }

  predicate IsHex(c: char) {
    '0' <= c <= '9' || 'a' <= c <= 'f' || 'A' <= c <= 'F'
  }

  function HexValueOf(c: char): nat
    requires IsHex(c)
  {
    if '0' <= c <= '9' then c as int - '0' as int
    else if 'a' <= c <= 'f' then c as int - 'a' as int + 10
    else c as int - 'A' as int + 10
  }

  predicate AllHex(s: string) {
    forall i :: 0 <= i < |s| ==> IsHex(s[i])
  }

  /** The number a run of hexadecimal digits stands for. */
  function HexValue(s: string): nat
    requires AllHex(s)
  {
    if s == "" then 0 else 16 * HexValue(s[..|s| - 1]) + HexValueOf(s[|s| - 1])
  }

  function Hex(n: nat): (s: string)
    ensures s != "" && AllHex(s)
  {
    if n < 16 then [HexDigit(n)] else Hex(n / 16) + [HexDigit(n % 16)]
  }

  lemma {:induction false} HexIsValue(n: nat)
    ensures HexValue(Hex(n)) == n
  {
    if n >= 16 {
      HexIsValue(n / 16);
    }
  }

  function Reverse(s: string): (r: string)
    ensures |r| == |s|
  {
    if s == "" then "" else Reverse(s[1..]) + [s[0]]
  }

  lemma {:induction false} ReverseSnoc(s: string, c: char)
    ensures Reverse(s + [c]) == [c] + Reverse(s)
    decreases |s|
  {
    if s != "" {
      assert (s + [c])[1..] == s[1..] + [c];
      ReverseSnoc(s[1..], c);
    }
  }

  method ReverseText(s: string) returns (r: string)
    ensures r == Reverse(s)
  {
    r := "";
    for i := 0 to |s|
      invariant r == Reverse(s[..i])
    {
      assert s[..i + 1] == s[..i] + [s[i]];
      ReverseSnoc(s[..i], s[i]);
      r := [s[i]] + r;
    }
    assert s[..|s|] == s;
  }

  lemma HexSteps(n: nat)
    ensures Hex(n) == (if n / 16 == 0 then "" else Hex(n / 16)) + [HexDigit(n % 16)]
  {
  }

  /** The nibble loop, low digit first, and the reversal: the number in hexadecimal. */
  method HexLength(n: nat) returns (s: string)
    ensures s == Hex(n)
  {
    hide Hex, HexDigit;
    var low, rest: nat := "", n;
    while true
      invariant Hex(n) == Hex(rest) + Reverse(low)
      decreases rest
    {
      var digit := HexDigit(rest % 16);
      HexSteps(rest);
      ReverseSnoc(low, digit);
      low := low + [digit];
      if rest / 16 == 0 {
        break;
      }
      rest := rest / 16;
    }
    s := ReverseText(low);
  }

  // ---- Frames ----

  function Frame(chunk: string): string {
    Hex(|chunk|) + CRLF + chunk + CRLF
  }

  function Frames(chunks: seq<string>): string {
    if chunks == [] then "" else Frame(chunks[0]) + Frames(chunks[1..])
  }

  /** read() has returned something for each chunk. */
  predicate NoneEmpty(chunks: seq<string>) {
    forall i :: 0 <= i < |chunks| ==> chunks[i] != ""
  }

  function Flatten(chunks: seq<string>): string {
    if chunks == [] then "" else chunks[0] + Flatten(chunks[1..])
  }

  /** What the stream ends with; -2 stands for a timeout. */
  function Terminator(exit: int): string {
    if exit == -2 then "[timeout]\r\n" else "[exit=" + ToString(exit) + "]\r\n"
  }

  function Stream(chunks: seq<string>, exit: int): string {
    Frames(chunks) + (Frame(Terminator(exit)) + "0\r\n\r\n")
  }

  /** What arrives of a text handed to write_fd, by the answer. */
  function Written(text: string, answer: int): string {
    if answer <= 0 then "" else if answer < |text| then text[..answer] else text
  }

  /** The frames as they arrive: a failed write ends the loop, a short one is taken for success. */
  function Output(chunks: seq<string>, answers: seq<int>): string
    requires |chunks| <= |answers|
  {
    if chunks == [] then "" else
      Written(Frame(chunks[0]), answers[0]) + if answers[0] <= 0 then "" else Output(chunks[1..], answers[1..])
  }

  /** All that arrives; `last` answers the write of the terminator, which is sent whatever came before. */
  function Sent(chunks: seq<string>, exit: int, answers: seq<int>, last: int): string
    requires |chunks| <= |answers|
  {
    Output(chunks, answers) + Written(Frame(Terminator(exit)) + "0\r\n\r\n", last)
  }

  lemma OutputNext(chunks: seq<string>, answers: seq<int>, i: nat)
    requires i < |chunks| <= |answers|
    ensures var write, rest := Written(Frame(chunks[i]), answers[i]), Output(chunks[i + 1..], answers[i + 1..]);
            Output(chunks[i..], answers[i..]) == if answers[i] <= 0 then write else write + rest
  {
    hide Frame, Written;
  }

  lemma OutputEnd(answers: seq<int>)
    ensures Output([], answers) == ""
  {
  }

  /** runShellStream's output loop and runStream's terminator. */
  method WriteStream(chunks: seq<string>, exit: int, answers: seq<int>, last: int) returns (out: string)
    requires |chunks| <= |answers|
    ensures out == Sent(chunks, exit, answers, last)
  {
    hide Hex, Terminator, Written, Output;
    assert chunks[0..] == chunks && answers[0..] == answers;
    out := "";
    var i := 0;
    OutputEnd(answers[|chunks|..]);
    while i < |chunks|
      invariant 0 <= i <= |chunks| && Output(chunks, answers) == out + Output(chunks[i..], answers[i..])
    {
      OutputNext(chunks, answers, i);
      var len := HexLength(|chunks[i]|);
      out := out + Written(len + CRLF + chunks[i] + CRLF, answers[i]);
      if answers[i] <= 0 {
        break;
      }
      i := i + 1;
    }
    var term := Terminator(exit);
    var len := HexLength(|term|);
    out := out + Written(len + CRLF + term + CRLF + "0\r\n\r\n", last);
  }

  // ---- A decoder ----

  datatype Decoded = Decoded(body: string, rest: string)

  function HexRun(text: string): (k: nat)
    ensures k <= |text| && AllHex(text[..k]) && (k < |text| ==> !IsHex(text[k]))
  {
    if text == "" || !IsHex(text[0]) then 0
    else
      var k := HexRun(text[1..]);
      assert text[..1 + k] == [text[0]] + text[1..][..k];
      1 + k
  }

  predicate StartsCrlf(text: string) {
    |text| >= 2 && text[0] == '\r' && text[1] == '\n'
  }

  /** The chunked body at the front of the text: complete chunks, the zero chunk, and an empty trailer. */
  function Decode(text: string, body: string): Option<Decoded>
    decreases |text|
  {
    var k := HexRun(text);
    if k == 0 || !StartsCrlf(text[k..]) then None else DecodeData(HexValue(text[..k]), text[k..][2..], body)
  }

  /** After the length of a chunk. */
  function DecodeData(size: nat, data: string, body: string): Option<Decoded>
    decreases |data|
  {
    if size == 0 then (if StartsCrlf(data) then Some(Decoded(body, data[2..])) else None)
    else if |data| < size || !StartsCrlf(data[size..]) then None
    else Decode(data[size..][2..], body + data[..size])
  }

  lemma {:induction false} HexRunIs(digits: string, rest: string)
    requires AllHex(digits) && rest != "" && !IsHex(rest[0])
    ensures HexRun(digits + rest) == |digits|
    decreases |digits|
  {
    var text := digits + rest;
    if digits != "" {
      assert text[1..] == digits[1..] + rest;
      HexRunIs(digits[1..], rest);
    }
  }

  /** A length, its line end, and the data. */
  lemma LengthDecodes(digits: string, data: string, body: string)
    requires AllHex(digits) && digits != ""
    ensures Decode(digits + (CRLF + data), body) == DecodeData(HexValue(digits), data, body)
  {
    hide HexValue, HexRun, DecodeData;
    var line := CRLF + data;
    HexRunIs(digits, line);
  }

  lemma DataDecodes(chunk: string, rest: string, body: string)
    requires chunk != ""
    ensures DecodeData(|chunk|, chunk + (CRLF + rest), body) == Decode(rest, body + chunk)
  {
  }

  /** One frame is one chunk of the body. */
  lemma FrameDecodes(chunk: string, rest: string, body: string)
    requires chunk != ""
    ensures Decode(Frame(chunk) + rest, body) == Decode(rest, body + chunk)
  {
    hide Hex, HexValue, Decode, DecodeData;
    var digits := Hex(|chunk|);
    HexIsValue(|chunk|);
    LengthDecodes(digits, chunk + (CRLF + rest), body);
    DataDecodes(chunk, rest, body);
    assert Frame(chunk) + rest == digits + (CRLF + (chunk + (CRLF + rest)));
  }

  lemma LastChunkDecodes(rest: string, body: string)
    ensures Decode("0\r\n\r\n" + rest, body) == Some(Decoded(body, rest))
  {
    hide Decode;
    LengthDecodes("0", CRLF + rest, body);
    assert "0\r\n\r\n" + rest == "0" + (CRLF + (CRLF + rest));
  }

  lemma {:induction false} FramesDecode(chunks: seq<string>, rest: string, body: string)
    requires NoneEmpty(chunks)
    ensures Decode(Frames(chunks) + rest, body) == Decode(rest, body + Flatten(chunks))
    decreases |chunks|
  {
    hide Frame, Decode;
    if chunks == [] {
      assert "" + rest == rest && body + "" == body;
    } else {
      var more := Frames(chunks[1..]) + rest;
      assert Frames(chunks) + rest == Frame(chunks[0]) + more;
      FrameDecodes(chunks[0], more, body);
      FramesDecode(chunks[1..], rest, body + chunks[0]);
      assert body + chunks[0] + Flatten(chunks[1..]) == body + Flatten(chunks);
    }
  }

  /** A client reads back the whole output and then the terminator, and stops at the end of the stream. */
  lemma StreamDecodes(chunks: seq<string>, exit: int, rest: string)
    requires NoneEmpty(chunks)
    ensures Decode(Stream(chunks, exit) + rest, "") == Some(Decoded(Flatten(chunks) + Terminator(exit), rest))
    ensures Terminator(exit) == if exit == -2 then "[timeout]\r\n" else "[exit=" + ToString(exit) + "]\r\n"
  {
    hide Frame, Decode, Frames, Flatten;
    var term := Terminator(exit);
    var last := "0\r\n\r\n" + rest;
    var frames, frame := Frames(chunks), Frame(term);
    assert frames + (frame + "0\r\n\r\n") + rest == frames + (frame + last);
    FramesDecode(chunks, Frame(term) + last, "");
    assert "" + Flatten(chunks) == Flatten(chunks);
    FrameDecodes(term, last, Flatten(chunks));
    LastChunkDecodes(rest, Flatten(chunks) + term);
  }

  /** More input after a complete body changes nothing but what is left over. */
  lemma {:induction false} DecodeExtends(text: string, more: string, body: string)
    requires Decode(text, body).Some?
    ensures var d := Decode(text, body).value;
            Decode(text + more, body) == Some(d.(rest := d.rest + more))
    decreases |text|
  {
    hide HexValue, HexRun, DecodeData;
    var k := HexRun(text);
    var digits, data := text[..k], text[k..][2..];
    assert text + more == digits + (CRLF + (data + more));
    LengthDecodes(digits, data + more, body);
    DataExtends(HexValue(digits), data, more, body);
  }

  lemma {:induction false} DataExtends(size: nat, data: string, more: string, body: string)
    requires DecodeData(size, data, body).Some?
    ensures var d := DecodeData(size, data, body).value;
            DecodeData(size, data + more, body) == Some(d.(rest := d.rest + more))
    decreases |data|
  {
    hide Decode;
    if size == 0 {
      assert (data + more)[2..] == data[2..] + more;
    } else {
      var after := data[size..];
      assert (data + more)[..size] == data[..size] && (data + more)[size..] == after + more;
      assert (after + more)[2..] == after[2..] + more;
      DecodeExtends(after[2..], more, body + data[..size]);
    }
  }

  /** A stream cut short is never taken for a complete one. */
  lemma NoEarlyEnd(chunks: seq<string>, exit: int, n: nat)
    requires NoneEmpty(chunks) && n < |Stream(chunks, exit)|
    ensures Decode(Stream(chunks, exit)[..n], "").None?
  {
    hide Decode, Stream, Flatten, Terminator;
    var s := Stream(chunks, exit);
    StreamDecodes(chunks, exit, "");
    assert s + "" == s && s == s[..n] + s[n..];
    if Decode(s[..n], "").Some? {
      DecodeExtends(s[..n], s[n..], "");
    }
  }

  // ---- Failed and short writes ----

  /** Each frame's write takes all of it or nothing. */
  predicate NoneShort(chunks: seq<string>, answers: seq<int>)
    requires |chunks| <= |answers|
  {
    forall i :: 0 <= i < |chunks| ==> answers[i] <= 0 || answers[i] >= |Frame(chunks[i])|
  }

  /** The frames written before the first failure. */
  function Before(chunks: seq<string>, answers: seq<int>): (k: nat)
    requires |chunks| <= |answers|
    ensures k <= |chunks| && (k == |chunks| <==> forall i :: 0 <= i < |chunks| ==> answers[i] > 0)
  {
    if chunks == [] || answers[0] <= 0 then 0 else 1 + Before(chunks[1..], answers[1..])
  }

  lemma {:induction false} OutputIs(chunks: seq<string>, answers: seq<int>)
    requires |chunks| <= |answers| && NoneShort(chunks, answers)
    ensures Output(chunks, answers) == Frames(chunks[..Before(chunks, answers)])
    decreases |chunks|
  {
    hide Frame;
    if chunks != [] && answers[0] > 0 {
      OutputIs(chunks[1..], answers[1..]);
      var k := Before(chunks, answers);
      assert chunks[..k][1..] == chunks[1..][..k - 1];
    }
  }

  lemma {:induction false} Shortened(chunks: seq<string>, k: nat)
    requires k <= |chunks| && NoneEmpty(chunks)
    ensures |Flatten(chunks[..k])| <= |Flatten(chunks)|
    ensures |Flatten(chunks[..k])| == |Flatten(chunks)| <==> k == |chunks|
    decreases k
  {
    if k == 0 {
    } else {
      Shortened(chunks[1..], k - 1);
      assert chunks[..k][1..] == chunks[1..][..k - 1];
    }
  }

  /**
   When no write is short, the client decodes the chunks before the first failed write as a complete body;
   it has the whole output exactly when none failed.
   */
  lemma FailureIsSilent(chunks: seq<string>, exit: int, answers: seq<int>, last: int, rest: string)
    requires |chunks| <= |answers| && NoneEmpty(chunks) && NoneShort(chunks, answers)
    requires last >= |Frame(Terminator(exit)) + "0\r\n\r\n"|
    ensures var sent := Decode(Sent(chunks, exit, answers, last) + rest, "");
      && sent == Some(Decoded(Flatten(chunks[..Before(chunks, answers)]) + Terminator(exit), rest))
      && (sent == Some(Decoded(Flatten(chunks) + Terminator(exit), rest)) <==>
            forall i :: 0 <= i < |chunks| ==> answers[i] > 0)
  {
    hide Frame, Frames, Decode, Flatten, Output, Terminator;
    var k := Before(chunks, answers);
    OutputIs(chunks, answers);
    StreamDecodes(chunks[..k], exit, rest);
    Shortened(chunks, k);
    var term := Terminator(exit);
    var front, whole := Flatten(chunks[..k]) + term, Flatten(chunks) + term;
    assert k < |chunks| ==> |front| < |whole|;
    assert chunks[..|chunks|] == chunks;
  }

  /** Nothing arrives, or a hexadecimal digit first. */
  predicate HexFirst(text: string) {
    text == "" || IsHex(text[0])
  }

  lemma SentHexFirst(chunks: seq<string>, exit: int, answers: seq<int>, last: int)
    requires |chunks| <= |answers|
    ensures HexFirst(Sent(chunks, exit, answers, last))
  {
    hide Terminator;
    if chunks != [] {
      assert IsHex(Frame(chunks[0])[0]);
    }
  }

  lemma FrameLong(chunk: string)
    ensures |Frame(chunk)| > 2
  {
    hide Hex;
  }

  /** A frame that lacks the end of its line, and what follows it. */
  lemma CutDecodes(chunk: string, n: nat, more: string, body: string)
    requires chunk != "" && HexFirst(more) && |Frame(chunk)| - 2 <= n < |Frame(chunk)|
    ensures Decode(Frame(chunk)[..n] + more, body).None?
  {
    hide Hex, HexValue, Decode;
    var digits, tail := Hex(|chunk|), Frame(chunk)[|Frame(chunk)| - 2..n] + more;
    HexIsValue(|chunk|);
    LengthDecodes(digits, chunk + tail, body);
    assert Frame(chunk)[..n] + more == digits + (CRLF + (chunk + tail));
    assert !StartsCrlf(tail);
  }

  /**
   A short write breaks the framing: when the first frame not written whole loses only bytes of its closing line
   end, no body can be decoded, whatever is written after it.
   */
  lemma {:induction false} ShortWriteBreaks(chunks: seq<string>, exit: int, answers: seq<int>, last: int, k: nat,
                                            body: string)
    requires |chunks| <= |answers| && NoneEmpty(chunks) && k < |chunks|
    requires forall i :: 0 <= i < k ==> answers[i] >= |Frame(chunks[i])|
    requires |Frame(chunks[k])| - 2 <= answers[k] < |Frame(chunks[k])|
    ensures Decode(Sent(chunks, exit, answers, last), body).None?
    decreases k
  {
    hide Frame, Decode, Terminator;
    FrameLong(chunks[0]);
    var more := Sent(chunks[1..], exit, answers[1..], last);
    if k == 0 {
      SentHexFirst(chunks[1..], exit, answers[1..], last);
      CutDecodes(chunks[0], answers[0], more, body);
      assert Sent(chunks, exit, answers, last) == Frame(chunks[0])[..answers[0]] + more;
    } else {
      FrameDecodes(chunks[0], more, body);
      ShortWriteBreaks(chunks[1..], exit, answers[1..], last, k - 1, body + chunks[0]);
      assert Sent(chunks, exit, answers, last) == Frame(chunks[0]) + more;
    }
  }
}
