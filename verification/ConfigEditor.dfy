/**
 The in-place editor of src/config.cpp, as a function from text to text.

 `updateRefreshSecondsInFile` never builds a tree: it scans the characters twice,
 once for the entry whose "listen" value is the given address and once inside
 that entry for "refresh_seconds", and then splices the new number in.  Reading
 and writing the file are left to the caller; None stands for a refused edit.
 */
module ConfigEditor {
  import opened Text
  import opened Json

  /** The quote that ends a string body starting at `i`, or a position past the end. */
  function StrStop(text: string, i: nat): (q: nat)
    ensures i <= q
    decreases |text| - i
  {
    if i >= |text| || text[i] == '"' then i
    else if text[i] == '\\' then StrStop(text, i + 2)
    else StrStop(text, i + 1)
  }

  function SkipString(text: string, pos: nat): (q: nat)
    ensures pos < |text| ==> pos < q <= |text|
  {
    var q := StrStop(text, pos + 1);
    if q < |text| then q + 1 else |text|
  }

  method SkipJsonString(s: string, pos: nat) returns (r: nat)
    ensures r == SkipString(s, pos)
  {
    var i := pos + 1;
    while i < |s|
      invariant pos + 1 <= i
      invariant StrStop(s, i) == StrStop(s, pos + 1)
      decreases |s| - i
    {
      if s[i] == '\\' {
        i := i + 2;
        continue;
      }
      if s[i] == '"' {
        return i + 1;
      }
      i := i + 1;
    }
    r := |s|;
  }

  lemma {:induction false} StopsAlike(text: string, p: nat)
    ensures ScanStr(text, p).1 < |text| || StrStop(text, p) < |text| ==> ScanStr(text, p).1 == StrStop(text, p)
    decreases |text| - p
  {
    if p < |text| && text[p] != '"' {
      if text[p] == '\\' {
        if p + 1 < |text| {
          StopsAlike(text, p + 2);
        }
      } else {
        StopsAlike(text, p + 1);
      }
    }
  }

  /** The editor and the parser end a string at the same position, exactly when it starts inside the text. */
  lemma SameStringEnd(text: string, pos: nat)
    ensures SkipString(text, pos) == ParseStr(text, pos).1 <==> pos < |text|
  {
    StopsAlike(text, pos + 1);
  }

  /** The characters between the quotes of the string at `i` that ends at `after`. */
  function Token(text: string, i: nat, after: nat): string
    requires i < after <= |text|
  {
    if i + 2 <= after then text[i + 1..after - 1] else ""
  }

  /** A key that ends at `after` is followed by a colon and the string `addr`. */
  predicate HasValue(text: string, after: nat, addr: string) {
    var c := RunEnd(Space, text, after);
    && c < |text| && text[c] == ':'
    && var v := RunEnd(Space, text, c + 1);
       && v < |text| && text[v] == '"'
       && var e := StrStop(text, v + 1);
          e < |text| && text[v + 1..e] == addr
  }

  method ReadsValue(text: string, after: nat, addr: string) returns (r: bool)
    ensures r == HasValue(text, after, addr)
  {
    var p := SkipRun(Space, text, after);
    if !(p < |text| && text[p] == ':') {
      return false;
    }
    p := SkipRun(Space, text, p + 1);
    if !(p < |text| && text[p] == '"') {
      return false;
    }
    var e := p + 1;
    while e < |text| && text[e] != '"'
      invariant p + 1 <= e
      invariant StrStop(text, e) == StrStop(text, p + 1)
      decreases |text| - e
    {
      e := if text[e] == '\\' then e + 2 else e + 1;
    }
    r := e < |text| && text[p + 1..e] == addr;
  }

  /**
   First pass, from `i` with `depth` objects open and the last depth-2 brace at
   `open`: the brace of the entry that listens on `addr`.
   */
  function FindEntry(text: string, i: nat, depth: nat, open: Option<nat>, addr: string): Option<nat>
    decreases |text| - i
  {
    if i >= |text| then None
    else if text[i] == '"' then
      var after := SkipString(text, i);
      if Token(text, i, after) == "listen" && depth == 2 && open.Some? && HasValue(text, after, addr) then open
      else FindEntry(text, after, depth, open, addr)
    else if text[i] == '{' then
      FindEntry(text, i + 1, depth + 1, if depth + 1 == 2 then Some(i) else open, addr)
    else if text[i] == '}' then
      FindEntry(text, i + 1, if depth > 0 then depth - 1 else 0, open, addr)
    else FindEntry(text, i + 1, depth, open, addr)
  }

  method LocateEntry(text: string, addr: string) returns (r: Option<nat>)
    ensures r == FindEntry(text, 0, 0, None, addr)
  {
    hide HasValue, Token, SkipString;
    var i, depth: nat, open: Option<nat> := 0, 0, None;
    while i < |text|
      invariant FindEntry(text, i, depth, open, addr) == FindEntry(text, 0, 0, None, addr)
      decreases |text| - i
    {
      var c := text[i];
      if c == '"' {
        var after := SkipJsonString(text, i);
        if Token(text, i, after) == "listen" && depth == 2 && open.Some? {
          var found := ReadsValue(text, after, addr);
          if found {
            return open;
          }
        }
        i := after;
      } else if c == '{' {
        depth := depth + 1;
        if depth == 2 {
          open := Some(i);
        }
        i := i + 1;
      } else if c == '}' {
        if depth > 0 {
          depth := depth - 1;
        }
        i := i + 1;
      } else {
        i := i + 1;
      }
    }
    r := None;
  }

  /** What the second pass stops at: the key, the closing brace of the entry, or the end of the text. */
  datatype Spot = Key(pos: nat) | Close(pos: nat) | Nothing

  const REFRESH := "refresh_seconds"
  const QUOTED_KEY := "\"" + (REFRESH + "\"")

  /** Second pass, from `j` with `depth` objects open inside and including the entry. */
  function FindRefresh(text: string, j: nat, depth: nat): (r: Spot)
    requires depth > 0
    ensures !r.Nothing? ==> j <= r.pos < |text|
    ensures r.Close? ==> text[r.pos] == '}'
    decreases |text| - j
  {
    if j >= |text| then Nothing
    else if text[j] == '"' then
      if depth == 1 && At(text, j, QUOTED_KEY) then Key(j)
      else FindRefresh(text, SkipString(text, j), depth)
    else if text[j] == '{' then FindRefresh(text, j + 1, depth + 1)
    else if text[j] == '}' then
      if depth == 1 then Close(j) else FindRefresh(text, j + 1, depth - 1)
    else FindRefresh(text, j + 1, depth)
  }

  method LocateRefresh(text: string, start: nat) returns (r: Spot)
    ensures r == FindRefresh(text, start, 1)
  {
    hide SkipString, At;
    var j, depth: nat := start, 1;
    while j < |text|
      invariant depth > 0
      invariant FindRefresh(text, j, depth) == FindRefresh(text, start, 1)
      decreases |text| - j
    {
      var c := text[j];
      if c == '"' {
        if depth == 1 && At(text, j, QUOTED_KEY) {
          return Key(j);
        }
        j := SkipJsonString(text, j);
      } else if c == '{' {
        depth, j := depth + 1, j + 1;
      } else if c == '}' {
        depth := depth - 1;
        if depth == 0 {
          return Close(j);
        }
        j := j + 1;
      } else {
        j := j + 1;
      }
    }
    r := Nothing;
  }

  /** Start of the line that holds position `p`. */
  function LineStart(text: string, p: nat): (r: nat)
    requires p < |text|
    ensures r <= p + 1
  {
    if text[p] == '\n' then p + 1 else if p == 0 then 0 else LineStart(text, p - 1)
  }

  /** End of the spaces and tabs from `i` on, not going past `limit`. */
  function IndentEnd(text: string, i: nat, limit: nat): (r: nat)
    requires limit <= |text|
    ensures i <= r && (i <= limit ==> r <= limit)
    ensures forall k :: i <= k < r ==> k < |text| && (text[k] == ' ' || text[k] == '\t')
    decreases limit - i
  {
    if i < limit && (text[i] == ' ' || text[i] == '\t') then IndentEnd(text, i + 1, limit) else i
  }

  /** Indentation of the line that holds the closing brace at `p`. */
  function Indent(text: string, p: nat): (r: string)
    requires p < |text| && text[p] == '}'
    ensures All(Blank, r)
  {
    var s := LineStart(text, p);
    text[s..IndentEnd(text, s, p)]
  }

  predicate Indents(s: string) {
    forall i :: 0 <= i < |s| ==> s[i] == ' ' || s[i] == '\t'
  }

  lemma {:induction false} LineStartIs(text: string, line: string, q: nat)
    requires |line| <= q + 1 <= |text| && line <= text && (line != "" ==> line[|line| - 1] == '\n')
    requires forall k :: |line| <= k <= q ==> text[k] != '\n'
    ensures LineStart(text, q) == |line|
    decreases q
  {
    if q + 1 > |line| && q > 0 {
      LineStartIs(text, line, q - 1);
    }
  }

  lemma {:induction false} IndentEndIs(text: string, i: nat, limit: nat, q: nat)
    requires i <= q <= limit <= |text| && Indents(text[i..q])
    requires q < limit ==> text[q] != ' ' && text[q] != '\t'
    ensures IndentEnd(text, i, limit) == q
    decreases q - i
  {
    if i < q {
      assert text[i..q][0] == text[i];
      assert text[i + 1..q] == text[i..q][1..];
      IndentEndIs(text, i + 1, limit, q);
    }
  }

  /** The indentation is the blank beginning of the line the brace is on, up to the brace. */
  lemma IndentIs(line: string, pad: string, more: string, rest: string)
    requires line != "" ==> line[|line| - 1] == '\n'
    requires Indents(pad) && (more != "" ==> more[0] != ' ' && more[0] != '\t') && '\n' !in more
    ensures var text, p := line + (pad + (more + ("}" + rest))), |line| + |pad| + |more|;
            text[p] == '}' && Indent(text, p) == pad
  {
    hide LineStart, IndentEnd;
    var text, p := line + (pad + (more + ("}" + rest))), |line| + |pad| + |more|;
    assert text[..p] == line + pad + more;
    assert text[|line|..|line| + |pad|] == pad;
    LineStartIs(text, line, p);
    IndentEndIs(text, |line|, p, |line| + |pad|);
  }

  method ReadIndent(text: string, p: nat) returns (r: string)
    requires p < |text| && text[p] == '}'
    ensures r == Indent(text, p)
  {
    var s: nat := p + 1;
    while s > 0 && text[s - 1] != '\n'
      invariant s <= p + 1
      invariant (if s == 0 then 0 else LineStart(text, s - 1)) == LineStart(text, p)
    {
      s := s - 1;
    }
    var e := s;
    while e < p && (text[e] == ' ' || text[e] == '\t')
      invariant s <= e && IndentEnd(text, e, p) == IndentEnd(text, s, p)
      invariant e <= |text|
    {
      e := e + 1;
    }
    r := text[s..e];
  }

  function Addition(indent: string, val: string): string {
    indent + (QUOTED_KEY + (": " + (val + "\n")))
  }

  function Splice(text: string, from: nat, to: nat, s: string): string
    requires from <= to <= |text|
  {
    text[..from] + s + text[to..]
  }

  /** The whole edit: the new text, or None when the source reports failure. */
  function Edit(text: string, addr: string, secs: int): Option<string> {
    match FindEntry(text, 0, 0, None, addr)
    case None => None
    case Some(open) => EditEntry(text, FindRefresh(text, open + 1, 1), ToString(secs))
  }

  function EditEntry(text: string, spot: Spot, val: string): Option<string>
    requires spot.Close? ==> spot.pos < |text| && text[spot.pos] == '}'
  {
    match spot
    case Nothing => None
    case Close(p) => Some(Splice(text, p, p, Addition(Indent(text, p), val)))
    case Key(k) =>
      match Find(text, ':', k)
      case None => None
      case Some(colon) =>
        var vs := RunEnd(Space, text, colon + 1);
        var ve := IntegerEnd(text, vs);
        if ve == vs then None else Some(Splice(text, vs, ve, val))
  }

  method UpdateRefreshSeconds(text: string, addr: string, secs: int) returns (r: Option<string>)
    ensures r == Edit(text, addr, secs)
  {
    hide FindEntry, FindRefresh, RunEnd, Find, ToString;
    var open := LocateEntry(text, addr);
    if open.None? {
      return None;
    }
    var spot := LocateRefresh(text, open.value + 1);
    var val := ToString(secs);
    match spot {
      case Key(k) =>
        var colon := FindChar(text, ':', k);
        if colon.None? {
          return None;
        }
        var vs := SkipRun(Space, text, colon.value + 1);
        var ve := vs;
        if ve < |text| && text[ve] == '-' {
          ve := ve + 1;
        }
        ve := SkipRun(Digit, text, ve);
        if ve == vs {
          return None;
        }
        r := Some(text[..vs] + val + text[ve..]);
      case Close(p) =>
        var indent := ReadIndent(text, p);
        r := Some(text[..p] + Addition(indent, val) + text[p..]);
      case Nothing =>
        r := None;
    }
  }
}
