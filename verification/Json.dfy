/**
 The configuration parser of src/json.cpp.

 Every parsing routine advances a cursor over the text.  The object and array
 loops have no exit on end of input, so the value parser can run for ever: it
 takes fuel here and answers `Diverged` when the fuel is spent.  `BoundsLoseNothing`
 shows that the fuel given to `ParseJson` loses nothing: if any amount of fuel
 yields a tree, this one yields the same tree.
 */
module Json {
  import opened Text

  /** Numbers keep their lexeme; converting it to a double is not part of the model. */
  datatype Json =
    | Null
    | Bool(b: bool)
    | Num(lexeme: string)
    | Str(s: string)
    | Arr(a: seq<Json>)
    | Obj(o: seq<(string, Json)>)

  /** The character a backslash escape stands for (an unknown escape stands for itself). */
  function Unescape(c: char): char {
    match c
    case 'b' => '\U{0008}'
    case 'f' => '\U{000C}'
    case 'n' => '\n'
    case 'r' => '\r'
    case 't' => '\t'
    case _ => c
  }

  /** Decoded string from `p` up to the closing quote, and where the scan stops. */
  function ScanStr(text: string, p: nat): (r: (string, nat))
    ensures p <= r.1 && (p <= |text| ==> r.1 <= |text|)
    ensures r.1 < |text| ==> text[r.1] == '"'
    decreases |text| - p
  {
    if p >= |text| || text[p] == '"' then ("", p)
    else if text[p] == '\\' then
      if p + 1 >= |text| then ("", p + 1)
      else
        var r := ScanStr(text, p + 2);
        ([Unescape(text[p + 1])] + r.0, r.1)
    else
      var r := ScanStr(text, p + 1);
      ([text[p]] + r.0, r.1)
  }

  /** parse_str: `p` is the opening quote. */
  function ParseStr(text: string, p: nat): (r: (string, nat))
    ensures p < r.1
  {
    var r := ScanStr(text, p + 1);
    (r.0, if r.1 < |text| then r.1 + 1 else r.1)
  }

  lemma ScanPass(text: string, q: nat)
    requires q < |text| && text[q] != '"'
    ensures text[q] != '\\' ==> ScanStr(text, q) == ([text[q]] + ScanStr(text, q + 1).0, ScanStr(text, q + 1).1)
    ensures text[q] == '\\' && q + 1 < |text| ==>
              ScanStr(text, q) == ([Unescape(text[q + 1])] + ScanStr(text, q + 2).0, ScanStr(text, q + 2).1)
    ensures text[q] == '\\' && q + 1 == |text| ==> ScanStr(text, q) == ("", q + 1)
  {
    hide Unescape;
  }

  lemma ScanEnds(text: string, q: nat)
    requires q >= |text| || text[q] == '"'
    ensures ScanStr(text, q) == ("", q)
  {
  }

  method ReadStr(text: string, p: nat) returns (s: string, q: nat)
    ensures s == ParseStr(text, p).0 && q == ParseStr(text, p).1
  {
    hide Unescape, ScanStr;
    q := p + 1;
    s := "";
    while q < |text| && text[q] != '"'
      invariant p + 1 <= q
      invariant ScanStr(text, p + 1).0 == s + ScanStr(text, q).0
      invariant ScanStr(text, p + 1).1 == ScanStr(text, q).1
      decreases |text| - q
    {
      ScanPass(text, q);
      if text[q] == '\\' {
        q := q + 1;
        if q >= |text| {
          ScanEnds(text, q);
          break;
        }
        Snoc(s, Unescape(text[q]), ScanStr(text, q + 1).0);
        s := s + [Unescape(text[q])];
      } else {
        Snoc(s, text[q], ScanStr(text, q + 1).0);
        s := s + [text[q]];
      }
      q := q + 1;
    }
    ScanEnds(text, q);
    if q < |text| {
      q := q + 1;
    }
  }

  function DigitsEnd(text: string, p: nat): (q: nat)
    ensures p <= q && (p <= |text| ==> q <= |text|)
  {
    RunEnd(Digit, text, p)
  }

  function FractionEnd(text: string, p: nat): (q: nat)
    ensures p <= q && (p <= |text| ==> q <= |text|)
  {
    if p < |text| && text[p] == '.' then DigitsEnd(text, p + 1) else p
  }

  function ExponentEnd(text: string, p: nat): (q: nat)
    ensures p <= q && (p <= |text| ==> q <= |text|)
  {
    if p < |text| && (text[p] == 'e' || text[p] == 'E') then
      DigitsEnd(text, if p + 1 < |text| && (text[p + 1] == '+' || text[p + 1] == '-') then p + 2 else p + 1)
    else p
  }

  /** End of the optional sign and the digits after it. */
  function IntegerEnd(text: string, p: nat): (q: nat)
    ensures p <= q && (p <= |text| ==> q <= |text|)
  {
    DigitsEnd(text, if p < |text| && text[p] == '-' then p + 1 else p)
  }

  function NumEnd(text: string, p: nat): (q: nat)
    ensures p <= q && (p <= |text| ==> q <= |text|)
  {
    ExponentEnd(text, FractionEnd(text, IntegerEnd(text, p)))
  }

  /** parse_num, up to the conversion of the lexeme. */
  method ReadNum(text: string, p: nat) returns (lexeme: string, q: nat)
    requires p < |text|
    ensures q == NumEnd(text, p) && lexeme == text[p..q]
  {
    hide RunEnd;
    q := p;
    if text[q] == '-' {
      q := q + 1;
    }
    q := SkipRun(Digit, text, q);
    assert q == IntegerEnd(text, p);
    if q < |text| && text[q] == '.' {
      q := SkipRun(Digit, text, q + 1);
    }
    assert q == FractionEnd(text, IntegerEnd(text, p));
    if q < |text| && (text[q] == 'e' || text[q] == 'E') {
      q := q + 1;
      if q < |text| && (text[q] == '+' || text[q] == '-') {
        q := q + 1;
      }
      q := SkipRun(Digit, text, q);
    }
    lexeme := text[p..q];
  }

  /** What a parsing routine leaves: a value and the new cursor, or no answer within the bounds. */
  datatype Read<+T> = Diverged | Parsed(v: T, p: nat)

  type Member = (string, Json)

  predicate NumStart(c: char) {
    c == '-' || Digit.Has(c)
  }

  function Skip(text: string, p: nat): (q: nat)
    ensures p <= q
  {
    RunEnd(Blank, text, p)
  }

  /** How a pass through a container loop ends. */
  datatype Pass = Closed(p: nat) | Again(p: nat)

  /** The end of a pass: a comma is stepped over when present, `close` ends the container. */
  function EndPass(text: string, close: char, p: nat): (r: Pass)
    ensures p <= r.p
  {
    var f := Skip(text, p);
    if f < |text| && text[f] == ',' then Again(f + 1)
    else if f < |text| && text[f] == close then Closed(f + 1)
    else Again(f)
  }

  /**
   The loop of parse_obj and of parse_arr, entered with the elements `acc`
   already collected: `elem` reads one element at a cursor and `passes` bounds
   the iterations.
   */
  function Loop<T>(text: string, close: char, p: nat, acc: seq<T>, elem: nat -> Read<T>, passes: nat): Read<seq<T>>
    decreases passes
  {
    if passes == 0 then Diverged
    else
      match elem(p)
      case Diverged => Diverged
      case Parsed(v, e) =>
        match EndPass(text, close, e)
        case Closed(q) => Parsed(acc + [v], q)
        case Again(q) => Loop(text, close, q, acc + [v], elem, passes - 1)
  }

  /** One pass of the loop. */
  lemma LoopPass<T>(text: string, close: char, p: nat, acc: seq<T>, elem: nat -> Read<T>, passes: nat, v: T, e: nat)
    requires passes > 0 && elem(p) == Parsed(v, e)
    ensures Loop(text, close, p, acc, elem, passes)
         == match EndPass(text, close, e)
            case Closed(q) => Parsed(acc + [v], q)
            case Again(q) => Loop(text, close, q, acc + [v], elem, passes - 1)
  {
  }

  function AsObj(r: Read<seq<Member>>): Read<Json> {
    if r.Diverged? then Diverged else Parsed(Obj(r.v), r.p)
  }

  function AsArr(r: Read<seq<Json>>): Read<Json> {
    if r.Diverged? then Diverged else Parsed(Arr(r.v), r.p)
  }

  /** parse_val on a character that opens neither a string nor a container. */
  function ParseScalar(text: string, q: nat): (r: Read<Json>)
    requires q < |text|
    ensures r.Parsed? && q <= r.p
  {
    if At(text, q, "true") then Parsed(Bool(true), q + 4)
    else if At(text, q, "false") then Parsed(Bool(false), q + 5)
    else if At(text, q, "null") then Parsed(Null, q + 4)
    else if NumStart(text[q]) then Parsed(Num(text[q..NumEnd(text, q)]), NumEnd(text, q))
    else Parsed(Null, q)
  }

  function MemberKey(text: string, p: nat): (r: (string, nat))
    ensures p < r.1
  {
    ParseStr(text, Skip(text, p))
  }

  /** Where the value of the member starting at `p` is read: one character, the colon, is stepped over. */
  function MemberValueAt(text: string, p: nat): (q: nat)
    ensures p < q
  {
    var c := Skip(text, MemberKey(text, p).1);
    if c < |text| then c + 1 else c
  }

  /** parse_val, for texts nested at most `depth` deep and containers of at most `passes` passes. */
  function ParseVal(text: string, p: nat, depth: nat, passes: nat): Read<Json>
    decreases depth, 0
  {
    var q := Skip(text, p);
    if depth == 0 then Diverged
    else if q >= |text| then Parsed(Null, q)
    else if text[q] == '"' then
      var s := ParseStr(text, q);
      Parsed(Str(s.0), s.1)
    else if text[q] == '{' then
      var r := Skip(text, q + 1);
      if r < |text| && text[r] == '}' then Parsed(Obj([]), r + 1)
      else AsObj(Loop(text, '}', r, [], Members(text, depth - 1, passes), passes))
    else if text[q] == '[' then
      var r := Skip(text, q + 1);
      if r < |text| && text[r] == ']' then Parsed(Arr([]), r + 1)
      else AsArr(Loop(text, ']', r, [], Values(text, depth - 1, passes), passes))
    else ParseScalar(text, q)
  }

  function ParseMember(text: string, p: nat, depth: nat, passes: nat): Read<Member>
    decreases depth, 1
  {
    match ParseVal(text, MemberValueAt(text, p), depth, passes)
    case Diverged => Diverged
    case Parsed(v, e) => Parsed((MemberKey(text, p).0, v), e)
  }

  function Values(text: string, depth: nat, passes: nat): nat -> Read<Json>
    decreases depth, 2
  {
    (q: nat) => ParseVal(text, q, depth, passes)
  }

  function Members(text: string, depth: nat, passes: nat): nat -> Read<Member>
    decreases depth, 2
  {
    (q: nat) => ParseMember(text, q, depth, passes)
  }

  /** parse_json: the tree, or None when the parser never returns (see `BoundsLoseNothing`). */
  function ParseJson(text: string): Option<Json> {
    match ParseVal(text, 0, |text| + 1, |text| + 1)
    case Diverged => None
    case Parsed(v, _) => Some(v)
  }

  // ---- Termination: the bounds lose nothing ----

  /** Characters left after the cursor. */
  function Rem(text: string, p: nat): nat {
    if p < |text| then |text| - p else 0
  }

  /** A pass that neither advances nor meets a closing character repeats for ever. */
  lemma {:induction false} LoopStuck<T>(text: string, close: char, p: nat, acc: seq<T>,
                                        elem: nat -> Read<T>, passes: nat)
    requires elem(p).Parsed? && EndPass(text, close, elem(p).p) == Again(p)
    ensures Loop(text, close, p, acc, elem, passes).Diverged?
    decreases passes
  {
    if passes > 0 {
      LoopStuck(text, close, p, acc + [elem(p).v], elem, passes - 1);
    }
  }

  ghost predicate Advances<T>(elem: nat -> Read<T>, from: nat) {
    forall q: nat :: q >= from && elem(q).Parsed? ==> elem(q).p >= q
  }

  /** Past the end of the text a container loop never ends. */
  lemma {:induction false} LoopAtEof<T>(text: string, close: char, p: nat, acc: seq<T>,
                                        elem: nat -> Read<T>, passes: nat)
    requires p >= |text| && Advances(elem, p)
    ensures Loop(text, close, p, acc, elem, passes).Diverged?
    decreases passes
  {
    if passes > 0 && elem(p).Parsed? {
      var q := EndPass(text, close, elem(p).p).p;
      LoopAtEof(text, close, q, acc + [elem(p).v], elem, passes - 1);
    }
  }

  ghost predicate Extends<T>(elem: nat -> Read<T>, elem': nat -> Read<T>, from: nat) {
    forall q: nat :: q >= from && elem(q).Parsed? ==> elem'(q) == elem(q)
  }

  /** A loop that ends, ends within one pass per remaining character. */
  lemma {:induction false} LoopEnough<T>(text: string, close: char, p: nat, acc: seq<T>, elem: nat -> Read<T>, n: nat,
                                         elem': nat -> Read<T>, n': nat)
    requires Loop(text, close, p, acc, elem, n).Parsed? && Advances(elem, p) && Extends(elem, elem', p)
    requires n' > Rem(text, p)
    ensures Loop(text, close, p, acc, elem', n') == Loop(text, close, p, acc, elem, n)
    ensures Loop(text, close, p, acc, elem, n).p >= p
    decreases n
  {
    var pass := EndPass(text, close, elem(p).p);
    if pass.Again? {
      if p >= |text| {
        LoopAtEof(text, close, p, acc, elem, n);
      } else if pass.p == p {
        LoopStuck(text, close, p, acc, elem, n);
      } else {
        LoopEnough(text, close, pass.p, acc + [elem(p).v], elem, n - 1, elem', n' - 1);
      }
    }
  }

  /**
   If parse_val returns at all, it returns the same answer within one level of
   nesting, and one pass per container, for each remaining character.
   */
  lemma {:induction false} BoundsLoseNothing(text: string, p: nat, d: nat, n: nat, d': nat, n': nat)
    requires ParseVal(text, p, d, n).Parsed?
    requires d' > Rem(text, p) && n' > Rem(text, p)
    ensures ParseVal(text, p, d', n') == ParseVal(text, p, d, n)
    ensures ParseVal(text, p, d, n).p >= p
    decreases d
  {
    hide Loop, ParseMember, Members, Values, Advances, Extends, ScanStr, ParseScalar, RunEnd;
    var q := Skip(text, p);
    if q < |text| && (text[q] == '{' || text[q] == '[') {
      var r, c, c' := Skip(text, q + 1), d - 1, d' - 1;
      forall e: nat | e >= r && ParseVal(text, e, c, n).Parsed?
        ensures ParseVal(text, e, c', n') == ParseVal(text, e, c, n) && ParseVal(text, e, c, n).p >= e
      {
        BoundsLoseNothing(text, e, c, n, c', n');
      }
      if text[q] == '{' && !(r < |text| && text[r] == '}') {
        MembersExtend(text, r, c, n, c', n');
        LoopEnough(text, '}', r, [], Members(text, c, n), n, Members(text, c', n'), n');
      } else if text[q] == '[' && !(r < |text| && text[r] == ']') {
        ValuesExtend(text, r, c, n, c', n');
        LoopEnough(text, ']', r, [], Values(text, c, n), n, Values(text, c', n'), n');
      }
    }
  }

  lemma ValuesExtend(text: string, from: nat, d: nat, n: nat, d': nat, n': nat)
    requires forall e: nat :: e >= from && ParseVal(text, e, d, n).Parsed? ==>
               ParseVal(text, e, d', n') == ParseVal(text, e, d, n) && ParseVal(text, e, d, n).p >= e
    ensures Advances(Values(text, d, n), from) && Extends(Values(text, d, n), Values(text, d', n'), from)
  {
    hide ParseVal;
  }

  lemma MembersExtend(text: string, from: nat, d: nat, n: nat, d': nat, n': nat)
    requires forall e: nat :: e >= from && ParseVal(text, e, d, n).Parsed? ==>
               ParseVal(text, e, d', n') == ParseVal(text, e, d, n) && ParseVal(text, e, d, n).p >= e
    ensures Advances(Members(text, d, n), from) && Extends(Members(text, d, n), Members(text, d', n'), from)
  {
    hide ParseVal, MemberKey;
    forall q: nat | q >= from && Members(text, d, n)(q).Parsed?
      ensures Members(text, d', n')(q) == Members(text, d, n)(q) && Members(text, d, n)(q).p >= q
    {
      assert Members(text, d, n)(q) == ParseMember(text, q, d, n);
      var e := MemberValueAt(text, q);
      assert ParseVal(text, e, d, n).Parsed?;
    }
  }

  /** parse_json returns a tree exactly when some bounds are enough for it, and then it is that tree. */
  lemma ParseJsonComplete(text: string, d: nat, n: nat)
    ensures ParseVal(text, 0, d, n).Parsed? ==> ParseJson(text) == Some(ParseVal(text, 0, d, n).v)
    ensures ParseJson(text) == None ==> ParseVal(text, 0, d, n).Diverged?
  {
    if ParseVal(text, 0, d, n).Parsed? {
      BoundsLoseNothing(text, 0, d, n, |text| + 1, |text| + 1);
    }
  }

  // ---- The routines as the source writes them: a moving cursor and growing containers ----

  method ReadVal(text: string, p: nat, depth: nat, passes: nat) returns (r: Read<Json>)
    ensures r == ParseVal(text, p, depth, passes)
    decreases depth, 1
  {
    if depth == 0 {
      return Diverged;
    }
    var q := SkipRun(Blank, text, p);
    if q >= |text| {
      return Parsed(Null, q);
    }
    if text[q] == '"' {
      var s, e := ReadStr(text, q);
      return Parsed(Str(s), e);
    }
    if text[q] == '{' {
      r := ReadObj(text, q, depth, passes);
      return;
    }
    if text[q] == '[' {
      r := ReadArr(text, q, depth, passes);
      return;
    }
    r := ReadScalar(text, q);
  }

  method ReadScalar(text: string, q: nat) returns (r: Read<Json>)
    requires q < |text|
    ensures r == ParseScalar(text, q)
  {
    if At(text, q, "true") {
      return Parsed(Bool(true), q + 4);
    }
    if At(text, q, "false") {
      return Parsed(Bool(false), q + 5);
    }
    if At(text, q, "null") {
      return Parsed(Null, q + 4);
    }
    if NumStart(text[q]) {
      var lexeme, e := ReadNum(text, q);
      return Parsed(Num(lexeme), e);
    }
    return Parsed(Null, q);
  }

  /** The key and the value of the member at `p`. */
  method ReadMember(text: string, p: nat, depth: nat, passes: nat) returns (r: Read<Member>)
    ensures r == Members(text, depth, passes)(p)
    decreases depth, 2
  {
    var q: nat := SkipRun(Blank, text, p);
    var k;
    k, q := ReadStr(text, q);
    q := SkipRun(Blank, text, q);
    if q < |text| {
      q := q + 1;
    }
    var v := ReadVal(text, q, depth, passes);
    r := if v.Diverged? then Diverged else Parsed((k, v.v), v.p);
  }

  method ReadItem(text: string, p: nat, depth: nat, passes: nat) returns (r: Read<Json>)
    ensures r == Values(text, depth, passes)(p)
    decreases depth, 2
  {
    r := ReadVal(text, p, depth, passes);
  }

  /** parse_obj: `p` is the opening brace. */
  method ReadObj(text: string, p: nat, depth: nat, passes: nat) returns (r: Read<Json>)
    requires depth > 0
    ensures var q := Skip(text, p + 1);
            r == if q < |text| && text[q] == '}' then Parsed(Obj([]), q + 1)
                 else AsObj(Loop(text, '}', q, [], Members(text, depth - 1, passes), passes))
    decreases depth, 0
  {
    hide ParseVal, Values, Members, ParseMember;
    var q: nat := SkipRun(Blank, text, p + 1);
    if q < |text| && text[q] == '}' {
      return Parsed(Obj([]), q + 1);
    }
    ghost var start, mems := q, Members(text, depth - 1, passes);
    var o, left := [], passes;
    while left > 0
      invariant Loop(text, '}', q, o, mems, left) == Loop(text, '}', start, [], mems, passes)
    {
      var m := ReadMember(text, q, depth - 1, passes);
      if m.Diverged? {
        return Diverged;
      }
      var pass := EndPass(text, '}', m.p);
      o := o + [m.v];
      if pass.Closed? {
        return Parsed(Obj(o), pass.p);
      }
      q, left := pass.p, left - 1;
    }
    r := Diverged;
  }

  /** parse_arr: `p` is the opening bracket. */
  method ReadArr(text: string, p: nat, depth: nat, passes: nat) returns (r: Read<Json>)
    requires depth > 0
    ensures var q := Skip(text, p + 1);
            r == if q < |text| && text[q] == ']' then Parsed(Arr([]), q + 1)
                 else AsArr(Loop(text, ']', q, [], Values(text, depth - 1, passes), passes))
    decreases depth, 0
  {
    hide ParseVal, Values, Members, ParseMember;
    var q: nat := SkipRun(Blank, text, p + 1);
    if q < |text| && text[q] == ']' {
      return Parsed(Arr([]), q + 1);
    }
    ghost var start, vals := q, Values(text, depth - 1, passes);
    var a, left := [], passes;
    while left > 0
      invariant Loop(text, ']', q, a, vals, left) == Loop(text, ']', start, [], vals, passes)
    {
      var v := ReadItem(text, q, depth - 1, passes);
      if v.Diverged? {
        return Diverged;
      }
      var pass := EndPass(text, ']', v.p);
      a := a + [v.v];
      if pass.Closed? {
        return Parsed(Arr(a), pass.p);
      }
      q, left := pass.p, left - 1;
    }
    r := Diverged;
  }
}
