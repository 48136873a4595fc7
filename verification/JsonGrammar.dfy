/**
 Well-formed configuration texts and what src/json.cpp makes of them.

 A text is described by its concrete syntax tree: every blank, every escape and
 every comma is kept, so that `Show` gives the text back character by character.
 Commas between elements are optional, as the parser allows.
 */
module JsonGrammar {
  import opened Text
  import opened Json

  datatype Value =
    | VNull
    | VBool(b: bool)
    | VNum(lexeme: string)
    | VStr(raw: string)
    | VArr(pad: string, items: Items)
    | VObj(pad: string, fields: Fields)

  datatype Items =
    | NoItem
    | Item(lead: string, v: Value, trail: string, comma: bool, rest: Items)

  datatype Fields =
    | NoField
    | Field(lead: string, key: string, pre: string, post: string, v: Value, trail: string, comma: bool, rest: Fields)

  // ---- Text of a tree ----

  function Quoted(raw: string): string {
    "\"" + (raw + "\"")
  }

  function Sep(comma: bool): string {
    if comma then "," else ""
  }

  function Show(v: Value): string {
    match v
    case VNull => "null"
    case VBool(b) => if b then "true" else "false"
    case VNum(lexeme) => lexeme
    case VStr(raw) => Quoted(raw)
    case VArr(pad, items) => "[" + (pad + (ShowItems(items) + "]"))
    case VObj(pad, fields) => "{" + (pad + (ShowFields(fields) + "}"))
  }

  function ShowItems(items: Items): string {
    match items
    case NoItem => ""
    case Item(lead, v, trail, comma, rest) => lead + (Show(v) + (trail + (Sep(comma) + ShowItems(rest))))
  }

  /** A field up to its value. */
  function ShowKey(lead: string, key: string, pre: string, post: string): string {
    lead + (Quoted(key) + (pre + (":" + post)))
  }

  function ShowFields(fields: Fields): string {
    match fields
    case NoField => ""
    case Field(lead, key, pre, post, v, trail, comma, rest) =>
      ShowKey(lead, key, pre, post) + (Show(v) + (trail + (Sep(comma) + ShowFields(rest))))
  }

  // ---- Well-formed trees ----

  /** A string body: no bare quote, no dangling backslash. */
  predicate RawOk(raw: string) {
    raw == "" ||
    if raw[0] == '"' then false
    else if raw[0] == '\\' then |raw| >= 2 && RawOk(raw[2..])
    else RawOk(raw[1..])
  }

  predicate NumBody(c: char) {
    Digit.Has(c) || c == '.' || c == 'e' || c == 'E' || c == '+' || c == '-'
  }

  /** A number as the number scanner delimits it. */
  predicate WfNum(lexeme: string) {
    lexeme != "" && NumStart(lexeme[0]) && NumEnd(lexeme, 0) == |lexeme|
  }

  /** A number can end where `s` begins. */
  predicate Delimits(s: string) {
    s != "" && !NumBody(s[0])
  }

  predicate WfValue(v: Value) {
    match v
    case VNull => true
    case VBool(_) => true
    case VNum(lexeme) => WfNum(lexeme)
    case VStr(raw) => RawOk(raw)
    case VArr(pad, items) => All(Blank, pad) && WfItems(items)
    case VObj(pad, fields) => All(Blank, pad) && WfFields(fields)
  }

  predicate WfItems(items: Items) {
    match items
    case NoItem => true
    case Item(lead, v, trail, comma, rest) =>
      && All(Blank, lead) && WfValue(v) && All(Blank, trail) && WfItems(rest)
      && (rest.NoItem? ==> !comma)
      && (v.VNum? && trail == "" && !comma ==> Delimits(ShowItems(rest) + "]"))
  }

  predicate WfFields(fields: Fields) {
    match fields
    case NoField => true
    case Field(lead, key, pre, post, v, trail, comma, rest) =>
      && All(Blank, lead) && RawOk(key) && All(Blank, pre) && All(Blank, post)
      && WfValue(v) && All(Blank, trail) && WfFields(rest)
      && (rest.NoField? ==> !comma)
  }

  // ---- Meaning of a tree ----

  function Decode(raw: string): string
    requires RawOk(raw)
  {
    if raw == "" then ""
    else if raw[0] == '\\' then [Unescape(raw[1])] + Decode(raw[2..])
    else [raw[0]] + Decode(raw[1..])
  }

  function Meaning(v: Value): Json
    requires WfValue(v)
  {
    match v
    case VNull => Null
    case VBool(b) => Bool(b)
    case VNum(lexeme) => Num(lexeme)
    case VStr(raw) => Str(Decode(raw))
    case VArr(_, items) => Arr(ItemsMeaning(items))
    case VObj(_, fields) => Obj(FieldsMeaning(fields))
  }

  function ItemsMeaning(items: Items): seq<Json>
    requires WfItems(items)
  {
    if items.NoItem? then [] else [Meaning(items.v)] + ItemsMeaning(items.rest)
  }

  function FieldsMeaning(fields: Fields): seq<Member>
    requires WfFields(fields)
  {
    if fields.NoField? then [] else [(Decode(fields.key), Meaning(fields.v))] + FieldsMeaning(fields.rest)
  }

  /** Nesting levels and container passes the parser needs at most. */
  function Size(v: Value): nat {
    match v
    case VArr(_, items) => 1 + ItemsSize(items)
    case VObj(_, fields) => 1 + FieldsSize(fields)
    case _ => 1
  }

  function ItemsSize(items: Items): nat {
    if items.NoItem? then 0 else 1 + Size(items.v) + ItemsSize(items.rest)
  }

  function FieldsSize(fields: Fields): nat {
    if fields.NoField? then 0 else 1 + Size(fields.v) + FieldsSize(fields.rest)
  }

  // ---- Strings and numbers in place ----

  lemma CutAt(a: string, k: nat, b: string)
    requires k <= |a|
    ensures a + b == a[..k] + (a[k..] + b)
  {
  }

  /** Characters of the first element of a string body: an escape or a plain one. */
  function Head(raw: string): nat {
    if raw != "" && raw[0] == '\\' then 2 else 1
  }

  lemma RawCons(raw: string)
    requires RawOk(raw) && raw != ""
    ensures raw[0] != '"' && Head(raw) <= |raw| && RawOk(raw[Head(raw)..])
    ensures Decode(raw) == [if Head(raw) == 2 then Unescape(raw[1]) else raw[0]] + Decode(raw[Head(raw)..])
  {
    hide Unescape;
  }

  lemma {:induction false} ScanRaw(text: string, p: nat, raw: string)
    requires RawOk(raw) && At(text, p, raw + "\"")
    ensures ScanStr(text, p).0 == Decode(raw) && ScanStr(text, p).1 == p + |raw|
    decreases |raw|
  {
    hide Unescape, ScanStr, RawOk, Decode, At;
    AtSplit(text, p, raw, "\"");
    if raw == "" {
      AtChar(text, p, "\"", 0);
      ScanEnds(text, p);
      EmptyDecodes();
    } else {
      RawCons(raw);
      var k := Head(raw);
      CutAt(raw, k, "\"");
      AtChar(text, p, raw, 0);
      AtChar(text, p, raw, k - 1);
      AtSplit(text, p, raw[..k], raw[k..] + "\"");
      ScanPass(text, p);
      ScanRaw(text, p + k, raw[k..]);
    }
  }

  lemma EmptyDecodes()
    ensures RawOk("") && Decode("") == ""
  {
  }

  lemma StrAt(text: string, p: nat, raw: string)
    requires RawOk(raw) && At(text, p, Quoted(raw))
    ensures p < |text| && text[p] == '"'
    ensures ParseStr(text, p).0 == Decode(raw) && ParseStr(text, p).1 == p + |raw| + 2
  {
    AtSplit(text, p, "\"", raw + "\"");
    ScanRaw(text, p + 1, raw);
  }

  predicate Stops(text: string, p: nat) {
    p >= |text| || !NumBody(text[p])
  }

  lemma {:induction false} RunShift(text: string, p: nat, s: string, k: nat)
    requires At(text, p, s) && k <= |s| && (p + |s| == |text| || !Digit.Has(text[p + |s|]))
    ensures RunEnd(Digit, text, p + k) == p + RunEnd(Digit, s, k)
    decreases |s| - k
  {
    if k < |s| {
      if Digit.Has(s[k]) {
        RunShift(text, p, s, k + 1);
      }
    }
  }

  /** The scanner finds the end of a number wherever the number stands. */
  lemma NumAt(text: string, p: nat, s: string)
    requires At(text, p, s) && s != "" && Stops(text, p + |s|)
    ensures NumEnd(text, p) == p + NumEnd(s, 0)
    ensures IntegerEnd(text, p) == p + IntegerEnd(s, 0)
  {
    hide RunEnd, ExponentEnd, FractionEnd;
    AtChar(text, p, s, 0);
    RunShift(text, p, s, if s[0] == '-' then 1 else 0);
    var b := IntegerEnd(s, 0);
    FractionShift(text, p, s, b);
    ExponentShift(text, p, s, FractionEnd(s, b));
  }

  lemma FractionShift(text: string, p: nat, s: string, b: nat)
    requires At(text, p, s) && b <= |s| && Stops(text, p + |s|)
    ensures FractionEnd(text, p + b) == p + FractionEnd(s, b)
  {
    hide RunEnd;
    if b < |s| && s[b] == '.' {
      RunShift(text, p, s, b + 1);
    }
  }

  lemma ExponentShift(text: string, p: nat, s: string, c: nat)
    requires At(text, p, s) && c <= |s| && Stops(text, p + |s|)
    ensures ExponentEnd(text, p + c) == p + ExponentEnd(s, c)
  {
    hide RunEnd;
    if c < |s| {
      if s[c] == 'e' || s[c] == 'E' {
        RunShift(text, p, s, if c + 1 < |s| && (s[c + 1] == '+' || s[c + 1] == '-') then c + 2 else c + 1);
      }
    }
  }

  // ---- Blanks ----

  /** Blanks that end at a character of another kind are skipped exactly. */
  lemma SkipBlanks(text: string, p: nat, ws: string)
    requires At(text, p, ws) && All(Blank, ws)
    requires p + |ws| < |text| && !Blank.Has(text[p + |ws|])
    ensures Skip(text, p) == p + |ws|
  {
    RunOver(Blank, text, p, ws);
  }

  lemma SkipsAlike(text: string, p: nat, ws: string)
    requires At(text, p, ws) && All(Blank, ws)
    ensures Skip(text, p) == Skip(text, p + |ws|)
  {
    RunOver(Blank, text, p, ws);
  }

  /** A value shows at least one character and does not begin with a blank or punctuation. */
  lemma FirstChar(v: Value)
    requires WfValue(v)
    ensures Show(v) != ""
    ensures var c := Show(v)[0]; !Space.Has(c) && c != ',' && c != ']' && c != '}' && c != ':'
    ensures v.VStr? <==> Show(v)[0] == '"'
    ensures v.VObj? <==> Show(v)[0] == '{'
    ensures v.VArr? <==> Show(v)[0] == '['
    ensures v.VNum? <==> NumStart(Show(v)[0])
  {
    hide NumEnd, RawOk, WfItems, WfFields;
  }
}
