/** What the two passes of the config editor find in a well-formed text. */
module EditorScan {
  import opened Text
  import opened Json
  import opened JsonGrammar
  import opened JsonCorrect
  import opened ConfigEditor

  const LISTEN := "listen"

  // ---- What there is to find, told from the syntax tree ----

  function Shift(o: Option<nat>, k: nat): Option<nat> {
    if o.None? then None else Some(o.value + k)
  }

  /** Some field is `"listen": "addr"`. */
  predicate Listens(fields: Fields, addr: string) {
    fields.Field? && ((fields.key == LISTEN && fields.v == VStr(addr)) || Listens(fields.rest, addr))
  }

  function HeadLen(fields: Fields): nat
    requires fields.Field?
  {
    |ShowKey(fields.lead, fields.key, fields.pre, fields.post)|
  }

  /** Offset in `v`, which stands inside `d` objects, of the first depth-2 object that listens on `addr`. */
  function Target(v: Value, d: nat, addr: string): Option<nat> {
    match v
    case VArr(pad, items) => Shift(ItemsTarget(items, d, addr), 1 + |pad|)
    case VObj(pad, fields) =>
      if d == 0 then Shift(FieldsTarget(fields, 1, addr), 1 + |pad|)
      else if d == 1 && Listens(fields, addr) then Some(0)
      else None
    case _ => None
  }

  function ItemsTarget(items: Items, d: nat, addr: string): Option<nat> {
    if items.NoItem? then None
    else if Target(items.v, d, addr).Some? then Shift(Target(items.v, d, addr), |items.lead|)
    else Shift(ItemsTarget(items.rest, d, addr), |items.lead| + |Show(items.v)| + |items.trail| + |Sep(items.comma)|)
  }

  function FieldsTarget(fields: Fields, d: nat, addr: string): Option<nat> {
    if fields.NoField? then None
    else if Target(fields.v, d, addr).Some? then Shift(Target(fields.v, d, addr), HeadLen(fields))
    else
      Shift(FieldsTarget(fields.rest, d, addr),
            HeadLen(fields) + |Show(fields.v)| + |fields.trail| + |Sep(fields.comma)|)
  }

  /** Nothing below depth 2 is a target. */
  lemma {:induction false} NoDeepTarget(v: Value, d: nat, addr: string)
    requires d >= 2
    ensures Target(v, d, addr) == None
    decreases v
  {
    if v.VArr? {
      NoDeepItems(v.items, d, addr);
    }
  }

  lemma {:induction false} NoDeepItems(items: Items, d: nat, addr: string)
    requires d >= 2
    ensures ItemsTarget(items, d, addr) == None
    decreases items
  {
    if items.Item? {
      NoDeepTarget(items.v, d, addr);
      NoDeepItems(items.rest, d, addr);
    }
  }

  // ---- Stepping over characters, strings and blanks ----

  predicate Plain(s: string) {
    forall i :: 0 <= i < |s| ==> s[i] != '"' && s[i] != '{' && s[i] != '}'
  }

  lemma BlankIsPlain(s: string)
    requires All(Blank, s)
    ensures Plain(s) && All(Space, s)
  {
  }

  lemma {:induction false} EntryOver(text: string, p: nat, s: string, d: nat, open: Option<nat>, addr: string)
    requires At(text, p, s) && Plain(s)
    ensures FindEntry(text, p, d, open, addr) == FindEntry(text, p + |s|, d, open, addr)
    decreases |s|
  {
    if s != "" {
      EntryOver(text, p + 1, s[1..], d, open, addr);
    }
  }

  lemma {:induction false} RefreshOver(text: string, p: nat, s: string, e: nat)
    requires At(text, p, s) && Plain(s) && e > 0
    ensures FindRefresh(text, p, e) == FindRefresh(text, p + |s|, e)
    decreases |s|
  {
    if s != "" {
      RefreshOver(text, p + 1, s[1..], e);
    }
  }

  /** While fewer than two objects are open, the remembered brace does not matter. */
  lemma {:induction false} OpenIrrelevant(text: string, i: nat, d: nat, o: Option<nat>, o': Option<nat>, addr: string)
    requires d < 2
    ensures FindEntry(text, i, d, o, addr) == FindEntry(text, i, d, o', addr)
    decreases |text| - i
  {
    hide HasValue, SkipString, Token;
    if i < |text| {
      if text[i] == '"' {
        OpenIrrelevant(text, SkipString(text, i), d, o, o', addr);
      } else if text[i] == '{' {
        if d == 0 {
          OpenIrrelevant(text, i + 1, 1, o, o', addr);
        }
      } else if text[i] == '}' {
        OpenIrrelevant(text, i + 1, 0, o, o', addr);
      } else {
        OpenIrrelevant(text, i + 1, d, o, o', addr);
      }
    }
  }

  lemma StringEnds(text: string, p: nat, raw: string)
    requires RawOk(raw) && At(text, p, Quoted(raw))
    ensures p < |text| && text[p] == '"' && p + |raw| + 2 <= |text|
    ensures StrStop(text, p + 1) == p + 1 + |raw| && SkipString(text, p) == p + |raw| + 2
    ensures Token(text, p, p + |raw| + 2) == raw && text[p + 1..p + 1 + |raw|] == raw
  {
    hide RawOk, Decode, ScanStr, StrStop;
    AtSplit(text, p, "\"", raw + "\"");
    AtSplit(text, p + 1, raw, "\"");
    ScanRaw(text, p + 1, raw);
    StopsAlike(text, p + 1);
  }

  predicate NoColon(text: string, q: nat) {
    var c := RunEnd(Space, text, q);
    c < |text| ==> text[c] != ':'
  }

  /** A string that is not followed by a colon is stepped over. */
  lemma EntryString(text: string, p: nat, raw: string, d: nat, open: Option<nat>, addr: string)
    requires RawOk(raw) && At(text, p, Quoted(raw)) && (d == 2 ==> NoColon(text, p + |raw| + 2))
    ensures FindEntry(text, p, d, open, addr) == FindEntry(text, p + |raw| + 2, d, open, addr)
  {
    hide At, RawOk, StrStop, RunEnd, Token;
    StringEnds(text, p, raw);
  }

  /** Blanks up to a character that is not a space. */
  lemma SpacesTo(text: string, p: nat, ws: string)
    requires At(text, p, ws) && All(Blank, ws)
    requires p + |ws| < |text| && !Space.Has(text[p + |ws|])
    ensures RunEnd(Space, text, p) == p + |ws|
  {
    RunOver(Space, text, p, ws);
  }

  /** After an element of a container comes no colon. */
  lemma NoColonAfterItem(text: string, e: nat, items: Items)
    requires items.Item? && WfItems(items)
    requires At(text, e, items.trail + (Sep(items.comma) + ShowItems(items.rest)) + "]")
    ensures NoColon(text, e)
  {
    hide At, RunEnd, WfValue, Show, ShowItems, EndPass, Delimits;
    var trail, rest := items.trail, items.rest;
    TailParts(text, e, trail, Sep(items.comma), ShowItems(rest), "]");
    RunOver(Space, text, e, trail);
    var q := e + |trail|;
    if items.comma {
      AtSplit(text, e, trail, ",");
      SpacesNone(text, q);
    } else if rest.NoItem? {
      ShowNoItem();
      assert ShowItems(rest) + "]" == "]";
      AtChar(text, q, "]", 0);
      SpacesNone(text, q);
    } else {
      ItemsLead(text, q, rest);
      ItemsLeadSpace(text, q, rest);
      SpacesTo(text, q, rest.lead);
    }
  }

  lemma SpacesNone(text: string, p: nat)
    requires p < |text| && !Space.Has(text[p])
    ensures RunEnd(Space, text, p) == p
  {
  }

  lemma ItemsLeadSpace(text: string, q: nat, items: Items)
    requires items.Item? && WfItems(items) && At(text, q, ShowItems(items) + "]")
    ensures var c := q + |items.lead|; c < |text| && !Space.Has(text[c])
  {
    hide At, WfValue, Show, ShowItems;
    FirstChar(items.v);
    ItemsParts(items);
    var shown, after := Show(items.v), items.trail + (Sep(items.comma) + ShowItems(items.rest)) + "]";
    AtSplit(text, q, items.lead, shown + after);
  }

  lemma NoColonAfterField(text: string, e: nat, fields: Fields)
    requires fields.Field? && WfFields(fields)
    requires At(text, e, fields.trail + (Sep(fields.comma) + ShowFields(fields.rest)) + "}")
    ensures NoColon(text, e)
  {
    hide At, RunEnd, WfValue, Show, ShowFields, EndPass;
    var trail, rest := fields.trail, fields.rest;
    TailParts(text, e, trail, Sep(fields.comma), ShowFields(rest), "}");
    BlankIsPlain(trail);
    RunOver(Space, text, e, trail);
    var q := e + |trail|;
    if fields.comma {
      AtSplit(text, e, trail, ",");
      SpacesNone(text, q);
    } else if rest.NoField? {
      ShowNoField();
      assert ShowFields(rest) + "}" == "}";
      AtChar(text, q, "}", 0);
      SpacesNone(text, q);
    } else {
      FieldsLead(text, q, rest);
      SpacesTo(text, q, rest.lead);
    }
  }

  // ---- First pass ----

  function Hit(o: Option<nat>, otherwise: Option<nat>): Option<nat> {
    if o.Some? then o else otherwise
  }

  /** The first pass over a value finds its target, or steps over the value. */
  lemma {:induction false} EntryValue(text: string, p: nat, v: Value, d: nat, open: Option<nat>, addr: string)
    requires WfValue(v) && At(text, p, Show(v))
    requires d == 2 && v.VStr? ==> NoColon(text, p + |Show(v)|)
    ensures FindEntry(text, p, d, open, addr)
         == Hit(Shift(Target(v, d, addr), p), FindEntry(text, p + |Show(v)|, d, open, addr))
    decreases v, 1
  {
    hide At, FindEntry, RawOk, NoColon, WfItems, WfFields, ShowItems, ShowFields, ItemsTarget, FieldsTarget, NumEnd;
    match v {
      case VNull =>
        EntryOver(text, p, "null", d, open, addr);
      case VBool(b) =>
        EntryOver(text, p, if b then "true" else "false", d, open, addr);
      case VNum(lexeme) =>
        NumIsPlain(lexeme);
        EntryOver(text, p, lexeme, d, open, addr);
      case VStr(raw) =>
        EntryString(text, p, raw, d, open, addr);
      case VArr(pad, items) =>
        EntryArray(text, p, pad, items, d, open, addr);
      case VObj(pad, fields) =>
        EntryObject(text, p, pad, fields, d, open, addr);
    }
  }

  /** A number holds no quote and no brace. */
  lemma NumIsPlain(s: string)
    requires WfNum(s)
    ensures Plain(s)
  {
    var a := if s[0] == '-' then 1 else 0;
    var b := IntegerEnd(s, 0);
    DigitsArePlain(s, a);
    if b < |s| && s[b] == '.' {
      DigitsArePlain(s, b + 1);
    }
    var c := FractionEnd(s, b);
    if c < |s| && (s[c] == 'e' || s[c] == 'E') {
      DigitsArePlain(s, if c + 1 < |s| && (s[c + 1] == '+' || s[c + 1] == '-') then c + 2 else c + 1);
    }
  }

  lemma DigitsArePlain(s: string, k: nat)
    requires k <= |s|
    ensures forall i :: k <= i < RunEnd(Digit, s, k) ==> Digit.Has(s[i])
  {
    hide RunEnd;
    RunEndSpec(Digit, s, k);
  }

  lemma {:induction false} EntryArray(text: string, p: nat, pad: string, items: Items, d: nat,
                                      open: Option<nat>, addr: string)
    requires All(Blank, pad) && WfItems(items) && At(text, p, "[" + (pad + (ShowItems(items) + "]")))
    ensures FindEntry(text, p, d, open, addr)
         == Hit(Shift(ItemsTarget(items, d, addr), p + 1 + |pad|),
                FindEntry(text, p + |pad| + |ShowItems(items)| + 2, d, open, addr))
    decreases items, 3
  {
    hide At, FindEntry, WfItems, ShowItems, ItemsTarget;
    var q := p + 1 + |pad|;
    AtSplit(text, p, "[", pad + (ShowItems(items) + "]"));
    AtSplit(text, p + 1, pad, ShowItems(items) + "]");
    EntryOver(text, p, "[", d, open, addr);
    EntryOver(text, p + 1, pad, d, open, addr);
    EntryItems(text, q, items, d, open, addr);
    AtSplit(text, q, ShowItems(items), "]");
    EntryOver(text, q + |ShowItems(items)|, "]", d, open, addr);
  }

  /** The pieces of a non-empty item list in place. */
  lemma ItemsInPlace(text: string, p: nat, items: Items)
    requires items.Item? && WfItems(items) && At(text, p, ShowItems(items) + "]")
    ensures At(text, p, items.lead) && At(text, p + |items.lead|, Show(items.v))
    ensures var e := p + |items.lead| + |Show(items.v)|;
      && At(text, e, items.trail + (Sep(items.comma) + ShowItems(items.rest)) + "]")
      && At(text, e, items.trail + Sep(items.comma))
      && At(text, e + |items.trail| + |Sep(items.comma)|, ShowItems(items.rest) + "]")
    ensures Plain(items.lead) && Plain(items.trail + Sep(items.comma))
    ensures |ShowItems(items)| ==
            |items.lead| + |Show(items.v)| + |items.trail| + |Sep(items.comma)| + |ShowItems(items.rest)|
  {
    hide At, WfValue, Show, ShowItems, Delimits;
    ItemsParts(items);
    var shown, after := Show(items.v), items.trail + (Sep(items.comma) + ShowItems(items.rest)) + "]";
    AtSplit(text, p, items.lead, shown + after);
    AtSplit(text, p + |items.lead|, shown, after);
    TailParts(text, p + |items.lead| + |shown|, items.trail, Sep(items.comma), ShowItems(items.rest), "]");
  }

  lemma {:induction false} EntryItems(text: string, p: nat, items: Items, d: nat, open: Option<nat>, addr: string)
    requires WfItems(items) && At(text, p, ShowItems(items) + "]")
    ensures FindEntry(text, p, d, open, addr)
         == Hit(Shift(ItemsTarget(items, d, addr), p), FindEntry(text, p + |ShowItems(items)|, d, open, addr))
    decreases items, 2
  {
    hide At, FindEntry, WfValue, Show, ShowItems, Target, NoColon, Delimits;
    if items.NoItem? {
      ShowNoItem();
    } else {
      ItemsInPlace(text, p, items);
      var v := p + |items.lead|;
      var e := v + |Show(items.v)|;
      EntryOver(text, p, items.lead, d, open, addr);
      NoColonAfterItem(text, e, items);
      EntryValue(text, v, items.v, d, open, addr);
      EntryOver(text, e, items.trail + Sep(items.comma), d, open, addr);
      EntryItems(text, e + |items.trail| + |Sep(items.comma)|, items.rest, d, open, addr);
    }
  }

  lemma {:induction false} EntryObject(text: string, p: nat, pad: string, fields: Fields, d: nat,
                                       open: Option<nat>, addr: string)
    requires All(Blank, pad) && WfFields(fields) && At(text, p, "{" + (pad + (ShowFields(fields) + "}")))
    ensures FindEntry(text, p, d, open, addr)
         == Hit(Shift(Target(VObj(pad, fields), d, addr), p),
                FindEntry(text, p + |pad| + |ShowFields(fields)| + 2, d, open, addr))
    decreases fields, 3
  {
    hide At, FindEntry, WfFields, ShowFields, FieldsTarget, Listens;
    var q, inner := p + 1 + |pad|, if d + 1 == 2 then Some(p) else open;
    AtSplit(text, p, "{", pad + (ShowFields(fields) + "}"));
    AtSplit(text, p + 1, pad, ShowFields(fields) + "}");
    EntryOpens(text, p, d, open, addr);
    BlankIsPlain(pad);
    EntryOver(text, p + 1, pad, d + 1, inner, addr);
    EntryFields(text, q, fields, d + 1, inner, addr);
    AtSplit(text, q, ShowFields(fields), "}");
    EntryCloses(text, q + |ShowFields(fields)|, d + 1, inner, addr);
    if d < 2 {
      OpenIrrelevant(text, q + |ShowFields(fields)| + 1, d, inner, open, addr);
    }
  }

  lemma EntryOpens(text: string, p: nat, d: nat, open: Option<nat>, addr: string)
    requires At(text, p, "{")
    ensures FindEntry(text, p, d, open, addr)
         == FindEntry(text, p + 1, d + 1, if d + 1 == 2 then Some(p) else open, addr)
  {
  }

  lemma EntryCloses(text: string, p: nat, d: nat, open: Option<nat>, addr: string)
    requires At(text, p, "}") && d > 0
    ensures FindEntry(text, p, d, open, addr) == FindEntry(text, p + 1, d - 1, open, addr)
  {
  }

  /** The pieces of a non-empty field list in place. */
  lemma FieldsInPlace(text: string, p: nat, fields: Fields)
    requires fields.Field? && WfFields(fields) && At(text, p, ShowFields(fields) + "}")
    ensures At(text, p, ShowKey(fields.lead, fields.key, fields.pre, fields.post))
    ensures var v := p + HeadLen(fields);
      && At(text, v, Show(fields.v))
      && At(text, v + |Show(fields.v)|, fields.trail + (Sep(fields.comma) + ShowFields(fields.rest)) + "}")
      && At(text, v + |Show(fields.v)|, fields.trail + Sep(fields.comma))
      && At(text, v + |Show(fields.v)| + |fields.trail| + |Sep(fields.comma)|, ShowFields(fields.rest) + "}")
    ensures Plain(fields.lead) && Plain(fields.pre + (":" + fields.post)) && Plain(fields.trail + Sep(fields.comma))
    ensures |ShowFields(fields)| ==
            HeadLen(fields) + |Show(fields.v)| + |fields.trail| + |Sep(fields.comma)| + |ShowFields(fields.rest)|
  {
    hide At, WfValue, Show, ShowFields, ShowKey;
    FieldsParts(fields);
    var Field(lead, key, pre, post, v, trail, comma, rest) := fields;
    var head, shown, after := ShowKey(lead, key, pre, post), Show(v), trail + (Sep(comma) + ShowFields(rest)) + "}";
    AtSplit(text, p, head, shown + after);
    AtSplit(text, p + |head|, shown, after);
    TailParts(text, p + |head| + |shown|, trail, Sep(comma), ShowFields(rest), "}");
  }

  /** In an entry, a key matches exactly when it is "listen" and its value is the string `addr`. */
  lemma KeyMatches(text: string, p: nat, fields: Fields, addr: string)
    requires fields.Field? && WfFields(fields) && At(text, p, ShowFields(fields) + "}")
    ensures HasValue(text, p + |fields.lead| + |fields.key| + 2, addr) == (fields.v == VStr(addr))
  {
    hide At, RunEnd, StrStop, WfValue, Show, ShowFields, ShowKey, RawOk;
    var Field(lead, key, pre, post, v, trail, comma, rest) := fields;
    FieldsInPlace(text, p, fields);
    KeyParts(text, p, lead, key, pre, post);
    var after, vp := p + |lead| + |key| + 2, p + HeadLen(fields);
    AtChar(text, after + |pre|, ":", 0);
    SpacesTo(text, after, pre);
    FirstChar(v);
    AtChar(text, vp, Show(v), 0);
    SpacesTo(text, after + |pre| + 1, post);
    if v.VStr? {
      StringValue(text, vp, v);
    }
  }

  lemma StringValue(text: string, p: nat, v: Value)
    requires v.VStr? && WfValue(v) && At(text, p, Show(v))
    ensures StrStop(text, p + 1) == p + 1 + |v.raw| < |text| && text[p + 1..p + 1 + |v.raw|] == v.raw
  {
    StringEnds(text, p, v.raw);
  }

  /** The key of a field: the entry is found there, or the scan goes on at the value. */
  lemma EntryKey(text: string, p: nat, fields: Fields, e: nat, open: Option<nat>, addr: string)
    requires fields.Field? && WfFields(fields) && At(text, p, ShowFields(fields) + "}")
    requires e == 2 ==> open.Some?
    ensures FindEntry(text, p, e, open, addr)
         == if e == 2 && fields.key == LISTEN && fields.v == VStr(addr) then open
            else FindEntry(text, p + HeadLen(fields), e, open, addr)
  {
    hide At, HasValue, StrStop, WfValue, Show, ShowFields, ShowKey, RawOk, Token, SkipString;
    var Field(lead, key, pre, post, v, trail, comma, rest) := fields;
    FieldsInPlace(text, p, fields);
    KeyParts(text, p, lead, key, pre, post);
    EntryOver(text, p, lead, e, open, addr);
    var k := p + |lead|;
    StringEnds(text, k, key);
    KeyMatches(text, p, fields, addr);
    var c := k + |key| + 2;
    AtJoin(text, c, pre, ":");
    AtJoin(text, c, pre + ":", post);
    assert pre + ":" + post == pre + (":" + post);
    EntryOver(text, c, pre + (":" + post), e, open, addr);
  }

  lemma AtJoin(text: string, p: nat, a: string, b: string)
    requires At(text, p, a) && At(text, p + |a|, b)
    ensures At(text, p, a + b)
  {
  }

  lemma {:induction false} EntryFields(text: string, p: nat, fields: Fields, e: nat, open: Option<nat>, addr: string)
    requires WfFields(fields) && At(text, p, ShowFields(fields) + "}") && e > 0
    requires e == 2 ==> open.Some?
    ensures FindEntry(text, p, e, open, addr)
         == Hit(if e == 1 then Shift(FieldsTarget(fields, 1, addr), p)
                else if e == 2 && Listens(fields, addr) then open else None,
                FindEntry(text, p + |ShowFields(fields)|, e, open, addr))
    decreases fields, 2
  {
    hide At, FindEntry, WfValue, Show, ShowFields, ShowKey, Target, NoColon, RawOk;
    if fields.NoField? {
      ShowNoField();
    } else {
      FieldsInPlace(text, p, fields);
      EntryKey(text, p, fields, e, open, addr);
      var v := p + HeadLen(fields);
      var n := v + |Show(fields.v)|;
      NoColonAfterField(text, n, fields);
      EntryValue(text, v, fields.v, e, open, addr);
      if e >= 2 {
        NoDeepTarget(fields.v, e, addr);
      }
      EntryOver(text, n, fields.trail + Sep(fields.comma), e, open, addr);
      EntryFields(text, n + |fields.trail| + |Sep(fields.comma)|, fields.rest, e, open, addr);
    }
  }

  // ---- Second pass ----

  /** No string of the entry itself, other than a key, spells the key looked for. */
  predicate NoKeyString(v: Value) {
    match v
    case VStr(raw) => raw != REFRESH
    case VArr(_, items) => NoKeyItems(items)
    case _ => true
  }

  predicate NoKeyItems(items: Items) {
    items.NoItem? || (NoKeyString(items.v) && NoKeyItems(items.rest))
  }

  predicate NoKeyFields(fields: Fields) {
    fields.NoField? || (NoKeyString(fields.v) && NoKeyFields(fields.rest))
  }

  /** The quoted key occurs at a string exactly when the string is the key. */
  lemma KeySpelled(text: string, p: nat, raw: string)
    requires RawOk(raw) && At(text, p, Quoted(raw))
    ensures At(text, p, QUOTED_KEY) <==> raw == REFRESH
  {
    hide RawOk, StrStop, SkipString;
    RefreshIsPlain();
    if At(text, p, QUOTED_KEY) {
      SpelledAlike(text, p, raw, REFRESH);
    }
  }

  lemma SpelledAlike(text: string, p: nat, raw: string, other: string)
    requires RawOk(raw) && RawOk(other) && At(text, p, Quoted(raw)) && At(text, p, Quoted(other))
    ensures raw == other
  {
    hide At, RawOk, StrStop, SkipString;
    StringEnds(text, p, raw);
    StringEnds(text, p, other);
  }

  lemma RefreshIsPlain()
    ensures RawOk(REFRESH) && Decode(REFRESH) == REFRESH
  {
    hide RawOk, Decode;
    PlainRaw(REFRESH);
  }

  /** Strings without quotes and backslashes stand for themselves. */
  lemma {:induction false} PlainRaw(s: string)
    requires forall i :: 0 <= i < |s| ==> s[i] != '"' && s[i] != '\\'
    ensures RawOk(s) && Decode(s) == s
    decreases |s|
  {
    if s != "" {
      PlainRaw(s[1..]);
    }
  }

  lemma RefreshString(text: string, p: nat, raw: string, e: nat)
    requires RawOk(raw) && At(text, p, Quoted(raw)) && e > 0
    ensures FindRefresh(text, p, e)
         == if e == 1 && raw == REFRESH then Key(p) else FindRefresh(text, p + |raw| + 2, e)
  {
    hide At, RawOk, StrStop, Token, SkipString;
    StringEnds(text, p, raw);
    KeySpelled(text, p, raw);
  }

  /** The second pass steps over every value of the entry. */
  lemma {:induction false} RefreshValue(text: string, p: nat, v: Value, e: nat)
    requires WfValue(v) && At(text, p, Show(v)) && e > 0 && (e == 1 ==> NoKeyString(v))
    ensures FindRefresh(text, p, e) == FindRefresh(text, p + |Show(v)|, e)
    decreases v, 1
  {
    hide At, FindRefresh, RawOk, WfItems, WfFields, ShowItems, ShowFields, NumEnd, NoKeyItems;
    match v {
      case VNull =>
        RefreshOver(text, p, "null", e);
      case VBool(b) =>
        RefreshOver(text, p, if b then "true" else "false", e);
      case VNum(lexeme) =>
        NumIsPlain(lexeme);
        RefreshOver(text, p, lexeme, e);
      case VStr(raw) =>
        RefreshString(text, p, raw, e);
      case VArr(pad, items) =>
        RefreshArray(text, p, pad, items, e);
      case VObj(pad, fields) =>
        RefreshObject(text, p, pad, fields, e);
    }
  }

  lemma {:induction false} RefreshArray(text: string, p: nat, pad: string, items: Items, e: nat)
    requires All(Blank, pad) && WfItems(items) && At(text, p, "[" + (pad + (ShowItems(items) + "]")))
    requires e > 0 && (e == 1 ==> NoKeyItems(items))
    ensures FindRefresh(text, p, e) == FindRefresh(text, p + |pad| + |ShowItems(items)| + 2, e)
    decreases items, 3
  {
    hide At, FindRefresh, WfItems, ShowItems, NoKeyItems;
    var q := p + 1 + |pad|;
    AtSplit(text, p, "[", pad + (ShowItems(items) + "]"));
    AtSplit(text, p + 1, pad, ShowItems(items) + "]");
    RefreshOver(text, p, "[", e);
    BlankIsPlain(pad);
    RefreshOver(text, p + 1, pad, e);
    RefreshItems(text, q, items, e);
    AtSplit(text, q, ShowItems(items), "]");
    RefreshOver(text, q + |ShowItems(items)|, "]", e);
  }

  lemma {:induction false} RefreshObject(text: string, p: nat, pad: string, fields: Fields, e: nat)
    requires All(Blank, pad) && WfFields(fields) && At(text, p, "{" + (pad + (ShowFields(fields) + "}"))) && e > 0
    ensures FindRefresh(text, p, e) == FindRefresh(text, p + |pad| + |ShowFields(fields)| + 2, e)
    decreases fields, 3
  {
    hide At, FindRefresh, WfFields, ShowFields;
    var q := p + 1 + |pad|;
    AtSplit(text, p, "{", pad + (ShowFields(fields) + "}"));
    AtSplit(text, p + 1, pad, ShowFields(fields) + "}");
    BlankIsPlain(pad);
    RefreshOver(text, p + 1, pad, e + 1);
    RefreshNested(text, q, fields, e + 1);
    AtSplit(text, q, ShowFields(fields), "}");
    RefreshBraces(text, p, q + |ShowFields(fields)|, e);
  }

  lemma RefreshBraces(text: string, p: nat, q: nat, e: nat)
    requires At(text, p, "{") && At(text, q, "}") && e > 0
    ensures FindRefresh(text, p, e) == FindRefresh(text, p + 1, e + 1)
    ensures FindRefresh(text, q, e + 1) == FindRefresh(text, q + 1, e)
  {
    AtChar(text, p, "{", 0);
    AtChar(text, q, "}", 0);
  }

  lemma {:induction false} RefreshItems(text: string, p: nat, items: Items, e: nat)
    requires WfItems(items) && At(text, p, ShowItems(items) + "]") && e > 0 && (e == 1 ==> NoKeyItems(items))
    ensures FindRefresh(text, p, e) == FindRefresh(text, p + |ShowItems(items)|, e)
    decreases items, 2
  {
    hide At, FindRefresh, WfValue, Show, ShowItems, NoKeyString, Delimits;
    if items.NoItem? {
      ShowNoItem();
    } else {
      ItemsInPlace(text, p, items);
      var v := p + |items.lead|;
      var n := v + |Show(items.v)|;
      RefreshOver(text, p, items.lead, e);
      RefreshValue(text, v, items.v, e);
      RefreshOver(text, n, items.trail + Sep(items.comma), e);
      RefreshItems(text, n + |items.trail| + |Sep(items.comma)|, items.rest, e);
    }
  }

  /** The key of a field: found there, or the scan goes on at the value. */
  lemma RefreshKey(text: string, p: nat, fields: Fields, e: nat)
    requires fields.Field? && WfFields(fields) && At(text, p, ShowFields(fields) + "}") && e > 0
    ensures FindRefresh(text, p, e)
         == if e == 1 && fields.key == REFRESH then Key(p + |fields.lead|)
            else FindRefresh(text, p + HeadLen(fields), e)
  {
    hide At, FindRefresh, WfValue, Show, ShowFields, ShowKey, RawOk;
    var Field(lead, key, pre, post, v, trail, comma, rest) := fields;
    FieldsInPlace(text, p, fields);
    KeyParts(text, p, lead, key, pre, post);
    RefreshOver(text, p, lead, e);
    RefreshString(text, p + |lead|, key, e);
    var c := p + |lead| + |key| + 2;
    AtJoin(text, c, pre, ":");
    AtJoin(text, c, pre + ":", post);
    assert pre + ":" + post == pre + (":" + post);
    RefreshOver(text, c, pre + (":" + post), e);
  }

  lemma {:induction false} RefreshNested(text: string, p: nat, fields: Fields, e: nat)
    requires WfFields(fields) && At(text, p, ShowFields(fields) + "}") && e >= 2
    ensures FindRefresh(text, p, e) == FindRefresh(text, p + |ShowFields(fields)|, e)
    decreases fields, 2
  {
    hide At, FindRefresh, WfValue, Show, ShowFields, ShowKey, RawOk;
    if fields.NoField? {
      ShowNoField();
    } else {
      FieldsInPlace(text, p, fields);
      RefreshKey(text, p, fields, e);
      var v := p + HeadLen(fields);
      var n := v + |Show(fields.v)|;
      RefreshValue(text, v, fields.v, e);
      RefreshOver(text, n, fields.trail + Sep(fields.comma), e);
      RefreshNested(text, n + |fields.trail| + |Sep(fields.comma)|, fields.rest, e);
    }
  }

  /** Offset of the first "refresh_seconds" key among the fields of an entry. */
  function KeyOffset(fields: Fields): Option<nat> {
    if fields.NoField? then None
    else if fields.key == REFRESH then Some(|fields.lead|)
    else Shift(KeyOffset(fields.rest), HeadLen(fields) + |Show(fields.v)| + |fields.trail| + |Sep(fields.comma)|)
  }

  /** The second pass finds the key of the entry, or its closing brace. */
  lemma {:induction false} RefreshFields(text: string, p: nat, fields: Fields)
    requires WfFields(fields) && At(text, p, ShowFields(fields) + "}") && NoKeyFields(fields)
    ensures FindRefresh(text, p, 1)
         == match KeyOffset(fields)
            case Some(k) => Key(p + k)
            case None => Close(p + |ShowFields(fields)|)
    decreases fields
  {
    hide At, FindRefresh, WfValue, Show, ShowFields, ShowKey, RawOk, NoKeyString;
    if fields.NoField? {
      ShowNoField();
      assert ShowFields(fields) + "}" == "}";
      RefreshEnds(text, p);
    } else {
      FieldsInPlace(text, p, fields);
      RefreshKey(text, p, fields, 1);
      if fields.key != REFRESH {
        var v := p + HeadLen(fields);
        var n := v + |Show(fields.v)|;
        RefreshValue(text, v, fields.v, 1);
        RefreshOver(text, n, fields.trail + Sep(fields.comma), 1);
        RefreshFields(text, n + |fields.trail| + |Sep(fields.comma)|, fields.rest);
      }
    }
  }

  lemma RefreshEnds(text: string, q: nat)
    requires At(text, q, "}")
    ensures FindRefresh(text, q, 1) == Close(q)
  {
  }
}
