/**
 The config editor means what it should: on a well-formed text the two scans and
 the splice of src/config.cpp change one number of the parsed tree and nothing else.
 */
module EditorCorrect {
  import opened Text
  import opened Json
  import opened JsonGrammar
  import opened JsonCorrect
  import opened ConfigEditor
  import opened EditorScan

  // ---- The edit on the syntax tree ----

  /** What follows the integer part of a number. */
  function Tail(lexeme: string): string {
    lexeme[if IntegerEnd(lexeme, 0) <= |lexeme| then IntegerEnd(lexeme, 0) else |lexeme|..]
  }

  /** The editor replaces the integer part of a number and leaves what follows it. */
  function NewNumber(lexeme: string, val: string): string {
    val + Tail(lexeme)
  }

  function SetRefresh(fields: Fields, val: string, indent: string): Fields {
    match fields
    case NoField => Field(indent, REFRESH, "", " ", VNum(val), "\n", false, NoField)
    case Field(lead, key, pre, post, v, trail, comma, rest) =>
      if key == REFRESH then
        Field(lead, key, pre, post, if v.VNum? then VNum(NewNumber(v.lexeme, val)) else v, trail, comma, rest)
      else Field(lead, key, pre, post, v, trail, comma, SetRefresh(rest, val, indent))
  }

  /** The edit of the first entry that listens on `addr`, in a value inside `d` objects. */
  function EditValue(v: Value, d: nat, addr: string, val: string, indent: string): Value {
    match v
    case VArr(pad, items) => VArr(pad, EditItems(items, d, addr, val, indent))
    case VObj(pad, fields) =>
      if d == 0 then VObj(pad, EditFields(fields, 1, addr, val, indent))
      else if d == 1 && Listens(fields, addr) then VObj(pad, SetRefresh(fields, val, indent))
      else v
    case _ => v
  }

  function EditItems(items: Items, d: nat, addr: string, val: string, indent: string): Items {
    match items
    case NoItem => NoItem
    case Item(lead, v, trail, comma, rest) =>
      if Target(v, d, addr).Some? then Item(lead, EditValue(v, d, addr, val, indent), trail, comma, rest)
      else Item(lead, v, trail, comma, EditItems(rest, d, addr, val, indent))
  }

  function EditFields(fields: Fields, d: nat, addr: string, val: string, indent: string): Fields {
    match fields
    case NoField => NoField
    case Field(lead, key, pre, post, v, trail, comma, rest) =>
      if Target(v, d, addr).Some? then
        Field(lead, key, pre, post, EditValue(v, d, addr, val, indent), trail, comma, rest)
      else Field(lead, key, pre, post, v, trail, comma, EditFields(rest, d, addr, val, indent))
  }

  /** The entry that `Target` points at. */
  function Entry(v: Value, d: nat, addr: string): (e: Value)
    requires Target(v, d, addr).Some?
    ensures e.VObj? && Listens(e.fields, addr)
  {
    match v
    case VArr(_, items) => ItemsEntry(items, d, addr)
    case VObj(_, fields) => if d == 0 then FieldsEntry(fields, 1, addr) else v
  }

  function ItemsEntry(items: Items, d: nat, addr: string): (e: Value)
    requires ItemsTarget(items, d, addr).Some?
    ensures e.VObj? && Listens(e.fields, addr)
  {
    if Target(items.v, d, addr).Some? then Entry(items.v, d, addr) else ItemsEntry(items.rest, d, addr)
  }

  function FieldsEntry(fields: Fields, d: nat, addr: string): (e: Value)
    requires FieldsTarget(fields, d, addr).Some?
    ensures e.VObj? && Listens(e.fields, addr)
  {
    if Target(fields.v, d, addr).Some? then Entry(fields.v, d, addr) else FieldsEntry(fields.rest, d, addr)
  }

  /** The value of the first "refresh_seconds" field. */
  function RefreshOf(fields: Fields): Option<Value> {
    if fields.NoField? then None
    else if fields.key == REFRESH then Some(fields.v)
    else RefreshOf(fields.rest)
  }

  /** The editor can place the number: the field is missing or holds a number. */
  predicate Editable(fields: Fields) {
    RefreshOf(fields).Some? ==> RefreshOf(fields).value.VNum?
  }

  // ---- Splices ----

  datatype Patch = Patch(from: nat, to: nat, s: string)

  function Move(p: Patch, k: nat): Patch {
    Patch(p.from + k, p.to + k, p.s)
  }

  predicate Fits(p: Patch, text: string) {
    p.from <= p.to <= |text|
  }

  function Apply(text: string, p: Patch): string
    requires Fits(p, text)
  {
    Splice(text, p.from, p.to, p.s)
  }

  lemma Weave(a: string, x: string, s: string, y: string, c: string)
    ensures a + ((x + s + y) + c) == (a + x) + s + (y + c)
  {
  }

  lemma ApplyInside(a: string, b: string, c: string, p: Patch)
    requires Fits(p, b)
    ensures Fits(Move(p, |a|), a + (b + c))
    ensures a + (Apply(b, p) + c) == Apply(a + (b + c), Move(p, |a|))
  {
    var t := a + (b + c);
    assert t[..p.from + |a|] == a + b[..p.from];
    assert t[p.to + |a|..] == b[p.to..] + c;
    Weave(a, b[..p.from], p.s, b[p.to..], c);
  }

  lemma ApplyAfter(a: string, b: string, p: Patch)
    requires Fits(p, b)
    ensures Fits(Move(p, |a|), a + b) && a + Apply(b, p) == Apply(a + b, Move(p, |a|))
  {
    assert (a + b)[..p.from + |a|] == a + b[..p.from];
    assert (a + b)[p.to + |a|..] == b[p.to..];
    Weave(a, b[..p.from], p.s, b[p.to..], "");
    assert b[..p.from] + p.s + b[p.to..] + "" == b[..p.from] + p.s + b[p.to..] && b[p.to..] + "" == b[p.to..];
  }

  function ItemPrefix(i: Items): string
    requires i.Item?
  {
    i.lead + (Show(i.v) + (i.trail + Sep(i.comma)))
  }

  lemma ItemsFrom(i: Items)
    requires i.Item?
    ensures ShowItems(i) == ItemPrefix(i) + ShowItems(i.rest)
    ensures |ItemPrefix(i)| == |i.lead| + |Show(i.v)| + |i.trail| + |Sep(i.comma)|
  {
    hide Show, ShowItems, Sep;
    ItemsAre(i);
    Regroup(i.lead, Show(i.v), i.trail, Sep(i.comma), ShowItems(i.rest));
  }

  lemma ItemsAre(i: Items)
    requires i.Item?
    ensures ShowItems(i) == i.lead + (Show(i.v) + (i.trail + (Sep(i.comma) + ShowItems(i.rest))))
  {
  }

  lemma FieldsAre(f: Fields)
    requires f.Field?
    ensures ShowFields(f) ==
            ShowKey(f.lead, f.key, f.pre, f.post) + (Show(f.v) + (f.trail + (Sep(f.comma) + ShowFields(f.rest))))
  {
  }

  function FieldPrefix(f: Fields): string
    requires f.Field?
  {
    ShowKey(f.lead, f.key, f.pre, f.post) + (Show(f.v) + (f.trail + Sep(f.comma)))
  }

  lemma FieldsFrom(f: Fields)
    requires f.Field?
    ensures ShowFields(f) == FieldPrefix(f) + ShowFields(f.rest)
    ensures |FieldPrefix(f)| == HeadLen(f) + |Show(f.v)| + |f.trail| + |Sep(f.comma)|
  {
    hide Show, ShowKey, ShowFields, Sep;
    FieldsAre(f);
    Regroup(ShowKey(f.lead, f.key, f.pre, f.post), Show(f.v), f.trail, Sep(f.comma), ShowFields(f.rest));
    KeyLength(f);
  }

  lemma KeyLength(f: Fields)
    requires f.Field?
    ensures |ShowKey(f.lead, f.key, f.pre, f.post)| == HeadLen(f)
  {
  }

  /** Where the number goes among the fields of an entry. */
  function FieldsPatch(fields: Fields, val: string, indent: string): Patch
    requires Editable(fields)
  {
    if fields.NoField? then Patch(0, 0, Addition(indent, val))
    else if fields.key == REFRESH then
      Patch(HeadLen(fields), HeadLen(fields) + IntegerEnd(fields.v.lexeme, 0), val)
    else
      Move(FieldsPatch(fields.rest, val, indent),
           HeadLen(fields) + |Show(fields.v)| + |fields.trail| + |Sep(fields.comma)|)
  }

  lemma {:induction false} FieldsPatched(fields: Fields, val: string, indent: string)
    requires Editable(fields)
    ensures Fits(FieldsPatch(fields, val, indent), ShowFields(fields))
    ensures ShowFields(SetRefresh(fields, val, indent)) == Apply(ShowFields(fields), FieldsPatch(fields, val, indent))
    decreases fields
  {
    hide Show, ShowKey, ShowFields, Apply, Addition, IntegerEnd;
    if fields.NoField? {
      ShowNoField();
      AddedField(val, indent);
    } else if fields.key == REFRESH {
      NumberPatched(fields, val, indent);
    } else {
      FieldsPatched(fields.rest, val, indent);
      ApplyAfter(FieldPrefix(fields), ShowFields(fields.rest), FieldsPatch(fields.rest, val, indent));
      FieldsFrom(fields);
      FieldsFrom(SetRefresh(fields, val, indent));
    }
  }

  lemma AddedField(val: string, indent: string)
    ensures ShowFields(SetRefresh(NoField, val, indent)) == Apply("", Patch(0, 0, Addition(indent, val)))
  {
  }

  lemma NumberPatched(fields: Fields, val: string, indent: string)
    requires fields.Field? && fields.key == REFRESH && fields.v.VNum?
    ensures Fits(FieldsPatch(fields, val, indent), ShowFields(fields))
    ensures ShowFields(SetRefresh(fields, val, indent)) == Apply(ShowFields(fields), FieldsPatch(fields, val, indent))
  {
    hide ShowKey, RunEnd;
    var Field(lead, key, pre, post, v, trail, comma, rest) := fields;
    var head, tail := ShowKey(lead, key, pre, post), trail + (Sep(comma) + ShowFields(rest));
    var p := Patch(0, IntegerEnd(v.lexeme, 0), val);
    assert Apply(v.lexeme, p) == NewNumber(v.lexeme, val);
    ApplyInside(head, v.lexeme, tail, p);
  }

  /** The patch of a whole value. */
  function ValuePatch(v: Value, d: nat, addr: string, val: string, indent: string): Patch
    requires Target(v, d, addr).Some? && Editable(Entry(v, d, addr).fields)
  {
    var e := Entry(v, d, addr);
    Move(FieldsPatch(e.fields, val, indent), Target(v, d, addr).value + 1 + |e.pad|)
  }

  lemma {:induction false} ValuePatched(v: Value, d: nat, addr: string, val: string, indent: string)
    requires Target(v, d, addr).Some? && Editable(Entry(v, d, addr).fields)
    ensures Fits(ValuePatch(v, d, addr, val, indent), Show(v))
    ensures Show(EditValue(v, d, addr, val, indent)) == Apply(Show(v), ValuePatch(v, d, addr, val, indent))
    decreases v, 1
  {
    hide ShowItems, ShowFields, ItemsTarget, FieldsTarget, SetRefresh, FieldsPatch, EditItems, EditFields, Listens,
         ItemsEntry, FieldsEntry, Apply, RefreshOf;
    match v {
      case VArr(pad, items) =>
        ItemsPatched(items, d, addr, val, indent);
        Wrapped("[", pad, ShowItems(items), "]", ItemsPatch(items, d, addr, val, indent));
      case VObj(pad, fields) =>
        if d == 0 {
          RootPatched(fields, 1, addr, val, indent);
          Wrapped("{", pad, ShowFields(fields), "}", RootPatch(fields, 1, addr, val, indent));
        } else {
          FieldsPatched(fields, val, indent);
          Wrapped("{", pad, ShowFields(fields), "}", FieldsPatch(fields, val, indent));
        }
    }
  }

  lemma Wrapped(open: string, pad: string, b: string, close: string, p: Patch)
    requires Fits(p, b)
    ensures Fits(Move(p, |open| + |pad|), open + (pad + (b + close)))
    ensures open + (pad + (Apply(b, p) + close)) == Apply(open + (pad + (b + close)), Move(p, |open| + |pad|))
  {
  }

  function ItemsPatch(items: Items, d: nat, addr: string, val: string, indent: string): Patch
    requires ItemsTarget(items, d, addr).Some? && Editable(ItemsEntry(items, d, addr).fields)
  {
    var e := ItemsEntry(items, d, addr);
    Move(FieldsPatch(e.fields, val, indent), ItemsTarget(items, d, addr).value + 1 + |e.pad|)
  }

  lemma {:induction false} ItemsPatched(items: Items, d: nat, addr: string, val: string, indent: string)
    requires ItemsTarget(items, d, addr).Some? && Editable(ItemsEntry(items, d, addr).fields)
    ensures Fits(ItemsPatch(items, d, addr, val, indent), ShowItems(items))
    ensures ShowItems(EditItems(items, d, addr, val, indent))
         == Apply(ShowItems(items), ItemsPatch(items, d, addr, val, indent))
    decreases items, 0
  {
    hide Show, ShowItems, Target, Entry, EditValue, FieldsPatch, Apply, Editable;
    var Item(lead, v, trail, comma, rest) := items;
    if Target(v, d, addr).Some? {
      ValuePatched(v, d, addr, val, indent);
      ApplyInside(lead, Show(v), trail + (Sep(comma) + ShowItems(rest)), ValuePatch(v, d, addr, val, indent));
      ItemsAre(items);
      ItemsAre(EditItems(items, d, addr, val, indent));
    } else {
      ItemsPatched(rest, d, addr, val, indent);
      ApplyAfter(ItemPrefix(items), ShowItems(rest), ItemsPatch(rest, d, addr, val, indent));
      ItemsFrom(items);
      ItemsFrom(EditItems(items, d, addr, val, indent));
    }
  }

  function RootPatch(fields: Fields, d: nat, addr: string, val: string, indent: string): Patch
    requires FieldsTarget(fields, d, addr).Some? && Editable(FieldsEntry(fields, d, addr).fields)
  {
    var e := FieldsEntry(fields, d, addr);
    Move(FieldsPatch(e.fields, val, indent), FieldsTarget(fields, d, addr).value + 1 + |e.pad|)
  }

  lemma {:induction false} RootPatched(fields: Fields, d: nat, addr: string, val: string, indent: string)
    requires FieldsTarget(fields, d, addr).Some? && Editable(FieldsEntry(fields, d, addr).fields)
    ensures Fits(RootPatch(fields, d, addr, val, indent), ShowFields(fields))
    ensures ShowFields(EditFields(fields, d, addr, val, indent))
         == Apply(ShowFields(fields), RootPatch(fields, d, addr, val, indent))
    decreases fields, 0
  {
    hide Show, ShowKey, ShowFields, Target, Entry, EditValue, FieldsPatch, Apply, Editable;
    var Field(lead, key, pre, post, v, trail, comma, rest) := fields;
    var head := ShowKey(lead, key, pre, post);
    if Target(v, d, addr).Some? {
      ValuePatched(v, d, addr, val, indent);
      ApplyInside(head, Show(v), trail + (Sep(comma) + ShowFields(rest)), ValuePatch(v, d, addr, val, indent));
      FieldsAre(fields);
      FieldsAre(EditFields(fields, d, addr, val, indent));
    } else {
      RootPatched(rest, d, addr, val, indent);
      ApplyAfter(FieldPrefix(fields), ShowFields(rest), RootPatch(rest, d, addr, val, indent));
      FieldsFrom(fields);
      FieldsFrom(EditFields(fields, d, addr, val, indent));
    }
  }

  // ---- Numbers ----

  /** A number with neither fraction nor exponent. */
  predicate IntLexeme(s: string) {
    s != "" && NumStart(s[0]) && IntegerEnd(s, 0) == |s|
  }

  lemma ToStringIsInt(n: int)
    ensures IntLexeme(ToString(n))
  {
    hide Numeral, RunEnd;
    var s := ToString(n);
    var a := if n < 0 then 1 else 0;
    DigitsToEnd(s, a);
  }

  lemma {:induction false} DigitsToEnd(s: string, k: nat)
    requires k <= |s| && forall i :: k <= i < |s| ==> Digit.Has(s[i])
    ensures RunEnd(Digit, s, k) == |s|
    decreases |s| - k
  {
    if k < |s| {
      DigitsToEnd(s, k + 1);
    }
  }

  lemma IntThen(val: string, rest: string)
    requires IntLexeme(val) && (rest == "" || !Digit.Has(rest[0]))
    ensures IntegerEnd(val + rest, 0) == |val| && (val + rest)[|val|..] == rest
  {
    hide RunEnd;
    RunShift(val + rest, 0, val, if val[0] == '-' then 1 else 0);
  }

  /** Digit runs depend only on what follows. */
  lemma {:induction false} RunSuffix(s: string, b: nat, t: string, c: nat, i: nat)
    requires b <= |s| && c <= |t| && s[b..] == t[c..] && b + i <= |s|
    ensures |s| - b == |t| - c && RunEnd(Digit, t, c + i) - c == RunEnd(Digit, s, b + i) - b
    decreases |s| - b - i
  {
    if b + i < |s| {
      if Digit.Has(s[b + i]) {
        RunSuffix(s, b, t, c, i + 1);
      }
    }
  }

  lemma TailSuffix(s: string, b: nat, t: string, c: nat)
    requires b <= |s| && c <= |t| && s[b..] == t[c..]
    ensures ExponentEnd(t, FractionEnd(t, c)) - c == ExponentEnd(s, FractionEnd(s, b)) - b
  {
    hide RunEnd;
    assert |s[b..]| == |t[c..]|;
    assert forall i :: b <= i < |s| ==> s[i] == s[b..][i - b] == t[c..][i - b] == t[i - b + c];
    if b < |s| {
      assert s[b] == t[c];
      if s[b] == '.' {
        RunSuffix(s, b, t, c, 1);
      }
    }
    var i := FractionEnd(s, b) - b;
    assert FractionEnd(t, c) == c + i;
    if b + i < |s| {
      assert s[b + i] == t[c + i];
      if s[b + i] == 'e' || s[b + i] == 'E' {
        if b + i + 1 < |s| {
          assert s[b + i + 1] == t[c + i + 1];
        }
        RunSuffix(s, b, t, c, if b + i + 1 < |s| && (s[b + i + 1] == '+' || s[b + i + 1] == '-') then i + 2 else i + 1);
      }
    }
  }

  /** The number after the edit: a number again, whose integer part is `val`. */
  lemma NewNumberIs(lexeme: string, val: string)
    requires WfNum(lexeme) && IntLexeme(val)
    ensures WfNum(NewNumber(lexeme, val))
    ensures IntegerEnd(NewNumber(lexeme, val), 0) == |val|
    ensures NewNumber(lexeme, val) == val <==> IntLexeme(lexeme)
    ensures forall w :: NewNumber(NewNumber(lexeme, val), w) == NewNumber(lexeme, w)
  {
    hide RunEnd, ExponentEnd, FractionEnd;
    var b := IntegerEnd(lexeme, 0);
    RunEndSpec(Digit, lexeme, if lexeme[0] == '-' then 1 else 0);
    var t := NewNumber(lexeme, val);
    IntThen(val, lexeme[b..]);
    TailSuffix(lexeme, b, t, |val|);
  }

  // ---- The splice of the second pass ----

  lemma NoColonInKey(pre: string)
    requires All(Blank, pre)
    ensures ':' !in Quoted(REFRESH) + pre
  {
  }

  /** Colon and value of a "refresh_seconds" field. */
  lemma KeyValueAt(text: string, q: nat, fields: Fields)
    requires fields.Field? && WfFields(fields) && fields.key == REFRESH && At(text, q, ShowFields(fields) + "}")
    ensures var colon := Find(text, ':', q + |fields.lead|);
            colon.Some? && RunEnd(Space, text, colon.value + 1) == q + HeadLen(fields)
  {
    hide At, RunEnd, Find, Show, ShowFields, ShowKey, WfValue, RawOk;
    var Field(lead, key, pre, post, v, trail, comma, rest) := fields;
    FieldsInPlace(text, q, fields);
    KeyParts(text, q, lead, key, pre, post);
    NoColonInKey(pre);
    var k := q + |lead|;
    AtJoin(text, k, Quoted(key), pre);
    AtJoin(text, k, Quoted(key) + pre, ":");
    FindOver(text, k, Quoted(key) + pre, ':');
    FirstChar(v);
    AtChar(text, q + HeadLen(fields), Show(v), 0);
    SpacesTo(text, k + |Quoted(key)| + |pre| + 1, post);
  }

  /** The integer the editor would replace: the front of a number, nothing for any other value. */
  lemma IntegerAt(text: string, q: nat, fields: Fields)
    requires fields.Field? && WfFields(fields) && At(text, q, ShowFields(fields) + "}")
    ensures var vs := q + HeadLen(fields);
      && (fields.v.VNum? ==> vs < IntegerEnd(text, vs) == vs + IntegerEnd(fields.v.lexeme, 0) <= |text|)
      && (!fields.v.VNum? ==> IntegerEnd(text, vs) == vs)
  {
    hide At, RunEnd, ShowFields, ShowKey, IntegerEnd, NumEnd, RawOk, WfItems;
    var v, vs := fields.v, q + HeadLen(fields);
    FieldsInPlace(text, q, fields);
    AtChar(text, vs, Show(v), 0);
    if v.VNum? {
      FieldStops(text, vs + |Show(v)|, fields);
      NumAt(text, vs, v.lexeme);
      IntegerStarts(v.lexeme);
    } else {
      NoInteger(text, vs);
    }
  }

  lemma KeySpliced(text: string, q: nat, fields: Fields, val: string)
    requires fields.Field? && WfFields(fields) && fields.key == REFRESH && At(text, q, ShowFields(fields) + "}")
    ensures var vs := q + HeadLen(fields);
      && (!fields.v.VNum? ==> EditEntry(text, Key(q + |fields.lead|), val) == None)
      && (fields.v.VNum? ==>
            && vs + IntegerEnd(fields.v.lexeme, 0) <= |text|
            && EditEntry(text, Key(q + |fields.lead|), val)
               == Some(Splice(text, vs, vs + IntegerEnd(fields.v.lexeme, 0), val)))
  {
    hide At, RunEnd, Find, ShowFields, ShowKey, Splice, IntegerEnd, WfFields, HeadLen;
    KeyValueAt(text, q, fields);
    IntegerAt(text, q, fields);
  }

  lemma IntegerStarts(s: string)
    requires s != "" && NumStart(s[0])
    ensures IntegerEnd(s, 0) > 0
  {
  }

  lemma NoInteger(text: string, p: nat)
    requires p < |text| && !NumStart(text[p])
    ensures IntegerEnd(text, p) == p
  {
  }

  /** The second pass and the splice, on the fields of the entry. */
  lemma {:induction false} EntrySpliced(text: string, q: nat, fields: Fields, val: string, indent: string)
    requires WfFields(fields) && At(text, q, ShowFields(fields) + "}") && KeyOffset(fields).Some?
    ensures RefreshOf(fields).Some?
    ensures !Editable(fields) ==> EditEntry(text, Key(q + KeyOffset(fields).value), val) == None
    ensures Editable(fields) ==>
              var p := Move(FieldsPatch(fields, val, indent), q);
              Fits(p, text) && EditEntry(text, Key(q + KeyOffset(fields).value), val) == Some(Apply(text, p))
    decreases fields
  {
    hide At, Show, ShowFields, ShowKey, WfValue, RawOk, EditEntry, Splice, IntegerEnd;
    if fields.key == REFRESH {
      KeySpliced(text, q, fields, val);
    } else {
      FieldsInPlace(text, q, fields);
      var n := HeadLen(fields) + |Show(fields.v)| + |fields.trail| + |Sep(fields.comma)|;
      EntrySpliced(text, q + n, fields.rest, val, indent);
    }
  }

  lemma {:induction false} KeyMissing(fields: Fields, val: string, indent: string)
    requires KeyOffset(fields).None?
    ensures RefreshOf(fields).None?
    ensures FieldsPatch(fields, val, indent) == Patch(|ShowFields(fields)|, |ShowFields(fields)|, Addition(indent, val))
    decreases fields
  {
    hide Show, ShowFields, ShowKey, Addition;
    if fields.NoField? {
      ShowNoField();
    } else {
      FieldsFrom(fields);
      KeyMissing(fields.rest, val, indent);
    }
  }

  // ---- The whole edit ----

  lemma {:induction false} EntryInPlace(text: string, p: nat, v: Value, d: nat, addr: string)
    requires WfValue(v) && At(text, p, Show(v)) && Target(v, d, addr).Some?
    ensures WfValue(Entry(v, d, addr))
    ensures At(text, p + Target(v, d, addr).value, Show(Entry(v, d, addr)))
    decreases v, 1
  {
    hide At, ShowItems, ShowFields, WfItems, WfFields, ItemsTarget, FieldsTarget, Listens, ItemsEntry, FieldsEntry;
    match v {
      case VArr(pad, items) =>
        AtSplit(text, p, "[", pad + (ShowItems(items) + "]"));
        AtSplit(text, p + 1, pad, ShowItems(items) + "]");
        ItemsEntryInPlace(text, p + 1 + |pad|, items, d, addr);
      case VObj(pad, fields) =>
        if d == 0 {
          AtSplit(text, p, "{", pad + (ShowFields(fields) + "}"));
          AtSplit(text, p + 1, pad, ShowFields(fields) + "}");
          FieldsEntryInPlace(text, p + 1 + |pad|, fields, 1, addr);
        }
    }
  }

  lemma {:induction false} ItemsEntryInPlace(text: string, p: nat, items: Items, d: nat, addr: string)
    requires WfItems(items) && At(text, p, ShowItems(items) + "]") && ItemsTarget(items, d, addr).Some?
    ensures WfValue(ItemsEntry(items, d, addr))
    ensures At(text, p + ItemsTarget(items, d, addr).value, Show(ItemsEntry(items, d, addr)))
    decreases items, 2
  {
    hide At, Show, ShowItems, WfValue, Target, Entry, Delimits;
    ItemsInPlace(text, p, items);
    var n := |items.lead| + |Show(items.v)| + |items.trail| + |Sep(items.comma)|;
    if Target(items.v, d, addr).Some? {
      EntryInPlace(text, p + |items.lead|, items.v, d, addr);
    } else {
      ItemsEntryInPlace(text, p + n, items.rest, d, addr);
    }
  }

  lemma {:induction false} FieldsEntryInPlace(text: string, p: nat, fields: Fields, d: nat, addr: string)
    requires WfFields(fields) && At(text, p, ShowFields(fields) + "}") && FieldsTarget(fields, d, addr).Some?
    ensures WfValue(FieldsEntry(fields, d, addr))
    ensures At(text, p + FieldsTarget(fields, d, addr).value, Show(FieldsEntry(fields, d, addr)))
    decreases fields, 2
  {
    hide At, Show, ShowFields, ShowKey, WfValue, Target, Entry, RawOk;
    FieldsInPlace(text, p, fields);
    var n := HeadLen(fields) + |Show(fields.v)| + |fields.trail| + |Sep(fields.comma)|;
    if Target(fields.v, d, addr).Some? {
      EntryInPlace(text, p + HeadLen(fields), fields.v, d, addr);
    } else {
      FieldsEntryInPlace(text, p + n, fields.rest, d, addr);
    }
  }

  lemma EntryEnds(text: string, addr: string)
    ensures FindEntry(text, |text|, 0, None, addr) == None
  {
  }

  /** First pass on a whole text. */
  lemma DocEntry(doc: Doc, addr: string)
    requires WfDoc(doc)
    ensures FindEntry(ShowDoc(doc), 0, 0, None, addr) == Shift(Target(doc.root, 0, addr), |doc.lead|)
    ensures At(ShowDoc(doc), |doc.lead|, Show(doc.root))
  {
    hide FindEntry, Show, WfValue, Target;
    var text, p := ShowDoc(doc), |doc.lead|;
    assert At(text, 0, text);
    AtSplit(text, 0, doc.lead, Show(doc.root) + doc.trail);
    AtSplit(text, p, Show(doc.root), doc.trail);
    BlankIsPlain(doc.lead);
    BlankIsPlain(doc.trail);
    EntryOver(text, 0, doc.lead, 0, None, addr);
    EntryValue(text, p, doc.root, 0, None, addr);
    EntryOver(text, p + |Show(doc.root)|, doc.trail, 0, None, addr);
    EntryEnds(text, addr);
  }

  /** The fields of an entry, and where the second pass comes to them. */
  lemma FieldsStand(text: string, o: nat, e: Value)
    requires e.VObj? && WfValue(e) && At(text, o, Show(e))
    ensures var q := o + 1 + |e.pad|; var close := q + |ShowFields(e.fields)|;
      && WfFields(e.fields) && At(text, q, ShowFields(e.fields) + "}")
      && close < |text| && text[close] == '}'
      && FindRefresh(text, o + 1, 1) == FindRefresh(text, q, 1)
  {
    hide At, FindRefresh, ShowFields, WfFields;
    var q := o + 1 + |e.pad|;
    AtSplit(text, o, "{", e.pad + (ShowFields(e.fields) + "}"));
    AtSplit(text, o + 1, e.pad, ShowFields(e.fields) + "}");
    AtSplit(text, q, ShowFields(e.fields), "}");
    AtChar(text, q + |ShowFields(e.fields)|, "}", 0);
    BlankIsPlain(e.pad);
    RefreshOver(text, o + 1, e.pad, 1);
  }

  /** Second pass and splice, for an entry that stands at `o`. */
  lemma EntryEdited(text: string, o: nat, e: Value, val: string)
    requires e.VObj? && WfValue(e) && At(text, o, Show(e)) && NoKeyFields(e.fields)
    ensures var q := o + 1 + |e.pad|;
      && q + |ShowFields(e.fields)| < |text| && text[q + |ShowFields(e.fields)|] == '}'
      && var indent := Indent(text, q + |ShowFields(e.fields)|);
         && (!Editable(e.fields) ==> EditEntry(text, FindRefresh(text, o + 1, 1), val) == None)
         && (Editable(e.fields) ==>
               var p := Move(FieldsPatch(e.fields, val, indent), q);
               Fits(p, text) && EditEntry(text, FindRefresh(text, o + 1, 1), val) == Some(Apply(text, p)))
  {
    hide At, FindRefresh, ShowFields, WfValue, WfFields, FieldsPatch, NoKeyFields, KeyOffset, RefreshOf, Indent,
         Addition, Splice, Find, IntegerEnd, RunEnd, Show;
    var q := o + 1 + |e.pad|;
    FieldsStand(text, o, e);
    RefreshFields(text, q, e.fields);
    var indent := Indent(text, q + |ShowFields(e.fields)|);
    if KeyOffset(e.fields).Some? {
      EntrySpliced(text, q, e.fields, val, indent);
    } else {
      KeyMissing(e.fields, val, indent);
    }
  }

  /** The indentation an added field takes: that of the line of the entry's closing brace. */
  function EntryIndent(doc: Doc, addr: string): (r: string)
    requires Target(doc.root, 0, addr).Some?
    ensures All(Blank, r)
  {
    var e := Entry(doc.root, 0, addr);
    var p := |doc.lead| + Target(doc.root, 0, addr).value + 1 + |e.pad| + |ShowFields(e.fields)|;
    if p < |ShowDoc(doc)| && ShowDoc(doc)[p] == '}' then Indent(ShowDoc(doc), p) else ""
  }

  function EditDoc(doc: Doc, addr: string, val: string, indent: string): Doc {
    Doc(doc.lead, EditValue(doc.root, 0, addr, val, indent), doc.trail)
  }

  /** The entry exists, and its number is missing or a number. */
  predicate CanEdit(doc: Doc, addr: string) {
    Target(doc.root, 0, addr).Some? && Editable(Entry(doc.root, 0, addr).fields)
  }

  /** The edit of a text is the edit of its syntax tree; it is refused exactly when that has no place for the number. */
  lemma EditIs(doc: Doc, addr: string, secs: int)
    requires WfDoc(doc)
    requires Target(doc.root, 0, addr).Some? ==> NoKeyFields(Entry(doc.root, 0, addr).fields)
    ensures Edit(ShowDoc(doc), addr, secs)
         == if CanEdit(doc, addr) then Some(ShowDoc(EditDoc(doc, addr, ToString(secs), EntryIndent(doc, addr))))
            else None
  {
    hide At, FindEntry, FindRefresh, Show, ShowFields, WfValue, Target, Entry, EditEntry, FieldsPatch, NoKeyFields,
         EditValue, ToString, RefreshOf, Indent, Apply;
    var text, root, val := ShowDoc(doc), doc.root, ToString(secs);
    DocEntry(doc, addr);
    if Target(root, 0, addr).Some? {
      var e, o := Entry(root, 0, addr), |doc.lead| + Target(root, 0, addr).value;
      EntryInPlace(text, |doc.lead|, root, 0, addr);
      EntryEdited(text, o, e, val);
      if Editable(e.fields) {
        var indent := EntryIndent(doc, addr);
        var p := ValuePatch(root, 0, addr, val, indent);
        ValuePatched(root, 0, addr, val, indent);
        ApplyInside(doc.lead, Show(root), doc.trail, p);
      }
    }
  }
}
