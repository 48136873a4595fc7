/** The config editor against the JSON parser: what an edit does to the parsed tree. */
module EditorMeaning {
  import opened Text
  import opened Json
  import opened JsonGrammar
  import opened JsonCorrect
  import opened ConfigEditor
  import opened EditorScan
  import opened EditorCorrect
  import opened Numbers

  // ---- The intended edit, on trees ----

  /** JsonValue::get: the first member with this key. */
  function Get(o: seq<Member>, key: string): Option<Json> {
    if o == [] then None else if o[0].0 == key then Some(o[0].1) else Get(o[1..], key)
  }

  /** Sets the first member with this key, or appends one. */
  function SetMember(o: seq<Member>, key: string, n: Json): seq<Member> {
    if o == [] then [(key, n)]
    else if o[0].0 == key then [(key, n)] + o[1..]
    else [o[0]] + SetMember(o[1..], key, n)
  }

  predicate HasListen(o: seq<Member>, addr: string) {
    o != [] && (o[0] == (LISTEN, Str(addr)) || HasListen(o[1..], addr))
  }

  /** Some object nested in exactly one other object listens on `addr`. */
  predicate HasEntry(j: Json, d: nat, addr: string)
    decreases j, 0
  {
    match j
    case Arr(a) => SomeEntry(a, d, addr)
    case Obj(o) => if d == 0 then MemberEntry(o, 1, addr) else d == 1 && HasListen(o, addr)
    case _ => false
  }

  predicate SomeEntry(a: seq<Json>, d: nat, addr: string)
    decreases a, 1
  {
    a != [] && (HasEntry(a[0], d, addr) || SomeEntry(a[1..], d, addr))
  }

  predicate MemberEntry(o: seq<Member>, d: nat, addr: string)
    decreases o, 1
  {
    o != [] && var m := o[0]; assert m.1 < m; (HasEntry(m.1, d, addr) || MemberEntry(o[1..], d, addr))
  }

  /** The members of the first such object. */
  function EntryOf(j: Json, d: nat, addr: string): seq<Member>
    requires HasEntry(j, d, addr)
    decreases j, 0
  {
    match j
    case Arr(a) => EntryOfItems(a, d, addr)
    case Obj(o) => if d == 0 then EntryOfMembers(o, 1, addr) else o
  }

  function EntryOfItems(a: seq<Json>, d: nat, addr: string): seq<Member>
    requires SomeEntry(a, d, addr)
    decreases a, 1
  {
    if HasEntry(a[0], d, addr) then EntryOf(a[0], d, addr) else EntryOfItems(a[1..], d, addr)
  }

  function EntryOfMembers(o: seq<Member>, d: nat, addr: string): seq<Member>
    requires MemberEntry(o, d, addr)
    decreases o, 1
  {
    var m := o[0];
    assert m.1 < m;
    if HasEntry(m.1, d, addr) then EntryOf(m.1, d, addr) else EntryOfMembers(o[1..], d, addr)
  }

  /** The tree with "refresh_seconds" of that object set to `n`, and nothing else changed. */
  function JsonEdit(j: Json, d: nat, addr: string, n: Json): Json
    decreases j, 0
  {
    match j
    case Arr(a) => Arr(EditSeq(a, d, addr, n))
    case Obj(o) =>
      if d == 0 then Obj(EditMembers(o, 1, addr, n))
      else if d == 1 && HasListen(o, addr) then Obj(SetMember(o, REFRESH, n))
      else j
    case _ => j
  }

  function EditSeq(a: seq<Json>, d: nat, addr: string, n: Json): seq<Json>
    decreases a, 1
  {
    if a == [] then []
    else if HasEntry(a[0], d, addr) then [JsonEdit(a[0], d, addr, n)] + a[1..]
    else [a[0]] + EditSeq(a[1..], d, addr, n)
  }

  function EditMembers(o: seq<Member>, d: nat, addr: string, n: Json): seq<Member>
    decreases o, 1
  {
    if o == [] then []
    else
      var m := o[0];
      assert m.1 < m;
      if HasEntry(m.1, d, addr) then [(m.0, JsonEdit(m.1, d, addr, n))] + o[1..]
      else [m] + EditMembers(o[1..], d, addr, n)
  }

  // ---- Texts whose entries spell their keys plainly ----

  /** The two keys are written without escapes, listen strings without backslash, and no string repeats the key. */
  predicate CleanEntry(fields: Fields) {
    fields.NoField? ||
    (&& RawOk(fields.key)
     && (Decode(fields.key) == LISTEN ==> fields.key == LISTEN)
     && (Decode(fields.key) == REFRESH ==> fields.key == REFRESH)
     && (fields.key == LISTEN && fields.v.VStr? ==> '\\' !in fields.v.raw)
     && NoKeyString(fields.v)
     && CleanEntry(fields.rest))
  }

  /** Every depth-2 object is clean. */
  predicate Clean(v: Value, d: nat) {
    match v
    case VArr(_, items) => CleanItems(items, d)
    case VObj(_, fields) => if d == 0 then CleanFields(fields, 1) else d == 1 ==> CleanEntry(fields)
    case _ => true
  }

  predicate CleanItems(items: Items, d: nat) {
    items.NoItem? || (Clean(items.v, d) && CleanItems(items.rest, d))
  }

  predicate CleanFields(fields: Fields, d: nat) {
    fields.NoField? || (Clean(fields.v, d) && CleanFields(fields.rest, d))
  }

  // ---- The editor finds what the tree has ----

  lemma {:induction false} NoEscape(raw: string)
    requires RawOk(raw) && '\\' !in raw
    ensures Decode(raw) == raw
    decreases |raw|
  {
    if raw != "" {
      NoEscape(raw[1..]);
    }
  }

  lemma KeysPlain()
    ensures RawOk(LISTEN) && Decode(LISTEN) == LISTEN && RawOk(REFRESH) && Decode(REFRESH) == REFRESH
  {
    hide RawOk, Decode;
    PlainRaw(LISTEN);
    PlainRaw(REFRESH);
  }

  lemma {:induction false} EntryMeans(fields: Fields, addr: string)
    requires WfFields(fields) && CleanEntry(fields)
    ensures Listens(fields, addr) <==> HasListen(FieldsMeaning(fields), addr)
    ensures NoKeyFields(fields)
    ensures RefreshOf(fields).None? <==> Get(FieldsMeaning(fields), REFRESH).None?
    ensures RefreshOf(fields).Some? ==>
              && WfValue(RefreshOf(fields).value)
              && Get(FieldsMeaning(fields), REFRESH) == Some(Meaning(RefreshOf(fields).value))
    decreases fields
  {
    hide RawOk, Decode, WfValue, NoKeyString;
    if fields.Field? {
      KeysPlain();
      EntryMeans(fields.rest, addr);
      if fields.v.VStr? && fields.key == LISTEN {
        StrMeans(fields.v);
      }
    }
  }

  lemma StrMeans(v: Value)
    requires v.VStr? && WfValue(v) && '\\' !in v.raw
    ensures Meaning(v) == Str(v.raw)
  {
    hide RawOk, Decode;
    NoEscape(v.raw);
  }

  lemma {:induction false} TargetMeans(v: Value, d: nat, addr: string)
    requires WfValue(v) && Clean(v, d)
    ensures Target(v, d, addr).Some? <==> HasEntry(Meaning(v), d, addr)
    ensures Target(v, d, addr).Some? ==>
              var e := Entry(v, d, addr);
              && WfValue(e) && CleanEntry(e.fields)
              && EntryOf(Meaning(v), d, addr) == FieldsMeaning(e.fields)
    decreases v, 1
  {
    hide RawOk, Decode, CleanEntry, Show, WfNum;
    match v {
      case VArr(_, items) =>
        ItemsTargetMeans(items, d, addr);
      case VObj(_, fields) =>
        if d == 0 {
          FieldsTargetMeans(fields, 1, addr);
        } else if d == 1 {
          EntryMeans(fields, addr);
        }
      case _ =>
    }
  }

  lemma {:induction false} ItemsTargetMeans(items: Items, d: nat, addr: string)
    requires WfItems(items) && CleanItems(items, d)
    ensures ItemsTarget(items, d, addr).Some? <==> SomeEntry(ItemsMeaning(items), d, addr)
    ensures ItemsTarget(items, d, addr).Some? ==>
              var e := ItemsEntry(items, d, addr);
              && WfValue(e) && CleanEntry(e.fields)
              && EntryOfItems(ItemsMeaning(items), d, addr) == FieldsMeaning(e.fields)
    decreases items, 0
  {
    hide Show, WfValue, Target, Entry, Clean, CleanEntry, HasEntry, EntryOf, Delimits, Meaning;
    if items.Item? {
      TargetMeans(items.v, d, addr);
      ItemsTargetMeans(items.rest, d, addr);
    }
  }

  lemma {:induction false} FieldsTargetMeans(fields: Fields, d: nat, addr: string)
    requires WfFields(fields) && CleanFields(fields, d)
    ensures FieldsTarget(fields, d, addr).Some? <==> MemberEntry(FieldsMeaning(fields), d, addr)
    ensures FieldsTarget(fields, d, addr).Some? ==>
              var e := FieldsEntry(fields, d, addr);
              && WfValue(e) && CleanEntry(e.fields)
              && EntryOfMembers(FieldsMeaning(fields), d, addr) == FieldsMeaning(e.fields)
    decreases fields, 0
  {
    hide Show, ShowKey, WfValue, Target, Entry, Clean, CleanEntry, HasEntry, EntryOf, RawOk, Decode, Meaning;
    if fields.Field? {
      TargetMeans(fields.v, d, addr);
      FieldsTargetMeans(fields.rest, d, addr);
    }
  }

  // ---- What the edit does to the tree ----

  /** The number an edit leaves: `val`, followed by the fraction or exponent of the old number if it had one. */
  function Written(fields: Fields, val: string): string
    requires Editable(fields)
  {
    match RefreshOf(fields)
    case None => val
    case Some(v) => NewNumber(v.lexeme, val)
  }

  lemma AddedWf(val: string, indent: string)
    requires IntLexeme(val) && All(Blank, indent)
    ensures WfFields(SetRefresh(NoField, val, indent))
  {
    hide RawOk, IntLexeme, WfNum, Decode;
    KeysPlain();
    IntIsNum(val);
  }

  lemma {:induction false} SetRefreshWf(fields: Fields, val: string, indent: string)
    requires WfFields(fields) && Editable(fields) && IntLexeme(val) && All(Blank, indent)
    ensures WfFields(SetRefresh(fields, val, indent)) && SetRefresh(fields, val, indent).Field?
    decreases fields
  {
    hide RawOk, IntLexeme, NewNumber, WfNum, Show, Decode, Delimits;
    if fields.NoField? {
      AddedWf(val, indent);
    } else if fields.key == REFRESH {
      NewNumberIs(fields.v.lexeme, val);
    } else {
      SetRefreshWf(fields.rest, val, indent);
    }
  }

  lemma IntIsNum(val: string)
    requires IntLexeme(val)
    ensures WfNum(val)
  {
    hide RunEnd;
  }

  /** An edited tree is well formed, whatever its strings hold. */
  lemma {:induction false} ValueWf(v: Value, d: nat, addr: string, val: string, indent: string)
    requires WfValue(v) && IntLexeme(val) && All(Blank, indent)
    requires Target(v, d, addr).Some? && Editable(Entry(v, d, addr).fields)
    ensures WfValue(EditValue(v, d, addr, val, indent))
    decreases v, 1
  {
    hide RawOk, Show, WfNum, IntLexeme, SetRefresh, EditItems, EditFields, WfItems, WfFields;
    match v {
      case VArr(_, items) =>
        ItemsWf(items, d, addr, val, indent);
      case VObj(_, fields) =>
        if d == 0 {
          FieldsWf(fields, 1, addr, val, indent);
        } else {
          SetRefreshWf(fields, val, indent);
        }
    }
  }

  lemma {:induction false} ItemsWf(items: Items, d: nat, addr: string, val: string, indent: string)
    requires WfItems(items) && IntLexeme(val) && All(Blank, indent)
    requires ItemsTarget(items, d, addr).Some? && Editable(ItemsEntry(items, d, addr).fields)
    ensures WfItems(EditItems(items, d, addr, val, indent)) && EditItems(items, d, addr, val, indent).Item?
    decreases items, 0
  {
    hide Show, ShowItems, WfValue, Entry, Delimits, Editable, IntLexeme;
    if Target(items.v, d, addr).Some? {
      ValueWf(items.v, d, addr, val, indent);
    } else {
      ItemsWf(items.rest, d, addr, val, indent);
      StillDelimits(items.rest, d, addr, val, indent);
    }
  }

  lemma StillDelimits(items: Items, d: nat, addr: string, val: string, indent: string)
    requires ItemsTarget(items, d, addr).Some? && Editable(ItemsEntry(items, d, addr).fields)
    ensures Delimits(ShowItems(items) + "]") ==> Delimits(ShowItems(EditItems(items, d, addr, val, indent)) + "]")
  {
    hide ShowItems, EditItems, ItemsTarget, ItemsEntry, FieldsPatch, Editable;
    ItemsPatched(items, d, addr, val, indent);
  }

  lemma {:induction false} FieldsWf(fields: Fields, d: nat, addr: string, val: string, indent: string)
    requires WfFields(fields) && IntLexeme(val) && All(Blank, indent)
    requires FieldsTarget(fields, d, addr).Some? && Editable(FieldsEntry(fields, d, addr).fields)
    ensures WfFields(EditFields(fields, d, addr, val, indent)) && EditFields(fields, d, addr, val, indent).Field?
    decreases fields, 0
  {
    hide Show, ShowKey, WfValue, Target, Entry, EditValue, RawOk, Editable, IntLexeme;
    if Target(fields.v, d, addr).Some? {
      ValueWf(fields.v, d, addr, val, indent);
    } else {
      FieldsWf(fields.rest, d, addr, val, indent);
    }
  }

  lemma {:induction false} SetRefreshMeans(fields: Fields, val: string, indent: string)
    requires WfFields(fields) && CleanEntry(fields) && Editable(fields) && IntLexeme(val) && All(Blank, indent)
    ensures WfFields(SetRefresh(fields, val, indent))
    ensures FieldsMeaning(SetRefresh(fields, val, indent))
         == SetMember(FieldsMeaning(fields), REFRESH, Num(Written(fields, val)))
    decreases fields
  {
    hide RawOk, Decode, IntLexeme, NewNumber, NumEnd;
    KeysPlain();
    SetRefreshWf(fields, val, indent);
    if fields.Field? && fields.key != REFRESH {
      SetRefreshMeans(fields.rest, val, indent);
    }
  }

  lemma {:induction false} ValueEdit(v: Value, d: nat, addr: string, val: string, indent: string)
    requires WfValue(v) && Clean(v, d) && IntLexeme(val) && All(Blank, indent)
    requires Target(v, d, addr).Some? && Editable(Entry(v, d, addr).fields)
    ensures WfValue(EditValue(v, d, addr, val, indent))
    ensures Meaning(EditValue(v, d, addr, val, indent))
         == JsonEdit(Meaning(v), d, addr, Num(Written(Entry(v, d, addr).fields, val)))
    decreases v, 1
  {
    hide RawOk, Decode, CleanEntry, Show, WfNum, IntLexeme, Written, SetRefresh, SetMember, EditItems, EditFields,
         WfItems, WfFields, CleanItems, CleanFields, EditSeq, EditMembers;
    ValueWf(v, d, addr, val, indent);
    match v {
      case VArr(_, items) =>
        ItemsEdit(items, d, addr, val, indent);
      case VObj(_, fields) =>
        if d == 0 {
          FieldsEdit(fields, 1, addr, val, indent);
        } else {
          EntryMeans(fields, addr);
          SetRefreshMeans(fields, val, indent);
        }
    }
  }

  lemma {:induction false} ItemsEdit(items: Items, d: nat, addr: string, val: string, indent: string)
    requires WfItems(items) && CleanItems(items, d) && IntLexeme(val) && All(Blank, indent)
    requires ItemsTarget(items, d, addr).Some? && Editable(ItemsEntry(items, d, addr).fields)
    ensures WfItems(EditItems(items, d, addr, val, indent))
    ensures ItemsMeaning(EditItems(items, d, addr, val, indent))
         == EditSeq(ItemsMeaning(items), d, addr, Num(Written(ItemsEntry(items, d, addr).fields, val)))
    decreases items, 0
  {
    hide Show, ShowItems, WfValue, Entry, Clean, HasEntry, JsonEdit, Delimits, Meaning, Written, Editable, IntLexeme;
    TargetMeans(items.v, d, addr);
    ItemsWf(items, d, addr, val, indent);
    if Target(items.v, d, addr).Some? {
      ValueEdit(items.v, d, addr, val, indent);
    } else {
      ItemsEdit(items.rest, d, addr, val, indent);
    }
  }

  lemma {:induction false} FieldsEdit(fields: Fields, d: nat, addr: string, val: string, indent: string)
    requires WfFields(fields) && CleanFields(fields, d) && IntLexeme(val) && All(Blank, indent)
    requires FieldsTarget(fields, d, addr).Some? && Editable(FieldsEntry(fields, d, addr).fields)
    ensures WfFields(EditFields(fields, d, addr, val, indent))
    ensures FieldsMeaning(EditFields(fields, d, addr, val, indent))
         == EditMembers(FieldsMeaning(fields), d, addr, Num(Written(FieldsEntry(fields, d, addr).fields, val)))
    decreases fields, 0
  {
    hide Show, ShowKey, WfValue, Target, Entry, Clean, HasEntry, EditValue, JsonEdit, RawOk, Decode, Meaning, Written,
         Editable, IntLexeme;
    TargetMeans(fields.v, d, addr);
    FieldsWf(fields, d, addr, val, indent);
    if Target(fields.v, d, addr).Some? {
      ValueEdit(fields.v, d, addr, val, indent);
    } else {
      FieldsEdit(fields.rest, d, addr, val, indent);
    }
  }

  // ---- The edited tree has the number ----

  lemma {:induction false} GetSet(o: seq<Member>, key: string, n: Json, k: string)
    ensures Get(SetMember(o, key, n), k) == if k == key then Some(n) else Get(o, k)
    decreases |o|
  {
    if o != [] && o[0].0 != key {
      GetSet(o[1..], key, n, k);
      assert ([o[0]] + SetMember(o[1..], key, n))[1..] == SetMember(o[1..], key, n);
    }
  }

  lemma {:induction false} ListenStays(o: seq<Member>, addr: string, n: Json)
    ensures HasListen(SetMember(o, REFRESH, n), addr) <==> HasListen(o, addr)
    decreases |o|
  {
    if o != [] && o[0].0 != REFRESH {
      ListenStays(o[1..], addr, n);
      assert ([o[0]] + SetMember(o[1..], REFRESH, n))[1..] == SetMember(o[1..], REFRESH, n);
    }
  }

  /** The edited entry is found again, and has the number. */
  lemma {:induction false} EntrySet(j: Json, d: nat, addr: string, n: Json)
    requires HasEntry(j, d, addr)
    ensures HasEntry(JsonEdit(j, d, addr, n), d, addr)
    ensures Get(EntryOf(JsonEdit(j, d, addr, n), d, addr), REFRESH) == Some(n)
    decreases j, 0
  {
    hide SetMember, EditSeq, EditMembers, SomeEntry, MemberEntry, HasListen, Get, EntryOfItems, EntryOfMembers;
    match j {
      case Arr(s) =>
        SeqSet(s, d, addr, n);
      case Obj(o) =>
        if d == 0 {
          MembersSet(o, 1, addr, n);
        } else {
          ListenStays(o, addr, n);
          GetSet(o, REFRESH, n, REFRESH);
        }
    }
  }

  lemma {:induction false} SeqSet(s: seq<Json>, d: nat, addr: string, n: Json)
    requires SomeEntry(s, d, addr)
    ensures SomeEntry(EditSeq(s, d, addr, n), d, addr)
    ensures Get(EntryOfItems(EditSeq(s, d, addr, n), d, addr), REFRESH) == Some(n)
    decreases s, 1
  {
    hide HasEntry, JsonEdit, EntryOf, Get;
    if HasEntry(s[0], d, addr) {
      EntrySet(s[0], d, addr, n);
    } else {
      SeqSet(s[1..], d, addr, n);
      assert ([s[0]] + EditSeq(s[1..], d, addr, n))[1..] == EditSeq(s[1..], d, addr, n);
    }
  }

  lemma {:induction false} MembersSet(o: seq<Member>, d: nat, addr: string, n: Json)
    requires MemberEntry(o, d, addr)
    ensures MemberEntry(EditMembers(o, d, addr, n), d, addr)
    ensures Get(EntryOfMembers(EditMembers(o, d, addr, n), d, addr), REFRESH) == Some(n)
    decreases o, 1
  {
    hide HasEntry, JsonEdit, EntryOf, Get;
    var m := o[0];
    assert m.1 < m;
    if HasEntry(m.1, d, addr) {
      EntrySet(m.1, d, addr, n);
    } else {
      MembersSet(o[1..], d, addr, n);
      assert ([m] + EditMembers(o[1..], d, addr, n))[1..] == EditMembers(o[1..], d, addr, n);
    }
  }

  /** Different numbers give different trees. */
  lemma EditInjective(j: Json, d: nat, addr: string, a: Json, b: Json)
    requires HasEntry(j, d, addr) && JsonEdit(j, d, addr, a) == JsonEdit(j, d, addr, b)
    ensures a == b
  {
    hide HasEntry, JsonEdit, EntryOf, Get;
    EntrySet(j, d, addr, a);
    EntrySet(j, d, addr, b);
  }

  // ---- Main results ----

  /** The number in the entry that listens on `addr` is missing, or is a number. */
  predicate TakesNumber(j: Json, addr: string)
    requires HasEntry(j, 0, addr)
  {
    var n := Get(EntryOf(j, 0, addr), REFRESH);
    n.Some? ==> n.value.Num?
  }

  /** What stands behind the integer part of the entry's number; nothing when the number is missing. */
  function OldTail(j: Json, addr: string): string {
    if !HasEntry(j, 0, addr) then ""
    else
      match Get(EntryOf(j, 0, addr), REFRESH)
      case Some(Num(lexeme)) => Tail(lexeme)
      case _ => ""
  }

  /**
   The edit succeeds exactly when some entry listens on `addr` and its number is
   missing or a number.  The new text then parses to the old tree with only that
   number set: to the new integer, followed by what stood behind the old one.
   */
  lemma EditMeans(doc: Doc, addr: string, secs: int)
    requires WfDoc(doc) && Clean(doc.root, 0)
    ensures ParseJson(ShowDoc(doc)) == Some(Meaning(doc.root))
    ensures var j, t := Meaning(doc.root), Edit(ShowDoc(doc), addr, secs);
      && (t.Some? <==> HasEntry(j, 0, addr) && TakesNumber(j, addr))
      && (t.Some? ==> ParseJson(t.value) == Some(JsonEdit(j, 0, addr, Num(ToString(secs) + OldTail(j, addr)))))
  {
    hide ParseJson, Edit, ShowDoc, Clean, Target, Entry, EditValue, HasEntry, JsonEdit, EntryOf, Get, RefreshOf,
         FieldsMeaning, CleanEntry, NoKeyFields, EntryIndent, ToString, IntLexeme, Tail;
    var root, val := doc.root, ToString(secs);
    DocParses(doc);
    TargetMeans(root, 0, addr);
    if Target(root, 0, addr).Some? {
      var fields := Entry(root, 0, addr).fields;
      EntryMeans(fields, addr);
      if Editable(fields) {
        ToStringIsInt(secs);
        ValueEdit(root, 0, addr, val, EntryIndent(doc, addr));
        DocParses(EditDoc(doc, addr, val, EntryIndent(doc, addr)));
        assert val + "" == val;
      }
    }
    EditIs(doc, addr, secs);
  }

  /**
   The value after an edit: the integer the program reads is the one written, and the
   number in the file is the one written, each exactly under a condition on what stood
   behind the old integer part.
   */
  lemma EditReads(c: Stod, doc: Doc, addr: string, secs: int)
    requires Nearest(c) && WfDoc(doc) && Clean(doc.root, 0) && Edit(ShowDoc(doc), addr, secs).Some?
    ensures var j, t := Meaning(doc.root), Edit(ShowDoc(doc), addr, secs).value;
      && HasEntry(j, 0, addr) && TakesNumber(j, addr) && ParseJson(t).Some? && HasEntry(ParseJson(t).value, 0, addr)
      && var n, tail := Get(EntryOf(ParseJson(t).value, 0, addr), REFRESH), OldTail(j, addr);
         && n.Some? && n.value.Num?
         && (IntOf(c, n.value.lexeme) == secs <==> ReadAs(c, secs, tail))
         && (NumberOf(n.value.lexeme).Is(secs) <==> AddsNothing(secs, tail))
  {
    hide ParseJson, Edit, ShowDoc, Clean, HasEntry, JsonEdit, EntryOf, ToString, Tail, TakesNumber, OldTail, IntOf,
         ReadAs, AddsNothing, NumberOf, IsTail, Nearest;
    var j := Meaning(doc.root);
    EditMeans(doc, addr, secs);
    OldTailIsTail(j, addr);
    EntrySet(j, 0, addr, Num(ToString(secs) + OldTail(j, addr)));
    WrittenReads(c, secs, OldTail(j, addr));
  }

  lemma OldTailIsTail(j: Json, addr: string)
    ensures IsTail(OldTail(j, addr))
  {
    hide HasEntry, EntryOf, Tail;
    if HasEntry(j, 0, addr) {
      var n := Get(EntryOf(j, 0, addr), REFRESH);
      if n.Some? && n.value.Num? {
        TailIsTail(n.value.lexeme);
      }
    }
  }

  // ---- Last writer wins ----

  lemma {:induction false} SetAgain(fields: Fields, addr: string, a: string, b: string, indent: string, other: string)
    requires WfFields(fields) && Editable(fields) && IntLexeme(a)
    ensures SetRefresh(SetRefresh(fields, a, indent), b, other) == SetRefresh(fields, b, indent)
    ensures Listens(SetRefresh(fields, a, indent), addr) <==> Listens(fields, addr)
    ensures Editable(SetRefresh(fields, a, indent))
    ensures NoKeyFields(fields) ==> NoKeyFields(SetRefresh(fields, a, indent))
    decreases fields
  {
    hide RawOk, NewNumber, IntLexeme;
    if fields.NoField? {
      IntReplaced(a, b);
    } else if fields.key == REFRESH {
      NewNumberIs(fields.v.lexeme, a);
    } else {
      SetAgain(fields.rest, addr, a, b, indent, other);
    }
  }

  lemma IntReplaced(a: string, b: string)
    requires IntLexeme(a)
    ensures NewNumber(a, b) == b
  {
  }

  lemma {:induction false} ValueAgain(v: Value, d: nat, addr: string,
                                      a: string, b: string, indent: string, other: string)
    requires WfValue(v) && IntLexeme(a)
    requires Target(v, d, addr).Some? && Editable(Entry(v, d, addr).fields)
    ensures var w := EditValue(v, d, addr, a, indent);
      && Target(w, d, addr).Some? && Editable(Entry(w, d, addr).fields)
      && (NoKeyFields(Entry(v, d, addr).fields) ==> NoKeyFields(Entry(w, d, addr).fields))
      && EditValue(w, d, addr, b, other) == EditValue(v, d, addr, b, indent)
    decreases v, 1
  {
    hide RawOk, Show, WfNum, IntLexeme, SetRefresh, EditItems, EditFields, ItemsTarget, FieldsTarget, ItemsEntry,
         FieldsEntry, WfItems, WfFields, RefreshOf;
    match v {
      case VArr(_, items) =>
        ItemsAgain(items, d, addr, a, b, indent, other);
      case VObj(_, fields) =>
        if d == 0 {
          FieldsAgain(fields, 1, addr, a, b, indent, other);
        } else {
          SetAgain(fields, addr, a, b, indent, other);
        }
    }
  }

  lemma {:induction false} ItemsAgain(items: Items, d: nat, addr: string,
                                      a: string, b: string, indent: string, other: string)
    requires WfItems(items) && IntLexeme(a)
    requires ItemsTarget(items, d, addr).Some? && Editable(ItemsEntry(items, d, addr).fields)
    ensures var w := EditItems(items, d, addr, a, indent);
      && ItemsTarget(w, d, addr).Some? && Editable(ItemsEntry(w, d, addr).fields)
      && (NoKeyFields(ItemsEntry(items, d, addr).fields) ==> NoKeyFields(ItemsEntry(w, d, addr).fields))
      && EditItems(w, d, addr, b, other) == EditItems(items, d, addr, b, indent)
    decreases items, 0
  {
    hide Show, ShowItems, WfValue, Target, Entry, EditValue, Delimits, Editable, IntLexeme;
    if Target(items.v, d, addr).Some? {
      ValueAgain(items.v, d, addr, a, b, indent, other);
    } else {
      ItemsAgain(items.rest, d, addr, a, b, indent, other);
    }
  }

  lemma {:induction false} FieldsAgain(fields: Fields, d: nat, addr: string,
                                       a: string, b: string, indent: string, other: string)
    requires WfFields(fields) && IntLexeme(a)
    requires FieldsTarget(fields, d, addr).Some? && Editable(FieldsEntry(fields, d, addr).fields)
    ensures var w := EditFields(fields, d, addr, a, indent);
      && FieldsTarget(w, d, addr).Some? && Editable(FieldsEntry(w, d, addr).fields)
      && (NoKeyFields(FieldsEntry(fields, d, addr).fields) ==> NoKeyFields(FieldsEntry(w, d, addr).fields))
      && EditFields(w, d, addr, b, other) == EditFields(fields, d, addr, b, indent)
    decreases fields, 0
  {
    hide Show, ShowKey, WfValue, Target, Entry, EditValue, RawOk, Editable, IntLexeme;
    if Target(fields.v, d, addr).Some? {
      ValueAgain(fields.v, d, addr, a, b, indent, other);
    } else {
      FieldsAgain(fields.rest, d, addr, a, b, indent, other);
    }
  }

  /**
   Writing `a` and then `b` gives, character by character, the text of writing
   `b` directly: also when the first write adds the field and the second replaces it.
   */
  lemma LastWriterWins(doc: Doc, addr: string, a: int, b: int)
    requires WfDoc(doc)
    requires Target(doc.root, 0, addr).Some? ==> NoKeyFields(Entry(doc.root, 0, addr).fields)
    ensures var t := Edit(ShowDoc(doc), addr, a);
            t.Some? ==> Edit(t.value, addr, b) == Edit(ShowDoc(doc), addr, b) != None
  {
    hide Edit, ShowDoc, WfValue, Target, Entry, EditValue, NoKeyFields, EntryIndent, ToString, IntLexeme, Editable;
    var root := doc.root;
    EditIs(doc, addr, a);
    EditIs(doc, addr, b);
    if CanEdit(doc, addr) {
      ToStringIsInt(a);
      var indent := EntryIndent(doc, addr);
      var doc' := EditDoc(doc, addr, ToString(a), indent);
      ValueWf(root, 0, addr, ToString(a), indent);
      ValueAgain(root, 0, addr, ToString(a), ToString(b), indent, indent);
      EditIs(doc', addr, b);
      ValueAgain(root, 0, addr, ToString(a), ToString(b), indent, EntryIndent(doc', addr));
    }
  }

  // ---- A number the edit gets wrong ----

  function ExponentEntry(): Fields {
    Field("", LISTEN, "", "", VStr(":1"), "", true,
          Field("", REFRESH, "", "", VNum("5e1"), "", false, NoField))
  }

  function ExponentPorts(): Items {
    Item("", VObj("", ExponentEntry()), "", false, NoItem)
  }

  /** {"ports":[{"listen":":1","refresh_seconds":5e1}]} */
  function ExponentDoc(): Doc {
    Doc("", VObj("", Field("", "ports", "", "", VArr("", ExponentPorts()), "", false, NoField)), "")
  }

  /** Writing 7 over 5e1 leaves 7e1: the edit reports success and the program then reads 70. */
  lemma ExponentSurvives(c: Stod)
    requires Nearest(c) && !c.fails(NumberOf("7e1"))
    ensures var doc := ExponentDoc();
      && WfDoc(doc) && Clean(doc.root, 0)
      && var j, t := Meaning(doc.root), Edit(ShowDoc(doc), ":1", 7);
         t.Some? && ParseJson(t.value) == Some(JsonEdit(j, 0, ":1", Num("7e1")))
         && IntOf(c, "7e1") == 70
  {
    ExponentDocWf();
    ExponentEdited(ExponentDoc());
    ExponentReads(c);
  }

  lemma ExponentTail()
    ensures IsTail("e1") && Fraction("e1") == "" && Exponent("e1") == 1
  {
    assert FractionEnd("e1", 0) == 0 && "e1"[1..] == "1" && "1"[..0] == "";
    assert ValueOf("1") == 1;
  }

  lemma SevenTens()
    ensures var d := Decimal(false, 7, 0, 0, 1); d.Signed(d.Floor()) == 70 && !d.HalfUp()
  {
    assert Pow10(0) == 1 && Pow10(1) == 10 * Pow10(0);
  }

  lemma ExponentValue()
    ensures NumberOf("7e1") == Decimal(false, 7, 0, 0, 1)
  {
    hide NumberOf, Fraction, Exponent, Decimal.Floor, Decimal.HalfUp, Pow10;
    ExponentTail();
    ReadsParts(7, "e1");
    assert ToString(7) + "e1" == "7e1";
  }

  lemma ExponentReads(c: Stod)
    requires Nearest(c) && !c.fails(NumberOf("7e1"))
    ensures IntOf(c, "7e1") == 70
  {
    hide NumberOf, Decimal.Floor, Decimal.HalfUp;
    ExponentValue();
    SevenTens();
  }

  lemma ExponentIsNum()
    ensures WfNum("5e1")
  {
  }

  lemma ExponentEntryWf()
    ensures WfFields(ExponentEntry()) && CleanEntry(ExponentEntry())
  {
    hide RawOk, Decode, WfNum;
    KeysPlain();
    ExponentIsNum();
    PlainRaw(":1");
  }

  lemma ExponentPortsWf()
    ensures WfItems(ExponentPorts()) && CleanItems(ExponentPorts(), 1)
  {
    hide RawOk, WfNum, WfFields, CleanEntry, Show, ExponentEntry;
    ExponentEntryWf();
    assert WfItems(NoItem) && CleanItems(NoItem, 1);
  }

  lemma ExponentDocWf()
    ensures WfDoc(ExponentDoc()) && Clean(ExponentDoc().root, 0)
  {
    hide RawOk, WfNum, WfItems, CleanItems, ExponentPorts, Show;
    ExponentPortsWf();
    PlainRaw("ports");
    var fields := ExponentDoc().root.fields;
    assert WfFields(NoField) && CleanFields(NoField, 1);
    assert WfFields(fields) && CleanFields(fields, 1);
  }

  lemma ExponentFound(doc: Doc)
    requires doc == ExponentDoc() && WfDoc(doc) && Clean(doc.root, 0)
    ensures var j := Meaning(doc.root);
            HasEntry(j, 0, ":1") && Get(EntryOf(j, 0, ":1"), REFRESH) == Some(Num("5e1"))
  {
    hide Clean, Meaning, HasEntry, EntryOf, WfValue, CleanEntry, FieldsMeaning, Get;
    var items := doc.root.fields.v.items;
    assert ItemsTarget(items, 1, ":1") == Some(0);
    TargetMeans(doc.root, 0, ":1");
    assert Entry(doc.root, 0, ":1").fields == ExponentEntry();
    ExponentOfEntry();
  }

  lemma ExponentOfEntry()
    ensures WfFields(ExponentEntry()) && Get(FieldsMeaning(ExponentEntry()), REFRESH) == Some(Num("5e1"))
  {
    hide FieldsMeaning, Get, Meaning, WfFields, CleanEntry;
    ExponentEntryWf();
    EntryMeans(ExponentEntry(), ":1");
    assert RefreshOf(ExponentEntry()) == Some(VNum("5e1"));
    NumMeans("5e1");
  }

  lemma NumMeans(lexeme: string)
    requires WfValue(VNum(lexeme))
    ensures Meaning(VNum(lexeme)) == Num(lexeme)
  {
  }

  lemma ExponentEdited(doc: Doc)
    requires doc == ExponentDoc() && WfDoc(doc) && Clean(doc.root, 0)
    ensures var j, t := Meaning(doc.root), Edit(ShowDoc(doc), ":1", 7);
            t.Some? && ParseJson(t.value) == Some(JsonEdit(j, 0, ":1", Num("7e1")))
  {
    hide ParseJson, Edit, ShowDoc, Clean, Meaning, JsonEdit, HasEntry, EntryOf, Get, ExponentDoc, WfDoc;
    ExponentFound(doc);
    EditMeans(doc, ":1", 7);
    assert Tail("5e1") == "e1" && ToString(7) == "7";
    assert "7" + "e1" == "7e1";
  }
}
