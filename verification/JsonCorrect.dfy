/** src/json.cpp reads every well-formed text as the tree it stands for, and stops at its end. */
module JsonCorrect {
  import opened Text
  import opened Json
  import opened JsonGrammar

  lemma ParseSkips(text: string, p: nat, ws: string, d: nat, n: nat)
    requires At(text, p, ws) && All(Blank, ws)
    ensures ParseVal(text, p, d, n) == ParseVal(text, p + |ws|, d, n)
  {
    hide Loop, ScanStr, ParseScalar, Members, Values, RunEnd;
    SkipsAlike(text, p, ws);
  }

  lemma SkipNone(text: string, p: nat)
    requires p < |text| && !Blank.Has(text[p])
    ensures Skip(text, p) == p
  {
  }

  lemma OpensArray(text: string, p: nat, r: nat, d: nat, n: nat)
    requires p < |text| && text[p] == '[' && r == Skip(text, p + 1) && d > 0
    ensures r < |text| && text[r] == ']' ==> ParseVal(text, p, d, n) == Parsed(Arr([]), r + 1)
    ensures !(r < |text| && text[r] == ']') ==>
              ParseVal(text, p, d, n) == AsArr(Loop(text, ']', r, [], Values(text, d - 1, n), n))
  {
    hide Loop, Values;
  }

  lemma OpensObject(text: string, p: nat, r: nat, d: nat, n: nat)
    requires p < |text| && text[p] == '{' && r == Skip(text, p + 1) && d > 0
    ensures r < |text| && text[r] == '}' ==> ParseVal(text, p, d, n) == Parsed(Obj([]), r + 1)
    ensures !(r < |text| && text[r] == '}') ==>
              ParseVal(text, p, d, n) == AsObj(Loop(text, '}', r, [], Members(text, d - 1, n), n))
  {
    hide Loop, Members;
  }

  /** What follows an element: a comma, the next element, or the closing character. */
  lemma AfterComma(text: string, close: char, e: nat, trail: string)
    requires At(text, e, trail + ",") && All(Blank, trail)
    ensures EndPass(text, close, e) == Again(e + |trail| + 1)
  {
    AtSplit(text, e, trail, ",");
    SkipBlanks(text, e, trail);
  }

  lemma AfterLast(text: string, close: char, e: nat, trail: string)
    requires At(text, e, trail + [close]) && All(Blank, trail)
    requires close == ']' || close == '}'
    ensures EndPass(text, close, e) == Closed(e + |trail| + 1)
  {
    AtSplit(text, e, trail, [close]);
    SkipBlanks(text, e, trail);
  }

  /** Without a comma the next pass starts past the blanks, at the next element. */
  lemma AfterNothing(text: string, close: char, e: nat, trail: string, lead: string)
    requires At(text, e, trail) && At(text, e + |trail|, lead) && All(Blank, trail) && All(Blank, lead)
    requires var q := e + |trail| + |lead|;
             q < |text| && !Blank.Has(text[q]) && text[q] != ',' && text[q] != close
    ensures EndPass(text, close, e) == Again(e + |trail| + |lead|)
  {
    hide At, RunEnd;
    SkipBlanks(text, e + |trail|, lead);
    SkipsAlike(text, e, trail);
  }

  lemma TailParts(text: string, e: nat, trail: string, sep: string, s: string, close: string)
    requires At(text, e, trail + (sep + s) + close)
    ensures At(text, e, trail) && At(text, e, trail + sep) && At(text, e + |trail| + |sep|, s + close)
  {
    hide At;
    assert trail + (sep + s) + close == (trail + sep) + (s + close);
    AtSplit(text, e, trail + sep, s + close);
    AtSplit(text, e, trail, sep);
  }

  lemma KeyParts(text: string, p: nat, lead: string, key: string, pre: string, post: string)
    requires At(text, p, ShowKey(lead, key, pre, post))
    ensures At(text, p, lead)
    ensures var k := p + |lead|;
      && At(text, k, Quoted(key))
      && At(text, k + |Quoted(key)|, pre)
      && At(text, k + |Quoted(key)| + |pre|, ":")
      && At(text, k + |Quoted(key)| + |pre| + 1, post)
    ensures |ShowKey(lead, key, pre, post)| == |lead| + |key| + |pre| + |post| + 3
  {
    hide At;
    var k, q := p + |lead|, Quoted(key);
    AtSplit(text, p, lead, q + (pre + (":" + post)));
    AtSplit(text, k, q, pre + (":" + post));
    AtSplit(text, k + |q|, pre, ":" + post);
    AtSplit(text, k + |q| + |pre|, ":", post);
  }

  lemma KeyAt(text: string, p: nat, lead: string, key: string, pre: string, post: string)
    requires At(text, p, ShowKey(lead, key, pre, post)) && All(Blank, lead) && All(Blank, pre) && RawOk(key)
    ensures MemberKey(text, p).0 == Decode(key)
    ensures MemberValueAt(text, p) == p + |lead| + |key| + 2 + |pre| + 1
    ensures At(text, MemberValueAt(text, p), post)
    ensures |ShowKey(lead, key, pre, post)| == |lead| + |key| + |pre| + |post| + 3
  {
    hide At, RunEnd, Decode, RawOk, ParseStr, ShowKey;
    KeyParts(text, p, lead, key, pre, post);
    var k, c := p + |lead|, p + |lead| + |key| + 2;
    StrAt(text, k, key);
    SkipBlanks(text, p, lead);
    AtChar(text, c + |pre|, ":", 0);
    SkipBlanks(text, c, pre);
  }

  lemma MemberSkips(text: string, p: nat, ws: string, d: nat, n: nat)
    requires At(text, p, ws) && All(Blank, ws)
    ensures Members(text, d, n)(p) == Members(text, d, n)(p + |ws|)
  {
    hide ParseVal, ScanStr, RunEnd;
    SkipsAlike(text, p, ws);
  }

  // ---- The three mutually inductive statements ----

  lemma NumParses(text: string, p: nat, lexeme: string)
    requires WfNum(lexeme) && At(text, p, lexeme) && Stops(text, p + |lexeme|) && p < |text|
    ensures ParseScalar(text, p) == Parsed(Num(lexeme), p + |lexeme|)
  {
    hide NumEnd;
    NumAt(text, p, lexeme);
    AtChar(text, p, lexeme, 0);
    assert text[p..p + |lexeme|] == lexeme;
    forall w | w == "true" || w == "false" || w == "null"
      ensures !At(text, p, w)
    {
      if At(text, p, w) {
        AtChar(text, p, w, 0);
      }
    }
  }

  /** Values without values in them. */
  lemma ScalarParses(text: string, p: nat, v: Value, d: nat, n: nat)
    requires WfValue(v) && At(text, p, Show(v)) && !v.VArr? && !v.VObj? && d > 0
    requires v.VNum? ==> Stops(text, p + |Show(v)|)
    ensures ParseVal(text, p, d, n) == Parsed(Meaning(v), p + |Show(v)|)
  {
    hide RunEnd, Loop, ScanStr, Members, Values, NumEnd, WfNum, RawOk, Decode;
    FirstChar(v);
    AtChar(text, p, Show(v), 0);
    SkipNone(text, p);
    match v {
      case VNum(lexeme) =>
        NumParses(text, p, lexeme);
      case VStr(raw) =>
        StrAt(text, p, raw);
      case _ =>
    }
  }

  lemma {:induction false} ValueParses(text: string, p: nat, v: Value, d: nat, n: nat)
    requires WfValue(v) && At(text, p, Show(v)) && d >= Size(v) && n >= Size(v)
    requires v.VNum? ==> Stops(text, p + |Show(v)|)
    ensures ParseVal(text, p, d, n) == Parsed(Meaning(v), p + |Show(v)|)
    decreases v, 1
  {
    hide At, Stops, ParseVal, WfItems, WfFields, ShowItems, ShowFields, ItemsMeaning, FieldsMeaning;
    match v {
      case VArr(pad, items) =>
        ArrayParses(text, p, pad, items, d, n);
      case VObj(pad, fields) =>
        ObjectParses(text, p, pad, fields, d, n);
      case _ =>
        ScalarParses(text, p, v, d, n);
    }
  }

  lemma {:induction false} ArrayParses(text: string, p: nat, pad: string, items: Items, d: nat, n: nat)
    requires All(Blank, pad) && WfItems(items) && At(text, p, "[" + (pad + (ShowItems(items) + "]")))
    requires d >= 1 + ItemsSize(items) && n >= 1 + ItemsSize(items)
    ensures ParseVal(text, p, d, n) == Parsed(Arr(ItemsMeaning(items)), p + |pad| + |ShowItems(items)| + 2)
    decreases items, 3
  {
    hide At, Loop, ParseVal, Values, Members, RunEnd, WfItems, WfFields, ShowItems, ShowFields;
    AtSplit(text, p, "[", pad + (ShowItems(items) + "]"));
    AtSplit(text, p + 1, pad, ShowItems(items) + "]");
    var q := p + 1 + |pad|;
    if items.NoItem? {
      ShowNoItem();
      SkipBlanks(text, p + 1, pad);
      OpensArray(text, p, q, d, n);
    } else {
      var lead := items.lead;
      ItemsLead(text, q, items);
      SkipBlanks(text, q, lead);
      SkipsAlike(text, p + 1, pad);
      ItemsParse(text, q, items, [], d - 1, n, n);
      ItemsSkip(text, q, lead, [], d - 1, n, n);
      OpensArray(text, p, q + |lead|, d, n);
      assert [] + ItemsMeaning(items) == ItemsMeaning(items);
    }
  }

  lemma ValuesAt(text: string, p: nat, d: nat, n: nat)
    ensures Values(text, d, n)(p) == ParseVal(text, p, d, n)
  {
    hide ParseVal;
  }

  /** The front of a non-empty item list. */
  lemma ItemsLead(text: string, q: nat, items: Items)
    requires items.Item? && WfItems(items) && At(text, q, ShowItems(items) + "]")
    ensures At(text, q, items.lead) && All(Blank, items.lead)
    ensures var c := q + |items.lead|;
            c < |text| && !Blank.Has(text[c]) && text[c] != ',' && text[c] != ']' && text[c] != ':'
  {
    hide At, WfValue, Show;
    FirstChar(items.v);
    var shown, after := Show(items.v), items.trail + (Sep(items.comma) + ShowItems(items.rest)) + "]";
    assert ShowItems(items) + "]" == items.lead + (shown + after);
    AtSplit(text, q, items.lead, shown + after);
  }

  lemma ItemsParts(items: Items)
    requires items.Item?
    ensures ShowItems(items) + "]" ==
            items.lead + (Show(items.v) + (items.trail + (Sep(items.comma) + ShowItems(items.rest)) + "]"))
    ensures |ShowItems(items)| ==
            |items.lead| + |Show(items.v)| + |items.trail| + |Sep(items.comma)| + |ShowItems(items.rest)|
  {
    hide Show;
  }

  /** The first item of a list and what follows it. */
  lemma {:induction false} ItemAt(text: string, p: nat, items: Items, d: nat, n: nat)
    requires items.Item? && WfItems(items) && At(text, p, ShowItems(items) + "]")
    requires d >= Size(items.v) && n >= Size(items.v)
    ensures var e := p + |items.lead| + |Show(items.v)|;
      && Values(text, d, n)(p) == Parsed(Meaning(items.v), e)
      && At(text, e, items.trail + (Sep(items.comma) + ShowItems(items.rest)) + "]")
    ensures |ShowItems(items)| ==
            |items.lead| + |Show(items.v)| + |items.trail| + |Sep(items.comma)| + |ShowItems(items.rest)|
    decreases items, 0
  {
    hide At, ParseVal, Values, WfValue, Size, Show, ShowItems, Delimits, Meaning;
    var Item(lead, v, trail, comma, rest) := items;
    var shown, after := Show(v), trail + (Sep(comma) + ShowItems(rest)) + "]";
    ItemsParts(items);
    AtSplit(text, p, lead, shown + after);
    AtSplit(text, p + |lead|, shown, after);
    ItemStops(text, p + |lead| + |shown|, items);
    ValueParses(text, p + |lead|, v, d, n);
    ParseSkips(text, p, lead, d, n);
    ValuesAt(text, p, d, n);
  }

  /** One step along a list, in meaning and in size. */
  lemma ItemsCons(items: Items, acc: seq<Json>)
    requires items.Item? && WfItems(items)
    ensures WfValue(items.v) && WfItems(items.rest)
    ensures acc + ItemsMeaning(items) == acc + [Meaning(items.v)] + ItemsMeaning(items.rest)
    ensures items.rest.NoItem? ==> acc + ItemsMeaning(items) == acc + [Meaning(items.v)]
    ensures ItemsSize(items) == 1 + Size(items.v) + ItemsSize(items.rest)
    ensures items.rest.NoItem? ==> !items.comma
  {
    hide WfValue, Meaning, Size, Delimits, Show;
    var m, rest := Meaning(items.v), ItemsMeaning(items.rest);
    assert ItemsMeaning(items) == [m] + rest;
    assert acc + ([m] + rest) == acc + [m] + rest;
  }

  /** The pass of the loop over an item: it ends the loop, or leads to the rest of the list. */
  lemma {:induction false} ItemPass(text: string, p: nat, items: Items, acc: seq<Json>, d: nat, n: nat, passes: nat)
    requires items.Item? && WfItems(items) && WfValue(items.v) && WfItems(items.rest)
    requires At(text, p, ShowItems(items) + "]")
    requires d >= Size(items.v) && n >= Size(items.v) && passes > 0 && (items.rest.NoItem? ==> !items.comma)
    ensures |ShowItems(items.rest)| <= |ShowItems(items)|
    ensures var q, more := p + |ShowItems(items)| - |ShowItems(items.rest)|, acc + [Meaning(items.v)];
      && At(text, q, ShowItems(items.rest) + "]")
      && Loop(text, ']', p, acc, Values(text, d, n), passes)
         == if items.rest.NoItem? then Parsed(more, q + 1) else Loop(text, ']', q, more, Values(text, d, n), passes - 1)
    decreases items, 1
  {
    hide At, ParseVal, EndPass, Loop, Values, WfValue, WfItems, Size, Show, ShowItems, Delimits, Meaning;
    var Item(lead, v, trail, comma, rest) := items;
    var e, more := p + |lead| + |Show(v)|, acc + [Meaning(v)];
    var q := e + |trail| + |Sep(comma)|;
    ItemAt(text, p, items, d, n);
    ItemTail(text, e, items);
    LoopPass(text, ']', p, acc, Values(text, d, n), passes, Meaning(v), e);
    if rest.Item? {
      ItemsLead(text, q, rest);
      ItemsSkip(text, q, rest.lead, more, d, n, passes - 1);
    }
  }

  lemma {:induction false} ItemsParse(text: string, p: nat, items: Items, acc: seq<Json>, d: nat, n: nat, passes: nat)
    requires items.Item? && WfItems(items) && At(text, p, ShowItems(items) + "]")
    requires d >= ItemsSize(items) && n >= ItemsSize(items) && passes >= ItemsSize(items)
    ensures Loop(text, ']', p, acc, Values(text, d, n), passes)
         == Parsed(acc + ItemsMeaning(items), p + |ShowItems(items)| + 1)
    decreases items, 2
  {
    hide At, Loop, Values, WfValue, WfItems, Size, ItemsSize, ShowItems, Meaning, ItemsMeaning;
    ItemsCons(items, acc);
    var rest, more := items.rest, acc + [Meaning(items.v)];
    ItemPass(text, p, items, acc, d, n, passes);
    if rest.NoItem? {
      ShowNoItem();
    } else {
      ItemsParse(text, p + |ShowItems(items)| - |ShowItems(rest)|, rest, more, d, n, passes - 1);
    }
  }

  lemma ShowNoItem()
    ensures ShowItems(NoItem) == ""
  {
  }

  /** Blanks in front of an item do not change the loop. */
  lemma ItemsSkip(text: string, q: nat, lead: string, acc: seq<Json>, d: nat, n: nat, passes: nat)
    requires At(text, q, lead) && All(Blank, lead)
    ensures Loop(text, ']', q, acc, Values(text, d, n), passes)
         == Loop(text, ']', q + |lead|, acc, Values(text, d, n), passes)
  {
    hide At, ParseVal, Values;
    ParseSkips(text, q, lead, d, n);
    ValuesAt(text, q, d, n);
    ValuesAt(text, q + |lead|, d, n);
  }

  /** A number in an item list is delimited by what follows it. */
  lemma ItemStops(text: string, e: nat, items: Items)
    requires items.Item? && WfItems(items)
    requires At(text, e, items.trail + (Sep(items.comma) + ShowItems(items.rest)) + "]")
    ensures items.v.VNum? ==> Stops(text, e)
  {
    hide WfValue, Show;
    var after := items.trail + (Sep(items.comma) + ShowItems(items.rest)) + "]";
    AtChar(text, e, after, 0);
  }

  /** How the pass over an item ends, and where the rest of the list stands. */
  lemma ItemTail(text: string, e: nat, items: Items)
    requires items.Item? && WfItems(items)
    requires At(text, e, items.trail + (Sep(items.comma) + ShowItems(items.rest)) + "]")
    ensures var q := e + |items.trail| + |Sep(items.comma)|;
      && At(text, q, ShowItems(items.rest) + "]")
      && EndPass(text, ']', e) == (if items.comma then Again(q)
                                   else if items.rest.NoItem? then Closed(q + 1)
                                   else Again(q + |items.rest.lead|))
      && (items.rest.Item? ==> At(text, q, items.rest.lead))
  {
    hide At, EndPass, WfValue, Show, ShowItems, Delimits;
    var trail, sep, rest := items.trail, Sep(items.comma), items.rest;
    TailParts(text, e, trail, sep, ShowItems(rest), "]");
    if items.comma {
      AfterComma(text, ']', e, trail);
    } else if rest.NoItem? {
      ShowNoItem();
      assert trail + (sep + ShowItems(rest)) + "]" == trail + "]";
      AfterLast(text, ']', e, trail);
    }
    if rest.Item? {
      ItemsLead(text, e + |trail| + |sep|, rest);
      if !items.comma {
        AfterNothing(text, ']', e, trail, rest.lead);
      }
    }
  }

  lemma LoopSkips<T>(text: string, close: char, p: nat, q: nat, acc: seq<T>, elem: nat -> Read<T>, passes: nat)
    requires elem(p) == elem(q)
    ensures Loop(text, close, p, acc, elem, passes) == Loop(text, close, q, acc, elem, passes)
  {
    hide EndPass;
  }

  lemma {:induction false} ObjectParses(text: string, p: nat, pad: string, fields: Fields, d: nat, n: nat)
    requires All(Blank, pad) && WfFields(fields) && At(text, p, "{" + (pad + (ShowFields(fields) + "}")))
    requires d >= 1 + FieldsSize(fields) && n >= 1 + FieldsSize(fields)
    ensures ParseVal(text, p, d, n) == Parsed(Obj(FieldsMeaning(fields)), p + |pad| + |ShowFields(fields)| + 2)
    decreases fields, 3
  {
    hide At, Loop, ParseVal, Values, Members, RunEnd, WfItems, WfFields, ShowItems, ShowFields;
    AtSplit(text, p, "{", pad + (ShowFields(fields) + "}"));
    AtChar(text, p, "{", 0);
    AtSplit(text, p + 1, pad, ShowFields(fields) + "}");
    var q := p + 1 + |pad|;
    if fields.NoField? {
      ShowNoField();
      assert ShowFields(fields) + "}" == "}";
      AtChar(text, q, "}", 0);
      assert text[p + 1 + |pad|] == '}';
      SkipBlanks(text, p + 1, pad);
      OpensObject(text, p, q, d, n);
    } else {
      var lead := fields.lead;
      FieldsLead(text, q, fields);
      SkipBlanks(text, q, lead);
      SkipsAlike(text, p + 1, pad);
      FieldsParse(text, q, fields, [], d - 1, n, n);
      MemberSkips(text, q, lead, d - 1, n);
      LoopSkips(text, '}', q, q + |lead|, [], Members(text, d - 1, n), n);
      OpensObject(text, p, q + |lead|, d, n);
      assert [] + FieldsMeaning(fields) == FieldsMeaning(fields);
    }
  }

  lemma KeyFirst(lead: string, key: string, sep: string, after: string, close: string)
    ensures (lead + (key + sep)) + after + close == lead + (key + (sep + after + close))
  {
  }

  /** The front of a non-empty field list. */
  lemma FieldsLead(text: string, q: nat, fields: Fields)
    requires fields.Field? && WfFields(fields) && At(text, q, ShowFields(fields) + "}")
    ensures At(text, q, fields.lead) && All(Blank, fields.lead)
    ensures q + |fields.lead| < |text| && text[q + |fields.lead|] == '"'
  {
    hide At, Show, WfValue, RawOk;
    var Field(lead, key, pre, post, v, trail, comma, rest) := fields;
    var sep, after := pre + (":" + post), Show(v) + (trail + (Sep(comma) + ShowFields(rest)));
    assert ShowFields(fields) == (lead + (Quoted(key) + sep)) + after;
    KeyFirst(lead, Quoted(key), sep, after, "}");
    AtSplit(text, q, lead, Quoted(key) + (sep + after + "}"));
    AtChar(text, q + |lead|, Quoted(key) + (sep + after + "}"), 0);
  }

  lemma FieldsParts(fields: Fields)
    requires fields.Field?
    ensures ShowFields(fields) + "}" ==
            ShowKey(fields.lead, fields.key, fields.pre, fields.post) +
            (Show(fields.v) + (fields.trail + (Sep(fields.comma) + ShowFields(fields.rest)) + "}"))
    ensures |ShowFields(fields)| ==
            |ShowKey(fields.lead, fields.key, fields.pre, fields.post)| + |Show(fields.v)|
            + |fields.trail| + |Sep(fields.comma)| + |ShowFields(fields.rest)|
  {
    hide Show, ShowKey;
  }

  /** The first field of a list and what follows it. */
  lemma {:induction false} FieldAt(text: string, p: nat, fields: Fields, d: nat, n: nat)
    requires fields.Field? && WfFields(fields) && At(text, p, ShowFields(fields) + "}")
    requires d >= Size(fields.v) && n >= Size(fields.v)
    ensures var e := p + |ShowKey(fields.lead, fields.key, fields.pre, fields.post)| + |Show(fields.v)|;
      && Members(text, d, n)(p) == Parsed((Decode(fields.key), Meaning(fields.v)), e)
      && At(text, e, fields.trail + (Sep(fields.comma) + ShowFields(fields.rest)) + "}")
    ensures |ShowFields(fields)| ==
            |ShowKey(fields.lead, fields.key, fields.pre, fields.post)| + |Show(fields.v)|
            + |fields.trail| + |Sep(fields.comma)| + |ShowFields(fields.rest)|
    decreases fields, 0
  {
    hide At, ParseVal, Members, WfValue, Size, Show, ShowFields, ShowKey, Meaning, Decode, RawOk;
    var Field(lead, key, pre, post, v, trail, comma, rest) := fields;
    var head, shown, after := ShowKey(lead, key, pre, post), Show(v), trail + (Sep(comma) + ShowFields(rest)) + "}";
    FieldsParts(fields);
    AtSplit(text, p, head, shown + after);
    AtSplit(text, p + |head|, shown, after);
    FieldStops(text, p + |head| + |shown|, fields);
    ValueParses(text, p + |head|, v, d, n);
    MemberAt(text, p, fields, d, n);
  }

  /** One step along a list, in meaning and in size. */
  lemma FieldsCons(fields: Fields, acc: seq<Member>)
    requires fields.Field? && WfFields(fields)
    ensures RawOk(fields.key) && WfValue(fields.v) && WfFields(fields.rest)
    ensures var m := (Decode(fields.key), Meaning(fields.v));
      && acc + FieldsMeaning(fields) == acc + [m] + FieldsMeaning(fields.rest)
      && (fields.rest.NoField? ==> acc + FieldsMeaning(fields) == acc + [m])
    ensures FieldsSize(fields) == 1 + Size(fields.v) + FieldsSize(fields.rest)
    ensures fields.rest.NoField? ==> !fields.comma
  {
    hide WfValue, Meaning, Size, RawOk, Decode;
    var m, rest := (Decode(fields.key), Meaning(fields.v)), FieldsMeaning(fields.rest);
    assert FieldsMeaning(fields) == [m] + rest;
    assert acc + ([m] + rest) == acc + [m] + rest;
  }

  /** The pass of the loop over a field: it ends the loop, or leads to the rest of the list. */
  lemma {:induction false} FieldPass(text: string, p: nat, fields: Fields, acc: seq<Member>,
                                     d: nat, n: nat, passes: nat)
    requires fields.Field? && WfFields(fields) && RawOk(fields.key) && WfValue(fields.v) && WfFields(fields.rest)
    requires At(text, p, ShowFields(fields) + "}")
    requires d >= Size(fields.v) && n >= Size(fields.v) && passes > 0 && (fields.rest.NoField? ==> !fields.comma)
    ensures |ShowFields(fields.rest)| <= |ShowFields(fields)|
    ensures var q := p + |ShowFields(fields)| - |ShowFields(fields.rest)|;
      var more := acc + [(Decode(fields.key), Meaning(fields.v))];
      && At(text, q, ShowFields(fields.rest) + "}")
      && Loop(text, '}', p, acc, Members(text, d, n), passes)
         == if fields.rest.NoField? then Parsed(more, q + 1)
            else Loop(text, '}', q, more, Members(text, d, n), passes - 1)
    decreases fields, 1
  {
    hide At, ParseVal, EndPass, Loop, Members, WfValue, WfFields, Size, Show, ShowKey, ShowFields, Decode, Meaning,
         RawOk;
    var Field(lead, key, pre, post, v, trail, comma, rest) := fields;
    var e, m := p + |ShowKey(lead, key, pre, post)| + |Show(v)|, (Decode(key), Meaning(v));
    var q, mems := e + |trail| + |Sep(comma)|, Members(text, d, n);
    FieldAt(text, p, fields, d, n);
    FieldTail(text, e, fields);
    LoopPass(text, '}', p, acc, mems, passes, m, e);
    if rest.Field? {
      FieldsLead(text, q, rest);
      MemberSkips(text, q, rest.lead, d, n);
      LoopSkips(text, '}', q, q + |rest.lead|, acc + [m], mems, passes - 1);
    }
  }

  lemma {:induction false} FieldsParse(text: string, p: nat, fields: Fields, acc: seq<Member>,
                                       d: nat, n: nat, passes: nat)
    requires fields.Field? && WfFields(fields) && At(text, p, ShowFields(fields) + "}")
    requires d >= FieldsSize(fields) && n >= FieldsSize(fields) && passes >= FieldsSize(fields)
    ensures Loop(text, '}', p, acc, Members(text, d, n), passes)
         == Parsed(acc + FieldsMeaning(fields), p + |ShowFields(fields)| + 1)
    decreases fields, 2
  {
    hide At, Loop, Members, WfValue, WfFields, Size, FieldsSize, ShowFields, Meaning, Decode, RawOk, FieldsMeaning;
    FieldsCons(fields, acc);
    var rest, more := fields.rest, acc + [(Decode(fields.key), Meaning(fields.v))];
    FieldPass(text, p, fields, acc, d, n, passes);
    if rest.NoField? {
      ShowNoField();
    } else {
      FieldsParse(text, p + |ShowFields(fields)| - |ShowFields(rest)|, rest, more, d, n, passes - 1);
    }
  }

  lemma ShowNoField()
    ensures ShowFields(NoField) == ""
  {
  }

  /** A field's key and value, given that its value parses. */
  lemma MemberAt(text: string, p: nat, fields: Fields, d: nat, n: nat)
    requires fields.Field? && WfFields(fields)
    requires At(text, p, ShowKey(fields.lead, fields.key, fields.pre, fields.post))
    requires var q := p + |ShowKey(fields.lead, fields.key, fields.pre, fields.post)|;
             ParseVal(text, q, d, n) == Parsed(Meaning(fields.v), q + |Show(fields.v)|)
    ensures Members(text, d, n)(p)
         == Parsed((Decode(fields.key), Meaning(fields.v)),
                   p + |ShowKey(fields.lead, fields.key, fields.pre, fields.post)| + |Show(fields.v)|)
  {
    hide ParseVal, MemberKey, MemberValueAt, Show, Meaning, WfValue, RawOk, Decode;
    KeyAt(text, p, fields.lead, fields.key, fields.pre, fields.post);
    ParseSkips(text, MemberValueAt(text, p), fields.post, d, n);
  }

  lemma FieldStops(text: string, e: nat, fields: Fields)
    requires fields.Field? && WfFields(fields)
    requires At(text, e, fields.trail + (Sep(fields.comma) + ShowFields(fields.rest)) + "}")
    ensures fields.v.VNum? ==> Stops(text, e)
  {
    hide At, WfValue, Show;
    var rest, after := fields.rest, fields.trail + (Sep(fields.comma) + ShowFields(fields.rest)) + "}";
    AtChar(text, e, after, 0);
    if fields.trail == "" && !fields.comma {
      assert after == ShowFields(rest) + "}";
      if rest.Field? {
        FieldsLead(text, e, rest);
        if rest.lead != "" {
          AtChar(text, e, rest.lead, 0);
        }
      }
    }
  }

  /** How the pass over a field ends, and where the rest of the list stands. */
  lemma FieldTail(text: string, e: nat, fields: Fields)
    requires fields.Field? && WfFields(fields)
    requires At(text, e, fields.trail + (Sep(fields.comma) + ShowFields(fields.rest)) + "}")
    ensures var q := e + |fields.trail| + |Sep(fields.comma)|;
      && At(text, q, ShowFields(fields.rest) + "}")
      && EndPass(text, '}', e) == (if fields.comma then Again(q)
                                   else if fields.rest.NoField? then Closed(q + 1)
                                   else Again(q + |fields.rest.lead|))
      && (fields.rest.Field? ==> At(text, q, fields.rest.lead))
  {
    hide At, EndPass, WfValue, Show, ShowFields, Delimits;
    var trail, sep, rest := fields.trail, Sep(fields.comma), fields.rest;
    TailParts(text, e, trail, sep, ShowFields(rest), "}");
    if fields.comma {
      AfterComma(text, '}', e, trail);
    } else if rest.NoField? {
      ShowNoField();
      assert trail + (sep + ShowFields(rest)) + "}" == trail + "}";
      AfterLast(text, '}', e, trail);
    }
    if rest.Field? {
      FieldsLead(text, e + |trail| + |sep|, rest);
      if !fields.comma {
        AfterNothing(text, '}', e, trail, rest.lead);
      }
    }
  }

  // ---- Whole texts ----

  /** A text: blanks around one value. */
  datatype Doc = Doc(lead: string, root: Value, trail: string)

  predicate WfDoc(doc: Doc) {
    All(Blank, doc.lead) && WfValue(doc.root) && All(Blank, doc.trail)
  }

  function ShowDoc(doc: Doc): string {
    doc.lead + (Show(doc.root) + doc.trail)
  }

  /** parse_json terminates on every well-formed text and returns its tree, the cursor just behind it. */
  lemma DocParses(doc: Doc)
    requires WfDoc(doc)
    ensures ParseJson(ShowDoc(doc)) == Some(Meaning(doc.root))
    ensures ParseVal(ShowDoc(doc), 0, Size(doc.root), Size(doc.root))
         == Parsed(Meaning(doc.root), |doc.lead| + |Show(doc.root)|)
  {
    hide Show, ParseVal, ParseJson, WfValue, Meaning, Size;
    var text, p, n := ShowDoc(doc), |doc.lead|, Size(doc.root);
    ValueParses(text, p, doc.root, n, n);
    ParseSkips(text, 0, doc.lead, n, n);
    ParseJsonComplete(text, n, n);
  }

  // ---- Printing a tree ----

  /** Strings written with the two-character escapes of RFC 8259, section 7, that the parser decodes. */
  function Escape(s: string): (raw: string)
    ensures RawOk(raw) && Decode(raw) == s
  {
    if s == "" then ""
    else
      var rest := Escape(s[1..]);
      var e := EscapeChar(s[0]);
      assert e.Some? ==> (['\\', e.value] + rest)[2..] == rest;
      assert e.None? ==> ([s[0]] + rest)[1..] == rest;
      if e.Some? then ['\\', e.value] + rest else [s[0]] + rest
  }

  function EscapeChar(c: char): (e: Option<char>)
    ensures e.Some? ==> Unescape(e.value) == c
    ensures e.None? ==> c != '"' && c != '\\'
  {
    match c
    case '"' => Some('"')
    case '\\' => Some('\\')
    case '\U{0008}' => Some('b')
    case '\U{000C}' => Some('f')
    case '\n' => Some('n')
    case '\r' => Some('r')
    case '\t' => Some('t')
    case _ => None
  }

  /** Trees whose numbers are numbers. */
  predicate Printable(j: Json)
    decreases j
  {
    match j
    case Num(lexeme) => WfNum(lexeme)
    case Arr(a) => forall i :: 0 <= i < |a| ==> Printable(a[i])
    case Obj(o) => forall i :: 0 <= i < |o| ==> Printable(o[i].1)
    case _ => true
  }

  /** Prints a tree, with `ws` at every place where blanks may stand. */
  function Print(j: Json, ws: string): (v: Value)
    requires Printable(j) && All(Blank, ws)
    ensures WfValue(v) && Meaning(v) == j
    decreases j, 0
  {
    match j
    case Null => VNull
    case Bool(b) => VBool(b)
    case Num(lexeme) => VNum(lexeme)
    case Str(s) => VStr(Escape(s))
    case Arr(a) => VArr(ws, PrintItems(a, ws))
    case Obj(o) => VObj(ws, PrintFields(o, ws))
  }

  function PrintItems(a: seq<Json>, ws: string): (items: Items)
    requires (forall i :: 0 <= i < |a| ==> Printable(a[i])) && All(Blank, ws)
    ensures WfItems(items) && ItemsMeaning(items) == a
    ensures items.NoItem? <==> a == []
    decreases a, 1
  {
    if a == [] then NoItem
    else Item(ws, Print(a[0], ws), ws, |a| > 1, PrintItems(a[1..], ws))
  }

  function PrintFields(o: seq<Member>, ws: string): (fields: Fields)
    requires (forall i :: 0 <= i < |o| ==> Printable(o[i].1)) && All(Blank, ws)
    ensures WfFields(fields) && FieldsMeaning(fields) == o
    ensures fields.NoField? <==> o == []
    decreases o, 1
  {
    if o == [] then NoField
    else
      var m := o[0];
      assert m.1 < m;
      Field(ws, Escape(m.0), ws, ws, Print(m.1, ws), ws, |o| > 1, PrintFields(o[1..], ws))
  }

  /** Round trip: printing any tree and parsing the text gives the tree back. */
  lemma PrintParses(j: Json, ws: string)
    requires Printable(j) && forall i :: 0 <= i < |ws| ==> ws[i] in {' ', '\t', '\n', '\r'}
    ensures ParseJson(ws + (Show(Print(j, ws)) + ws)) == Some(j)
  {
    hide ParseJson, Show, Print;
    DocParses(Doc(ws, Print(j, ws), ws));
  }
}
