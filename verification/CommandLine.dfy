/**
 Command lines without a shell: the splitter of src/relay_platform.h and the leading
 environment assignments of src/relay_posix.cpp.
 */
module CommandLine {
  import opened Text

  // ---- The splitter, over the text that is left ----

  /** What a scan inside a word gives: the argument so far and what is left, or a quote never closed. */
  datatype Scan = Unterminated | Scanned(arg: string, rest: string)

  predicate IsQuote(c: char) {
    c == '\'' || c == '"'
  }

  /** The characters a backslash escapes between double quotes. */
  predicate Escapable(c: char) {
    c == '"' || c == '\\'
  }

  function InQuotes(quote: char, text: string, arg: string): (r: Scan)
    ensures r.Scanned? ==> |r.rest| < |text|
    decreases |text|
  {
    if text == "" then Unterminated
    else if quote == '"' && text[0] == '\\' && |text| > 1 then
      if Escapable(text[1]) then InQuotes(quote, text[2..], arg + [text[1]])
      else InQuotes(quote, text[1..], arg + [text[0]])
    else if text[0] == quote then Scanned(arg, text[1..])
    else InQuotes(quote, text[1..], arg + [text[0]])
  }

  function InWord(text: string, arg: string): (r: Scan)
    ensures r.Scanned? ==> |r.rest| <= |text|
    ensures r.Scanned? && text != "" && !Blank.Has(text[0]) ==> |r.rest| < |text|
    decreases |text|
  {
    if text == "" then Scanned(arg, "")
    else if IsQuote(text[0]) then
      var inner := InQuotes(text[0], text[1..], arg);
      if inner.Unterminated? then Unterminated else InWord(inner.rest, inner.arg)
    else if text[0] == '\\' && |text| > 1 then InWord(text[2..], arg + [text[1]])
    else if Blank.Has(text[0]) then Scanned(arg, text)
    else InWord(text[1..], arg + [text[0]])
  }

  function Trim(text: string): (r: string)
    ensures |r| <= |text| && (r != "" ==> !Blank.Has(r[0]))
  {
    if text != "" && Blank.Has(text[0]) then Trim(text[1..]) else text
  }

  /** The arguments, or None for an unterminated quote. */
  function Split(text: string, args: seq<string>): Option<seq<string>>
    decreases |text|
  {
    var t := Trim(text);
    if t == "" then Some(args)
    else
      var word := InWord(t, "");
      if word.Unterminated? then None else Split(word.rest, args + [word.arg])
  }

  /** The quoted part of parseCommandLine's inner loop. */
  method ScanQuotes(cmd: string, quote: char, start: nat, arg0: string) returns (arg: string, i: nat, term: bool)
    requires start <= |cmd|
    ensures start <= i <= |cmd| && (term ==> start < i)
    ensures InQuotes(quote, cmd[start..], arg0) == if term then Scanned(arg, cmd[i..]) else Unterminated
  {
    arg, i, term := arg0, start, false;
    while i < |cmd|
      invariant start <= i <= |cmd| && InQuotes(quote, cmd[i..], arg) == InQuotes(quote, cmd[start..], arg0)
    {
      assert cmd[i..][1..] == cmd[i + 1..];
      if quote == '"' && cmd[i] == '\\' && i + 1 < |cmd| {
        assert cmd[i..][2..] == cmd[i + 2..];
        var next := cmd[i + 1];
        if next == '"' || next == '\\' {
          arg, i := arg + [next], i + 2;
          continue;
        }
        arg, i := arg + [cmd[i]], i + 1;
        continue;
      }
      if cmd[i] == quote {
        term, i := true, i + 1;
        return;
      }
      arg, i := arg + [cmd[i]], i + 1;
    }
  }

  lemma QuotePass(text: string, arg: string)
    requires text != "" && IsQuote(text[0])
    ensures var inner := InQuotes(text[0], text[1..], arg);
            InWord(text, arg) == if inner.Unterminated? then Unterminated else InWord(inner.rest, inner.arg)
  {
  }

  /** What one pass of the inner loop does to a word. */
  lemma WordPass(text: string, arg: string)
    requires text != "" && !IsQuote(text[0])
    ensures text[0] == '\\' && |text| > 1 ==> InWord(text, arg) == InWord(text[2..], arg + [text[1]])
    ensures Blank.Has(text[0]) ==> InWord(text, arg) == Scanned(arg, text)
    ensures !(text[0] == '\\' && |text| > 1) && !Blank.Has(text[0]) ==>
              InWord(text, arg) == InWord(text[1..], arg + [text[0]])
  {
  }

  /** One argument of parseCommandLine. */
  method ScanWord(cmd: string, start: nat) returns (arg: string, i: nat, ok: bool)
    requires start <= |cmd|
    ensures start <= i <= |cmd|
    ensures InWord(cmd[start..], "") == if ok then Scanned(arg, cmd[i..]) else Unterminated
  {
    hide InQuotes, InWord;
    arg, i, ok := "", start, true;
    while i < |cmd|
      invariant start <= i <= |cmd| && InWord(cmd[i..], arg) == InWord(cmd[start..], "")
    {
      assert cmd[i..][1..] == cmd[i + 1..];
      var c := cmd[i];
      if c == '\'' || c == '"' {
        QuotePass(cmd[i..], arg);
        var term;
        arg, i, term := ScanQuotes(cmd, c, i + 1, arg);
        if !term {
          ok := false;
          return;
        }
        continue;
      }
      WordPass(cmd[i..], arg);
      if c == '\\' && i + 1 < |cmd| {
        assert cmd[i..][2..] == cmd[i + 2..];
        arg, i := arg + [cmd[i + 1]], i + 2;
        continue;
      }
      if c == ' ' || c == '\t' || c == '\n' || c == '\r' {
        break;
      }
      arg, i := arg + [c], i + 1;
    }
    if i == |cmd| {
      WordEnds(cmd[i..], arg);
    }
  }

  /** parseCommandLine: no arguments for an unterminated quote. */
  method ParseCommandLine(cmd: string) returns (args: seq<string>)
    ensures args == (match Split(cmd, []) case Some(found) => found case None => [])
  {
    hide InWord, InQuotes;
    args := [];
    var i := 0;
    while i < |cmd|
      invariant i <= |cmd| && Split(cmd[i..], args) == Split(cmd, [])
    {
      ghost var from := i;
      while i < |cmd| && (cmd[i] == ' ' || cmd[i] == '\t' || cmd[i] == '\n' || cmd[i] == '\r')
        invariant from <= i <= |cmd| && Trim(cmd[i..]) == Trim(cmd[from..])
      {
        i := i + 1;
      }
      if i >= |cmd| {
        break;
      }
      var arg, next, ok := ScanWord(cmd, i);
      if !ok {
        return [];
      }
      i := next;
      args := args + [arg];
    }
  }

  // ---- The command-line language ----

  /** Between double quotes: a character, an escaped one, or a backslash kept with the character after it. */
  datatype Item = Raw(c: char) | Esc(c: char) | Kept(c: char)

  datatype Piece = Bare(c: char) | Escaped(c: char) | Single(s: string) | Double(items: seq<Item>)

  /** A word after its gap. */
  datatype Spaced = Spaced(gap: string, word: seq<Piece>)

  /** Words, and blanks at the end; or, `dangling`, a last lone backslash that belongs to the last word. */
  datatype Line = Line(words: seq<Spaced>, end: string, dangling: bool)

  predicate WfItem(i: Item) {
    match i
    case Raw(c) => c != '"' && c != '\\'
    case Esc(c) => c == '"' || c == '\\'
    case Kept(c) => c != '"' && c != '\\'
  }

  predicate WfPiece(p: Piece) {
    match p
    case Bare(c) => c !in {'\'', '"', '\\', ' ', '\t', '\n', '\r'}
    case Escaped(_) => true
    case Single(s) => '\'' !in s
    case Double(items) => forall i :: 0 <= i < |items| ==> WfItem(items[i])
  }

  predicate WfWord(word: seq<Piece>) {
    forall i :: 0 <= i < |word| ==> WfPiece(word[i])
  }

  /** Every word but the first has a gap before it, and only a dangling backslash makes up a word of its own. */
  predicate WfLine(line: Line) {
    && (forall i :: 0 <= i < |line.words| ==>
          && WfWord(line.words[i].word) && All(Blank, line.words[i].gap)
          && (i > 0 ==> line.words[i].gap != "")
          && (line.words[i].word == [] ==> line.dangling && i == |line.words| - 1))
    && All(Blank, line.end)
    && (line.dangling ==> line.words != [] && line.end == "")
  }

  function ShowItem(i: Item): string {
    match i
    case Raw(c) => [c]
    case Esc(c) => ['\\', c]
    case Kept(c) => ['\\', c]
  }

  function ItemText(i: Item): string {
    match i
    case Raw(c) => [c]
    case Esc(c) => [c]
    case Kept(c) => ['\\', c]
  }

  function ShowItems(items: seq<Item>): string {
    if items == [] then "" else ShowItem(items[0]) + ShowItems(items[1..])
  }

  function ItemsText(items: seq<Item>): string {
    if items == [] then "" else ItemText(items[0]) + ItemsText(items[1..])
  }

  function ShowPiece(p: Piece): string {
    match p
    case Bare(c) => [c]
    case Escaped(c) => ['\\', c]
    case Single(s) => "'" + s + "'"
    case Double(items) => "\"" + ShowItems(items) + "\""
  }

  function PieceText(p: Piece): string {
    match p
    case Bare(c) => [c]
    case Escaped(c) => [c]
    case Single(s) => s
    case Double(items) => ItemsText(items)
  }

  function ShowWord(word: seq<Piece>): string {
    if word == [] then "" else ShowPiece(word[0]) + ShowWord(word[1..])
  }

  function WordText(word: seq<Piece>): string {
    if word == [] then "" else PieceText(word[0]) + WordText(word[1..])
  }

  function Tail(line: Line): string {
    if line.dangling then "\\" else line.end
  }

  function ShowWords(words: seq<Spaced>, tail: string): string {
    if words == [] then tail else words[0].gap + ShowWord(words[0].word) + ShowWords(words[1..], tail)
  }

  function Show(line: Line): string {
    ShowWords(line.words, Tail(line))
  }

  /** The argument a word stands for; the last of a dangling line ends in the backslash. */
  function ArgsOf(words: seq<Spaced>, dangling: bool): seq<string> {
    if words == [] then []
    else
      var arg := WordText(words[0].word);
      [if dangling && |words| == 1 then arg + "\\" else arg] + ArgsOf(words[1..], dangling)
  }

  function Args(line: Line): seq<string> {
    ArgsOf(line.words, line.dangling)
  }

  // ---- Every line is split into its arguments ----

  lemma ItemReads(item: Item, rest: string, arg: string)
    requires WfItem(item) && rest != ""
    ensures InQuotes('"', ShowItem(item) + rest, arg) == InQuotes('"', rest, arg + ItemText(item))
  {
    if item.Kept? {
      assert arg + ['\\'] + [item.c] == arg + ['\\', item.c];
    }
  }

  lemma {:induction false} ItemsRead(items: seq<Item>, rest: string, arg: string)
    requires forall i :: 0 <= i < |items| ==> WfItem(items[i])
    ensures InQuotes('"', ShowItems(items) + ("\"" + rest), arg) == Scanned(arg + ItemsText(items), rest)
    decreases |items|
  {
    hide ShowItem, ItemText, WfItem;
    var close := "\"" + rest;
    if items == [] {
      assert ShowItems(items) + close == close;
      assert close[1..] == rest;
      assert arg + "" == arg;
    } else {
      var more := ShowItems(items[1..]) + close;
      assert ShowItems(items) + close == ShowItem(items[0]) + more;
      ItemReads(items[0], more, arg);
      ItemsRead(items[1..], rest, arg + ItemText(items[0]));
      assert arg + ItemText(items[0]) + ItemsText(items[1..]) == arg + ItemsText(items);
    }
  }

  lemma {:induction false} SingleReads(s: string, rest: string, arg: string)
    requires '\'' !in s
    ensures InQuotes('\'', s + ("'" + rest), arg) == Scanned(arg + s, rest)
    decreases |s|
  {
    var close := "'" + rest;
    if s != "" {
      assert (s + close)[1..] == s[1..] + close;
      SingleReads(s[1..], rest, arg + [s[0]]);
    }
  }

  lemma PlainReads(p: Piece, rest: string, arg: string)
    requires WfPiece(p) && (p.Bare? || p.Escaped?)
    ensures InWord(ShowPiece(p) + rest, arg) == InWord(rest, arg + PieceText(p))
  {
  }

  lemma QuotesRead(quote: char, body: string, rest: string, arg: string, read: string)
    requires IsQuote(quote) && InQuotes(quote, body, arg) == Scanned(read, rest)
    ensures InWord([quote] + body, arg) == InWord(rest, read)
  {
    hide InQuotes;
    assert ([quote] + body)[1..] == body;
  }

  lemma PieceReads(p: Piece, rest: string, arg: string)
    requires WfPiece(p)
    ensures InWord(ShowPiece(p) + rest, arg) == InWord(rest, arg + PieceText(p))
  {
    hide InQuotes, InWord, ShowItems, ItemsText;
    match p {
      case Single(s) =>
        SingleReads(s, rest, arg);
        QuotesRead('\'', s + ("'" + rest), rest, arg, arg + s);
        assert ShowPiece(p) + rest == ['\''] + (s + ("'" + rest));
      case Double(items) =>
        ItemsRead(items, rest, arg);
        QuotesRead('"', ShowItems(items) + ("\"" + rest), rest, arg, arg + ItemsText(items));
        assert ShowPiece(p) + rest == ['"'] + (ShowItems(items) + ("\"" + rest));
      case _ =>
        PlainReads(p, rest, arg);
    }
  }

  lemma {:induction false} WordReads(word: seq<Piece>, rest: string, arg: string)
    requires WfWord(word)
    ensures InWord(ShowWord(word) + rest, arg) == InWord(rest, arg + WordText(word))
    decreases |word|
  {
    hide InWord, ShowPiece, PieceText, WfPiece;
    if word == [] {
      assert "" + rest == rest && arg + "" == arg;
    } else {
      var more := ShowWord(word[1..]) + rest;
      assert ShowWord(word) + rest == ShowPiece(word[0]) + more;
      PieceReads(word[0], more, arg);
      WordReads(word[1..], rest, arg + PieceText(word[0]));
      assert arg + PieceText(word[0]) + WordText(word[1..]) == arg + WordText(word);
    }
  }

  lemma {:induction false} TrimGap(gap: string, rest: string)
    requires All(Blank, gap)
    ensures Trim(gap + rest) == Trim(rest)
    decreases |gap|
  {
    if gap == "" {
      assert gap + rest == rest;
    } else {
      assert (gap + rest)[0] == gap[0] && (gap + rest)[1..] == gap[1..] + rest;
      TrimGap(gap[1..], rest);
    }
  }

  lemma PieceStarts(p: Piece)
    requires WfPiece(p)
    ensures ShowPiece(p) != "" && !Blank.Has(ShowPiece(p)[0])
  {
  }

  lemma WordStarts(word: seq<Piece>, rest: string)
    requires WfWord(word) && word != []
    ensures Trim(ShowWord(word) + rest) == ShowWord(word) + rest != ""
  {
  }

  /** After a word: the end, a gap, or the dangling backslash. */
  lemma WordEnds(rest: string, arg: string)
    ensures rest == "" || Blank.Has(rest[0]) ==> InWord(rest, arg) == Scanned(arg, rest)
    ensures InWord("\\", arg) == Scanned(arg + "\\", "")
  {
  }

  /** The words of a line, from the first on. */
  lemma FirstWord(line: Line, args: seq<string>)
    requires WfLine(line) && line.words != [] && !(line.dangling && |line.words| == 1)
    ensures var more := ShowWords(line.words[1..], Tail(line));
            Split(Show(line), args) == Split(more, args + [WordText(line.words[0].word)])
  {
    hide InWord, Trim, ShowWord, WordText;
    var first, more := line.words[0], ShowWords(line.words[1..], Tail(line));
    var text := ShowWord(first.word) + more;
    assert first.gap + ShowWord(first.word) + more == first.gap + text;
    TrimGap(first.gap, text);
    WordStarts(first.word, more);
    WordReads(first.word, more, "");
    assert "" + WordText(first.word) == WordText(first.word);
    WordEnds(more, WordText(first.word));
  }

  lemma LastWord(line: Line, args: seq<string>)
    requires WfLine(line) && |line.words| == 1 && line.dangling
    ensures Split(Show(line), args) == Some(args + [WordText(line.words[0].word) + "\\"])
  {
    hide InWord, ShowWord, WordText;
    var first := line.words[0];
    var text := ShowWord(first.word) + "\\";
    OneWord(line);
    assert first.gap + ShowWord(first.word) + "\\" == first.gap + text;
    TrimGap(first.gap, text);
    if first.word == [] {
      assert text == "\\" by {
        EmptyWord();
      }
    } else {
      WordStarts(first.word, "\\");
    }
    WordReads(first.word, "\\", "");
    assert "" + WordText(first.word) == WordText(first.word);
    WordEnds("\\", WordText(first.word));
  }

  lemma OneWord(line: Line)
    requires |line.words| == 1 && line.dangling
    ensures Show(line) == line.words[0].gap + ShowWord(line.words[0].word) + "\\"
    ensures Args(line) == [WordText(line.words[0].word) + "\\"]
  {
    hide ShowWord, WordText;
    var rest := line.words[1..];
    assert ShowWords(rest, "\\") == "\\";
    assert ArgsOf(rest, true) == [];
  }

  lemma EmptyWord()
    ensures ShowWord([]) == ""
  {
  }

  /** Every line of the language is split into the arguments it stands for. */
  lemma {:induction false} LineSplits(line: Line, args: seq<string>)
    requires WfLine(line)
    ensures Split(Show(line), args) == Some(args + Args(line))
    decreases |line.words|
  {
    hide InWord, ShowWord, WordText, Split;
    if line.words == [] {
      BlankSplits(line.end, args);
      assert args + [] == args;
    } else if line.dangling && |line.words| == 1 {
      LastWord(line, args);
      OneWord(line);
    } else {
      var rest, arg := line.(words := line.words[1..]), WordText(line.words[0].word);
      FirstWord(line, args);
      LineSplits(rest, args + [arg]);
      assert args + [arg] + Args(rest) == args + ([arg] + Args(rest));
    }
  }

  lemma BlankSplits(end: string, args: seq<string>)
    requires All(Blank, end)
    ensures Split(end, args) == Some(args)
  {
    TrimGap(end, "");
    assert end + "" == end;
  }

  // ---- Nothing else is split ----

  /** The first item of double-quoted text, unless that is its closing quote. */
  lemma ItemOf(text: string, arg: string) returns (item: Item, after: string)
    requires InQuotes('"', text, arg).Scanned? && text[0] != '"'
    ensures WfItem(item) && text == ShowItem(item) + after && after != ""
  {
    if text[0] == '\\' && |text| > 1 {
      item, after := if Escapable(text[1]) then Esc(text[1]) else Kept(text[1]), text[2..];
    } else {
      item, after := Raw(text[0]), text[1..];
    }
  }

  lemma {:induction false} ItemsOf(text: string, arg: string) returns (items: seq<Item>)
    requires InQuotes('"', text, arg).Scanned?
    ensures forall i :: 0 <= i < |items| ==> WfItem(items[i])
    ensures text == ShowItems(items) + ("\"" + InQuotes('"', text, arg).rest)
    ensures InQuotes('"', text, arg).arg == arg + ItemsText(items)
    decreases |text|
  {
    hide WfItem, ShowItem, ItemText;
    if text[0] == '"' {
      return [];
    }
    var item, after := ItemOf(text, arg);
    ItemReads(item, after, arg);
    ItemShows(item);
    var more := ItemsOf(after, arg + ItemText(item));
    items := [item] + more;
  }

  lemma ItemShows(item: Item)
    ensures ShowItem(item) != ""
  {
  }

  lemma {:induction false} SingleOf(text: string, arg: string) returns (s: string)
    requires InQuotes('\'', text, arg).Scanned?
    ensures '\'' !in s && text == s + ("'" + InQuotes('\'', text, arg).rest)
    ensures InQuotes('\'', text, arg).arg == arg + s
    decreases |text|
  {
    if text[0] == '\'' {
      return "";
    }
    var more := SingleOf(text[1..], arg + [text[0]]);
    s := [text[0]] + more;
  }

  /** A word that starts with a quote starts with a quoted piece. */
  lemma QuotedOf(text: string, arg: string) returns (p: Piece, after: string)
    requires InWord(text, arg).Scanned? && text != "" && IsQuote(text[0])
    ensures WfPiece(p) && text == ShowPiece(p) + after
  {
    hide InQuotes, InWord, ShowItems, WfItem;
    QuotePass(text, arg);
    var body := text[1..];
    after := InQuotes(text[0], body, arg).rest;
    assert text == [text[0]] + body;
    if text[0] == '"' {
      var items := ItemsOf(body, arg);
      p := Double(items);
      Enclosed("\"", ShowItems(items), after);
    } else {
      var s := SingleOf(body, arg);
      p := Single(s);
      Enclosed("'", s, after);
    }
  }

  lemma Enclosed(quote: string, s: string, after: string)
    ensures quote + (s + (quote + after)) == quote + s + quote + after
  {
  }

  /** The first piece of a word that has one. */
  lemma PieceOf(text: string, arg: string) returns (p: Piece, after: string)
    requires InWord(text, arg).Scanned? && text != "" && !Blank.Has(text[0]) && text != "\\"
    ensures WfPiece(p) && text == ShowPiece(p) + after
  {
    hide InQuotes, InWord;
    if IsQuote(text[0]) {
      p, after := QuotedOf(text, arg);
    } else if text[0] == '\\' {
      p, after := Escaped(text[1]), text[2..];
      assert text == ['\\', text[1]] + text[2..];
    } else {
      p, after := Bare(text[0]), text[1..];
      assert text == [text[0]] + text[1..];
    }
  }

  lemma {:induction false} WordOf(text: string, arg: string) returns (word: seq<Piece>, dangling: bool)
    requires InWord(text, arg).Scanned?
    ensures WfWord(word)
    ensures text == ShowWord(word) + if dangling then "\\" else InWord(text, arg).rest
    ensures var rest := InWord(text, arg).rest;
            if dangling then rest == "" else rest == "" || Blank.Has(rest[0])
    decreases |text|
  {
    hide WfPiece, ShowPiece, PieceText, InWord;
    if text == "" || Blank.Has(text[0]) || text == "\\" {
      word, dangling := [], text == "\\";
      WordEnds(text, arg);
      return;
    }
    var p, after := PieceOf(text, arg);
    PieceReads(p, after, arg);
    PieceStarts(p);
    var more;
    more, dangling := WordOf(after, arg + PieceText(p));
    word := [p] + more;
  }

  lemma {:induction false} GapOf(text: string) returns (gap: string)
    ensures All(Blank, gap) && text == gap + Trim(text)
    decreases |text|
  {
    if text != "" && Blank.Has(text[0]) {
      gap := GapOf(text[1..]);
      gap := [text[0]] + gap;
    } else {
      gap := "";
    }
  }

  lemma NoGapStarts(line: Line)
    requires WfLine(line) && line.words != [] && line.words[0].gap == ""
    ensures Show(line) != "" && !Blank.Has(Show(line)[0])
  {
    hide ShowWord, ShowPiece;
    var word, more := line.words[0].word, ShowWords(line.words[1..], Tail(line));
    if word == [] {
      EmptyWord();
    } else {
      WordStarts(word, more);
    }
  }

  /** Whatever the splitter accepts is a line of the language. */
  lemma {:induction false} LineOf(text: string, args: seq<string>) returns (line: Line)
    requires Split(text, args).Some?
    ensures WfLine(line) && Show(line) == text
    decreases |text|
  {
    hide InWord, ShowWord, WordText;
    var gap := GapOf(text);
    var t := Trim(text);
    if t == "" {
      return Line([], text, false);
    }
    var word, dangling := WordOf(t, "");
    EmptyWord();
    var rest := InWord(t, "").rest;
    if dangling {
      line := Line([Spaced(gap, word)], "", true);
      OneWord(line);
    } else {
      var more := LineOf(rest, args + [InWord(t, "").arg]);
      line := more.(words := [Spaced(gap, word)] + more.words);
      Prepended(line, more, gap, word);
    }
  }

  lemma Prepended(line: Line, more: Line, gap: string, word: seq<Piece>)
    requires WfLine(more) && (Show(more) == "" || Blank.Has(Show(more)[0]))
    requires line == more.(words := [Spaced(gap, word)] + more.words)
    requires All(Blank, gap) && WfWord(word) && word != []
    ensures WfLine(line) && Show(line) == gap + (ShowWord(word) + Show(more))
  {
    hide ShowWord, WfWord;
    if more.words != [] && more.words[0].gap == "" {
      NoGapStarts(more);
    }
    assert line.words[1..] == more.words;
    forall i | 0 < i < |line.words|
      ensures line.words[i] == more.words[i - 1]
    {
    }
  }

  /** The splitter accepts exactly the lines of the language, and gives the arguments they stand for. */
  lemma SplitExactly(text: string, args: seq<string>)
    ensures Split(text, []) == Some(args) <==> exists line :: WfLine(line) && Show(line) == text && Args(line) == args
  {
    hide Split, WfLine, Show, Args;
    if Split(text, []) == Some(args) {
      var line := LineOf(text, []);
      LineSplits(line, []);
    }
    if line :| WfLine(line) && Show(line) == text && Args(line) == args {
      LineSplits(line, []);
      assert [] + Args(line) == Args(line);
    }
  }

  // ---- Environment assignments ----

  predicate NameChar(c: char) {
    'a' <= c <= 'z' || 'A' <= c <= 'Z' || '0' <= c <= '9' || c == '_'
  }

  /** NAME=anything, with a name that does not start with a digit. */
  predicate IsAssign(s: string) {
    exists k :: 0 < k < |s| && s[k] == '=' && !Digit.Has(s[0]) && forall i :: 0 <= i < k ==> NameChar(s[i])
  }

  /** isEnvAssign: the name ends at the first equals sign. */
  method IsEnvAssign(s: string) returns (r: bool)
    ensures r == IsAssign(s)
  {
    var eq := 0;
    while eq < |s| && s[eq] != '='
      invariant eq <= |s| && forall i :: 0 <= i < eq ==> s[i] != '='
    {
      eq := eq + 1;
    }
    if eq == |s| || eq == 0 {
      return false;
    }
    for i := 0 to eq
      invariant forall j :: 0 <= j < i ==> NameChar(s[j])
      invariant i > 0 ==> !Digit.Has(s[0])
    {
      if !NameChar(s[i]) {
        return false;
      }
      if i == 0 && Digit.Has(s[i]) {
        return false;
      }
    }
    r := true;
  }

  /** A name a shell variable can have. */
  predicate PosixName(name: string) {
    && name != "" && !('0' <= name[0] <= '9')
    && forall i :: 0 <= i < |name| ==>
         'a' <= name[i] <= 'z' || 'A' <= name[i] <= 'Z' || '0' <= name[i] <= '9' || name[i] == '_'
  }

  /** An assignment is exactly such a name, an equals sign, and anything. */
  lemma AssignExactly(s: string)
    ensures IsAssign(s) <==> exists name, value :: PosixName(name) && s == name + ("=" + value)
  {
    if k :| 0 < k < |s| && s[k] == '=' && !Digit.Has(s[0]) && forall i :: 0 <= i < k ==> NameChar(s[i]) {
      assert PosixName(s[..k]) && s == s[..k] + ("=" + s[k + 1..]);
    }
    if name, value :| PosixName(name) && s == name + ("=" + value) {
      assert s[|name|] == '=' && s[0] == name[0];
      assert forall i :: 0 <= i < |name| ==> NameChar(s[i]);
    }
  }

  /** What is to be executed. */
  datatype Launch = Launch(envs: seq<string>, argv: seq<string>)

  function Peel(args: seq<string>, envs: seq<string>): Launch {
    if args != [] && IsAssign(args[0]) then Peel(args[1..], envs + [args[0]]) else Launch(envs, args)
  }

  /** launchProcess and runCommand up to the fork; None where they return -1. */
  function LaunchOf(command: string): Option<Launch> {
    match Split(command, [])
    case None => None
    case Some(args) =>
      var launch := Peel(args, []);
      if launch.argv == [] then None else Some(launch)
  }

  method PrepareLaunch(command: string) returns (launch: Option<Launch>)
    ensures launch == LaunchOf(command)
  {
    hide IsAssign, Split;
    var args := ParseCommandLine(command);
    ghost var all := args;
    if args == [] {
      return None;
    }
    var envs := [];
    while args != []
      invariant Peel(args, envs) == Peel(all, [])
      decreases |args|
    {
      var assign := IsEnvAssign(args[0]);
      if !assign {
        break;
      }
      envs, args := envs + [args[0]], args[1..];
    }
    if args == [] {
      return None;
    }
    launch := Some(Launch(envs, args));
  }

  lemma {:induction false} PeelEnds(args: seq<string>, envs: seq<string>)
    ensures Peel(args, envs).argv == [] <==> forall i :: 0 <= i < |args| ==> IsAssign(args[i])
    decreases |args|
  {
    hide IsAssign;
    if args != [] && IsAssign(args[0]) {
      PeelEnds(args[1..], envs + [args[0]]);
      assert forall i :: 1 <= i < |args| ==> args[i] == args[1..][i - 1];
    }
  }

  /** Nothing is launched exactly when a quote is not closed, or there is nothing but assignments. */
  lemma RefusedExactly(command: string)
    ensures LaunchOf(command).None? <==>
            forall args :: Split(command, []) == Some(args) ==> forall i :: 0 <= i < |args| ==> IsAssign(args[i])
  {
    hide IsAssign, Split, Peel;
    if Split(command, []).Some? {
      PeelEnds(Split(command, []).value, []);
    }
  }

  lemma {:induction false} PeelAll(assigns: seq<string>, argv: seq<string>, envs: seq<string>)
    requires forall i :: 0 <= i < |assigns| ==> IsAssign(assigns[i])
    requires argv == [] || !IsAssign(argv[0])
    ensures Peel(assigns + argv, envs) == Launch(envs + assigns, argv)
    decreases |assigns|
  {
    hide IsAssign;
    if assigns != [] {
      assert (assigns + argv)[1..] == assigns[1..] + argv;
      PeelAll(assigns[1..], argv, envs + [assigns[0]]);
    }
  }

  // ---- Quoting and splitting back ----

  function QuotedItems(s: string): seq<Item> {
    if s == "" then [] else [if Escapable(s[0]) then Esc(s[0]) else Raw(s[0])] + QuotedItems(s[1..])
  }

  /** Backslashes before quotes and backslashes. */
  function EscapeAll(s: string): string {
    if s == "" then "" else (if Escapable(s[0]) then ['\\', s[0]] else [s[0]]) + EscapeAll(s[1..])
  }

  /** Double-quoted. */
  function Quote(s: string): string {
    "\"" + EscapeAll(s) + "\""
  }

  /** Quoted and joined by single spaces. */
  function Join(args: seq<string>): string {
    if args == [] then "" else if |args| == 1 then Quote(args[0]) else Quote(args[0]) + " " + Join(args[1..])
  }

  lemma {:induction false} QuotedIs(s: string)
    ensures forall i :: 0 <= i < |QuotedItems(s)| ==> WfItem(QuotedItems(s)[i])
    ensures ShowItems(QuotedItems(s)) == EscapeAll(s) && ItemsText(QuotedItems(s)) == s
    decreases |s|
  {
    if s != "" {
      QuotedIs(s[1..]);
      var items := QuotedItems(s);
      assert items[1..] == QuotedItems(s[1..]);
      assert s == [s[0]] + s[1..];
    }
  }

  lemma QuoteIsWord(s: string)
    ensures var word := [Double(QuotedItems(s))];
            WfWord(word) && ShowWord(word) == Quote(s) && WordText(word) == s
  {
    hide ShowItems, ItemsText;
    QuotedIs(s);
  }

  function Spread(args: seq<string>, gap: string): seq<Spaced> {
    if args == [] then [] else [Spaced(gap, [Double(QuotedItems(args[0]))])] + Spread(args[1..], " ")
  }

  lemma {:induction false} JoinIsLine(args: seq<string>, gap: string)
    requires All(Blank, gap)
    ensures var line := Line(Spread(args, gap), "", false);
      && WfLine(line) && Args(line) == args
      && Show(line) == (if args == [] then "" else gap + Join(args))
    decreases |args|
  {
    hide ShowWord, WordText, WfWord, QuotedItems, Quote;
    if args != [] {
      JoinIsLine(args[1..], " ");
      QuoteIsWord(args[0]);
    }
  }

  /** Quoted and joined arguments are split back. */
  lemma SplitJoined(args: seq<string>)
    ensures Split(Join(args), []) == Some(args)
  {
    hide Split, WfLine, Show, Args, Join, Spread;
    JoinIsLine(args, "");
    LineSplits(Line(Spread(args, ""), "", false), []);
    EmptyJoin();
    assert "" + Join(args) == Join(args) && [] + args == args;
  }

  lemma EmptyJoin()
    ensures Join([]) == ""
  {
  }

  /** Assignments, a program name and any arguments, quoted and joined, are launched as exactly those. */
  lemma LaunchRoundTrip(assigns: seq<string>, program: string, args: seq<string>)
    requires (forall i :: 0 <= i < |assigns| ==> IsAssign(assigns[i])) && !IsAssign(program)
    ensures LaunchOf(Join(assigns + ([program] + args))) == Some(Launch(assigns, [program] + args))
  {
    hide IsAssign, Split, Join, Peel;
    SplitJoined(assigns + ([program] + args));
    PeelAll(assigns, [program] + args, []);
    assert [] + assigns == assigns;
  }
}
