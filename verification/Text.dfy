/** Bytes, character classes, cursors and decimal numerals shared by the other modules. */
module Text {

  datatype Option<+T> = None | Some(value: T)

  type Byte = b: int | 0 <= b < 256

  /** The character classes the scanners skip over. */
  datatype CharClass = Blank | Space | Digit {
    predicate Has(c: char) {
      match this
      case Blank => c == ' ' || c == '\t' || c == '\n' || c == '\r'
      case Space => c == ' ' || c == '\t' || c == '\n' || c == '\r' || c == '\U{000B}' || c == '\U{000C}'
      case Digit => '0' <= c <= '9'
    }
  }

  predicate All(cls: CharClass, s: string) {
    forall i :: 0 <= i < |s| ==> cls.Has(s[i])
  }

  /** `s` occurs in `text` at position `p`. */
  predicate At(text: string, p: nat, s: string) {
    p + |s| <= |text| && text[p..p + |s|] == s
  }

  lemma AtSplit(text: string, p: nat, a: string, b: string)
    requires At(text, p, a + b)
    ensures At(text, p, a) && At(text, p + |a|, b)
  {
    assert text[p..p + |a|] == (a + b)[..|a|];
  }

  lemma AtChar(text: string, p: nat, s: string, k: nat)
    requires At(text, p, s) && k < |s|
    ensures p + k < |text| && text[p + k] == s[k]
  {
  }

  /** Appending a character to what is in front of the rest. */
  lemma Snoc(a: string, c: char, b: string)
    ensures a + ([c] + b) == a + [c] + b
  {
  }

  lemma Regroup(a: string, b: string, c: string, d: string, e: string)
    ensures a + (b + (c + (d + e))) == (a + (b + (c + d))) + e
  {
  }

  /** std::string::find for one character. */
  function Find(text: string, c: char, from: nat): (r: Option<nat>)
    ensures r.Some? ==> from <= r.value < |text|
    decreases |text| - from
  {
    if from >= |text| then None else if text[from] == c then Some(from) else Find(text, c, from + 1)
  }

  method FindChar(text: string, c: char, from: nat) returns (r: Option<nat>)
    ensures r == Find(text, c, from)
  {
    var i := from;
    while i < |text|
      invariant from <= i && Find(text, c, i) == Find(text, c, from)
      decreases |text| - i
    {
      if text[i] == c {
        return Some(i);
      }
      i := i + 1;
    }
    r := None;
  }

  lemma {:induction false} FindOver(text: string, p: nat, s: string, c: char)
    requires At(text, p, s + [c]) && c !in s
    ensures Find(text, c, p) == Some(p + |s|)
    decreases |s|
  {
    AtSplit(text, p, s, [c]);
    if s != "" {
      FindOver(text, p + 1, s[1..], c);
    }
  }

  /** First position at or after `p` whose character is outside `cls` (`p` itself past the end). */
  function RunEnd(cls: CharClass, text: string, p: nat): (q: nat)
    ensures p <= q && (p <= |text| ==> q <= |text|)
    decreases |text| - p
  {
    if p < |text| && cls.Has(text[p]) then RunEnd(cls, text, p + 1) else p
  }

  /** Everything skipped is in the class, and the run is maximal. */
  lemma {:induction false} RunEndSpec(cls: CharClass, text: string, p: nat)
    requires p <= |text|
    ensures All(cls, text[p..RunEnd(cls, text, p)])
    ensures RunEnd(cls, text, p) < |text| ==> !cls.Has(text[RunEnd(cls, text, p)])
    decreases |text| - p
  {
    if p < |text| && cls.Has(text[p]) {
      RunEndSpec(cls, text, p + 1);
    }
  }

  method SkipRun(cls: CharClass, text: string, p: nat) returns (q: nat)
    ensures q == RunEnd(cls, text, p)
  {
    q := p;
    while q < |text| && cls.Has(text[q])
      invariant RunEnd(cls, text, q) == RunEnd(cls, text, p)
    {
      q := q + 1;
    }
  }

  /** A run that occurs at `p` is skipped as a whole. */
  lemma {:induction false} RunOver(cls: CharClass, text: string, p: nat, s: string)
    requires At(text, p, s) && All(cls, s)
    ensures RunEnd(cls, text, p) == RunEnd(cls, text, p + |s|)
    decreases |s|
  {
    if s != "" {
      RunOver(cls, text, p + 1, s[1..]);
    }
  }

  function DigitChar(d: nat): (c: char)
    requires d < 10
    ensures Digit.Has(c) && DigitValue(c) == d
  {
    ('0' as int + d) as char
  }

  /** Decimal numerals, as std::to_string prints them. */
  function Numeral(n: nat): (s: string)
    ensures |s| >= 1 && All(Digit, s)
  {
    if n < 10 then [DigitChar(n)] else Numeral(n / 10) + [DigitChar(n % 10)]
  }

  function ToString(n: int): (s: string)
    ensures |s| >= 1
  {
    if n < 0 then "-" + Numeral(-n) else Numeral(n)
  }

  function DigitValue(c: char): int
  {
    c as int - '0' as int
  }

  /** Value of a digit string. */
  function ValueOf(s: string): int
  {
    if s == "" then 0 else 10 * ValueOf(s[..|s| - 1]) + DigitValue(s[|s| - 1])
  }

  lemma {:induction false} NumeralValue(n: nat)
    ensures ValueOf(Numeral(n)) == n
  {
    if n >= 10 {
      NumeralValue(n / 10);
    }
  }
}
