/**
 The value of a number lexeme, and what the program reads from it: stod rounds the value
 to a double or refuses it, and the cast to an integer cuts the fraction off.
 */
module Numbers {
  import opened Text
  import opened Json
  import opened JsonGrammar
  import opened EditorCorrect

  /** Powers of ten. */
  function Pow10(k: nat): (r: nat)
    ensures r >= 1
  {
    if k == 0 then 1 else 10 * Pow10(k - 1)
  }

  /** A decimal number: sign, digits before and after the point, exponent. */
  datatype Decimal = Decimal(negative: bool, whole: nat, fraction: nat, places: nat, exponent: int) {
    /** All digits, as the number they would be without the point. */
    function Digits(): nat {
      whole * Pow10(places) + fraction
    }

    /** The digits count for this power of ten. */
    function Scale(): int {
      exponent - places
    }

    /** The magnitude without what is behind the point. */
    function Floor(): int {
      if Scale() >= 0 then Digits() * Pow10(Scale()) else Digits() / Pow10(-Scale())
    }

    function Signed(n: int): int {
      if negative then -n else n
    }

    /** What is behind the point is a half or more. */
    predicate HalfUp() {
      Scale() < 0 && 2 * (Digits() % Pow10(-Scale())) >= Pow10(-Scale())
    }

    /** The number is the integer `n`. */
    predicate Is(n: int) {
      && (if Scale() >= 0 then Digits() * Pow10(Scale()) == Abs(n) else Digits() == Abs(n) * Pow10(-Scale()))
      && (n != 0 ==> (negative <==> n < 0))
    }
  }

  function Abs(n: int): nat {
    if n < 0 then -n else n
  }

  // ---- Reading a lexeme ----

  /** The digits behind the point. */
  function Fraction(tail: string): (r: string)
    ensures All(Digit, r)
  {
    if tail != "" && tail[0] == '.' then
      RunEndSpec(Digit, tail, 1);
      tail[1..RunEnd(Digit, tail, 1)]
    else ""
  }

  function Signed(s: string): int {
    if s != "" && s[0] == '-' then -ValueOf(s[1..])
    else if s != "" && s[0] == '+' then ValueOf(s[1..])
    else ValueOf(s)
  }

  function Exponent(tail: string): int {
    var c := FractionEnd(tail, 0);
    if c < |tail| && (tail[c] == 'e' || tail[c] == 'E') then Signed(tail[c + 1..]) else 0
  }

  /** A digit string's value is below the power of ten of its length. */
  lemma {:induction false} ValueBound(s: string)
    requires All(Digit, s)
    ensures 0 <= ValueOf(s) < Pow10(|s|)
    decreases |s|
  {
    if s != "" {
      ValueBound(s[..|s| - 1]);
    }
  }

  /** The number an integer part and a tail stand for. */
  function Of(negative: bool, whole: nat, tail: string): Decimal {
    ValueBound(Fraction(tail));
    Decimal(negative, whole, ValueOf(Fraction(tail)), |Fraction(tail)|, Exponent(tail))
  }

  function Negative(lexeme: string): bool {
    lexeme != "" && lexeme[0] == '-'
  }

  /** The digits of the integer part. */
  function Whole(lexeme: string): (r: string)
    ensures All(Digit, r)
  {
    var a := if Negative(lexeme) then 1 else 0;
    RunEndSpec(Digit, lexeme, a);
    lexeme[a..RunEnd(Digit, lexeme, a)]
  }

  function NumberOf(lexeme: string): Decimal {
    ValueBound(Whole(lexeme));
    Of(Negative(lexeme), ValueOf(Whole(lexeme)), Tail(lexeme))
  }

  /**
   What stod answers: `up` where the double nearest to the magnitude has reached the next integer, `fails`
   where the number is out of range and the parser puts 0 in its place.
   */
  datatype Stod = Stod(up: Decimal -> bool, fails: Decimal -> bool)

  /** Integers are doubles, so the nearest double is not beyond one, and has reached the next one only from half way. */
  ghost predicate Nearest(c: Stod) {
    forall d :: c.up(d) ==> d.HalfUp()
  }

  /** stod and the cast to int, the way the port entries are read. */
  function IntOf(c: Stod, lexeme: string): int {
    var d := NumberOf(lexeme);
    if c.fails(d) then 0 else d.Signed(d.Floor() + if c.up(d) then 1 else 0)
  }

  function Reader(c: Stod): string -> int {
    (lexeme: string) => IntOf(c, lexeme)
  }

  /** The magnitude without what is behind the point, by its bounds. */
  lemma FloorMeans(d: Decimal)
    ensures d.Scale() >= 0 ==> d.Floor() == d.Digits() * Pow10(d.Scale())
    ensures d.Scale() < 0 ==> d.Floor() * Pow10(-d.Scale()) <= d.Digits() < (d.Floor() + 1) * Pow10(-d.Scale())
  {
    hide Pow10;
    if d.Scale() < 0 {
      FloorIs(d.Digits(), Pow10(-d.Scale()), d.Floor());
    }
  }

  // ---- The numbers of the standard ----

  datatype Power = Power(mark: char, sign: string, digits: string)

  /** A number as section 6 of RFC 8259 lays it out. */
  datatype Standard = Standard(minus: bool, whole: string, fraction: Option<string>, power: Option<Power>)

  predicate WfStandard(n: Standard) {
    && n.whole != "" && All(Digit, n.whole)
    && (n.fraction.Some? ==> n.fraction.value != "" && All(Digit, n.fraction.value))
    && (n.power.Some? ==> WfPower(n.power.value))
  }

  predicate WfPower(p: Power) {
    && (p.mark == 'e' || p.mark == 'E') && (p.sign == "" || p.sign == "+" || p.sign == "-")
    && p.digits != "" && All(Digit, p.digits)
  }

  function ShowFraction(f: Option<string>): string {
    if f.Some? then "." + f.value else ""
  }

  function ShowPower(p: Option<Power>): string {
    if p.Some? then [p.value.mark] + (p.value.sign + p.value.digits) else ""
  }

  function ShowNumber(n: Standard): string {
    (if n.minus then "-" else "") + (n.whole + (ShowFraction(n.fraction) + ShowPower(n.power)))
  }

  /** What it stands for. */
  function Value(n: Standard): Decimal
    requires WfStandard(n)
  {
    var f := if n.fraction.Some? then n.fraction.value else "";
    ValueBound(n.whole);
    ValueBound(f);
    Decimal(n.minus, ValueOf(n.whole), ValueOf(f), |f|,
            if n.power.None? then 0
            else if n.power.value.sign == "-" then -ValueOf(n.power.value.digits)
            else ValueOf(n.power.value.digits))
  }

  /** Digits end where something else begins. */
  lemma DigitsIn(pre: string, s: string, rest: string)
    requires All(Digit, s) && IsTail(rest)
    ensures DigitsEnd(pre + (s + rest), |pre|) == |pre| + |s|
  {
    var text := pre + (s + rest);
    assert text[|pre|..|pre| + |s|] == s;
    RunOver(Digit, text, |pre|, s);
    assert rest != "" ==> text[|pre| + |s|] == rest[0];
  }

  lemma FractionEnds(pre: string, f: Option<string>, rest: string)
    requires (f.Some? ==> All(Digit, f.value)) && IsTail(rest) && (rest != "" ==> rest[0] != '.')
    ensures FractionEnd(pre + (ShowFraction(f) + rest), |pre|) == |pre| + |ShowFraction(f)|
  {
    hide RunEnd;
    var text := pre + (ShowFraction(f) + rest);
    if f.Some? {
      DigitsIn(pre + ".", f.value, rest);
      assert pre + "." + (f.value + rest) == text;
    } else {
      assert text == pre + rest;
    }
  }

  /** The digits of an exponent, behind what is in front of them. */
  lemma PowerDigits(pre: string, w: Power)
    requires WfPower(w)
    ensures DigitsEnd(pre + ShowPower(Some(w)), |pre| + 1 + |w.sign|) == |pre + ShowPower(Some(w))|
  {
    hide DigitsEnd;
    var front := pre + [w.mark] + w.sign;
    DigitsLast(front, w.digits);
    assert pre + ([w.mark] + (w.sign + w.digits)) == front + w.digits;
  }

  lemma DigitsLast(pre: string, s: string)
    requires All(Digit, s)
    ensures DigitsEnd(pre + s, |pre|) == |pre + s|
  {
    hide DigitsEnd;
    DigitsIn(pre, s, "");
    assert s + "" == s;
  }

  lemma PowerChars(pre: string, w: Power)
    requires WfPower(w)
    ensures var text, p := pre + ShowPower(Some(w)), |pre|;
      && p + 1 < |text| && text[p] == w.mark
      && (if w.sign == "" then Digit.Has(text[p + 1]) else text[p + 1] == w.sign[0])
  {
    var rest := w.sign + w.digits;
    assert (pre + ShowPower(Some(w)))[|pre| + 1] == rest[0];
  }

  lemma PowerEnds(pre: string, p: Option<Power>)
    requires p.Some? ==> WfPower(p.value)
    ensures ExponentEnd(pre + ShowPower(p), |pre|) == |pre + ShowPower(p)|
  {
    hide DigitsEnd, RunEnd;
    if p.Some? {
      hide ShowPower;
      PowerDigits(pre, p.value);
      PowerChars(pre, p.value);
    } else {
      assert pre + "" == pre;
    }
  }

  lemma PowerStarts(p: Option<Power>)
    requires p.Some? ==> WfPower(p.value)
    ensures IsTail(ShowPower(p)) && (p.Some? ==> ShowPower(p) != "" && ShowPower(p)[0] == p.value.mark)
    ensures ShowPower(p) != "" ==> ShowPower(p)[0] != '.'
  {
  }

  lemma FractionStarts(f: Option<string>, rest: string)
    requires IsTail(rest)
    ensures IsTail(ShowFraction(f) + rest)
  {
  }

  /** A number ends where its text does. */
  lemma StandardEnds(n: Standard)
    requires WfStandard(n)
    ensures var text, a := ShowNumber(n), if n.minus then 1 else 0;
      && NumEnd(text, 0) == |text| && NumStart(text[0])
      && IntegerEnd(text, 0) == RunEnd(Digit, text, a) == a + |n.whole|
  {
    hide RunEnd, ExponentEnd, FractionEnd, ShowFraction, ShowPower;
    var sign, f, p := if n.minus then "-" else "", ShowFraction(n.fraction), ShowPower(n.power);
    var text := ShowNumber(n);
    PowerStarts(n.power);
    FractionStarts(n.fraction, p);
    DigitsIn(sign, n.whole, f + p);
    assert text[0] == if n.minus then '-' else n.whole[0];
    assert !n.minus ==> Digit.Has(text[0]);
    FractionEnds(sign + n.whole, n.fraction, p);
    assert sign + n.whole + (f + p) == text;
    PowerEnds(sign + n.whole + f, n.power);
    assert sign + n.whole + f + p == text;
  }

  /** Every number of the standard is scanned as a whole, and stands for its value. */
  lemma StandardReads(n: Standard)
    requires WfStandard(n)
    ensures WfNum(ShowNumber(n)) && NumberOf(ShowNumber(n)) == Value(n)
  {
    hide RunEnd, ValueOf, ShowFraction, ShowPower, NumEnd, Fraction, Exponent, IntegerEnd;
    var text, a := ShowNumber(n), if n.minus then 1 else 0;
    StandardEnds(n);
    TailValue(n);
    assert text[a..a + |n.whole|] == n.whole;
    assert Tail(text) == ShowFraction(n.fraction) + ShowPower(n.power);
    assert text[0] == '-' <==> n.minus;
  }

  lemma TailValue(n: Standard)
    requires WfStandard(n)
    ensures var tail := ShowFraction(n.fraction) + ShowPower(n.power);
            Fraction(tail) == (if n.fraction.Some? then n.fraction.value else "") && Exponent(tail) == Value(n).exponent
  {
    hide RunEnd, ValueOf, ShowPower;
    var f, p := ShowFraction(n.fraction), ShowPower(n.power);
    PowerStarts(n.power);
    FractionEnds("", n.fraction, p);
    assert "" + (f + p) == f + p;
    if n.fraction.Some? {
      assert (f + p)[1..|f|] == n.fraction.value;
    }
    TailExponent(n, f);
  }

  lemma TailExponent(n: Standard, f: string)
    requires WfStandard(n) && FractionEnd(f + ShowPower(n.power), 0) == |f|
    ensures Exponent(f + ShowPower(n.power)) == Value(n).exponent
  {
    hide FractionEnd, ValueOf;
    var tail := f + ShowPower(n.power);
    if n.power.Some? {
      var w := n.power.value;
      assert tail[|f|] == w.mark && tail[|f| + 1..] == w.sign + w.digits;
      SignedIs(w);
    }
  }

  lemma SignedIs(w: Power)
    requires WfPower(w)
    ensures Signed(w.sign + w.digits) == if w.sign == "-" then -ValueOf(w.digits) else ValueOf(w.digits)
  {
    hide ValueOf;
    var s := w.sign + w.digits;
    if w.sign == "" {
      assert s == w.digits && Digit.Has(s[0]);
    } else {
      assert s[1..] == w.digits && s[0] == w.sign[0];
    }
  }

  // ---- An integer written before a tail ----

  /** Something that can follow the integer part. */
  predicate IsTail(tail: string) {
    tail == "" || !Digit.Has(tail[0])
  }

  lemma TailIsTail(lexeme: string)
    ensures IsTail(Tail(lexeme))
  {
    hide RunEnd;
    RunEndSpec(Digit, lexeme, if lexeme != "" && lexeme[0] == '-' then 1 else 0);
  }

  lemma ReadsParts(n: int, tail: string)
    requires IsTail(tail)
    ensures NumberOf(ToString(n) + tail) == Of(n < 0, Abs(n), tail)
    ensures Tail(ToString(n) + tail) == tail
  {
    hide RunEnd, Fraction, Exponent, Numeral, ValueOf;
    var val := ToString(n);
    var t, digits := val + tail, Numeral(Abs(n));
    ToStringIsInt(n);
    IntThen(val, tail);
    var a := if n < 0 then 1 else 0;
    assert val[0] == '-' <==> n < 0 by {
      assert n >= 0 ==> Digit.Has(val[0]);
    }
    assert t[a..|val|] == digits;
    NumeralValue(Abs(n));
  }

  // ---- When the number read is the integer written ----

  /**
   The tail leaves the integer part as it is: there is no exponent to shift it, or it is zero
   and the exponent does not bring a digit before the point.
   */
  predicate ReadsBack(n: int, tail: string) {
    var f := Fraction(tail);
    var e := Exponent(tail);
    e == 0 || (n == 0 && (e < 0 || ValueOf(f) * Pow10(e) < Pow10(|f|)))
  }

  /** What the program reads of `n` written before the tail is `n`. */
  predicate ReadAs(c: Stod, n: int, tail: string) {
    var d := Of(n < 0, Abs(n), tail);
    if c.fails(d) then n == 0 else ReadsBack(n, tail) && !c.up(d)
  }

  /** The tail adds nothing: no digits behind the point but zeros, and no exponent unless the number is zero. */
  predicate AddsNothing(n: int, tail: string) {
    ValueOf(Fraction(tail)) == 0 && (Exponent(tail) == 0 || n == 0)
  }

  lemma {:induction false} PowAdds(a: nat, b: nat)
    ensures Pow10(a + b) == Pow10(a) * Pow10(b)
    decreases a
  {
    if a > 0 {
      PowAdds(a - 1, b);
      assert Pow10(a + b) == 10 * Pow10(a - 1 + b);
      Associates(10, Pow10(a - 1), Pow10(b));
    }
  }

  lemma Associates(a: int, b: int, c: int)
    ensures a * b * c == a * (b * c)
  {
  }

  lemma PowGrows(k: nat)
    ensures k > 0 ==> Pow10(k) >= 10
  {
  }

  /** The floor of a quotient, by its defining bounds. */
  lemma FloorIs(m: int, d: int, n: int)
    requires d > 0
    ensures m / d == n <==> n * d <= m < (n + 1) * d
  {
    var q := m / d;
    assert q * d <= m < (q + 1) * d;
    if n * d <= m < (n + 1) * d {
      if q < n {
        Ordered(q + 1, n, d);
      } else if n < q {
        Ordered(n + 1, q, d);
      }
    }
  }

  lemma Ordered(a: int, b: int, d: int)
    requires a <= b && d >= 0
    ensures a * d <= b * d
  {
  }

  // Shifting the digits of n and f/p; the products are named so that each step is linear.

  lemma Distributes(a: int, b: int, c: int)
    ensures (a + b) * c == a * c + b * c
  {
  }

  lemma ScaledUp(n: nat, f: nat, p: nat, q: nat)
    requires n >= 1 && p * q >= 10
    ensures (n * p + f) * q > n
  {
    Distributes(n * p, f, q);
    Associates(n, p, q);
    Ordered(10, p * q, n);
    Ordered(0, f, q);
  }

  lemma Positive(a: nat, b: nat)
    requires a >= 1 && b >= 1
    ensures a * b >= a && a * b >= b
  {
    Ordered(1, a, b);
    Ordered(1, b, a);
  }

  /** By at least all places to the left. */
  lemma ShiftFarLeft(n: nat, f: nat, p: nat, q: nat)
    requires f < p && p * q >= 10 && q >= 1
    ensures (n * p + f) * q == n <==> n == 0 && f * (p * q) < p
    ensures (n * p + f) * q == n <==> n == 0 && f == 0
  {
    if n >= 1 {
      ScaledUp(n, f, p, q);
    } else if f >= 1 {
      Positive(f, q);
      Positive(p, q);
      Positive(f, p * q);
    }
  }

  /** Digits too large for the quotient to be the whole. */
  lemma TooLarge(n: nat, f: nat, u: nat, d: nat)
    requires n >= 1 && u >= 10 && d >= 1
    ensures n * (u * d) + f >= (n + 1) * d && n * (u * d) + f > n * d
  {
    Associates(n, d, u);
    assert u * d == d * u;
    Positive(n, d);
    Ordered(10, u, n * d);
    Distributes(n, 1, d);
  }

  lemma BelowOne(f: nat, u: nat, d: nat)
    requires u >= 1
    ensures f * u < u * d <==> f < d
  {
    if f < d {
      Ordered(f + 1, d, u);
      Distributes(f, 1, u);
    } else {
      Ordered(d, f, u);
    }
  }

  /** By fewer places to the left. */
  lemma ShiftLeft(n: nat, f: nat, u: nat, d: nat)
    requires u >= 10 && d >= 1
    ensures (n * (u * d) + f) / d == n <==> n == 0 && f * u < u * d
    ensures n * (u * d) + f == n * d <==> n == 0 && f == 0
  {
    FloorIs(n * (u * d) + f, d, n);
    BelowOne(f, u, d);
    if n >= 1 {
      TooLarge(n, f, u, d);
    }
  }

  lemma TooSmall(n: nat, f: nat, p: nat, r: nat)
    requires n >= 1 && f < p && r >= 10
    ensures n * p + f < n * (p * r)
  {
    Associates(n, p, r);
    Positive(n, p);
    Ordered(10, r, n * p);
  }

  /** To the right. */
  lemma ShiftRight(n: nat, f: nat, p: nat, r: nat)
    requires f < p && r >= 10
    ensures (n * p + f) / (p * r) == n <==> n == 0
    ensures n * p + f == n * (p * r) <==> n == 0 && f == 0
  {
    Positive(p, r);
    FloorIs(n * p + f, p * r, n);
    if n >= 1 {
      TooSmall(n, f, p, r);
    }
  }

  /** Digits and scale in the four cases of the exponent. */
  lemma FloorCases(d: Decimal)
    ensures var m, e, k := d.Digits(), d.exponent, d.places;
      && (e >= k ==> d.Floor() == m * Pow10(e - k))
      && (e < k ==> d.Floor() == m / Pow10(k - e))
  {
    hide Pow10;
  }

  /** The magnitude read is the integer part exactly when nothing moves across the point. */
  lemma FloorIsWhole(d: Decimal)
    requires d.fraction < Pow10(d.places)
    ensures d.Floor() == d.whole <==>
            d.exponent == 0 || (d.whole == 0 && (d.exponent < 0 || d.fraction * Pow10(d.exponent) < Pow10(d.places)))
  {
    hide Pow10, Decimal.Floor;
    var n, f, k, e := d.whole, d.fraction, d.places, d.exponent;
    FloorCases(d);
    PowZero();
    if e == 0 {
      Unshifted(n, f, Pow10(k));
    } else if e >= k {
      PowGrows(e);
      PowAdds(k, e - k);
      ShiftFarLeft(n, f, Pow10(k), Pow10(e - k));
    } else if e > 0 {
      PowGrows(e);
      PowAdds(e, k - e);
      ShiftLeft(n, f, Pow10(e), Pow10(k - e));
    } else {
      PowGrows(-e);
      PowAdds(k, -e);
      ShiftRight(n, f, Pow10(k), Pow10(-e));
    }
  }

  lemma Unshifted(n: nat, f: nat, p: nat)
    requires f < p
    ensures (n * p + f) / p == n
  {
    FloorIs(n * p + f, p, n);
    Distributes(n, 1, p);
  }

  lemma PowZero()
    ensures Pow10(0) == 1
  {
  }

  /** The number is its integer part exactly when the rest adds nothing. */
  lemma IsWhole(d: Decimal)
    requires d.fraction < Pow10(d.places) && (d.whole != 0 || !d.negative)
    ensures d.Is(d.Signed(d.whole)) <==>
            d.fraction == 0 && (d.exponent == 0 || d.whole == 0)
  {
    hide Pow10;
    var n, f, k, e := d.whole, d.fraction, d.places, d.exponent;
    PowZero();
    if e != 0 && e >= k {
      PowGrows(e);
      PowAdds(k, e - k);
      ShiftFarLeft(n, f, Pow10(k), Pow10(e - k));
    } else if e > 0 {
      PowGrows(e);
      PowAdds(e, k - e);
      ShiftLeft(n, f, Pow10(e), Pow10(k - e));
    } else if e < 0 {
      PowGrows(-e);
      PowAdds(k, -e);
      ShiftRight(n, f, Pow10(k), Pow10(-e));
    }
  }

  /** The integer part is not what a magnitude below it is rounded up to. */
  lemma NotReachedFromBelow(d: Decimal)
    requires d.fraction < Pow10(d.places) && d.HalfUp()
    ensures d.Floor() + 1 != d.whole
  {
    hide Pow10;
    var n, f, k, e := d.whole, d.fraction, d.places, d.exponent;
    FloorIsWhole(d);
    if e > 0 {
      PowAdds(e, k - e);
      AtLeast(n, f, Pow10(e), Pow10(k - e));
    } else if e < 0 {
      PowGrows(-e);
      PowAdds(k, -e);
      BelowHalf(n, f, Pow10(k), Pow10(-e));
    }
  }

  lemma AtLeast(n: nat, f: nat, u: nat, d: nat)
    requires u >= 1 && d >= 1
    ensures (n * (u * d) + f) / d >= n
  {
    var q := (n * (u * d) + f) / d;
    FloorIs(n * (u * d) + f, d, q);
    Associates(n, u, d);
    Ordered(1, u, n);
    Ordered(n, n * u, d);
    if q < n {
      Ordered(q + 1, n, d);
    }
  }

  lemma QuotientIsNought(m: nat, n: nat, p: nat, d: nat)
    requires p >= 1 && d >= 10 * p && m < (n + 1) * p && n >= 1 && (n - 1) * d <= m
    ensures n == 1
  {
    Ordered(10 * p, d, n - 1);
    if n >= 2 {
      Ordered(n + 1, 10 * (n - 1), p);
      Associates(10, n - 1, p);
      Associates(10, p, n - 1);
    }
  }

  lemma BelowHalf(n: nat, f: nat, p: nat, r: nat)
    requires f < p && r >= 10
    ensures (n * p + f) / (p * r) + 1 == n ==> 2 * ((n * p + f) % (p * r)) < p * r
  {
    var m, d := n * p + f, p * r;
    Ordered(10, r, p);
    Distributes(n, 1, p);
    if m / d + 1 == n {
      FloorIs(m, d, n - 1);
      QuotientIsNought(m, n, p, d);
      assert m == m % d;
    }
  }

  /**
   Writing `n` before a tail.  Unless the number is refused, which is read as 0, the integer read is `n` exactly
   when the tail leaves the integer part as it is and the number is not rounded up; and the number is `n`
   exactly when the tail adds nothing.
   */
  lemma WrittenReads(c: Stod, n: int, tail: string)
    requires Nearest(c) && IsTail(tail)
    ensures IntOf(c, ToString(n) + tail) == n <==> ReadAs(c, n, tail)
    ensures NumberOf(ToString(n) + tail).Is(n) <==> AddsNothing(n, tail)
  {
    hide Pow10, Fraction, Exponent, ToString, NumberOf, Decimal.Floor, Decimal.HalfUp;
    ReadsParts(n, tail);
    ValueBound(Fraction(tail));
    var d := Of(n < 0, Abs(n), tail);
    FloorIsWhole(d);
    IsWhole(d);
    if c.up(d) {
      NotReachedFromBelow(d);
    }
  }
}
