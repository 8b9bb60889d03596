/** Fixed-point values and the exact decimal parser. */
module Decimal {
  import opened Rounding

  datatype Errc = InvalidArgument | ArgumentOutOfDomain | ResultOutOfRange
  datatype Result<+T> = Ok(value: T) | Err(error: Errc)

  function Pow10(n: nat): (p: int)
    ensures p >= 1
  {
    if n == 0 then 1 else 10 * Pow10(n - 1)
  }

  /** Narrows a 128-bit intermediate, reporting what does not fit. */
  function FromRawSafe(v: int): Result<int> {
    if FitsRaw(v) then Ok(v) else Err(ResultOutOfRange)
  }

  // ----- what a text means -----

  predicate IsDigit(c: char) {
    '0' <= c <= '9'
  }

  predicate AllDigits(s: string) {
    forall i :: 0 <= i < |s| ==> IsDigit(s[i])
  }

  function DigitOf(c: char): int {
    c as int - '0' as int
  }

  /** The number a digit string denotes. */
  function Value(s: string): int {
    if s == [] then 0 else 10 * Value(s[..|s| - 1]) + DigitOf(s[|s| - 1])
  }

  function Unsigned(text: string): string {
    if text != [] && text[0] == '-' then text[1..] else text
  }

  predicate IsNegative(text: string) {
    text != [] && text[0] == '-'
  }

  /** Index of the first '.', or the length. */
  function DotAt(s: string): (k: nat)
    ensures k <= |s| && '.' !in s[..k]
    ensures k < |s| ==> s[k] == '.'
  {
    if s == [] then 0
    else if s[0] == '.' then 0
    else
      var k := DotAt(s[1..]);
      assert s[..k + 1] == [s[0]] + s[1..][..k];
      k + 1
  }

  function IntPart(text: string): string {
    Unsigned(text)[..DotAt(Unsigned(text))]
  }

  function FracPart(text: string): string {
    var rest := Unsigned(text);
    var dot := DotAt(rest);
    if dot < |rest| then rest[dot + 1..] else []
  }

  /** An optional '-', digits, optionally '.' and digits, at least one digit in all. */
  ghost predicate Spells(text: string, sign: string, whole: string, point: string, frac: string) {
    && (sign == "" || sign == "-") && (point == "" || point == ".") && (point == "" ==> frac == "")
    && AllDigits(whole) && AllDigits(frac) && (whole != "" || frac != "")
    && text == sign + whole + point + frac
  }

  ghost predicate InGrammar(text: string) {
    exists sign: string, whole: string, point: string, frac: string :: Spells(text, sign, whole, point, frac)
  }

  /** Magnitude of the text times 10^decimals, rounded half away from zero, for any fraction length. */
  function Magnitude(text: string, decimals: nat): int {
    var scale := Pow10(|FracPart(text)|);
    RoundDivNearestAway((Value(IntPart(text)) * scale + Value(FracPart(text))) * Pow10(decimals), scale)
  }

  predicate Parses(text: string) {
    AllDigits(IntPart(text)) && AllDigits(FracPart(text)) && !(IntPart(text) == [] && FracPart(text) == [])
  }

  lemma DotSplit(whole: string, frac: string)
    requires AllDigits(whole)
    ensures DotAt(whole) == |whole|
    ensures DotAt(whole + "." + frac) == |whole|
  {
    assert forall i :: 0 <= i < |whole| ==> IsDigit(whole[i]) && whole[i] != '.';
    var s := whole + "." + frac;
    var m := DotAt(s);
    assert forall i :: 0 <= i < m ==> s[i] == s[..m][i] && s[i] != '.';
    assert forall i :: 0 <= i < |whole| ==> s[i] == whole[i];
    assert s[|whole|] == '.';
  }

  lemma GrammarSplits(text: string, sign: string, whole: string, point: string, frac: string)
    requires Spells(text, sign, whole, point, frac)
    ensures IntPart(text) == whole && FracPart(text) == frac
  {
    var rest := whole + point + frac;
    assert sign == "" ==> text == rest;
    assert sign == "-" ==> text[0] == '-' && text[1..] == rest;
    assert whole != [] ==> rest[0] == whole[0] && IsDigit(whole[0]);
    assert whole == [] ==> rest[0] == '.';
    assert Unsigned(text) == rest;
    DotSplit(whole, frac);
    if point == "" {
      assert rest == whole && rest[..|whole|] == whole;
    } else {
      assert rest == whole + "." + frac;
      assert rest[..|whole|] == whole && rest[|whole| + 1..] == frac;
    }
  }

  lemma ConcatAssoc(a: string, b: string, c: string, d: string)
    ensures a + (b + c + d) == a + b + c + d
  {
  }

  lemma PointSplit(rest: string, dot: nat)
    requires dot <= |rest| && (dot < |rest| ==> rest[dot] == '.')
    ensures dot < |rest| ==> rest == rest[..dot] + "." + rest[dot + 1..]
    ensures dot == |rest| ==> rest == rest[..dot] + "" + ""
  {
    if dot < |rest| {
      assert "."[0] == rest[dot];
      assert rest[..dot] + ["."[0]] == rest[..dot + 1];
    }
  }

  lemma SignSplit(text: string)
    ensures text == (if IsNegative(text) then "-" else "") + Unsigned(text)
  {
  }

  lemma SplitsInGrammar(text: string)
    requires Parses(text)
    ensures InGrammar(text)
  {
    var rest, whole, frac := Unsigned(text), IntPart(text), FracPart(text);
    var sign, point := if IsNegative(text) then "-" else "", if DotAt(rest) < |rest| then "." else "";
    SignSplit(text);
    PointSplit(rest, DotAt(rest));
    ConcatAssoc(sign, whole, point, frac);
    assert Spells(text, sign, whole, point, frac);
  }

  /** Splitting at the sign and the first point recognises exactly the grammar. */
  lemma ParsesIffInGrammar(text: string)
    ensures Parses(text) <==> InGrammar(text)
  {
    if Parses(text) { SplitsInGrammar(text); }
    if InGrammar(text) {
      var sign: string, whole: string, point: string, frac: string :| Spells(text, sign, whole, point, frac);
      GrammarSplits(text, sign, whole, point, frac);
    }
  }

  // ----- digit strings -----

  lemma {:induction false} ValueBounds(s: string)
    requires AllDigits(s)
    ensures 0 <= Value(s) < Pow10(|s|)
  {
    if s != [] {
      ValueBounds(s[..|s| - 1]);
      assert IsDigit(s[|s| - 1]);
    }
  }

  lemma ValueSnoc(s: string, i: nat)
    requires i < |s|
    ensures Value(s[..i + 1]) == 10 * Value(s[..i]) + DigitOf(s[i])
  {
    assert s[..i + 1][..i] == s[..i];
  }

  lemma {:induction false} ValuePrefixGrows(s: string, i: nat)
    requires AllDigits(s) && i <= |s|
    ensures 0 <= Value(s[..i]) <= Value(s)
    decreases |s| - i
  {
    ValueBounds(s[..i]);
    if i < |s| {
      ValueSnoc(s, i);
      assert IsDigit(s[i]);
      ValuePrefixGrows(s, i + 1);
    } else {
      assert s[..i] == s;
    }
  }

  lemma {:induction false} Pow10Add(a: nat, b: nat)
    ensures Pow10(a + b) == Pow10(a) * Pow10(b)
    decreases a
  {
    if a > 0 {
      Pow10Add(a - 1, b);
      MulAssoc(10, Pow10(a - 1), Pow10(b));
    }
  }

  /** A digit string is its first i digits shifted, plus the rest. */
  lemma {:induction false} ValueSplit(s: string, i: nat)
    requires AllDigits(s) && i <= |s|
    ensures AllDigits(s[i..]) && Value(s) == Value(s[..i]) * Pow10(|s| - i) + Value(s[i..])
    decreases |s|
  {
    if i == |s| {
      assert s[..i] == s && s[i..] == [];
    } else {
      var init, last := s[..|s| - 1], |s| - 1;
      ValueSplit(init, i);
      assert init[..i] == s[..i] && s[i..][..|s[i..]| - 1] == init[i..];
      var p, v := Pow10(last - i), Value(s[..i]);
      assert Pow10(|s| - i) == 10 * p;
      assert 10 * (v * p) == v * (10 * p) by { MulAssoc(10, v, p); MulAssoc(v, 10, p); }
    }
  }

  // ----- the two halves of the magnitude -----

  /** The rounded fraction, computed from at most decimals+1 digits as the parser does. */
  function FracValue(frac: string, decimals: nat): int {
    if |frac| > decimals then RoundDivNearestAway(Value(frac[..decimals + 1]), 10)
    else Value(frac) * Pow10(decimals - |frac|)
  }

  lemma ShortFraction(f: int, n: nat, decimals: nat)
    requires f >= 0 && n <= decimals
    ensures f * Pow10(decimals) >= 0
    ensures RoundDivNearestAway(f * Pow10(decimals), Pow10(n)) == f * Pow10(decimals - n)
  {
    var q := f * Pow10(decimals - n);
    MulLe(0, f, Pow10(decimals - n));
    assert q * Pow10(n) == f * Pow10(decimals) by {
      Pow10Add(decimals - n, n);
      MulAssoc(f, Pow10(decimals - n), Pow10(n));
    }
    RoundExact(q, Pow10(n));
  }

  /** Digits after the first dropped one cannot change the rounding. */
  lemma TailIgnored(f: int, t: int, u: int, m: nat)
    requires t >= 0 && 0 <= u < Pow10(m) && f == t * Pow10(m) + u
    ensures f >= 0 && RoundDivNearestAway(f, Pow10(m + 1)) == RoundDivNearestAway(t, 10)
  {
    RoundIgnoresTail(t, u, Pow10(m));
    assert Pow10(m + 1) == 10 * Pow10(m);
  }

  lemma Rescaled(f: int, n: nat, decimals: nat)
    requires f >= 0 && decimals <= n
    ensures f * Pow10(decimals) >= 0
    ensures RoundDivNearestAway(f * Pow10(decimals), Pow10(n)) == RoundDivNearestAway(f, Pow10(n - decimals))
  {
    RoundCancel(f, Pow10(n - decimals), Pow10(decimals));
    Pow10Add(n - decimals, decimals);
  }

  lemma LongFraction(frac: string, decimals: nat)
    requires AllDigits(frac) && decimals < |frac|
    ensures Value(frac) >= 0
    ensures RoundDivNearestAway(Value(frac), Pow10(|frac| - decimals)) == FracValue(frac, decimals)
  {
    var k := decimals + 1;
    ValueSplit(frac, k);
    ValueBounds(frac[k..]);
    ValueBounds(frac[..k]);
    TailIgnored(Value(frac), Value(frac[..k]), Value(frac[k..]), |frac| - k);
  }

  lemma ShortFracExact(frac: string, decimals: nat)
    requires AllDigits(frac) && |frac| <= decimals
    ensures Value(frac) * Pow10(decimals) >= 0
    ensures FracValue(frac, decimals) == RoundDivNearestAway(Value(frac) * Pow10(decimals), Pow10(|frac|))
  {
    ValueBounds(frac);
    ShortFraction(Value(frac), |frac|, decimals);
  }

  lemma LongFracExact(frac: string, decimals: nat)
    requires AllDigits(frac) && decimals < |frac|
    ensures Value(frac) * Pow10(decimals) >= 0
    ensures FracValue(frac, decimals) == RoundDivNearestAway(Value(frac) * Pow10(decimals), Pow10(|frac|))
  {
    LongFraction(frac, decimals);
    Rescaled(Value(frac), |frac|, decimals);
  }

  lemma FracValueExact(frac: string, decimals: nat)
    requires AllDigits(frac)
    ensures Value(frac) * Pow10(decimals) >= 0
    ensures FracValue(frac, decimals) == RoundDivNearestAway(Value(frac) * Pow10(decimals), Pow10(|frac|))
  {
    if |frac| <= decimals {
      ShortFracExact(frac, decimals);
    } else {
      LongFracExact(frac, decimals);
    }
  }

  lemma FracValueBounds(frac: string, decimals: nat)
    requires AllDigits(frac)
    ensures 0 <= FracValue(frac, decimals) <= Pow10(decimals)
  {
    if |frac| > decimals {
      var t := frac[..decimals + 1];
      ValueBounds(t);
      RoundBrackets(Value(t), 10);
    } else {
      ValueBounds(frac);
      Pow10Add(|frac|, decimals - |frac|);
      MulLe(0, Value(frac), Pow10(decimals - |frac|));
      MulLe(Value(frac), Pow10(|frac|), Pow10(decimals - |frac|));
    }
  }

  lemma MagnitudeSplits(text: string, decimals: nat)
    requires Parses(text)
    ensures Magnitude(text, decimals) == Value(IntPart(text)) * Pow10(decimals) + FracValue(FracPart(text), decimals)
  {
    var w, frac := Value(IntPart(text)), FracPart(text);
    var f, n, p := Value(frac), Pow10(|frac|), Pow10(decimals);
    ValueBounds(IntPart(text));
    ValueBounds(frac);
    FracValueExact(frac, decimals);
    MulLe(0, w, p);
    RoundShift(w * p, f * p, n);
    Distribute(w, n, f, p);
  }

  lemma Distribute(w: int, n: int, f: int, p: int)
    ensures (w * n + f) * p == w * p * n + f * p
  {
    MulAssoc(w, n, p);
    assert (w * n + f) * p == w * n * p + f * p;
  }

  // ----- the parser -----

  /** Accumulates the integer part, giving up on a non-digit or once it exceeds the raw range. */
  method ParseInteger(digits: string) returns (r: Result<int>)
    ensures r.Ok? <==> AllDigits(digits) && Value(digits) <= RAW_MAX
    ensures r.Ok? ==> r.value == Value(digits)
    ensures r.Err? && AllDigits(digits) ==> r.error.ResultOutOfRange?
    ensures r.Err? && r.error.InvalidArgument? ==> !AllDigits(digits)
  {
    var v := 0;
    for i := 0 to |digits|
      invariant AllDigits(digits[..i]) && v == Value(digits[..i]) && 0 <= v <= RAW_MAX
    {
      if !IsDigit(digits[i]) { return Err(InvalidArgument); }
      assert IsInt128(v * 10 + DigitOf(digits[i]));
      ValueSnoc(digits, i);
      v := v * 10 + DigitOf(digits[i]);
      if v > RAW_MAX {
        if AllDigits(digits) { ValuePrefixGrows(digits, i + 1); }
        return Err(ResultOutOfRange);
      }
    }
    assert digits[..|digits|] == digits;
    return Ok(v);
  }

  /** Validates every fraction character but accumulates only the first `take`. */
  method ParseFraction(digits: string, take: nat) returns (r: Result<int>)
    requires take <= |digits| && take <= 19
    ensures r.Ok? <==> AllDigits(digits)
    ensures r.Ok? ==> r.value == Value(digits[..take])
    ensures r.Err? ==> r.error.InvalidArgument?
  {
    var v := 0;
    for i := 0 to |digits|
      invariant AllDigits(digits[..i])
      invariant v == Value(digits[..if i < take then i else take])
    {
      if !IsDigit(digits[i]) { return Err(InvalidArgument); }
      if i < take {
        ValueBounds(digits[..i]);
        PowerFits(i);
        assert IsInt128(v * 10 + DigitOf(digits[i]));
        ValueSnoc(digits, i);
        v := v * 10 + DigitOf(digits[i]);
      }
    }
    return Ok(v);
  }

  lemma {:induction false} PowerGrows(n: nat, m: nat)
    requires n <= m
    ensures Pow10(n) <= Pow10(m)
    decreases m
  {
    if n < m { PowerGrows(n, m - 1); }
  }

  lemma PowerFits(n: nat)
    requires n <= 19
    ensures Pow10(n) <= 10_000_000_000_000_000_000
  {
    PowerGrows(n, 19);
    assert Pow10(4) == 10_000;
    assert Pow10(8) == 100_000_000;
    assert Pow10(12) == 1_000_000_000_000;
    assert Pow10(16) == 10_000_000_000_000_000;
    assert Pow10(19) == 10_000_000_000_000_000_000;
  }

  /** Parsing is exact: it succeeds iff the text is in the grammar and its rounded magnitude fits,
      and then returns that magnitude with the text's sign. */
  method FromDecimalString(text: string, decimals: nat) returns (r: Result<int>)
    requires decimals <= 18
    ensures r.Ok? <==> InGrammar(text) && Magnitude(text, decimals) <= 9_223_372_036_854_775_807
    ensures r.Ok? ==> r.value == if IsNegative(text) then -Magnitude(text, decimals) else Magnitude(text, decimals)
    ensures r.Err? && InGrammar(text) ==> r.error.ResultOutOfRange?
    ensures r.Err? && r.error.InvalidArgument? ==> !InGrammar(text)
  {
    ParsesIffInGrammar(text);
    var rest, negative := text, false;
    if rest != [] && rest[0] == '-' {
      negative := true;
      rest := rest[1..];
    }
    var dot := DotAt(rest);
    var intPart := rest[..dot];
    var fracPart := if dot < |rest| then rest[dot + 1..] else [];
    if intPart == [] && fracPart == [] { return Err(InvalidArgument); }

    var whole := ParseInteger(intPart);
    if whole.Err? {
      if Parses(text) { WholeTooLarge(text, decimals); }
      return whole;
    }
    var fraction := RoundFraction(fracPart, decimals);
    if fraction.Err? { return fraction; }
    FracValueBounds(fracPart, decimals);
    MagnitudeSplits(text, decimals);
    ValueBounds(intPart);
    r := Assemble(whole.value, fraction.value, decimals, negative);
  }

  /** The fraction in units of 10^-decimals: rounded on the digit after the cut, or zero-padded. */
  method RoundFraction(fracPart: string, decimals: nat) returns (r: Result<int>)
    requires decimals <= 18
    ensures r.Ok? <==> AllDigits(fracPart)
    ensures r.Ok? ==> r.value == FracValue(fracPart, decimals)
    ensures r.Err? ==> r.error.InvalidArgument?
  {
    var take := if |fracPart| < decimals + 1 then |fracPart| else decimals + 1;
    r := ParseFraction(fracPart, take);
    if r.Err? { return; }
    if |fracPart| > decimals {
      r := Ok(RoundDivNearestAway(r.value, 10));
    } else {
      assert fracPart[..take] == fracPart;
      var fracValue := PadRight(r.value, decimals - take);
      r := Ok(fracValue);
    }
  }

  method PadRight(v: int, zeros: nat) returns (padded: int)
    ensures padded == v * Pow10(zeros)
  {
    padded := v;
    for i := 0 to zeros
      invariant padded == v * Pow10(i)
    {
      MulAssoc(v, Pow10(i), 10);
      padded := padded * 10;
    }
  }

  lemma ScaledTooLarge(whole: int, scale: int, frac: int)
    requires whole > RAW_MAX && scale >= 1 && frac >= 0
    ensures whole * scale + frac > RAW_MAX
  {
    MulLe(1, scale, whole);
  }

  lemma CarryKeepsMagnitude(whole: int, scale: int)
    ensures (whole + 1) * scale + 0 == whole * scale + scale
  {
  }

  lemma ScaledFits128(whole: int, frac: int, decimals: nat)
    requires 0 <= whole <= RAW_MAX && 0 <= frac <= Pow10(decimals) && decimals <= 18
    ensures 0 <= whole * Pow10(decimals) && IsInt128(whole * Pow10(decimals) + frac)
  {
    PowerFits(decimals);
    MulLe(0, whole, Pow10(decimals));
    MulLe(whole, RAW_MAX, Pow10(decimals));
    MulLe(Pow10(decimals), 10_000_000_000_000_000_000, RAW_MAX);
  }

  lemma WholeTooLarge(text: string, decimals: nat)
    requires Parses(text) && Value(IntPart(text)) > RAW_MAX
    ensures Magnitude(text, decimals) > RAW_MAX
  {
    MagnitudeSplits(text, decimals);
    FracValueBounds(FracPart(text), decimals);
    ScaledTooLarge(Value(IntPart(text)), Pow10(decimals), FracValue(FracPart(text), decimals));
  }

  /** Carries a fraction that rounded up to a whole unit, then bounds the scaled result. */
  method Assemble(whole: int, fraction: int, decimals: nat, negative: bool) returns (r: Result<int>)
    requires 0 <= whole <= RAW_MAX && 0 <= fraction <= Pow10(decimals) && decimals <= 18
    ensures
      var magnitude := whole * Pow10(decimals) + fraction;
      if magnitude <= RAW_MAX then r == Ok(if negative then -magnitude else magnitude) else r == Err(ResultOutOfRange)
  {
    var intValue, fracValue := whole, fraction;
    if fracValue == Pow10(decimals) {
      intValue, fracValue := intValue + 1, 0;
      CarryKeepsMagnitude(whole, Pow10(decimals));
    }
    if intValue > RAW_MAX {
      ScaledTooLarge(intValue, Pow10(decimals), fracValue);
      return Err(ResultOutOfRange);
    }
    ScaledFits128(intValue, fracValue, decimals);
    assert IsInt128(intValue * Pow10(decimals) + fracValue);
    var magnitude := intValue * Pow10(decimals) + fracValue;
    if magnitude > RAW_MAX { return Err(ResultOutOfRange); }
    return Ok(if negative then -magnitude else magnitude);
  }

  // ----- reading back what was written -----

  const DIGITS := "0123456789"

  lemma DigitsAreTheTen(c: char)
    ensures IsDigit(c) <==> c in DIGITS
  {
    if IsDigit(c) { assert DIGITS[c as int - '0' as int] == c; }
  }

  /** The last `width` decimal digits of n. */
  function Digits(n: nat, width: nat): (s: string)
    ensures |s| == width
  {
    if width == 0 then "" else Digits(n / 10, width - 1) + [DIGITS[n % 10]]
  }

  lemma {:induction false} DigitsRead(n: nat, width: nat)
    requires n < Pow10(width)
    ensures AllDigits(Digits(n, width)) && Value(Digits(n, width)) == n
  {
    if width > 0 {
      var init, s := Digits(n / 10, width - 1), Digits(n, width);
      DigitsRead(n / 10, width - 1);
      assert s[..|s| - 1] == init;
      DigitsAreTheTen(DIGITS[n % 10]);
      assert forall i :: 0 <= i < |init| ==> s[i] == init[i] && IsDigit(init[i]);
    }
  }

  function Quotient(n: nat, d: int): (q: nat)
    requires d > 0
  {
    n / d
  }

  function Remainder(n: nat, d: int): (r: nat)
    requires d > 0
    ensures r < d
  {
    n % d
  }

  lemma QuotientSmaller(n: nat, d: int)
    requires d > 0
    ensures Quotient(n, d) <= n && Quotient(n, d) * d + Remainder(n, d) == n
  {
    DivMod(n, d);
    MulLe(1, d, Quotient(n, d));
  }

  function Unsign(raw: int): nat {
    if raw < 0 then -raw else raw
  }

  function WholePart(raw: int, decimals: nat): nat {
    Quotient(Unsign(raw), Pow10(decimals))
  }

  function DecimalPart(raw: int, decimals: nat): nat {
    Remainder(Unsign(raw), Pow10(decimals))
  }

  /** A raw value written out: its sign, nineteen whole digits, the point and every decimal. */
  function Written(raw: int, decimals: nat): string {
    (if raw < 0 then "-" else "") + Digits(WholePart(raw, decimals), 19) + "." + Digits(DecimalPart(raw, decimals), decimals)
  }

  lemma WrittenSplits(sign: string, whole: string, frac: string)
    requires (sign == "" || sign == "-") && AllDigits(whole) && AllDigits(frac) && whole != ""
    ensures
      var text := sign + whole + "." + frac;
      InGrammar(text) && IntPart(text) == whole && FracPart(text) == frac && (IsNegative(text) <==> sign == "-")
  {
    var text := sign + whole + "." + frac;
    assert Spells(text, sign, whole, ".", frac);
    GrammarSplits(text, sign, whole, ".", frac);
    assert sign == "" ==> text[0] == whole[0] && IsDigit(whole[0]);
  }

  lemma WholeFits(raw: int, decimals: nat)
    requires -RAW_MAX <= raw <= RAW_MAX
    ensures WholePart(raw, decimals) < Pow10(19)
  {
    QuotientSmaller(Unsign(raw), Pow10(decimals));
    assert Pow10(4) == 10_000;
    assert Pow10(8) == 100_000_000;
    assert Pow10(12) == 1_000_000_000_000;
    assert Pow10(16) == 10_000_000_000_000_000;
    assert Pow10(19) == 10_000_000_000_000_000_000;
  }

  lemma WrittenParts(raw: int, decimals: nat)
    requires -RAW_MAX <= raw <= RAW_MAX
    ensures
      var text := Written(raw, decimals);
      && InGrammar(text) && (IsNegative(text) <==> raw < 0) && |FracPart(text)| == decimals
      && Value(IntPart(text)) == WholePart(raw, decimals) && Value(FracPart(text)) == DecimalPart(raw, decimals)
  {
    WholeFits(raw, decimals);
    DigitsRead(WholePart(raw, decimals), 19);
    DigitsRead(DecimalPart(raw, decimals), decimals);
    WrittenSplits(if raw < 0 then "-" else "", Digits(WholePart(raw, decimals), 19), Digits(DecimalPart(raw, decimals), decimals));
  }

  lemma ScaledBack(n: nat, d: int)
    requires d > 0
    ensures (Quotient(n, d) * d + Remainder(n, d)) * d >= 0
    ensures RoundDivNearestAway((Quotient(n, d) * d + Remainder(n, d)) * d, d) == n
  {
    QuotientSmaller(n, d);
    RoundExact(n, d);
  }

  lemma MagnitudeFrom(text: string, decimals: nat, n: nat)
    requires |FracPart(text)| == decimals
    requires Value(IntPart(text)) == Quotient(n, Pow10(decimals)) && Value(FracPart(text)) == Remainder(n, Pow10(decimals))
    ensures Magnitude(text, decimals) == n
  {
    ScaledBack(n, Pow10(decimals));
  }

  lemma WrittenMagnitude(raw: int, decimals: nat)
    requires -RAW_MAX <= raw <= RAW_MAX
    ensures Magnitude(Written(raw, decimals), decimals) == Unsign(raw)
  {
    WrittenParts(raw, decimals);
    MagnitudeFrom(Written(raw, decimals), decimals, Unsign(raw));
  }

  /** Round trip: every raw value but the lowest reads back from its own digits. */
  method ReadBack(raw: int, decimals: nat) returns (r: Result<int>)
    requires decimals <= 18 && -RAW_MAX <= raw <= RAW_MAX
    ensures r == Ok(raw)
  {
    WrittenParts(raw, decimals);
    WrittenMagnitude(raw, decimals);
    r := FromDecimalString(Written(raw, decimals), decimals);
  }
}
