/**
 * JSON numbers. Their text follows section 6 of RFC 8259; how a finite number prints and what number a text
 * denotes is a given pair, since the platform's doubles are not modelled.
 */
module Numbers {
  import opened Numeric
  import opened JsonValue

  const MINUS: CodeUnit := 0x2d
  const PLUS: CodeUnit := 0x2b
  const POINT: CodeUnit := 0x2e
  const ZERO: CodeUnit := 0x30

  predicate IsDigit(c: CodeUnit) { ZERO <= c < ZERO + 10 }

  predicate IsExponentMark(c: CodeUnit) { c == 0x65 || c == 0x45 }

  predicate IsNumberUnit(c: CodeUnit) { IsDigit(c) || c == MINUS || c == PLUS || c == POINT || IsExponentMark(c) }

  // ---- the grammar ------------------------------------------------------------------------

  function DigitCount(s: Text): (n: nat)
    ensures n <= |s|
    ensures forall i :: 0 <= i < n ==> IsDigit(s[i])
  {
    if s != [] && IsDigit(s[0]) then 1 + DigitCount(s[1..]) else 0
  }

  predicate AllDigits(s: Text) { s != [] && DigitCount(s) == |s| }

  predicate IsExponent(t: Text) {
    && |t| > 1 && IsExponentMark(t[0])
    && AllDigits(if t[1] == PLUS || t[1] == MINUS then t[2..] else t[1..])
  }

  /** What follows the integer part: an optional fraction and an optional exponent. */
  predicate IsTail(t: Text) {
    if t != [] && t[0] == POINT then
      var n := DigitCount(t[1..]);
      n > 0 && (t[1..][n..] == [] || IsExponent(t[1..][n..]))
    else t == [] || IsExponent(t)
  }

  predicate IsUnsigned(t: Text) {
    var n := DigitCount(t);
    n > 0 && (n == 1 || t[0] != ZERO) && IsTail(t[n..])
  }

  predicate IsNumber(t: Text) { IsUnsigned(if t != [] && t[0] == MINUS then t[1..] else t) }

  predicate NumberOnly(t: Text) { forall i :: 0 <= i < |t| ==> IsNumberUnit(t[i]) }

  lemma NumberOnlyJoin(t: Text, n: nat)
    requires n <= |t| && NumberOnly(t[..n]) && NumberOnly(t[n..])
    ensures NumberOnly(t)
  {
    forall i | 0 <= i < |t| ensures IsNumberUnit(t[i]) {
      if i < n { assert IsNumberUnit(t[..n][i]); } else { assert IsNumberUnit(t[n..][i - n]); }
    }
  }

  lemma ExponentUnits(t: Text)
    requires IsExponent(t)
    ensures NumberOnly(t)
  {
    NumberOnlyJoin(t, if t[1] == PLUS || t[1] == MINUS then 2 else 1);
  }

  lemma TailUnits(t: Text)
    requires IsTail(t)
    ensures NumberOnly(t)
  {
    if t == [] {
    } else if t[0] == POINT {
      var more := t[1..];
      var n := DigitCount(more);
      if more[n..] != [] { ExponentUnits(more[n..]); }
      NumberOnlyJoin(more, n);
      NumberOnlyJoin(t, 1);
    } else {
      ExponentUnits(t);
    }
  }

  lemma UnsignedUnits(t: Text)
    requires IsUnsigned(t)
    ensures NumberOnly(t)
  {
    TailUnits(t[DigitCount(t)..]);
    NumberOnlyJoin(t, DigitCount(t));
  }

  /** A number is made of number units only. */
  lemma NumberUnits(t: Text)
    requires IsNumber(t)
    ensures NumberOnly(t)
  {
    if t[0] == MINUS {
      UnsignedUnits(t[1..]);
      NumberOnlyJoin(t, 1);
    } else {
      UnsignedUnits(t);
    }
  }

  lemma NumberOpens(t: Text)
    requires IsNumber(t)
    ensures t != [] && (t[0] == MINUS || IsDigit(t[0]))
  {
  }

  // ---- printing and reading ---------------------------------------------------------------

  /** show: the shortest text of a finite number. value: the finite number a text denotes, None when it is
      too large for any. Positive and negative zero, which print alike, are one number. */
  datatype Numerals<!N> = Numerals(show: N -> Text, value: Text -> Option<N>)

  predicate LawfulAt<N(==)>(num: Numerals<N>, x: N) {
    IsNumber(num.show(x)) && num.value(num.show(x)) == Some(x)
  }

  /** Every number prints as a number and reads back. */
  ghost predicate Lawful<N(!new)>(num: Numerals<N>) {
    forall x {:trigger LawfulAt(num, x)} :: LawfulAt(num, x)
  }

  // ---- the integers that doubles hold exactly -----------------------------------------------

  type Safe = n: int | -0x20_0000_0000_0000 < n < 0x20_0000_0000_0000

  function Digits(n: nat): Text {
    if n < 10 then [ZERO + n] else Digits(n / 10) + [ZERO + n % 10]
  }

  function PrintInt(n: int): Text {
    if n < 0 then [MINUS] + Digits(-n) else Digits(n)
  }

  function DigitsValue(s: Text): int {
    if s == [] then 0 else DigitsValue(s[..|s| - 1]) * 10 + (s[|s| - 1] - ZERO)
  }

  function IntegerValue(t: Text): Option<int> {
    if AllDigits(t) then Some(DigitsValue(t))
    else if t != [] && t[0] == MINUS && AllDigits(t[1..]) then Some(-DigitsValue(t[1..]))
    else None
  }

  function SafeValue(t: Text): Option<Safe> {
    match IntegerValue(t)
    case None => None
    case Some(n) => if -0x20_0000_0000_0000 < n < 0x20_0000_0000_0000 then Some(n) else None
  }

  /** Below 2^53 a number prints as its decimal digits. */
  const SAFE_INTEGERS: Numerals<Safe> := Numerals((n: Safe) => PrintInt(n), SafeValue)

  lemma {:induction false} AllDigitsIs(s: Text)
    requires forall i :: 0 <= i < |s| ==> IsDigit(s[i])
    ensures DigitCount(s) == |s|
  {
    if s == [] {
    } else {
      AllDigitsIs(s[1..]);
    }
  }

  lemma {:induction false} DigitsAre(n: nat)
    ensures AllDigits(Digits(n)) && DigitsValue(Digits(n)) == n
    ensures n > 0 ==> Digits(n)[0] != ZERO
    ensures n == 0 ==> |Digits(n)| == 1
  {
    var d := Digits(n);
    if n < 10 {
      assert d[..0] == [];
    } else {
      DigitsAre(n / 10);
      assert d[..|d| - 1] == Digits(n / 10);
    }
    AllDigitsIs(d);
  }

  lemma PrintedInt(n: int)
    ensures IsNumber(PrintInt(n)) && IntegerValue(PrintInt(n)) == Some(n)
  {
    var m := if n < 0 then -n else n;
    DigitsAre(m);
    if n < 0 { assert PrintInt(n)[1..] == Digits(m); }
    assert Digits(m)[|Digits(m)|..] == [];
  }

  lemma SafeIntegersAreLawful()
    ensures Lawful(SAFE_INTEGERS)
  {
    forall x: Safe ensures LawfulAt(SAFE_INTEGERS, x) { PrintedInt(x); }
  }
}
