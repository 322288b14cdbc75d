/** Number literals: their text, the parser's scan, and their exact decimal value. */
module JsonNumber {
  import opened Bytes
  import opened JsonString

  datatype Exponent = NoExponent | Exponent(mark: Byte, sign: Text, digits: Text)

  /** The pieces of a number literal. The scanner can also produce pieces without digits. */
  datatype Literal = Literal(negative: bool, whole: Text, frac: Text, exponent: Exponent)

  predicate AllDigits(t: Text) {
    forall i | 0 <= i < |t| :: IsDigit(t[i])
  }

  /** The literals of RFC 8259 section 6, leading zeros admitted. */
  predicate WellFormed(l: Literal) {
    && l.whole != [] && AllDigits(l.whole) && AllDigits(l.frac)
    && (l.exponent.Exponent? ==>
          && l.exponent.mark in [101, 69] && l.exponent.sign in [[], [PLUS], [MINUS]]
          && l.exponent.digits != [] && AllDigits(l.exponent.digits))
  }

  function ZeroLiteral(): (l: Literal)
    ensures WellFormed(l)
  {
    Literal(false, [48], [], NoExponent)
  }

  type Number = l: Literal | WellFormed(l) witness ZeroLiteral()

  function ExponentText(e: Exponent, after: Text): Text {
    match e
    case NoExponent => after
    case Exponent(mark, sign, digits) => [mark] + (sign + (digits + after))
  }

  function FracText(frac: Text, after: Text): Text {
    if frac == [] then after else [DOT] + (frac + after)
  }

  function SignText(negative: bool, after: Text): Text {
    if negative then [MINUS] + after else after
  }

  /** The literal, followed by `after`. */
  function LiteralText(l: Literal, after: Text): Text {
    SignText(l.negative, l.whole + FracText(l.frac, ExponentText(l.exponent, after)))
  }

  // ---- values ----

  function Power10(e: int): real
    decreases if e < 0 then -e else e
  {
    if e == 0 then 1.0 else if e > 0 then 10.0 * Power10(e - 1) else Power10(e + 1) / 10.0
  }

  function DigitsValue(t: Text): int {
    if t == [] then 0 else DigitsValue(t[..|t| - 1]) * 10 + t[|t| - 1] as int - 48
  }

  function ExponentValue(e: Exponent): int {
    if e.NoExponent? then 0
    else if e.sign == [MINUS] then -DigitsValue(e.digits)
    else DigitsValue(e.digits)
  }

  /** What from_chars makes of the scanned text: no digits at all leaves the default 0.0. */
  function LiteralValue(l: Literal): real {
    if l.whole + l.frac == [] then 0.0
    else
      var magnitude := DigitsValue(l.whole + l.frac) as real * Power10(ExponentValue(l.exponent) - |l.frac|);
      if l.negative then -magnitude else magnitude
  }

  // ---- scanning ----

  function DigitRun(s: Text): (n: nat)
    ensures n <= |s|
    ensures AllDigits(s[..n])
    ensures n < |s| ==> !IsDigit(s[n])
  {
    if s == [] || !IsDigit(s[0]) then 0
    else
      assert forall i | 1 <= i < 1 + DigitRun(s[1..]) :: s[i] == s[1..][i - 1];
      1 + DigitRun(s[1..])
  }

  function ScanDigits(s: Text): (r: Parsed<Text>)
    ensures |r.rest| <= |s|
  {
    Parsed(s[..DigitRun(s)], s[DigitRun(s)..])
  }

  function ScanFrac(s: Text): (r: Parsed<Text>)
    ensures |r.rest| <= |s|
  {
    if s != [] && s[0] == DOT then ScanDigits(s[1..]) else Parsed([], s)
  }

  function ScanSign(s: Text): (r: Parsed<Text>)
    ensures |r.rest| <= |s|
  {
    if s != [] && (s[0] == PLUS || s[0] == MINUS) then Parsed([s[0]], s[1..]) else Parsed([], s)
  }

  function ScanExponent(s: Text): (r: Parsed<Exponent>)
    ensures |r.rest| <= |s|
  {
    if s != [] && (s[0] == 101 || s[0] == 69) then
      var sign := ScanSign(s[1..]);
      var digits := ScanDigits(sign.rest);
      Parsed(Exponent(s[0], sign.value, digits.value), digits.rest)
    else Parsed(NoExponent, s)
  }

  function ScanMinus(s: Text): (r: Parsed<bool>)
    ensures |r.rest| <= |s|
  {
    if s != [] && s[0] == MINUS then Parsed(true, s[1..]) else Parsed(false, s)
  }

  function ScanLiteral(s: Text): (r: Parsed<Literal>)
    ensures |r.rest| <= |s|
  {
    var sign := ScanMinus(s);
    var whole := ScanDigits(sign.rest);
    var frac := ScanFrac(whole.rest);
    var exponent := ScanExponent(frac.rest);
    Parsed(Literal(sign.value, whole.value, frac.value, exponent.value), exponent.rest)
  }

  /** Text that the scan of a literal would not run into. */
  predicate Stops(rest: Text) {
    rest == [] || !(IsDigit(rest[0]) || rest[0] in [DOT, 101, 69])
  }

  lemma {:induction false} DigitRunStops(d: Text, rest: Text)
    requires AllDigits(d) && (rest == [] || !IsDigit(rest[0]))
    ensures DigitRun(d + rest) == |d|
    ensures (d + rest)[..|d|] == d && (d + rest)[|d|..] == rest
  {
    if d != [] {
      assert (d + rest)[1..] == d[1..] + rest;
      DigitRunStops(d[1..], rest);
    } else {
      assert d + rest == rest;
    }
  }

  lemma ExponentScan(e: Exponent, rest: Text)
    requires WellFormed(Literal(false, [48], [], e)) && Stops(rest)
    ensures ScanExponent(ExponentText(e, rest)) == Parsed(e, rest)
    ensures var t := ExponentText(e, rest); t == [] || !(IsDigit(t[0]) || t[0] == DOT)
  {
    if e.Exponent? {
      DigitRunStops(e.digits, rest);
      var t := e.sign + (e.digits + rest);
      assert ExponentText(e, rest)[1..] == t;
      assert ScanSign(t) == Parsed(e.sign, e.digits + rest) by {
        if e.sign == [] {
          assert t == e.digits + rest && IsDigit(t[0]);
        } else {
          assert t[1..] == e.digits + rest;
        }
      }
    }
  }

  lemma FracScan(frac: Text, after: Text)
    requires AllDigits(frac) && (after == [] || !(IsDigit(after[0]) || after[0] == DOT))
    ensures ScanFrac(FracText(frac, after)) == Parsed(frac, after)
    ensures var t := FracText(frac, after); t == [] || !IsDigit(t[0])
  {
    if frac != [] {
      DigitRunStops(frac, after);
      assert FracText(frac, after)[1..] == frac + after;
    }
  }

  lemma SignScan(negative: bool, after: Text)
    requires after != [] && IsDigit(after[0])
    ensures ScanMinus(SignText(negative, after)) == Parsed(negative, after)
  {
    if negative {
      assert SignText(negative, after)[1..] == after;
    }
  }

  /** Scanning the text of a literal returns its pieces and stops at its end. */
  lemma LiteralScan(l: Literal, rest: Text)
    requires WellFormed(l) && Stops(rest)
    ensures ScanLiteral(LiteralText(l, rest)) == Parsed(l, rest)
  {
    var e := ExponentText(l.exponent, rest);
    var f := FracText(l.frac, e);
    ExponentScan(l.exponent, rest);
    FracScan(l.frac, e);
    DigitRunStops(l.whole, f);
    assert (l.whole + f)[0] == l.whole[0];
    SignScan(l.negative, l.whole + f);
    assert ScanDigits(l.whole + f) == Parsed(l.whole, f);
  }

  lemma LiteralTextAppend(l: Literal, a: Text, b: Text)
    ensures LiteralText(l, a + b) == LiteralText(l, a) + b
  {
    var e := ExponentText(l.exponent, a);
    assert ExponentText(l.exponent, a + b) == e + b;
    assert FracText(l.frac, e + b) == FracText(l.frac, e) + b;
  }

  // ---- printing 32-bit integers ----

  function DecimalNat(n: nat): (t: Text)
    ensures t != []
    ensures AllDigits(t)
  {
    if n < 10 then [48 + n] else DecimalNat(n / 10) + [48 + n % 10]
  }

  lemma {:induction false} DecimalValue(n: nat)
    ensures DigitsValue(DecimalNat(n)) == n
  {
    if n >= 10 {
      var t := DecimalNat(n);
      assert t[..|t| - 1] == DecimalNat(n / 10);
      DecimalValue(n / 10);
    } else {
      assert DecimalNat(n)[..0] == [];
    }
  }

  function IntLiteral(n: int): (l: Literal)
    ensures WellFormed(l)
  {
    Literal(n < 0, DecimalNat(if n < 0 then -n else n), [], NoExponent)
  }

  /** An integer read back from its decimal text is that integer. */
  lemma IntLiteralValue(n: int)
    ensures LiteralValue(IntLiteral(n)) == n as real
  {
    var d := DecimalNat(if n < 0 then -n else n);
    DecimalValue(if n < 0 then -n else n);
    assert d + [] == d;
  }

  /** Without a leading zero, unless it is "0". */
  lemma {:induction false} DecimalShape(n: nat)
    ensures DecimalNat(n)[0] == 48 ==> n == 0 && DecimalNat(n) == [48]
  {
    if n >= 10 { DecimalShape(n / 10); }
  }

  // ---- the value of a literal by the weights of its digits ----

  function Ten(k: nat): nat {
    if k == 0 then 1 else 10 * Ten(k - 1)
  }

  lemma DigitCharacters(b: Byte)
    ensures IsDigit(b) <==> b in Ascii("0123456789")
    ensures forall i: nat | i < 10 :: Ascii("0123456789")[i] == 48 + i
  {
    assert Ascii("0123456789") == [48, 49, 50, 51, 52, 53, 54, 55, 56, 57];
  }

  /** The digits from the front, each by its place. */
  function Weighed(digits: Text): int {
    if digits == [] then 0 else (digits[0] as int - 48) * Ten(|digits| - 1) + Weighed(digits[1..])
  }

  lemma {:induction false} WeighedSnoc(t: Text, c: Byte)
    ensures Weighed(t + [c]) == Weighed(t) * 10 + (c as int - 48)
  {
    if t == [] {
      assert [c][1..] == [] && t + [c] == [c];
    } else {
      assert (t + [c])[1..] == t[1..] + [c];
      WeighedSnoc(t[1..], c);
      var d, w := t[0] as int - 48, Ten(|t| - 1);
      assert d * (10 * w) == d * w * 10;
    }
  }

  lemma {:induction false} DigitsAreWeighed(t: Text)
    ensures DigitsValue(t) == Weighed(t)
  {
    if t != [] {
      DigitsAreWeighed(t[..|t| - 1]);
      WeighedSnoc(t[..|t| - 1], t[|t| - 1]);
      assert t == t[..|t| - 1] + [t[|t| - 1]];
    }
  }

  lemma PowerStep(e: int)
    ensures Power10(e + 1) == 10.0 * Power10(e)
  {}

  lemma {:induction false} PowerDown(e: int, k: nat)
    ensures Power10(e - k) * (Ten(k) as real) == Power10(e)
  {
    if k > 0 {
      PowerDown(e, k - 1);
      PowerStep(e - k);
      var p, q := Power10(e - k), Ten(k - 1) as real;
      assert Ten(k) as real == 10.0 * q;
      assert p * (10.0 * q) == 10.0 * p * q;
    }
  }

  lemma {:induction false} PowerUp(k: nat)
    ensures Power10(k) == Ten(k) as real
  {
    if k > 0 { PowerUp(k - 1); }
  }

  /** All digits of the literal as one integer, with its sign. */
  function Digits(l: Literal): int {
    if l.negative then -Weighed(l.whole + l.frac) else Weighed(l.whole + l.frac)
  }

  /** `v` is `n` moved by `left` places to the left and by `right` places to the right. */
  ghost predicate Moved(v: real, n: int, left: nat, right: nat) {
    v * (Ten(right) as real) == n as real * (Ten(left) as real)
  }

  function Times(a: real, b: real): real {
    a * b
  }

  lemma MovedByPower(v: real, n: int, left: nat, right: nat)
    requires v == Times(n as real, Power10(left - right))
    ensures Moved(v, n, left, right)
  {
    PowerDown(left, right);
    PowerUp(left);
    var a, p, f := n as real, Power10(left - right), Ten(right) as real;
    assert a * p * f == a * (p * f);
  }

  lemma ValueIsProduct(l: Number)
    ensures LiteralValue(l) == Times(Digits(l) as real, Power10(ExponentValue(l.exponent) - |l.frac|))
  {
    DigitsAreWeighed(l.whole + l.frac);
    hide Power10, Weighed, DigitsValue, ExponentValue;
    var w, p := Weighed(l.whole + l.frac) as real, Power10(ExponentValue(l.exponent) - |l.frac|);
    assert -(w * p) == -w * p;
  }

  /** The value of a literal: its digits as one integer, moved to the right by as many places as
      there are digits after the point, and by the exponent to the left, or to the right if the
      exponent is negative. */
  lemma LiteralMeaning(l: Number)
    ensures l.exponent.NoExponent? ==> Moved(LiteralValue(l), Digits(l), 0, |l.frac|)
    ensures l.exponent.Exponent? ==>
      var k := Weighed(l.exponent.digits);
      && k >= 0
      && (if l.exponent.sign == [MINUS] then Moved(LiteralValue(l), Digits(l), 0, |l.frac| + k)
          else Moved(LiteralValue(l), Digits(l), k, |l.frac|))
  {
    ValueIsProduct(l);
    hide Power10, Weighed, DigitsValue, LiteralValue, Digits, Moved, Ten, Times;
    if l.exponent.NoExponent? {
      MovedByPower(LiteralValue(l), Digits(l), 0, |l.frac|);
    } else {
      DigitsAreWeighed(l.exponent.digits);
      WeighedIsNat(l.exponent.digits);
      var k := Weighed(l.exponent.digits);
      if l.exponent.sign == [MINUS] {
        assert 0 - (|l.frac| + k) == -k - |l.frac|;
        MovedByPower(LiteralValue(l), Digits(l), 0, |l.frac| + k);
      } else {
        MovedByPower(LiteralValue(l), Digits(l), k, |l.frac|);
      }
    }
  }

  lemma {:induction false} WeighedIsNat(t: Text)
    requires AllDigits(t)
    ensures Weighed(t) >= 0
  {
    if t != [] {
      WeighedIsNat(t[1..]);
      Product(t[0] as int - 48, Ten(|t| - 1));
    }
  }

  lemma Product(a: nat, b: nat)
    ensures a * b >= 0
  {}
}
