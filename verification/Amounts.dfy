/** Printing and parsing coin amounts: bluglets as decimal strings with eight decimals. */
module Amounts {
  import opened Basics
  import opened Targets

  const BLUGLETS: nat := 1_0000_0000

  // ----- decimal digits -----

  predicate IsDigit(c: char) {
    '0' <= c <= '9'
  }

  predicate AllDigits(s: string) {
    forall i :: 0 <= i < |s| ==> IsDigit(s[i])
  }

  function DigitChar(d: nat): (c: char)
    requires d < 10
    ensures IsDigit(c) && c as int == '0' as int + d
  {
    '0' + d as char
  }

  /** The digits a string of decimal digits is made of. */
  function DigitValues(s: string): (d: seq<nat>)
    requires AllDigits(s)
    ensures |d| == |s| && Digits(d, 10)
    ensures forall i :: 0 <= i < |s| ==> d[i] == s[i] as int - '0' as int
  {
    seq(|s|, i requires 0 <= i < |s| => s[i] as int - '0' as int)
  }

  function ValueOf(s: string): nat
    requires AllDigits(s)
  {
    Value(DigitValues(s), 10)
  }

  lemma ValueOfConcat(s: string, t: string)
    requires AllDigits(s) && AllDigits(t)
    ensures AllDigits(s + t) && ValueOf(s + t) == ValueOf(s) * Power(10, |t|) + ValueOf(t)
  {
    hide Value, Power;
    DigitsConcat(s, t);
    ValueConcat(DigitValues(s), DigitValues(t), 10);
  }

  lemma DigitsConcat(s: string, t: string)
    requires AllDigits(s) && AllDigits(t)
    ensures AllDigits(s + t) && DigitValues(s + t) == DigitValues(s) + DigitValues(t)
  {
  }

  /** Decimal notation without leading zeros. */
  function Numeral(n: nat): (s: string)
    ensures AllDigits(s) && |s| > 0
  {
    if n < 10 then [DigitChar(n)] else Numeral(Quot(n, 10)) + [DigitChar(Rest(n, 10))]
  }

  /** Decimal notation in w places, padded with zeros. */
  function Places(n: nat, w: nat): (s: string)
    ensures |s| == w && AllDigits(s)
    decreases w
  {
    if w == 0 then "" else Places(Quot(n, 10), w - 1) + [DigitChar(Rest(n, 10))]
  }

  lemma ValueOfOne(d: nat)
    requires d < 10
    ensures ValueOf([DigitChar(d)]) == d && Power(10, 1) == 10
  {
    assert DigitValues([DigitChar(d)]) == [d];
    assert [d][..0] == [];
    assert Value([d], 10) == d;
  }

  lemma {:induction false} ValueOfNumeral(n: nat)
    ensures ValueOf(Numeral(n)) == n
  {
    hide ValueOf;
    if n < 10 {
      ValueOfOne(n);
    } else {
      ValueOfNumeral(Quot(n, 10));
      ValueOfOne(Rest(n, 10));
      ValueOfConcat(Numeral(Quot(n, 10)), [DigitChar(Rest(n, 10))]);
      Euclid(n, 10);
    }
  }

  lemma {:induction false} ValueOfPlaces(n: nat, w: nat)
    requires n < Power(10, w)
    ensures ValueOf(Places(n, w)) == n
    decreases w
  {
    if w == 0 {
    } else {
      var q, r := Quot(n, 10), Rest(n, 10);
      Euclid(n, 10);
      ValueOfPlaces(q, w - 1);
      ValueOfOne(r);
      ValueOfConcat(Places(q, w - 1), [DigitChar(r)]);
    }
  }

  // ----- printing -----

  function FormatAmount(a: u64): string {
    Numeral(Quot(a, BLUGLETS)) + "." + Places(Rest(a, BLUGLETS), 8)
  }

  /** An amount is printed as its whole coins without a leading zero, a point, and exactly eight decimals. */
  lemma FormatMeaning(a: u64)
    ensures exists whole, frac ::
              && FormatAmount(a) == whole + "." + frac && AllDigits(whole) && AllDigits(frac) && |frac| == 8
              && |whole| > 0 && (whole[0] == '0' ==> whole == "0")
  {
    var whole, frac := Numeral(Quot(a, BLUGLETS)), Places(Rest(a, BLUGLETS), 8);
    NoLeadingZero(Quot(a, BLUGLETS));
    assert FormatAmount(a) == whole + "." + frac;
  }

  lemma {:induction false} NoLeadingZero(n: nat)
    ensures Numeral(n)[0] == '0' <==> n == 0
    ensures Numeral(n)[0] == '0' ==> Numeral(n) == "0"
  {
    hide Quot, Rest;
    if n < 10 {
    } else {
      Euclid(n, 10);
      NoLeadingZero(Quot(n, 10));
    }
  }

  // ----- parsing -----

  /** White space as Unicode defines it. */
  predicate IsSpace(c: char) {
    || '\t' <= c <= '\r' || c == ' ' || c == '\U{85}' || c == '\U{A0}' || c == '\U{1680}'
    || '\U{2000}' <= c <= '\U{200A}' || c == '\U{2028}' || c == '\U{2029}'
      || c == '\U{202F}' || c == '\U{205F}' || c == '\U{3000}'
  }

  function TrimLeft(s: string): string {
    if |s| > 0 && IsSpace(s[0]) then TrimLeft(s[1..]) else s
  }

  function TrimRight(s: string): string {
    if |s| > 0 && IsSpace(s[|s| - 1]) then TrimRight(s[..|s| - 1]) else s
  }

  function Trim(s: string): string {
    TrimRight(TrimLeft(s))
  }

  /** Trimming takes away white space at both ends and nothing else. */
  lemma TrimMeaning(s: string)
    ensures exists i, j :: 0 <= i <= j <= |s| && Trim(s) == s[i..j]
                           && (forall k :: 0 <= k < i || j <= k < |s| ==> IsSpace(s[k]))
    ensures |Trim(s)| > 0 ==> !IsSpace(Trim(s)[0]) && !IsSpace(Trim(s)[|Trim(s)| - 1])
  {
    hide IsSpace;
    var i := LeftTrimmed(s);
    var rest := s[i..];
    var j := RightTrimmed(rest);
    assert Trim(s) == rest[..j] == s[i..i + j];
    forall k | 0 <= k < i || i + j <= k < |s| ensures IsSpace(s[k]) {
      if k >= i { assert rest[k - i] == s[k]; }
    }
  }

  lemma {:induction false} LeftTrimmed(s: string) returns (i: nat)
    ensures i <= |s| && TrimLeft(s) == s[i..] && forall k :: 0 <= k < i ==> IsSpace(s[k])
    ensures i < |s| ==> !IsSpace(s[i])
  {
    hide IsSpace;
    if |s| == 0 || !IsSpace(s[0]) {
      i := 0;
    } else {
      var n := LeftTrimmed(s[1..]);
      i := n + 1;
    }
  }

  lemma {:induction false} RightTrimmed(s: string) returns (j: nat)
    ensures j <= |s| && TrimRight(s) == s[..j] && forall k :: j <= k < |s| ==> IsSpace(s[k])
    ensures j > 0 ==> !IsSpace(s[j - 1])
  {
    hide IsSpace;
    if |s| == 0 || !IsSpace(s[|s| - 1]) {
      j := |s|;
      assert s[..j] == s;
    } else {
      j := RightTrimmed(s[..|s| - 1]);
    }
  }

  predicate HasSignOrExponent(s: string) {
    exists i :: 0 <= i < |s| && s[i] in "-+eE"
  }

  /** The position of the first point, or the length of the string. */
  function PointIn(s: string): (k: nat)
    ensures k <= |s| && (k < |s| ==> s[k] == '.')
    ensures forall i :: 0 <= i < k ==> s[i] != '.'
  {
    if |s| == 0 || s[0] == '.' then 0 else 1 + PointIn(s[1..])
  }

  /** Base ten, 64 bits: an empty string, any other character and a value that does not fit are errors. */
  function ParseUint(s: string): Option<u64> {
    if |s| == 0 || !AllDigits(s) then None
    else if ValueOf(s) >= TWO64 then None
    else Some(ValueOf(s))
  }

  function Zeros(n: nat): (s: string)
    ensures |s| == n && AllDigits(s) && forall i :: 0 <= i < n ==> s[i] == '0'
  {
    seq(n, i => '0')
  }

  function ParseAmount(text: string): Option<u64> {
    var s := Trim(text);
    if s == "" || HasSignOrExponent(s) then None
    else
      var k := PointIn(s);
      var hasFrac := k < |s|;
      var fracPart := if hasFrac then s[k + 1..] else "";
      if hasFrac && |fracPart| > 8 then None
      else
        var whole := ParseUint(s[..k]);
        if whole.None? then None
        else
          var frac := if hasFrac then ParseUint(fracPart + Zeros(8 - |fracPart|)) else Some(0);
          if frac.None? then None
          else if whole.value > Quot(TWO64 - 1 - frac.value, BLUGLETS) then None
          else
            NoOverflow(whole.value, frac.value);
            Some(whole.value * BLUGLETS + frac.value)
  }

  /** The overflow test is exact. */
  lemma NoOverflow(whole: nat, frac: nat)
    requires frac < TWO64
    ensures whole > Quot(TWO64 - 1 - frac, BLUGLETS) <==> whole * BLUGLETS + frac >= TWO64
  {
    var room := TWO64 - 1 - frac;
    Euclid(room, BLUGLETS);
  }

  // ----- what is accepted -----

  /** A decimal: digits, then perhaps a point and at most eight more digits. */
  predicate IsDecimal(s: string, whole: string, frac: string, point: bool) {
    && AllDigits(whole) && |whole| > 0 && AllDigits(frac) && |frac| <= 8
    && s == (if point then whole + "." + frac else whole)
    && (!point ==> frac == "")
  }

  /** Its value in bluglets: all its digits read as one number, shifted by the decimals that are missing. */
  function InBluglets(whole: string, frac: string): nat
    requires AllDigits(whole) && AllDigits(frac) && |frac| <= 8
  {
    ValueOf(whole + frac) * Power(10, 8 - |frac|)
  }

  lemma {:induction false} ValueOfZeros(n: nat)
    ensures ValueOf(Zeros(n)) == 0
  {
    hide ValueOf;
    if n == 0 {
      assert ValueOf("") == 0 by { ValueOfNothing(); }
    } else {
      ValueOfZeros(n - 1);
      ValueOfOne(0);
      assert Zeros(n) == Zeros(n - 1) + [DigitChar(0)];
      ValueOfConcat(Zeros(n - 1), [DigitChar(0)]);
    }
  }

  lemma ValueOfNothing()
    ensures ValueOf("") == 0
  {
  }

  lemma TenToEight()
    ensures Power(10, 8) == BLUGLETS
  {
    assert Power(10, 1) == 10 && Power(10, 2) == 100;
    PowerSquare(10, 2);
    PowerSquare(10, 4);
  }

  /** The two parts as the parser computes them add up to the value of the whole decimal. */
  lemma PartsAddUp(whole: string, frac: string)
    requires AllDigits(whole) && AllDigits(frac) && |frac| <= 8
    ensures var padded := frac + Zeros(8 - |frac|);
            && AllDigits(padded) && ValueOf(padded) < BLUGLETS
            && ValueOf(whole) * BLUGLETS + ValueOf(padded) == InBluglets(whole, frac)
  {
    hide ValueOf, Power;
    var n := 8 - |frac|;
    var padded := frac + Zeros(n);
    ValueOfConcat(frac, Zeros(n));
    ValueOfZeros(n);
    ValueOfConcat(whole, frac);
    TenToEight();
    PowerAdd(10, |frac|, n);
    BelowPower(padded);
    var w, f, p, q := ValueOf(whole), ValueOf(frac), Power(10, |frac|), Power(10, n);
    Distribute(w, p, f, q);
  }

  lemma BelowPower(s: string)
    requires AllDigits(s)
    ensures ValueOf(s) < Power(10, |s|)
  {
    ValueBound(DigitValues(s), 10);
  }

  lemma PointOfDecimal(s: string, whole: string, frac: string, point: bool)
    requires IsDecimal(s, whole, frac, point)
    ensures !HasSignOrExponent(s) && PointIn(s) == |whole|
    ensures s[..|whole|] == whole && (point ==> |s| > |whole| && s[|whole| + 1..] == frac)
  {
    forall i | 0 <= i < |s| ensures s[i] !in "-+eE" && (i < |whole| ==> s[i] != '.') {
      if i < |whole| {
        assert IsDigit(whole[i]);
      } else if i > |whole| {
        assert IsDigit(frac[i - |whole| - 1]);
      }
    }
    assert point ==> s[|whole|] == '.';
  }

  /** Every decimal is accepted exactly when its value fits in 64 bits, and comes back as that value. */
  lemma DecimalsAreParsed(text: string, whole: string, frac: string, point: bool)
    requires IsDecimal(Trim(text), whole, frac, point)
    ensures var v := InBluglets(whole, frac);
            ParseAmount(text) == if v < TWO64 then Some(v) else None
  {
    hide Trim, ValueOf, InBluglets, AllDigits, HasSignOrExponent, Quot;
    PointOfDecimal(Trim(text), whole, frac, point);
    PartsAddUp(whole, frac);
    var padded := frac + Zeros(8 - |frac|);
    NoOverflow(ValueOf(whole), ValueOf(padded));
    ValueOfZeros(8);
    assert !point ==> padded == Zeros(8);
  }

  /** Nothing else is accepted. */
  lemma OnlyDecimalsAreParsed(text: string)
    requires ParseAmount(text).Some?
    ensures exists whole, frac, point :: IsDecimal(Trim(text), whole, frac, point)
  {
    hide Trim, ValueOf, HasSignOrExponent, Quot;
    var s := Trim(text);
    var k := PointIn(s);
    if k < |s| {
      var frac := s[k + 1..];
      var padded := frac + Zeros(8 - |frac|);
      assert forall i :: 0 <= i < |frac| ==> frac[i] == padded[i];
      assert s == s[..k] + "." + frac;
      assert IsDecimal(s, s[..k], frac, true);
    } else {
      assert IsDecimal(s, s, "", false);
    }
  }

  /** Parsing undoes printing, for every amount. */
  lemma ParseFormat(a: u64)
    ensures ParseAmount(FormatAmount(a)) == Some(a)
  {
    hide Trim, ValueOf, InBluglets, AllDigits, ParseAmount;
    var whole, frac := Numeral(Quot(a, BLUGLETS)), Places(Rest(a, BLUGLETS), 8);
    var text := whole + "." + frac;
    TenToEight();
    ValueOfNumeral(Quot(a, BLUGLETS));
    ValueOfPlaces(Rest(a, BLUGLETS), 8);
    Euclid(a, BLUGLETS);
    PartsAddUp(whole, frac);
    assert frac + Zeros(0) == frac;
    NothingToTrim(text, whole, frac);
    DecimalsAreParsed(text, whole, frac, true);
  }

  lemma NothingToTrim(text: string, whole: string, frac: string)
    requires AllDigits(whole) && |whole| > 0 && AllDigits(frac) && |frac| > 0 && text == whole + "." + frac
    ensures Trim(text) == text
  {
    assert text[0] == whole[0] && text[|text| - 1] == frac[|frac| - 1];
  }
}
