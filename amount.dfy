/**
 * The amount field of the payment form: the pattern ^\d+(\.\d{0,2})?$ that
 * every accepted keystroke must match, the exact value in minor currency units
 * of a matching text, and the "greater than 0" test decided on the text.
 */
module AmountInput {
  import opened JsNumbers

  /** Position `i` holds the decimal point of a well-formed amount with a fraction part. */
  predicate FractionAt(s: string, i: int) {
    1 <= i < |s| && s[i] == '.' && AllDecimalDigits(s[..i]) && AllDecimalDigits(s[i + 1..])
    && |s| - i - 1 <= 2
  }

  /** `s` matches ^\d+(\.\d{0,2})?$ : one or more digits, then optionally a point and at most two digits. */
  predicate IsAmount(s: string) {
    (|s| >= 1 && AllDecimalDigits(s)) || exists i :: 0 <= i < |s| && FractionAt(s, i)
  }

  /** States of a left-to-right matcher for the same pattern. */
  datatype ScanState = Start | Whole | Fraction(digits: nat) | Reject

  function Step(st: ScanState, c: char): ScanState {
    match st
    case Start => if IsDecimalDigit(c) then Whole else Reject
    case Whole => if IsDecimalDigit(c) then Whole else if c == '.' then Fraction(0) else Reject
    case Fraction(k) => if IsDecimalDigit(c) && k < 2 then Fraction(k + 1) else Reject
    case Reject => Reject
  }

  function Scan(s: string): ScanState {
    if s == [] then Start else Step(Scan(s[..|s| - 1]), s[|s| - 1])
  }

  /** What the pattern test answers for `s`. */
  predicate Matches(s: string) {
    Scan(s).Whole? || Scan(s).Fraction?
  }

  lemma FractionAtUnique(s: string, i: int, j: int)
    requires FractionAt(s, i) && FractionAt(s, j)
    ensures i == j
  {
    assert forall k :: 0 <= k < i ==> s[k] == s[..i][k];
    assert forall k :: 0 <= k < j ==> s[k] == s[..j][k];
  }

  lemma AllDigitsSnoc(t: string, c: char)
    ensures AllDecimalDigits(t + [c]) <==> AllDecimalDigits(t) && IsDecimalDigit(c)
  {
    assert forall i :: 0 <= i < |t| ==> t[i] == (t + [c])[i];
    assert (t + [c])[|t|] == c;
  }

  /** What each state of the matcher says about the text read so far. */
  ghost predicate ScanSound(s: string) {
    && (Scan(s) == Start <==> s == [])
    && (Scan(s) == Whole <==> |s| >= 1 && AllDecimalDigits(s))
    && (Scan(s).Fraction? ==> FractionAt(s, |s| - 1 - Scan(s).digits))
    && (forall i :: FractionAt(s, i) ==> Scan(s).Fraction?)
  }

  lemma ScanSnoc(t: string, c: char)
    ensures Scan(t + [c]) == Step(Scan(t), c)
  {
    assert (t + [c])[..|t|] == t;
  }

  /** A point after one or more digits starts a fraction part. */
  lemma PointAfterDigits(t: string)
    requires |t| >= 1 && AllDecimalDigits(t)
    ensures FractionAt(t + ['.'], |t|)
  {
    var s := t + ['.'];
    assert s[..|t|] == t;
    assert s[|t| + 1..] == [];
  }

  /** A digit after fewer than two fraction digits extends the fraction part. */
  lemma DigitInFraction(t: string, i: int, c: char)
    requires FractionAt(t, i) && |t| - i - 1 < 2 && IsDecimalDigit(c)
    ensures FractionAt(t + [c], i)
  {
    var s := t + [c];
    assert s[..i] == t[..i];
    assert s[i + 1..] == t[i + 1..] + [c];
    AllDigitsSnoc(t[i + 1..], c);
  }

  /** The two ways into a Fraction state. */
  lemma StepToFraction(st: ScanState, c: char)
    requires Step(st, c).Fraction?
    ensures || (st == Whole && c == '.' && Step(st, c).digits == 0)
            || (st.Fraction? && st.digits < 2 && IsDecimalDigit(c) && Step(st, c).digits == st.digits + 1)
  {
  }

  /** A step into a Fraction state from a sound state `st` after `t` lands on a well-formed fraction part. */
  lemma FractionStepSound(t: string, c: char, st: ScanState)
    requires st == Whole ==> |t| >= 1 && AllDecimalDigits(t)
    requires st.Fraction? ==> FractionAt(t, |t| - 1 - st.digits)
    requires Step(st, c).Fraction?
    ensures FractionAt(t + [c], |t| - Step(st, c).digits)
  {
    StepToFraction(st, c);
    if st == Whole {
      PointAfterDigits(t);
    } else {
      DigitInFraction(t, |t| - 1 - st.digits, c);
    }
  }

  /** Every well-formed amount with a fraction part leaves the matcher in a Fraction state. */
  lemma FractionStepComplete(t: string, c: char, i: int)
    requires ScanSound(t)
    requires FractionAt(t + [c], i)
    ensures Scan(t + [c]).Fraction?
  {
    var s := t + [c];
    ScanSnoc(t, c);
    if i == |t| {
      assert s[..i] == t;
      assert Scan(t) == Whole;
    } else {
      assert s[i + 1..] == t[i + 1..] + [c];
      AllDigitsSnoc(t[i + 1..], c);
      assert s[..i] == t[..i];
      assert FractionAt(t, i);
      FractionAtUnique(t, i, |t| - 1 - Scan(t).digits);
    }
  }

  lemma ScanStep(t: string, c: char)
    requires ScanSound(t)
    ensures ScanSound(t + [c])
  {
    var s := t + [c];
    ScanSnoc(t, c);
    AllDigitsSnoc(t, c);
    if Scan(s).Fraction? {
      FractionStepSound(t, c, Scan(t));
    }
    forall i | FractionAt(s, i) ensures Scan(s).Fraction? {
      FractionStepComplete(t, c, i);
    }
  }

  lemma {:induction false} ScanMeaning(s: string)
    ensures ScanSound(s)
  {
    if s != [] {
      var t, c := s[..|s| - 1], s[|s| - 1];
      assert s == t + [c];
      ScanMeaning(t);
      ScanStep(t, c);
    }
  }

  /** The matcher and the pattern agree on every text. */
  lemma MatchesIffAmount(s: string)
    ensures Matches(s) <==> IsAmount(s)
  {
    ScanMeaning(s);
    if Scan(s).Fraction? {
      assert FractionAt(s, |s| - 1 - Scan(s).digits);
    }
  }

  /** The index of the first '.', or |s| if there is none. */
  function PointIndex(s: string): (d: nat)
    ensures d <= |s|
    ensures forall j :: 0 <= j < d ==> s[j] != '.'
    ensures d < |s| ==> s[d] == '.'
  {
    if s == [] || s[0] == '.' then 0 else 1 + PointIndex(s[1..])
  }

  /** Up to two fraction digits, as hundredths. */
  function FractionCents(f: string): nat {
    if |f| == 0 then 0
    else if |f| == 1 then 10 * DigitValue(f[0])
    else 10 * DigitValue(f[0]) + DigitValue(f[1])
  }

  /** The exact value of an accepted amount in minor currency units (pence). */
  function Cents(s: string): nat
    requires IsAmount(s)
  {
    var d := PointIndex(s);
    DigitsValue(s[..d], 10) * 100 + (if d < |s| then FractionCents(s[d + 1..]) else 0)
  }

  /** Where the point of an accepted amount is. */
  lemma PointIndexOfAmount(s: string)
    requires IsAmount(s)
    ensures AllDecimalDigits(s) ==> PointIndex(s) == |s|
    ensures forall i :: FractionAt(s, i) ==> PointIndex(s) == i
  {
    var d := PointIndex(s);
    if AllDecimalDigits(s) {
      assert forall k :: 0 <= k < |s| ==> s[k] != '.';
    }
    forall i | FractionAt(s, i) ensures d == i {
      assert forall k :: 0 <= k < i ==> s[k] == s[..i][k];
    }
  }

  lemma {:induction false} DigitsValueZero(z: string)
    requires AllDecimalDigits(z)
    ensures DigitsValue(z, 10) == 0 <==> forall j :: 0 <= j < |z| ==> z[j] == '0'
  {
    if z != [] {
      var t := z[..|z| - 1];
      assert forall j :: 0 <= j < |t| ==> t[j] == z[j];
      DigitsValueZero(t);
      if DigitsValue(z, 10) == 0 {
        assert DigitsValue(t, 10) == 0 && DigitValue(z[|z| - 1]) == 0;
        forall j | 0 <= j < |z| ensures z[j] == '0' {
          if j < |t| {
            assert z[j] == t[j];
          }
        }
      }
    }
  }

  /** Every digit of `s` (the point aside) is '0'. */
  predicate ZeroDigits(s: string) {
    forall j :: 0 <= j < |s| && s[j] != '.' ==> s[j] == '0'
  }

  lemma FractionCentsZero(f: string)
    requires AllDecimalDigits(f) && |f| <= 2
    ensures FractionCents(f) == 0 <==> ZeroDigits(f)
  {
  }

  /** An amount with a fraction part is its whole part, the point and its fraction part. */
  lemma FractionParts(s: string, i: int)
    requires FractionAt(s, i)
    ensures PointIndex(s) == i
    ensures s == s[..i] + ['.'] + s[i + 1..]
  {
    assert forall k :: 0 <= k < i ==> s[k] == s[..i][k];
    assert s[i..] == ['.'] + s[i + 1..];
    assert s == s[..i] + s[i..];
  }

  lemma ZeroDigitsSplit(w: string, f: string)
    ensures ZeroDigits(w + ['.'] + f) <==> ZeroDigits(w) && ZeroDigits(f)
  {
    var s := w + ['.'] + f;
    assert forall j :: 0 <= j < |w| ==> s[j] == w[j];
    assert forall j :: 0 <= j < |f| ==> s[|w| + 1 + j] == f[j];
  }

  /** The value of a digits-only amount is its digits read as pounds. */
  lemma CentsOfWhole(s: string)
    requires |s| >= 1 && AllDecimalDigits(s)
    ensures IsAmount(s) && Cents(s) == DigitsValue(s, 10) * 100
  {
    PointIndexOfAmount(s);
    assert s[..|s|] == s;
  }

  /** The value of an amount with a fraction part is its whole part in pounds plus its fraction in pence. */
  lemma CentsOfFraction(s: string, i: int)
    requires FractionAt(s, i)
    ensures IsAmount(s) && Cents(s) == DigitsValue(s[..i], 10) * 100 + FractionCents(s[i + 1..])
  {
    FractionParts(s, i);
  }

  lemma CentsZeroWhole(s: string)
    requires |s| >= 1 && AllDecimalDigits(s)
    ensures IsAmount(s) && (Cents(s) == 0 <==> ZeroDigits(s))
  {
    CentsOfWhole(s);
    DigitsValueZero(s);
  }

  lemma CentsZeroFraction(s: string, i: int)
    requires FractionAt(s, i)
    ensures IsAmount(s) && (Cents(s) == 0 <==> ZeroDigits(s))
  {
    CentsOfFraction(s, i);
    FractionParts(s, i);
    var w, f := s[..i], s[i + 1..];
    DigitsValueZero(w);
    FractionCentsZero(f);
    ZeroDigitsSplit(w, f);
  }

  /**
   * For an accepted amount, `parseFloat(s) <= 0` can be decided on the text:
   * the value is zero exactly when every digit is '0'.
   */
  lemma CentsZeroIffAllZeros(s: string)
    requires IsAmount(s)
    ensures Cents(s) == 0 <==> ZeroDigits(s)
  {
    if AllDecimalDigits(s) {
      CentsZeroWhole(s);
    } else {
      var i :| 0 <= i < |s| && FractionAt(s, i);
      CentsZeroFraction(s, i);
    }
  }

  /** "12.34" is accepted and is 1234 pence. */
  lemma AmountWithPence()
    ensures IsAmount("12.34") && Cents("12.34") == 1234
  {
    assert "12.34"[..2] == "12" && "12.34"[3..] == "34";
    assert FractionAt("12.34", 2);
    assert DigitsValue("12", 10) == 12 by {
      assert "12"[..1] == "1";
    }
    CentsOfFraction("12.34", 2);
  }

  /** "12." is accepted (a point with no fraction digits) and is 1200 pence. */
  lemma AmountWithBarePoint()
    ensures IsAmount("12.") && Cents("12.") == 1200
  {
    assert "12."[..2] == "12" && "12."[3..] == "";
    assert FractionAt("12.", 2);
    assert DigitsValue("12", 10) == 12 by {
      assert "12"[..1] == "1";
    }
    CentsOfFraction("12.", 2);
  }

  /** "0" is accepted and is worth nothing. */
  lemma AmountZero()
    ensures IsAmount("0") && Cents("0") == 0
  {
    CentsZeroWhole("0");
  }

  /** Three fraction digits are refused. */
  lemma RejectsThreeFractionDigits()
    ensures !IsAmount("12.345")
  {
    assert Scan("12.345") == Reject by {
      assert "12.345"[..5] == "12.34" && "12.34"[..4] == "12.3";
      assert "12.3"[..3] == "12." && "12."[..2] == "12" && "12"[..1] == "1" && "1"[..0] == "";
    }
    MatchesIffAmount("12.345");
  }

  /** A point with no whole part before it is refused. */
  lemma RejectsMissingWholePart()
    ensures !IsAmount(".5")
  {
    assert Scan(".5") == Reject by {
      assert ".5"[..1] == "." && "."[..0] == "";
    }
    MatchesIffAmount(".5");
  }

  /** A second point is refused. */
  lemma RejectsSecondPoint()
    ensures !IsAmount("1.2.3")
  {
    assert Scan("1.2.3") == Reject by {
      assert "1.2.3"[..4] == "1.2." && "1.2."[..3] == "1.2" && "1.2"[..2] == "1." && "1."[..1] == "1";
      assert "1"[..0] == "";
    }
    MatchesIffAmount("1.2.3");
  }
}
