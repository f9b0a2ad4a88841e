/**
 * `ui.components.AmountTextField`: the amount field's character filter, its
 * clean-up of thousands separators and the parse behind `getAmount`.
 */
module AmountField {
  import opened Wrappers
  import opened Text
  import opened Seqs

  /** What `[^\d.]` does not remove: an ASCII digit or the decimal point. */
  predicate Kept(c: char)
  {
    IsDigit(c) || c == '.'
  }

  predicate AllDigits(s: string)
  {
    forall i :: 0 <= i < |s| ==> IsDigit(s[i])
  }

  /** The length of the leading run of digits. */
  function DigitRun(s: string): (n: nat)
    ensures n <= |s| && AllDigits(s[..n])
    ensures n < |s| ==> !IsDigit(s[n])
    ensures AllDigits(s) ==> n == |s|
  {
    if s == [] || !IsDigit(s[0]) then 0
    else
      var n := DigitRun(s[1..]);
      assert s[..n + 1] == [s[0]] + s[1..][..n];
      n + 1
  }

  /** `text.matches(Regex("^\\d*\\.?\\d*$"))`: digits, at most one point, digits. */
  predicate MatchesPattern(s: string)
  {
    var n := DigitRun(s);
    s[n..] == [] || (s[n] == '.' && AllDigits(s[n + 1..]))
  }

  /** `isValidAmount`, check by check as the field makes them. */
  predicate IsValidAmount(text: string)
  {
    if text == "" then true
    else if !MatchesPattern(text) then false
    else if Occurrences(text, '.') > 1 then false
    else
      var parts := Split(text, '.');
      !(|parts| == 2 && |parts[1]| > 2)
  }

  /** Digits with a decimal point at `i` and digits after it. */
  predicate PointAt(s: string, i: int)
  {
    0 <= i < |s| && s[i] == '.' && AllDigits(s[..i]) && AllDigits(s[i + 1..])
  }

  /** The texts the field accepts: digits, or digits, a point and at most two digits. */
  predicate AmountShape(s: string)
  {
    AllDigits(s) || exists i :: 0 <= i < |s| && PointAt(s, i) && |s| - i - 1 <= 2
  }

  /** Digits up to `k` and a non-digit at `k` make `k` the length of the run. */
  lemma {:induction false} DigitRunAt(s: string, k: nat)
    requires k <= |s| && AllDigits(s[..k])
    requires k < |s| ==> !IsDigit(s[k])
    ensures DigitRun(s) == k
  {
    if k > 0 {
      assert IsDigit(s[..k][0]);
      assert s[1..][..k - 1] == s[1..k];
      assert forall j :: 0 <= j < k - 1 ==> s[1..k][j] == s[..k][j + 1];
      DigitRunAt(s[1..], k - 1);
    }
  }

  /** The run of digits ends exactly at the point. */
  lemma DigitRunAtPoint(s: string, i: int)
    requires PointAt(s, i)
    ensures DigitRun(s) == i
  {
    DigitRunAt(s, i);
  }

  /** The pattern describes digits, optionally split by one point. */
  lemma PatternShape(s: string)
    ensures MatchesPattern(s) <==> AllDigits(s) || exists i :: 0 <= i < |s| && PointAt(s, i)
  {
    var n := DigitRun(s);
    if n == |s| {
      assert s[..n] == s;
    } else if i :| 0 <= i < |s| && PointAt(s, i) {
      DigitRunAtPoint(s, i);
    } else if MatchesPattern(s) {
      assert PointAt(s, n);
    }
  }

  lemma {:induction false} OccurrencesConcat(a: string, b: string, c: char)
    ensures Occurrences(a + b, c) == Occurrences(a, c) + Occurrences(b, c)
  {
    if a != [] {
      assert (a + b)[1..] == a[1..] + b;
      OccurrencesConcat(a[1..], b, c);
    } else {
      assert a + b == b;
    }
  }

  lemma {:induction false} NoPointInDigits(s: string)
    requires AllDigits(s)
    ensures Occurrences(s, '.') == 0 && '.' !in s
  {
    if s != [] {
      NoPointInDigits(s[1..]);
    }
  }

  /** The separate dot count never rejects anything the pattern lets through. */
  lemma PatternOnePoint(s: string)
    requires MatchesPattern(s)
    ensures Occurrences(s, '.') <= 1
  {
    PatternShape(s);
    if AllDigits(s) {
      NoPointInDigits(s);
    } else {
      var i :| 0 <= i < |s| && PointAt(s, i);
      SplitAtPoint(s, i);
    }
  }

  /** Text with one point splits into the digits before it and the digits after it. */
  lemma SplitAtPoint(s: string, i: int)
    requires PointAt(s, i)
    ensures Occurrences(s, '.') == 1
    ensures Split(s, '.') == [s[..i], s[i + 1..]]
  {
    var a, b := s[..i], s[i + 1..];
    assert s == a + ['.'] + b;
    NoPointInDigits(a);
    NoPointInDigits(b);
    OccurrencesConcat(a + ['.'], b, '.');
    OccurrencesConcat(a, ['.'], '.');
    assert Join([a, b], '.') == a + ['.'] + Join([b], '.');
    JoinThenSplit([a, b], '.');
  }

  /** What the field accepts, stated without the regex: the staged checks amount to `AmountShape`. */
  lemma ValidAmountShape(s: string)
    ensures IsValidAmount(s) <==> AmountShape(s)
  {
    PatternShape(s);
    if AllDigits(s) {
      if s != "" {
        NoPointInDigits(s);
        assert Join([s], '.') == s;
        JoinThenSplit([s], '.');
      }
    } else if i :| 0 <= i < |s| && PointAt(s, i) {
      SplitAtPoint(s, i);
      forall j | PointAt(s, j)
        ensures j == i
      {
        DigitRunAtPoint(s, j);
        DigitRunAtPoint(s, i);
      }
    }
  }

  /** The empty text, a lone point and a trailing point are accepted. */
  lemma AcceptedExamples()
    ensures IsValidAmount("") && IsValidAmount(".") && IsValidAmount("12.")
  {
    ValidAmountShape(".");
    ValidAmountShape("12.");
    assert PointAt(".", 0);
    assert PointAt("12.", 2);
  }

  /** Two decimals are accepted. */
  lemma TwoDecimalsAccepted()
    ensures IsValidAmount("12.34")
  {
    ValidAmountShape("12.34");
    assert PointAt("12.34", 2);
  }

  /** A third decimal is refused. */
  lemma ThirdDecimalRefused()
    ensures !IsValidAmount("1.234")
  {
    var s := "1.234";
    assert PointAt(s, 1);
    SplitAtPoint(s, 1);
  }

  /** A comma, and a second point, are refused. */
  lemma CommaAndSecondPointRefused()
    ensures !IsValidAmount("1,5") && !IsValidAmount("1.2.3")
  {
    assert DigitRun("1,5") == 1 by { DigitRunAt("1,5", 1); }
    assert DigitRun("1.2.3") == 1 by { DigitRunAt("1.2.3", 1); }
    assert !IsDigit("1.2.3"[1..][2]);
  }

  /** `text.replace("[^\\d.]".toRegex(), "")`: drops grouping spaces and anything else but digits and the point. */
  function Unformat(s: string): (r: string)
    ensures forall i :: 0 <= i < |r| ==> Kept(r[i])
  {
    Filter(s, Kept)
  }

  /** Stripping twice is stripping once. */
  lemma UnformatIdempotent(s: string)
    ensures Unformat(Unformat(s)) == Unformat(s)
  {
    FilterIdempotent(s, Kept);
  }

  /** Text the filter accepted is left alone by stripping. */
  lemma UnformatValid(s: string)
    requires IsValidAmount(s)
    ensures Unformat(s) == s
  {
    ValidAmountShape(s);
    if !AllDigits(s) {
      var i :| 0 <= i < |s| && PointAt(s, i) && |s| - i - 1 <= 2;
      forall j | 0 <= j < |s|
        ensures Kept(s[j])
      {
        if j < i {
          assert IsDigit(s[..i][j]);
        } else if j > i {
          assert IsDigit(s[i + 1..][j - i - 1]);
        }
      }
    }
    FilterAll(s, Kept);
  }

  /** The value of a run of decimal digits. */
  function DigitsValue(s: string): nat
    requires AllDigits(s)
  {
    if s == [] then 0 else DigitsValue(s[..|s| - 1]) * 10 + (s[|s| - 1] as int - '0' as int)
  }

  /**
   * `toDouble` on stripped text: digits, or digits around one point with a
   * digit on at least one side; anything else (`""`, `"."`, two points) is a
   * `NumberFormatException`, here `None`.
   */
  function ParseDecimal(s: string): Option<real>
    requires forall i :: 0 <= i < |s| ==> Kept(s[i])
  {
    var n := DigitRun(s);
    if n == |s| then
      if s == "" then None else Some(DigitsValue(s) as real)
    else
      var fraction := s[n + 1..];
      if !AllDigits(fraction) || (n == 0 && fraction == "") then None
      else Some(DigitsValue(s[..n]) as real + DigitsValue(fraction) as real / Pow10(|fraction|) as real)
  }

  /** The text `setAmount(0.0)` leaves reads back as zero. */
  lemma ZeroAmount()
    ensures AmountOf("0") == 0.0
  {
    assert Unformat("0") == "0";
    assert DigitRun("0") == 1;
  }

  /** `getAmount`: the parsed stripped text, or 0 where it is not a number. */
  function AmountOf(text: string): (r: real)
    ensures r >= 0.0
  {
    match ParseDecimal(Unformat(text))
    case Some(v) =>
      assert v >= 0.0 by {
        var s := Unformat(text);
        var n := DigitRun(s);
        if n < |s| {
          var fraction := s[n + 1..];
          assert DigitsValue(fraction) as real / Pow10(|fraction|) as real >= 0.0;
        }
      }
      v
    case None => 0.0
  }

  lemma {:induction false} NatTextDigits(n: nat)
    ensures AllDigits(NatText(n)) && |NatText(n)| >= 1
    ensures DigitsValue(NatText(n)) == n
  {
    if n >= 10 {
      NatTextDigits(n / 10);
      var t := NatText(n);
      assert t[..|t| - 1] == NatText(n / 10);
    }
  }

  /** The decimal text of a whole number parses back to it. */
  lemma ParseNatText(n: nat)
    ensures forall i :: 0 <= i < |NatText(n)| ==> Kept(NatText(n)[i])
    ensures ParseDecimal(NatText(n)) == Some(n as real)
  {
    NatTextDigits(n);
  }

  /** Two zero-padded digits of cents read back as the cents. */
  lemma PaddedCents(cents: nat)
    requires cents < 100
    ensures AllDigits(Padded(cents, 2)) && DigitsValue(Padded(cents, 2)) == cents
  {
    var t := Padded(cents, 2);
    var tens, units := cents / 10, cents % 10;
    assert tens < 10 && tens % 10 == tens && tens / 10 == 0;
    assert Padded(tens, 1) == [Digit(tens)];
    assert t == [Digit(tens), Digit(units)];
    assert t[..1] == [Digit(tens)];
    assert DigitsValue([Digit(tens)]) == tens;
    assert DigitsValue(t) == tens * 10 + units;
  }

  /** The text `whole.cents` with the cents written as two digits. */
  function CentsText(whole: nat, cents: nat): (s: string)
    ensures forall i :: 0 <= i < |s| ==> Kept(s[i])
  {
    NatTextDigits(whole);
    PaddedCents(cents % 100);
    var s := NatText(whole) + "." + Padded(cents, 2);
    assert forall i :: 0 <= i < |s| ==> i == |NatText(whole)| || (i < |NatText(whole)| && s[i] == NatText(whole)[i]) || (i > |NatText(whole)| && s[i] == Padded(cents, 2)[i - |NatText(whole)| - 1]);
    s
  }

  /** A whole part, a point and two digits of cents parse to the amount they write. */
  lemma ParseWithCents(whole: nat, cents: nat)
    requires cents < 100
    ensures ParseDecimal(CentsText(whole, cents)) == Some(whole as real + cents as real / 100.0)
  {
    var w, c := NatText(whole), Padded(cents, 2);
    var s := CentsText(whole, cents);
    NatTextDigits(whole);
    PaddedCents(cents);
    assert s[..|w|] == w;
    assert s[|w| + 1..] == c;
    assert PointAt(s, |w|);
    DigitRunAtPoint(s, |w|);
    var fraction := s[|w| + 1..];
    assert DigitsValue(fraction) == cents;
    assert Pow10(|fraction|) == 100;
  }

  /** Text the filter accepts holds only digits and the point. */
  lemma ValidKept(s: string)
    requires IsValidAmount(s)
    ensures forall i :: 0 <= i < |s| ==> Kept(s[i])
  {
    UnformatValid(s);
  }

  /** Every text the filter accepts parses, except those without a digit (`""` and `"."`). */
  lemma ValidParses(s: string)
    requires IsValidAmount(s)
    ensures forall i :: 0 <= i < |s| ==> Kept(s[i])
    ensures ParseDecimal(s).Some? <==> exists i :: 0 <= i < |s| && IsDigit(s[i])
  {
    ValidKept(s);
    ValidAmountShape(s);
    if AllDigits(s) {
      if s != "" { assert IsDigit(s[0]); }
    } else {
      var i :| 0 <= i < |s| && PointAt(s, i) && |s| - i - 1 <= 2;
      PointParses(s, i);
    }
  }

  /** Text with a point parses iff it has a digit on either side of it. */
  lemma PointParses(s: string, i: int)
    requires PointAt(s, i)
    ensures forall j :: 0 <= j < |s| ==> Kept(s[j])
    ensures ParseDecimal(s).Some? <==> exists j :: 0 <= j < |s| && IsDigit(s[j])
  {
    forall j | 0 <= j < |s|
      ensures Kept(s[j])
    {
      if j < i {
        assert IsDigit(s[..i][j]);
      } else if j > i {
        assert IsDigit(s[i + 1..][j - i - 1]);
      }
    }
    DigitRunAtPoint(s, i);
    if i > 0 {
      assert IsDigit(s[..i][0]);
    } else if i + 1 < |s| {
      assert IsDigit(s[i + 1..][0]);
    } else {
      assert s == ".";
    }
  }

  /** The field's text and caret; the text is what the user has typed so far. */
  class AmountTextField {
    var text: string
    var caretPosition: nat

    predicate Valid()
      reads this
    {
      caretPosition <= |text|
    }

    constructor ()
      ensures Valid() && text == "" && caretPosition == 0
    {
      text := "";
      caretPosition := 0;
    }

    /** `setAmount(0.0)`: `DecimalFormat("#,##0.##")` renders zero as "0", which reads back as zero. */
    method SetAmountZero()
      modifies this
      ensures Valid() && text == "0" && caretPosition == 0
      ensures GetAmount() == 0.0
    {
      text := "0";
      caretPosition := 0;
      ZeroAmount();
    }

    /** The text the KEY_TYPED filter checks: `character` inserted at the caret. */
    function Candidate(character: string): (r: string)
      requires Valid()
      reads this
      ensures |r| == |text| + |character|
      ensures r[..caretPosition] == text[..caretPosition] && r[caretPosition + |character|..] == text[caretPosition..]
    {
      text[..caretPosition] + character + text[caretPosition..]
    }

    /**
     * The KEY_TYPED filter: consumes the event when the candidate text is not
     * a valid amount; otherwise the field inserts the character at the caret.
     */
    method KeyTyped(character: string) returns (consumed: bool)
      requires Valid()
      modifies this
      ensures Valid()
      ensures consumed <==> !IsValidAmount(old(Candidate(character)))
      ensures consumed ==> text == old(text) && caretPosition == old(caretPosition)
      ensures !consumed ==> text == old(Candidate(character)) && caretPosition == old(caretPosition) + |character|
      ensures IsValidAmount(old(text)) ==> IsValidAmount(text)
    {
      var newText := Candidate(character);
      if !IsValidAmount(newText) {
        consumed := true;
      } else {
        consumed := false;
        text := newText;
        caretPosition := caretPosition + |character|;
      }
    }

    /** The focus listener on gaining focus (`unformatAmount`): back to digits and the point. */
    method FocusGained()
      requires Valid()
      modifies this
      ensures Valid()
      ensures text == Unformat(old(text))
      ensures forall i :: 0 <= i < |text| ==> Kept(text[i])
      ensures IsValidAmount(old(text)) ==> text == old(text)
    {
      var stripped := Unformat(text);
      if IsValidAmount(text) {
        UnformatValid(text);
      }
      text := stripped;
      if caretPosition > |text| {
        caretPosition := |text|;
      }
    }

    /** `getAmount`. */
    function GetAmount(): (r: real)
      reads this
      ensures r >= 0.0
      ensures ParseDecimal(Unformat(text)).Some? ==> r == ParseDecimal(Unformat(text)).value
      ensures ParseDecimal(Unformat(text)).None? ==> r == 0.0
    {
      AmountOf(text)
    }
  }
}
