/** Seconds as `HH:MM:SS`: `formatDuration` (src/screens/RideSummaryScreen.js)
    and `formatTime` (src/components/ActiveRideModal.js) are the same formula,
    defined once here as `FormatClock`. The seconds are a JavaScript number, so
    `%` truncates towards zero and `Math.floor` rounds down, on reals. */
module DurationFormat {
  import opened Common

  /** `Math.trunc`. */
  function Trunc(x: real): (t: int)
    ensures x >= 0.0 ==> t == x.Floor
    ensures x < 0.0 ==> x <= t as real < x + 1.0
  {
    if x >= 0.0 then x.Floor else -((-x).Floor)
  }

  /** JavaScript's `x % y`: the remainder of the quotient truncated towards
      zero, so it has the sign of `x`. */
  function JsRem(x: real, y: real): real
    requires y != 0.0
  {
    x - Trunc(x / y) as real * y
  }

  /** The remainder by 60 or 3600 (the only divisors used) lies strictly
      between `-y` and `y`, with the sign of `x`. */
  lemma RemBounds(x: real, y: real)
    requires y == 60.0 || y == 3600.0
    ensures x >= 0.0 ==> 0.0 <= JsRem(x, y) < y
    ensures x < 0.0 ==> -y < JsRem(x, y) <= 0.0
  {
    if y == 60.0 {
      assert JsRem(x, 60.0) == x - Trunc(x / 60.0) as real * 60.0;
    } else {
      assert JsRem(x, 3600.0) == x - Trunc(x / 3600.0) as real * 3600.0;
    }
  }

  /** The three fields before they are printed. */
  datatype Clock = Clock(h: int, m: int, s: int)

  /** Hours, minutes and seconds: minutes and seconds lie in -60..59, and no
      field is negative for a non-negative input. */
  function Fields(seconds: real): (c: Clock)
    ensures -60 <= c.m < 60 && -60 <= c.s < 60
    ensures seconds >= 0.0 ==> 0 <= c.h && 0 <= c.m && 0 <= c.s
  {
    RemBounds(seconds, 3600.0);
    RemBounds(seconds, 60.0);
    Clock((seconds / 3600.0).Floor, (JsRem(seconds, 3600.0) / 60.0).Floor, JsRem(seconds, 60.0).Floor)
  }

  /** For a non-negative input the fields recompose the whole seconds. */
  lemma FieldsRecompose(seconds: real)
    requires seconds >= 0.0
    ensures var c := Fields(seconds); c.h * 3600 + c.m * 60 + c.s == seconds.Floor
  {
    var c := Fields(seconds);
    var r := JsRem(seconds, 3600.0);
    assert r == seconds - c.h as real * 3600.0;
    var k := (seconds / 60.0).Floor;
    assert k == c.h * 60 + c.m by {
      assert (c.h * 60 + c.m) as real <= seconds / 60.0 < (c.h * 60 + c.m + 1) as real;
    }
    var r60 := JsRem(seconds, 60.0);
    assert r60 == seconds - k as real * 60.0;
    assert seconds == (c.h * 3600 + c.m * 60) as real + r60;
  }

  function DigitChar(d: int): (c: char)
    requires 0 <= d < 10
  {
    "0123456789"[d]
  }

  /** `n.toString()` for `n >= 0`. */
  function Digits(n: nat): (t: string)
    ensures |t| >= 1
    decreases n
  {
    if n < 10 then [DigitChar(n)] else Digits(n / 10) + [DigitChar(n % 10)]
  }

  /** `n.toString()` for any integer. */
  function IntToString(n: int): (t: string) {
    if n < 0 then "-" + Digits(-n) else Digits(n)
  }

  /** `t.padStart(2, '0')`. */
  function PadStart2(t: string): (r: string)
    ensures |r| == if |t| < 2 then 2 else |t|
    ensures r[|r| - |t|..] == t
    ensures forall i :: 0 <= i < |r| - |t| ==> r[i] == '0'
  {
    if |t| == 0 then "00" else if |t| == 1 then "0" + t else t
  }

  /** `formatDuration(seconds)` / `formatTime(seconds)`: three fields joined
      by colons, each at least two characters; for a non-negative input each
      field is its plain digits, zero-padded. */
  function FormatClock(seconds: real): (t: string)
    ensures |t| >= 8
    ensures seconds >= 0.0 ==>
      var c := Fields(seconds);
      t == PadStart2(Digits(c.h)) + ":" + PadStart2(Digits(c.m)) + ":" + PadStart2(Digits(c.s))
  {
    var c := Fields(seconds);
    PadStart2(IntToString(c.h)) + ":" + PadStart2(IntToString(c.m)) + ":" + PadStart2(IntToString(c.s))
  }

  /** Zero seconds show as `00:00:00`. */
  lemma ZeroSecondsText()
    ensures FormatClock(0.0) == "00:00:00"
  {
    assert Fields(0.0) == Clock(0, 0, 0);
  }

  /** `formatDuration(rideData.duration || 0)`. */
  function SummaryDuration(duration: Option<real>): (t: string)
    ensures duration.Some? ==> t == FormatClock(duration.value)
    ensures duration.None? ==> t == "00:00:00"
  {
    match duration
    case Some(d) => FormatClock(d)
    case None => ZeroSecondsText(); FormatClock(0.0)
  }

  // ---------------------------------------------------------------------------
  // Reading the text back

  predicate IsDigit(c: char) {
    '0' <= c <= '9'
  }

  /** The value of a string of decimal digits. */
  function DecimalValue(t: string): nat
    requires forall i :: 0 <= i < |t| ==> IsDigit(t[i])
  {
    if t == [] then 0
    else
      assert IsDigit(t[|t| - 1]);
      DecimalValue(t[..|t| - 1]) * 10 + (t[|t| - 1] as int - '0' as int)
  }

  /** `toString` of a non-negative integer is decimal digits that read back as
      the number. */
  lemma {:induction false} DigitsRoundTrip(n: nat)
    ensures forall i :: 0 <= i < |Digits(n)| ==> IsDigit(Digits(n)[i])
    ensures DecimalValue(Digits(n)) == n
    decreases n
  {
    if n >= 10 {
      DigitsRoundTrip(n / 10);
      var t := Digits(n);
      assert t[..|t| - 1] == Digits(n / 10);
    }
  }

  /** Leading zeros do not change a decimal value. */
  lemma {:induction false} LeadingZeroKeepsValue(t: string)
    requires forall i :: 0 <= i < |t| ==> IsDigit(t[i])
    ensures forall i :: 0 <= i < |"0" + t| ==> IsDigit(("0" + t)[i])
    ensures DecimalValue("0" + t) == DecimalValue(t)
    decreases |t|
  {
    if t != [] {
      var u := "0" + t;
      assert u[..|u| - 1] == "0" + t[..|t| - 1];
      LeadingZeroKeepsValue(t[..|t| - 1]);
    }
  }

  /** A padded field reads back as the number it printed. */
  lemma PaddedRoundTrip(n: nat)
    ensures var p := PadStart2(Digits(n));
      && |p| >= 2 && (n < 100 ==> |p| == 2)
      && (forall i :: 0 <= i < |p| ==> IsDigit(p[i]))
      && DecimalValue(p) == n
  {
    DigitsRoundTrip(n);
    var t := Digits(n);
    if |t| == 1 {
      LeadingZeroKeepsValue(t);
    }
    if n < 100 {
      DigitsShort(n);
    }
  }

  lemma DigitsShort(n: nat)
    requires n < 100
    ensures |Digits(n)| <= 2
  {
  }

  /** Three padded fields of an `HH:MM:SS` text, below 60 for minutes and
      seconds, read back as the numbers printed. */
  lemma FieldsReadBack(h: nat, m: nat, s: nat)
    requires m < 60 && s < 60
    ensures var hh, mm, ss := PadStart2(Digits(h)), PadStart2(Digits(m)), PadStart2(Digits(s));
      && |mm| == 2 && |ss| == 2 && |hh| >= 2
      && (forall i :: 0 <= i < |hh| ==> IsDigit(hh[i]))
      && (forall i :: 0 <= i < 2 ==> IsDigit(mm[i]) && IsDigit(ss[i]))
      && DecimalValue(hh) == h && DecimalValue(mm) == m && DecimalValue(ss) == s
  {
    PaddedRoundTrip(h);
    PaddedRoundTrip(m);
    PaddedRoundTrip(s);
  }

  /** For a non-negative input the text is three digit fields separated by
      colons; minutes and seconds take two digits, the hours at least two and
      more when needed (never truncated), and each reads back as its field. */
  lemma FormatClockReadsBack(seconds: real)
    requires seconds >= 0.0
    ensures var c := Fields(seconds);
      var hh := PadStart2(Digits(c.h));
      var mm := PadStart2(Digits(c.m));
      var ss := PadStart2(Digits(c.s));
      && FormatClock(seconds) == hh + ":" + mm + ":" + ss
      && |mm| == 2 && |ss| == 2 && |hh| >= 2
      && (forall i :: 0 <= i < |hh| ==> IsDigit(hh[i]))
      && DecimalValue(hh) == c.h
      && (forall i :: 0 <= i < 2 ==> IsDigit(mm[i]) && IsDigit(ss[i]))
      && DecimalValue(mm) == c.m && DecimalValue(ss) == c.s
      && DecimalValue(hh) * 3600 + DecimalValue(mm) * 60 + DecimalValue(ss) == seconds.Floor
  {
    var c := Fields(seconds);
    FieldsReadBack(c.h, c.m, c.s);
    FieldsRecompose(seconds);
  }
}
