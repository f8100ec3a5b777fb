/** Naive date-times (no time zone) and their ISO 8601 rendering as Python's
    `datetime.isoformat()` writes it: `YYYY-MM-DDTHH:MM:SS`, followed by
    `.ffffff` only when the microsecond is not zero. */
module DateTimes {
  import opened Strings

  datatype DateTime = DateTime(year: nat, month: nat, day: nat,
                               hour: nat, minute: nat, second: nat, microsecond: nat)

  /** The field ranges Python's `datetime` enforces (the day is bounded by 31;
      which month has fewer days plays no part in the rendering). */
  predicate Valid(d: DateTime) {
    && 1 <= d.year <= 9999
    && 1 <= d.month <= 12
    && 1 <= d.day <= 31
    && d.hour < 24 && d.minute < 60 && d.second < 60
    && d.microsecond < 1000000
  }

  /** `d.isoformat()`. */
  function IsoFormat(d: DateTime): string {
    DatePart(d) + "T" + TimePart(d)
    + (if d.microsecond == 0 then "" else "." + Pad(d.microsecond, 6))
  }

  function DatePart(d: DateTime): string {
    Pad(d.year, 4) + "-" + Pad(d.month, 2) + "-" + Pad(d.day, 2)
  }

  function TimePart(d: DateTime): string {
    Pad(d.hour, 2) + ":" + Pad(d.minute, 2) + ":" + Pad(d.second, 2)
  }

  function Pad(n: nat, width: nat): string {
    PadStart(NatToString(n), width, '0')
  }

  /** A number below 10^width pads to exactly `width` digits. */
  lemma PadWidth(n: nat, width: nat)
    requires width > 0 && n < Pow10(width)
    ensures |Pad(n, width)| == width
  {
    ZeroPaddedRoundTrip(n, width);
  }

  /** A padded field reads back as its number. */
  lemma ReadsBack(t: string, n: nat, width: nat)
    requires width > 0 && n < Pow10(width) && t == Pad(n, width)
    ensures |t| == width && AllDigits(t) && StringToNat(t) == n
  {
    ZeroPaddedRoundTrip(n, width);
  }

  /** Three fields joined by one-character separators can be cut apart. */
  lemma Fields3(a: string, sep1: char, b: string, sep2: char, c: string, w1: nat, w2: nat, w3: nat)
    requires |a| == w1 && |b| == w2 && |c| == w3
    ensures var s := a + [sep1] + b + [sep2] + c;
      && |s| == w1 + w2 + w3 + 2 && s[w1] == sep1 && s[w1 + 1 + w2] == sep2
      && s[0..w1] == a && s[w1 + 1..w1 + 1 + w2] == b && s[w1 + w2 + 2..w1 + w2 + 2 + w3] == c
  {
  }

  lemma DateLayout(d: DateTime)
    requires Valid(d)
    ensures var s := DatePart(d);
      && |s| == 10 && s[4] == '-' && s[7] == '-'
      && s[0..4] == Pad(d.year, 4) && s[5..7] == Pad(d.month, 2) && s[8..10] == Pad(d.day, 2)
  {
    assert Pow10(2) == 100 && Pow10(4) == 10000;
    PadWidth(d.year, 4);
    PadWidth(d.month, 2);
    PadWidth(d.day, 2);
    Fields3(Pad(d.year, 4), '-', Pad(d.month, 2), '-', Pad(d.day, 2), 4, 2, 2);
  }

  lemma TimeLayout(d: DateTime)
    requires Valid(d)
    ensures var s := TimePart(d);
      && |s| == 8 && s[2] == ':' && s[5] == ':'
      && s[0..2] == Pad(d.hour, 2) && s[3..5] == Pad(d.minute, 2) && s[6..8] == Pad(d.second, 2)
  {
    assert Pow10(2) == 100;
    PadWidth(d.hour, 2);
    PadWidth(d.minute, 2);
    PadWidth(d.second, 2);
    Fields3(Pad(d.hour, 2), ':', Pad(d.minute, 2), ':', Pad(d.second, 2), 2, 2, 2);
  }

  lemma DatePartLength(d: DateTime)
    requires Valid(d)
    ensures |DatePart(d)| == 10
  {
    DateLayout(d);
  }

  lemma TimePartLength(d: DateTime)
    requires Valid(d)
    ensures |TimePart(d)| == 8
  {
    TimeLayout(d);
  }

  /** A slice of a slice is a slice of the whole. */
  lemma SliceOfSlice(s: string, i: nat, j: nat, a: nat, b: nat)
    requires i <= j <= |s| && a <= b <= j - i
    ensures s[i..j][a..b] == s[i + a..i + b]
  {
    forall k | 0 <= k < b - a ensures s[i..j][a..b][k] == s[i + a..i + b][k] {
      assert s[i..j][a..b][k] == s[i..j][a + k] == s[i + a + k];
    }
  }

  /** The fraction `.` followed by six digits, at the end of a 26-character
      rendering. */
  lemma FracAt(s: string, p: string)
    requires |s| == 26 && |p| == 6 && s[19..] == "." + p
    ensures s[19] == '.' && s[20..26] == p
  {
    assert s[19] == s[19..][0];
    SliceOfSlice(s, 19, 26, 1, 7);
  }

  /** Where the parts of `date + "T" + time + frac` sit. */
  lemma IsoParts(date: string, time: string, frac: string)
    requires |date| == 10 && |time| == 8
    ensures var s := date + "T" + time + frac;
      && |s| == 19 + |frac| && s[10] == 'T'
      && s[0..10] == date && s[11..19] == time && s[19..] == frac
  {
  }

  /** Where the date, the time and the fraction sit in the rendering. */
  lemma IsoLayout(d: DateTime)
    requires Valid(d)
    ensures var s := IsoFormat(d);
      && |s| == (if d.microsecond == 0 then 19 else 26)
      && s[0..10] == DatePart(d) && s[10] == 'T' && s[11..19] == TimePart(d)
      && (d.microsecond != 0 ==> s[19] == '.' && s[20..26] == Pad(d.microsecond, 6))
  {
    DatePartLength(d);
    TimePartLength(d);
    var frac := if d.microsecond == 0 then "" else "." + Pad(d.microsecond, 6);
    IsoParts(DatePart(d), TimePart(d), frac);
    if d.microsecond != 0 {
      assert Pow10(6) == 1000000;
      PadWidth(d.microsecond, 6);
      FracAt(IsoFormat(d), Pad(d.microsecond, 6));
    }
  }

  /** A string holding the date in its first ten characters carries the
      year, month and day in fixed places. */
  lemma DateFieldsAt(s: string, d: DateTime)
    requires Valid(d) && |s| >= 10 && s[0..10] == DatePart(d)
    ensures s[4] == '-' && s[7] == '-'
    ensures AllDigits(s[0..4]) && StringToNat(s[0..4]) == d.year
    ensures AllDigits(s[5..7]) && StringToNat(s[5..7]) == d.month
    ensures AllDigits(s[8..10]) && StringToNat(s[8..10]) == d.day
  {
    DateLayout(d);
    var date := s[0..10];
    assert s[4] == date[4] && s[7] == date[7];
    SliceOfSlice(s, 0, 10, 0, 4);
    SliceOfSlice(s, 0, 10, 5, 7);
    SliceOfSlice(s, 0, 10, 8, 10);
    assert Pow10(2) == 100 && Pow10(4) == 10000;
    ReadsBack(s[0..4], d.year, 4);
    ReadsBack(s[5..7], d.month, 2);
    ReadsBack(s[8..10], d.day, 2);
  }

  /** A string holding the time at positions 11 to 18 carries the hour,
      minute and second in fixed places. */
  lemma TimeFieldsAt(s: string, d: DateTime)
    requires Valid(d) && |s| >= 19 && s[11..19] == TimePart(d)
    ensures s[13] == ':' && s[16] == ':'
    ensures AllDigits(s[11..13]) && StringToNat(s[11..13]) == d.hour
    ensures AllDigits(s[14..16]) && StringToNat(s[14..16]) == d.minute
    ensures AllDigits(s[17..19]) && StringToNat(s[17..19]) == d.second
  {
    TimeLayout(d);
    var time := s[11..19];
    assert s[13] == time[2] && s[16] == time[5];
    SliceOfSlice(s, 11, 19, 0, 2);
    SliceOfSlice(s, 11, 19, 3, 5);
    SliceOfSlice(s, 11, 19, 6, 8);
    assert Pow10(2) == 100;
    ReadsBack(s[11..13], d.hour, 2);
    ReadsBack(s[14..16], d.minute, 2);
    ReadsBack(s[17..19], d.second, 2);
  }

  /** The rendering has a fixed layout: 19 characters, or 26 with
      microseconds, with the separators in fixed places, and each numeric
      field reads back as the field it renders. */
  lemma {:induction false} IsoFormatFields(d: DateTime)
    requires Valid(d)
    ensures var s := IsoFormat(d);
      && |s| == (if d.microsecond == 0 then 19 else 26)
      && s[4] == '-' && s[7] == '-' && s[10] == 'T' && s[13] == ':' && s[16] == ':'
      && AllDigits(s[0..4]) && StringToNat(s[0..4]) == d.year
      && AllDigits(s[5..7]) && StringToNat(s[5..7]) == d.month
      && AllDigits(s[8..10]) && StringToNat(s[8..10]) == d.day
      && AllDigits(s[11..13]) && StringToNat(s[11..13]) == d.hour
      && AllDigits(s[14..16]) && StringToNat(s[14..16]) == d.minute
      && AllDigits(s[17..19]) && StringToNat(s[17..19]) == d.second
      && (d.microsecond != 0 ==>
            s[19] == '.' && AllDigits(s[20..26]) && StringToNat(s[20..26]) == d.microsecond)
  {
    IsoLayout(d);
    DateFieldsAt(IsoFormat(d), d);
    TimeFieldsAt(IsoFormat(d), d);
    if d.microsecond != 0 {
      assert Pow10(6) == 1000000;
      ReadsBack(IsoFormat(d)[20..26], d.microsecond, 6);
    }
  }

  /** Different date-times never render alike. */
  lemma IsoFormatInjective(a: DateTime, b: DateTime)
    requires Valid(a) && Valid(b) && IsoFormat(a) == IsoFormat(b)
    ensures a == b
  {
    IsoFormatFields(a);
    IsoFormatFields(b);
  }
}
