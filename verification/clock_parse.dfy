/** Reading the elapsed-time label back: the strings `TimeString` produces for
    non-negative totals are exactly the well-formed `MM:SS` and `H:MM:SS`
    labels, and each one names a single total. */
module ClockParse {
  import opened Wrappers
  import opened Decimal
  import opened ClockFormat

  /** A two-digit minutes or seconds field with a value below 60. */
  predicate IsSexagesimalField(f: string) {
    |f| == 2 && AllDigits(f) && DigitsValue(f) < 60
  }

  /** The total number of seconds a label denotes: `MM:SS` with both fields
      below 60, or `H:MM:SS` with a positive hours field written without
      leading zeros; anything else is rejected. */
  function ParseTime(s: string): (r: Option<nat>)
  {
    if |s| == 5 then
      if s[2] == ':' && IsSexagesimalField(s[..2]) && IsSexagesimalField(s[3..]) then
        Some(DigitsValue(s[..2]) * 60 + DigitsValue(s[3..]))
      else
        None
    else if |s| >= 7 then
      var k := |s| - 6;
      if s[k] == ':' && s[k + 3] == ':' && IsCanonical(s[..k]) && DigitsValue(s[..k]) > 0
         && IsSexagesimalField(s[k + 1..k + 3]) && IsSexagesimalField(s[k + 4..])
      then
        Some(DigitsValue(s[..k]) * 3600 + DigitsValue(s[k + 1..k + 3]) * 60 + DigitsValue(s[k + 4..]))
      else
        None
    else
      None
  }

  /** A two-digit field below 60 is printed back unchanged by `%02d`. */
  lemma FieldRoundTrip(f: string)
    requires IsSexagesimalField(f)
    ensures Format02D(DigitsValue(f)) == f
  {
    var n := DigitsValue(f);
    assert f[..1] == [f[0]];
    if n < 10 {
      assert DigitsValue(f[..1]) == DigitValue(f[0]);
      assert f[0] == '0';
      assert NatDigits(n) == [f[1]];
      assert f == ['0'] + [f[1]];
    } else {
      assert DigitsValue(f[..1]) == DigitValue(f[0]);
      assert f[0] != '0';
      DigitsOfValue(f);
    }
  }

  /** Every non-negative total is read back from its label. */
  lemma ParseOfTimeString(total: nat)
    ensures ParseTime(TimeString(total)) == Some(total)
  {
    var c := Split(total);
    var mm, ss := Format02D(c.minutes), Format02D(c.seconds);
    var r := TimeString(total);
    if c.hours > 0 {
      var hh := FormatD(c.hours);
      ValueOfDigits(c.hours);
      assert r == hh + ":" + mm + ":" + ss;
      var k := |r| - 6;
      assert k == |hh|;
      assert r[..k] == hh;
      assert r[k + 1..k + 3] == mm;
      assert r[k + 4..] == ss;
    } else {
      assert r == mm + ":" + ss;
      assert r[..2] == mm;
      assert r[3..] == ss;
    }
  }

  /** Every label that is read as some total is exactly the label of that
      total: together with `ParseOfTimeString`, `TimeString` is a bijection
      from non-negative totals onto the well-formed labels. */
  lemma TimeStringOfParse(s: string, total: nat)
    requires ParseTime(s) == Some(total)
    ensures TimeString(total) == s
  {
    if |s| == 5 {
      var m, sec := DigitsValue(s[..2]), DigitsValue(s[3..]);
      SplitUnique(total, 0, m, sec);
      FieldRoundTrip(s[..2]);
      FieldRoundTrip(s[3..]);
      assert s == s[..2] + ":" + s[3..];
    } else {
      var k := |s| - 6;
      var h, m, sec := DigitsValue(s[..k]), DigitsValue(s[k + 1..k + 3]), DigitsValue(s[k + 4..]);
      SplitUnique(total, h, m, sec);
      DigitsOfValue(s[..k]);
      FieldRoundTrip(s[k + 1..k + 3]);
      FieldRoundTrip(s[k + 4..]);
      assert s == s[..k] + ":" + s[k + 1..k + 3] + ":" + s[k + 4..];
    }
  }

  /** The first ten seconds show "00:0" and the digit. */
  lemma UnderTenSeconds(d: nat)
    requires d < 10
    ensures TimeString(d) == ['0', '0', ':', '0', DigitChar(d)]
  {
    ShortLabel(d);
    PadDigit(0);
    PadDigit(d);
  }

  /** The labels for 0 s, 59 s, 60 s and 3661 s. */
  lemma ExampleZero()
    ensures TimeString(0) == "00:00"
  {
    UnderTenSeconds(0);
  }

  lemma ExampleUnderAMinute()
    ensures TimeString(59) == "00:59"
  {
    ShortLabel(59);
    PadDigit(0);
    TwoDigits(59);
  }

  lemma ExampleOneMinute()
    ensures TimeString(60) == "01:00"
  {
    ShortLabel(60);
    PadDigit(0);
    PadDigit(1);
  }

  lemma ExampleOverAnHour()
    ensures TimeString(3661) == "1:01:01"
  {
    LongLabel(3661);
    PadDigit(1);
    assert FormatD(1) == [DigitChar(1)];
  }
}
