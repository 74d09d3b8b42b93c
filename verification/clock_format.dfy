/** The elapsed-time display of the watch face (`timeString`). The elapsed
    time is a whole number of seconds; it is split into hours, minutes and
    seconds with Swift's integer `/` and `%`, and printed with `%d` and `%02d`
    as `H:MM:SS` from one hour on and as `MM:SS` below. */
module ClockFormat {
  import opened Decimal

  /** Swift's `a / b` for a positive divisor: the quotient truncated toward zero. */
  function Quot(a: int, b: int): (q: int)
    requires b > 0
    ensures a >= 0 ==> q * b <= a < q * b + b
    ensures a < 0 ==> q * b - b < a <= q * b
  {
    if a >= 0 then a / b else -((-a) / b)
  }

  /** Swift's `a % b` for a positive divisor: the remainder takes the sign of `a`. */
  function Rem(a: int, b: int): (r: int)
    requires b > 0
    ensures Quot(a, b) * b + r == a
    ensures a >= 0 ==> 0 <= r < b
    ensures a < 0 ==> -b < r <= 0
  {
    a - Quot(a, b) * b
  }

  datatype Clock = Clock(hours: int, minutes: int, seconds: int)

  lemma QuotQuot(a: nat)
    ensures a / 60 / 60 == a / 3600
  {
    var q, r := a / 3600, a % 3600;
    assert a == 3600 * q + r;
    assert a == 60 * (60 * q + r / 60) + r % 60;
    assert a / 60 == 60 * q + r / 60;
  }

  /** The hours, minutes and seconds fields of a total number of seconds,
      computed as `total / 3600`, `(total / 60) % 60` and `total % 60`. */
  function Split(total: int): (c: Clock)
    ensures c.hours * 3600 + c.minutes * 60 + c.seconds == total
    ensures total >= 0 ==> 0 <= c.seconds < 60 && 0 <= c.minutes < 60 && c.hours >= 0
    ensures total < 0 ==> -60 < c.seconds <= 0 && -60 < c.minutes <= 0 && c.hours <= 0
  {
    QuotQuot(if total >= 0 then total else -total);
    Clock(Quot(total, 3600), Rem(Quot(total, 60), 60), Rem(total, 60))
  }

  /** Division by 60 and by 3600 has only one quotient and remainder. */
  lemma DivMod60(a: int, q: int, r: int)
    requires 0 <= r < 60 && a == q * 60 + r
    ensures a / 60 == q && a % 60 == r
  {
  }

  lemma DivMod3600(a: int, q: int, r: int)
    requires 0 <= r < 3600 && a == q * 3600 + r
    ensures a / 3600 == q && a % 3600 == r
  {
  }

  /** For a non-negative total the fields are the only ones in range that add
      up to it: seconds and minutes below 60 and hours non-negative. */
  lemma SplitUnique(total: int, h: int, m: int, s: int)
    requires 0 <= s < 60 && 0 <= m < 60 && h >= 0
    requires h * 3600 + m * 60 + s == total
    ensures Split(total) == Clock(h, m, s)
  {
    DivMod60(total, h * 60 + m, s);
    DivMod60(h * 60 + m, h, m);
    DivMod3600(total, h, m * 60 + s);
    assert Quot(total, 60) == h * 60 + m;
  }

  /** `String(format: "%d", n)`: a minus sign before the digits of a negative number. */
  function FormatD(n: int): (r: string)
    ensures n >= 0 ==> IsCanonical(r) && DigitsValue(r) == n
    ensures n < 0 ==> |r| >= 2 && r[0] == '-' && IsCanonical(r[1..]) && DigitsValue(r[1..]) == -n
  {
    if n >= 0 then
      ValueOfDigits(n);
      NatDigits(n)
    else
      ValueOfDigits(-n);
      var r := "-" + NatDigits(-n);
      assert r[1..] == NatDigits(-n);
      r
  }

  /** `String(format: "%02d", n)`: `%d` left-padded with zeros to width two.
      A negative number already has width two or more, so only 0 to 9 are padded. */
  function Format02D(n: int): (r: string)
    ensures |r| >= 2
    ensures 0 <= n < 100 ==> |r| == 2 && AllDigits(r) && DigitsValue(r) == n
    ensures n < 0 ==> r[0] == '-'
  {
    if 0 <= n < 10 then
      ValueOfDigits(n);
      var r := ['0'] + NatDigits(n);
      assert r[..1] == "0" && r[1..] == NatDigits(n);
      r
    else if n >= 0 then
      ValueOfDigits(n);
      FormatD(n)
    else
      FormatD(n)
  }

  /** The text of the elapsed-time label for `total` whole seconds. */
  function TimeString(total: int): (r: string)
    ensures |r| >= 5
    ensures total >= 0 ==> (|r| == 5 <==> total < 3600)
    ensures total >= 3600 ==> |r| >= 7 && r[|r| - 6] == ':' && r[|r| - 3] == ':'
    ensures 0 <= total < 3600 ==> r[2] == ':'
  {
    var c := Split(total);
    if c.hours > 0 then
      FormatD(c.hours) + ":" + Format02D(c.minutes) + ":" + Format02D(c.seconds)
    else
      Format02D(c.minutes) + ":" + Format02D(c.seconds)
  }

  /** Below one hour the label is the minutes and the seconds, each as `%02d`. */
  lemma ShortLabel(total: int)
    requires 0 <= total < 3600
    ensures TimeString(total) == Format02D(total / 60) + ":" + Format02D(total % 60)
  {
    SplitUnique(total, 0, total / 60, total % 60);
  }

  /** From one hour on the label is the hours as `%d`, then the minutes and
      the seconds as `%02d`. */
  lemma LongLabel(total: int)
    requires total >= 3600
    ensures TimeString(total) == FormatD(total / 3600) + ":" + Format02D(total / 60 % 60) + ":" + Format02D(total % 60)
  {
    SplitUnique(total, total / 3600, total / 60 % 60, total % 60);
  }

  /** `%02d` of a single digit is that digit after a '0'. */
  lemma PadDigit(d: nat)
    requires d < 10
    ensures Format02D(d) == ['0', DigitChar(d)]
  {
  }

  /** `%02d` of a two-digit number is its tens digit and its units digit. */
  lemma TwoDigits(n: nat)
    requires 10 <= n < 100
    ensures Format02D(n) == [DigitChar(n / 10), DigitChar(n % 10)]
  {
    assert NatDigits(n) == NatDigits(n / 10) + [DigitChar(n % 10)];
  }
}
