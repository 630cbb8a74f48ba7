/** `System.DateTime` as far as the controllers use it: comparison, the year and
    month of a timestamp, and the "yyyy-MM-dd" format. A timestamp is kept as its
    calendar fields; the clock (`DateTime.UtcNow`, `DateTime.Today`) is never read
    here: callers pass the current time in. */
module Calendar {

  /** 100-nanosecond ticks in one day. */
  const TicksPerDay: int := 864_000_000_000

  datatype DateParts = DateParts(year: int, month: int, day: int, tick: int)

  /** A representable `DateTime`: years 1 to 9999, months 1 to 12, days 1 to 31
      (month lengths are not modelled) and a time of day in ticks. */
  type DateTime = d: DateParts | 1 <= d.year <= 9999 && 1 <= d.month <= 12 && 1 <= d.day <= 31 && 0 <= d.tick < TicksPerDay
    witness DateParts(1, 1, 1, 0)

  /** `a <= b` on `DateTime`: chronological order. */
  predicate AtOrBefore(a: DateTime, b: DateTime) {
    || a.year < b.year
    || (a.year == b.year && a.month < b.month)
    || (a.year == b.year && a.month == b.month && a.day < b.day)
    || (a.year == b.year && a.month == b.month && a.day == b.day && a.tick <= b.tick)
  }

  /** Chronological order is a total order: any two timestamps compare, and two
      that compare both ways are the same timestamp. */
  lemma AtOrBeforeIsTotalOrder(a: DateTime, b: DateTime, c: DateTime)
    ensures AtOrBefore(a, a)
    ensures AtOrBefore(a, b) || AtOrBefore(b, a)
    ensures AtOrBefore(a, b) && AtOrBefore(b, a) ==> a == b
    ensures AtOrBefore(a, b) && AtOrBefore(b, c) ==> AtOrBefore(a, c)
  {
  }

  function Pow10(n: nat): (p: nat)
    ensures p >= 1
  {
    if n == 0 then 1 else 10 * Pow10(n - 1)
  }

  /** The lowest `width` decimal digits of `n`, zero-padded, most significant first. */
  function Digits(n: nat, width: nat): (s: string)
    ensures |s| == width
    ensures forall i :: 0 <= i < width ==> '0' <= s[i] <= '9'
  {
    if width == 0 then []
    else Digits(n / 10, width - 1) + [('0' as int + n % 10) as char]
  }

  /** The number a string of decimal digits denotes. */
  function DigitsValue(s: string): nat
    requires forall i :: 0 <= i < |s| ==> '0' <= s[i] <= '9'
  {
    if s == [] then 0
    else 10 * DigitsValue(s[..|s| - 1]) + (s[|s| - 1] as int - '0' as int)
  }

  /** Reading back `width` digits gives the number, when it has at most `width` digits. */
  lemma {:induction false} DigitsRoundTrip(n: nat, width: nat)
    requires n < Pow10(width)
    ensures DigitsValue(Digits(n, width)) == n
  {
    if width > 0 {
      var s := Digits(n, width);
      assert s[..|s| - 1] == Digits(n / 10, width - 1);
      assert n / 10 < Pow10(width - 1);
      DigitsRoundTrip(n / 10, width - 1);
    }
  }

  /** `d.ToString("yyyy-MM-dd")` under the invariant calendar. */
  function FormatDate(d: DateTime): (s: string)
    ensures |s| == 10 && s[4] == '-' && s[7] == '-'
  {
    Digits(d.year, 4) + "-" + Digits(d.month, 2) + "-" + Digits(d.day, 2)
  }

  /** The year, month and day written in a "yyyy-MM-dd" string. */
  function ParseDate(s: string): (ymd: (nat, nat, nat))
    requires |s| == 10
    requires forall i :: 0 <= i < 10 && i != 4 && i != 7 ==> '0' <= s[i] <= '9'
  {
    (DigitsValue(s[0..4]), DigitsValue(s[5..7]), DigitsValue(s[8..10]))
  }

  /** The formatted date reads back as the timestamp's year, month and day. */
  lemma FormatDateRoundTrip(d: DateTime)
    ensures var s := FormatDate(d);
      && (forall i :: 0 <= i < 10 && i != 4 && i != 7 ==> '0' <= s[i] <= '9')
      && ParseDate(s) == (d.year, d.month, d.day)
  {
    var s := FormatDate(d);
    assert s[0..4] == Digits(d.year, 4);
    assert s[5..7] == Digits(d.month, 2);
    assert s[8..10] == Digits(d.day, 2);
    assert Pow10(2) == 100 && Pow10(4) == 10000;
    DigitsRoundTrip(d.year, 4);
    DigitsRoundTrip(d.month, 2);
    DigitsRoundTrip(d.day, 2);
  }
}
