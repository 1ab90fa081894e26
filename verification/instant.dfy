/** Instants as whole minutes on the local wall clock, with the day/hour/minute projections
    that date-fns and `Date` provide, and a textual rendering standing for the ISO-8601
    strings (`toISOString`, `new Date(text)`) that lessons carry. */
module Instant {
  import opened Wrappers

  const MinutesPerHour: int := 60
  const MinutesPerDay: int := 1440
  const MinutesPerWeek: int := 10080

  /** Day number of `t` (day 0 is Thursday 1 January 1970). */
  function Day(t: int): int { t / 1440 }

  /** `getHours`. */
  function HourOf(t: int): (h: int)
    ensures 0 <= h < 24
  {
    (t % 1440) / 60
  }

  /** `getMinutes`. */
  function MinuteOf(t: int): (m: int)
    ensures 0 <= m < 60
  {
    t % 60
  }

  /** `startOfDay`: midnight of the day holding `t`. */
  function StartOfDay(t: int): (r: int)
    ensures r <= t < r + MinutesPerDay
    ensures Day(r) == Day(t) && HourOf(r) == 0 && MinuteOf(r) == 0
  {
    t - t % 1440
  }

  /** Day of the week, 0 = Sunday as in `getDay`. */
  function Weekday(t: int): (d: int)
    ensures 0 <= d < 7
  {
    (Day(t) + 4) % 7
  }

  /** `startOfWeek(t, { weekStartsOn: 1 })`: the Monday midnight at or before `t`. */
  function StartOfWeek(t: int): (r: int)
    ensures r <= t < r + MinutesPerWeek
    ensures Weekday(r) == 1 && HourOf(r) == 0 && MinuteOf(r) == 0
  {
    var back := (Day(t) + 3) % 7;
    var r := StartOfDay(t) - back * 1440;
    assert Day(r) == Day(t) - back;
    r
  }

  /** `isSameDay`. */
  predicate SameDay(a: int, b: int) { Day(a) == Day(b) }

  /** Minutes into the day equal the hour and minute projections together. */
  lemma MinuteOfDay(t: int)
    ensures t - StartOfDay(t) == HourOf(t) * MinutesPerHour + MinuteOf(t)
  {
  }

  /** `setMinutes(setHours(date, hour), 0)` for an hour of the day. */
  function AtHour(date: int, hour: int): (r: int)
    ensures 0 <= hour < 24 ==> SameDay(r, date) && HourOf(r) == hour && MinuteOf(r) == 0
  {
    StartOfDay(date) + hour * MinutesPerHour
  }

  // ----- Textual rendering -----

  predicate IsDigit(c: char) { '0' <= c <= '9' }

  predicate AllDigits(s: string) { forall i :: 0 <= i < |s| ==> IsDigit(s[i]) }

  function DigitChar(d: int): (c: char)
    requires 0 <= d < 10
    ensures IsDigit(c)
  {
    ('0' as int + d) as char
  }

  /** The decimal digits of `n`, most significant first, without leading zeros. */
  function Digits(n: nat): (s: string)
    ensures |s| > 0 && AllDigits(s)
  {
    if n < 10 then [DigitChar(n)] else Digits(n / 10) + [DigitChar(n % 10)]
  }

  /** The number a string of decimal digits denotes. */
  function DigitsValue(s: string): nat
    requires AllDigits(s)
  {
    if |s| == 0 then 0
    else DigitsValue(s[..|s| - 1]) * 10 + (s[|s| - 1] as int - '0' as int)
  }

  /** Reading the digits of `n` gives `n`. */
  lemma {:induction false} DigitsRoundTrip(n: nat)
    ensures DigitsValue(Digits(n)) == n
  {
    if n >= 10 {
      var s := Digits(n);
      assert s[..|s| - 1] == Digits(n / 10);
      DigitsRoundTrip(n / 10);
    }
  }

  /** `toISOString`: the text a lesson stores for instant `t`. */
  function Format(t: int): (s: string)
    ensures |s| > 0
  {
    if t < 0 then "-" + Digits(-t) else Digits(t)
  }

  /** `new Date(text)`: the instant a text denotes, or `None` for an Invalid Date
      (the empty text and anything not written by `Format`-like digits). */
  function Parse(s: string): (r: Option<int>)
    ensures |s| == 0 ==> r.None?
  {
    if |s| > 0 && s[0] == '-' && |s| > 1 && AllDigits(s[1..]) then Some(0 - DigitsValue(s[1..]) as int)
    else if |s| > 0 && AllDigits(s) then Some(DigitsValue(s))
    else None
  }

  /** Reading back the text written for an instant gives the instant: the `Date` round
      trip `new Date(d.toISOString())` that lesson storage relies on. */
  lemma ParseFormat(t: int)
    ensures Parse(Format(t)) == Some(t)
  {
    if t < 0 {
      DigitsRoundTrip(-t);
      assert Format(t)[1..] == Digits(-t);
    } else {
      DigitsRoundTrip(t);
    }
  }

  /** Distinct instants are written as distinct texts. */
  lemma FormatInjective(a: int, b: int)
    requires Format(a) == Format(b)
    ensures a == b
  {
    ParseFormat(a);
    ParseFormat(b);
  }
}
