/**
 * Times of day as the records carry them. A successful parse with the
 * layout "15:04:05" gives a time on 1 January of year 0; a failed parse
 * gives Go's zero time, 1 January of year 1. Both live on one time axis,
 * measured here in seconds from the start of year 0.
 */
module Clock {
  import opened Wrappers
  import opened Digits

  const SecondsPerDay: nat := 86400

  /** Year 0 is a leap year, so year 1 starts 366 days after it. */
  const ZeroTimeInstant: nat := 366 * SecondsPerDay

  type DaySeconds = s: nat | s < 86400

  datatype Time = At(seconds: DaySeconds) | ZeroTime

  function Instant(t: Time): (n: nat)
    ensures t.At? ==> n < SecondsPerDay
    ensures t.ZeroTime? ==> n == ZeroTimeInstant
  {
    match t
    case At(s) => s
    case ZeroTime => ZeroTimeInstant
  }

  /** time.Time.Before */
  predicate Before(a: Time, b: Time) {
    Instant(a) < Instant(b)
  }

  /** time.Time.Equal */
  predicate Equal(a: Time, b: Time) {
    Instant(a) == Instant(b)
  }

  /** Equal instants are equal values, and a defaulted time comes after every parsed one. */
  lemma TimeOrder(a: Time, b: Time)
    ensures Equal(a, b) <==> a == b
    ensures a.At? && b.ZeroTime? ==> Before(a, b)
    ensures Before(a, b) || Equal(a, b) || Before(b, a)
  {
  }

  /**
   * time.Parse with layout "15:04:05": one or two digits of hour (0-23),
   * a colon, exactly two digits of minute (0-59), a colon, exactly two
   * digits of second (0-59), and nothing after them.
   */
  function ParseClock(value: string): (r: Option<DaySeconds>)
    ensures r.Some? ==> 7 <= |value| <= 8 && value[|value| - 3] == ':' && value[|value| - 6] == ':'
  {
    if |value| == 0 || !IsDigit(value[0]) then None
    else
      var hourLen := if |value| >= 2 && IsDigit(value[1]) then 2 else 1;
      var hour := Value(value[..hourLen]);
      var rest := value[hourLen..];
      if |rest| == 6 && rest[0] == ':' && IsDigit(rest[1]) && IsDigit(rest[2])
         && rest[3] == ':' && IsDigit(rest[4]) && IsDigit(rest[5])
      then
        var minute := DigitValue(rest[1]) * 10 + DigitValue(rest[2]);
        var second := DigitValue(rest[4]) * 10 + DigitValue(rest[5]);
        if hour < 24 && minute < 60 && second < 60 then Some(hour * 3600 + minute * 60 + second)
        else None
      else None
  }

  /** The time a field holds after `t, _ = time.Parse("15:04:05", value)`. */
  function ParseTime(value: string): (t: Time)
    ensures t.ZeroTime? <==> ParseClock(value).None?
    ensures t.At? ==> t.seconds == ParseClock(value).value
  {
    match ParseClock(value)
    case Some(s) => At(s)
    case None => ZeroTime
  }

  function TwoDigits(n: nat): (s: string)
    requires n < 100
    ensures |s| == 2 && AllDigits(s) && Value(s) == n
  {
    var s := [DigitChar(n / 10), DigitChar(n % 10)];
    TwoDigitValue(s);
    s
  }

  /** time.Time.Format("15:04:05") of a time of day. */
  function FormatClock(secs: DaySeconds): (s: string)
    ensures |s| == 8
  {
    TwoDigits(secs / 3600) + ":" + TwoDigits(secs % 3600 / 60) + ":" + TwoDigits(secs % 60)
  }

  lemma SplitSeconds(secs: DaySeconds)
    ensures secs / 3600 < 24 && secs % 3600 / 60 < 60 && secs % 60 < 60
    ensures secs / 3600 * 3600 + secs % 3600 / 60 * 60 + secs % 60 == secs
  {
  }

  /** Formatting a time of day with the layout and parsing it back gives the same time. */
  lemma FormatThenParse(secs: DaySeconds)
    ensures ParseClock(FormatClock(secs)) == Some(secs)
  {
    var h, m, sec := secs / 3600, secs % 3600 / 60, secs % 60;
    SplitSeconds(secs);
    var a, b, c := TwoDigits(h), TwoDigits(m), TwoDigits(sec);
    var v := FormatClock(secs);
    assert v == a + ":" + b + ":" + c;
    assert v[..2] == a;
    assert v[1] == a[1] && IsDigit(v[1]);
    var rest := v[2..];
    assert rest == ":" + b + ":" + c;
    assert rest[1] == b[0] && rest[2] == b[1] && rest[4] == c[0] && rest[5] == c[1];
    TwoDigitValue(b);
    TwoDigitValue(c);
  }

  /** A missing or non-string field is read as "", which never parses. */
  lemma EmptyTextIsZeroTime()
    ensures ParseTime("") == ZeroTime
  {
  }
}
