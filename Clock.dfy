/**
 * Times of day as the application writes and reads them: `strftime("%I:%M %p")`
 * produces "07:05 PM", and `strptime(_, "%I:%M %p")` reads it back as a time on
 * one fixed date, so comparing two parsed values compares times of day.
 * A time of day is the number of minutes since midnight.
 */
module Clock {
  import opened Wrappers

  const MinutesPerDay: nat := 1440

  type Minute = m: nat | m < MinutesPerDay

  predicate IsDigit(c: char) { '0' <= c <= '9' }

  function DigitValue(c: char): (v: nat)
    requires IsDigit(c)
  {
    c as int - '0' as int
  }

  function DigitChar(d: nat): (c: char)
    requires d < 10
    ensures IsDigit(c) && DigitValue(c) == d
  {
    ('0' as int + d) as char
  }

  /** A zero-padded two-digit field, as `%I` and `%M` write it. */
  function TwoDigits(n: nat): (s: string)
    requires n < 100
    ensures |s| == 2 && IsDigit(s[0]) && IsDigit(s[1])
    ensures 10 * DigitValue(s[0]) + DigitValue(s[1]) == n
  {
    [DigitChar(n / 10), DigitChar(n % 10)]
  }

  /** The hour on the 12-hour dial: 12 for midnight and noon, 1 to 11 otherwise. */
  function Hour12(m: Minute): (h: nat)
    ensures 1 <= h <= 12
  {
    if (m / 60) % 12 == 0 then 12 else (m / 60) % 12
  }

  /** `strftime("%I:%M %p")` of a time of day. */
  function Format12(m: Minute): (s: string)
    ensures |s| == 8
  {
    TwoDigits(Hour12(m)) + ":" + TwoDigits(m % 60) + " " + (if m < 720 then "AM" else "PM")
  }

  /** The time of day a 12-hour reading stands for: 12 is hour 0, PM adds twelve hours. */
  function ClockValue(h: nat, mi: nat, pm: bool): (m: Minute)
    requires 1 <= h <= 12 && mi <= 59
  {
    (h % 12) * 60 + mi + (if pm then 720 else 0)
  }

  /** `strptime(s, "%I:%M %p")` on the fixed-width form; None where Python raises ValueError. */
  function Parse12(s: string): (r: Option<Minute>)
    ensures r.Some? ==> |s| == 8 && s[2] == ':' && s[5] == ' ' && s[7] == 'M'
    ensures r.Some? ==> (r.value < 720 <==> s[6] == 'A')
  {
    if |s| == 8 && IsDigit(s[0]) && IsDigit(s[1]) && s[2] == ':' && IsDigit(s[3]) && IsDigit(s[4])
       && s[5] == ' ' && (s[6] == 'A' || s[6] == 'P') && s[7] == 'M'
    then
      var h := 10 * DigitValue(s[0]) + DigitValue(s[1]);
      var mi := 10 * DigitValue(s[3]) + DigitValue(s[4]);
      if 1 <= h <= 12 && mi <= 59 then Some(ClockValue(h, mi, s[6] == 'P')) else None
    else None
  }

  /** A well-formed reading parses to its value. */
  lemma ParseReading(h: nat, mi: nat, pm: bool)
    requires 1 <= h <= 12 && mi <= 59
    ensures Parse12(TwoDigits(h) + ":" + TwoDigits(mi) + " " + (if pm then "PM" else "AM")) == Some(ClockValue(h, mi, pm))
  {
    var s := TwoDigits(h) + ":" + TwoDigits(mi) + " " + (if pm then "PM" else "AM");
    assert s[0] == TwoDigits(h)[0] && s[1] == TwoDigits(h)[1];
    assert s[3] == TwoDigits(mi)[0] && s[4] == TwoDigits(mi)[1];
  }

  /** Reading back a formatted time gives the same time of day. */
  lemma ParseFormat(m: Minute)
    ensures Parse12(Format12(m)) == Some(m)
  {
    var q := m / 60;
    var mi := m % 60;
    var pm := m >= 720;
    var h := Hour12(m);
    assert h % 12 == q % 12;
    assert q % 12 + (if pm then 12 else 0) == q;
    assert ClockValue(h, mi, pm) == m;
    ParseReading(h, mi, pm);
  }

  /** Two digit characters are the two-digit field of their value. */
  lemma TwoDigitsOf(a: char, b: char)
    requires IsDigit(a) && IsDigit(b)
    ensures TwoDigits(10 * DigitValue(a) + DigitValue(b)) == [a, b]
  {
  }

  /** Splitting a time of day into whole hours and the minutes left over. */
  lemma HoursAndMinutes(m: nat, q: nat, mi: nat)
    requires mi < 60 && m == q * 60 + mi
    ensures m / 60 == q && m % 60 == mi
  {
  }

  /** Formatting the value of a reading writes the reading's hour, minutes and half of the day. */
  lemma FormatClockValue(h: nat, mi: nat, pm: bool)
    requires 1 <= h <= 12 && mi <= 59
    ensures Format12(ClockValue(h, mi, pm)) == TwoDigits(h) + ":" + TwoDigits(mi) + " " + (if pm then "PM" else "AM")
  {
    var m := ClockValue(h, mi, pm);
    HoursAndMinutes(m, h % 12 + (if pm then 12 else 0), mi);
    assert Hour12(m) == h;
  }

  /** Every string that parses is exactly the formatting of its value. */
  lemma FormatParse(s: string)
    requires Parse12(s).Some?
    ensures Format12(Parse12(s).value) == s
  {
    var h := 10 * DigitValue(s[0]) + DigitValue(s[1]);
    var mi := 10 * DigitValue(s[3]) + DigitValue(s[4]);
    var pm := s[6] == 'P';
    assert Parse12(s).value == ClockValue(h, mi, pm);
    FormatClockValue(h, mi, pm);
    TwoDigitsOf(s[0], s[1]);
    TwoDigitsOf(s[3], s[4]);
    assert s == [s[0], s[1]] + ":" + [s[3], s[4]] + " " + (if pm then "PM" else "AM");
  }

  /**
   * The daytime test as Python's chained `sunrise <= now <= sunset` runs it:
   * sunrise and now are parsed first, and sunset only when sunrise <= now.
   * None when a string that is parsed does not parse.
   */
  function DaytimeOf(sunrise: string, now: string, sunset: string): (r: Option<bool>)
    ensures r.Some? <==> Parse12(sunrise).Some? && Parse12(now).Some? &&
                         (Parse12(sunrise).value <= Parse12(now).value ==> Parse12(sunset).Some?)
    ensures r.Some? ==> (r.value <==>
      Parse12(sunrise).value <= Parse12(now).value && Parse12(sunset).Some? &&
      Parse12(now).value <= Parse12(sunset).value)
  {
    match (Parse12(sunrise), Parse12(now))
    case (Some(a), Some(b)) =>
      if a <= b then
        match Parse12(sunset)
        case Some(c) => Some(b <= c)
        case None => None
      else Some(false)
    case _ => None
  }

  /** Before sunrise it is night whatever the sunset string holds: it is never parsed. */
  lemma BeforeSunriseIgnoresSunset(sunrise: string, now: string, sunset: string)
    requires Parse12(sunrise).Some? && Parse12(now).Some?
    requires Parse12(now).value < Parse12(sunrise).value
    ensures DaytimeOf(sunrise, now, sunset) == Some(false)
  {
  }

  /** On formatted times, daytime holds exactly on the closed interval [sunrise, sunset]. */
  lemma DaytimeOnFormattedTimes(sunrise: Minute, now: Minute, sunset: Minute)
    ensures DaytimeOf(Format12(sunrise), Format12(now), Format12(sunset))
            == Some(sunrise <= now <= sunset)
  {
    ParseFormat(sunrise);
    ParseFormat(now);
    ParseFormat(sunset);
  }
}
