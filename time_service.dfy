/**
 * Calendar arithmetic in the bot's fixed time zone, Asia/Tokyo (UTC+9, no
 * daylight saving). Instants are whole seconds since the Unix epoch (UTC);
 * a local calendar day is numbered by the days since 1970-01-01 local time.
 */
module TimeService {

  type Instant = int

  const SecondsPerHour: int := 3600
  const SecondsPerDay: int := 86400
  /** Asia/Tokyo is nine hours ahead of UTC all year round. */
  const TokyoOffset: int := 9 * SecondsPerHour

  /** The local calendar day on which instant `t` falls (floor division). */
  function LocalDay(t: Instant): (d: int)
    ensures d * SecondsPerDay <= t + TokyoOffset < (d + 1) * SecondsPerDay
  {
    (t + TokyoOffset) / SecondsPerDay
  }

  /** The local clock hour of instant `t`, 0 to 23. */
  function LocalHour(t: Instant): (h: int)
    ensures 0 <= h < 24
    ensures LocalDay(t) * SecondsPerDay + h * SecondsPerHour <= t + TokyoOffset
    ensures t + TokyoOffset < LocalDay(t) * SecondsPerDay + (h + 1) * SecondsPerHour
  {
    ((t + TokyoOffset) % SecondsPerDay) / SecondsPerHour
  }

  /**
   * Two instants fall on the same local calendar day: `b` lies within the
   * 24 local hours of `a`'s day, so the two are less than a day apart.
   */
  function SameDay(a: Instant, b: Instant): (r: bool)
    ensures r <==> LocalDay(a) * SecondsPerDay <= b + TokyoOffset < (LocalDay(a) + 1) * SecondsPerDay
    ensures r ==> -SecondsPerDay < a - b < SecondsPerDay
  {
    LocalDay(a) == LocalDay(b)
  }

  /** Day of the week of local day `d`, 0 = Sunday; 1970-01-01 was a Thursday. */
  function Weekday(d: int): (w: int)
    ensures 0 <= w < 7
  {
    (d + 4) % 7
  }

  /**
   * The first day of the week containing `t`: the Sunday on or before its
   * local day (weeks start on Sunday in the default locale).
   */
  function WeekStart(t: Instant): (w: int)
    ensures Weekday(w) == 0
    ensures w <= LocalDay(t) < w + 7
  {
    var d := LocalDay(t);
    assert (d - Weekday(d) + 4) % 7 == 0 by {
      assert d + 4 == ((d + 4) / 7) * 7 + Weekday(d);
    }
    d - Weekday(d)
  }

  /** The Sunday on or before a day is unique: any such Sunday is WeekStart. */
  lemma WeekStartUnique(t: Instant, w: int)
    requires Weekday(w) == 0 && w <= LocalDay(t) < w + 7
    ensures w == WeekStart(t)
  {
  }

  /** Two instants on the same local day share their week start. */
  lemma SameDaySameWeek(a: Instant, b: Instant)
    requires SameDay(a, b)
    ensures WeekStart(a) == WeekStart(b)
  {
  }

  /** The week start never moves backwards as time advances. */
  lemma WeekStartMonotone(a: Instant, b: Instant)
    requires a <= b
    ensures WeekStart(a) <= WeekStart(b)
  {
  }

  /** Instants in the same week lie less than seven local days apart. */
  lemma SameWeekWithinSevenDays(a: Instant, b: Instant)
    requires WeekStart(a) == WeekStart(b)
    ensures -7 < LocalDay(a) - LocalDay(b) < 7
  {
  }
}
