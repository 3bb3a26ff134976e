/** Calendar days and clock readings. The source keeps dates as ISO-8601
    strings produced by `Date.prototype.toISOString`; the model keeps the
    parts and renders the string where the source slices it. */
module Calendar {
  import opened Text

  /** A calendar day with a 1-based month. Parsed dates are not normalised
      (a month of 13 stays 13). */
  datatype Date = Date(year: int, month: int, day: int)

  datatype Clock = Clock(date: Date, hour: int, minute: int, second: int, millis: int)

  predicate ValidClock(c: Clock) {
    && 0 <= c.date.year <= 9999 && 1 <= c.date.month <= 12 && 1 <= c.date.day <= 31
    && 0 <= c.hour < 24 && 0 <= c.minute < 60 && 0 <= c.second < 60 && 0 <= c.millis < 1000
  }

  /** A reading of the clock in UTC ("now"), within the years whose ISO
      rendering has four digits. */
  type Instant = c: Clock | ValidClock(c) witness Clock(Date(1970, 1, 1), 0, 0, 0, 0)

  /** `YYYY-MM`, the month part of an ISO string. */
  function IsoMonth(t: Instant): (s: string)
    ensures |s| == 7 && s[4] == '-'
  {
    PadWidth(t.date.year, 4);
    PadWidth(t.date.month, 2);
    Pad(t.date.year, 4) + "-" + Pad(t.date.month, 2)
  }

  /** `YYYY-MM-DD`, the day part of an ISO string. */
  function IsoDay(t: Instant): (s: string)
    ensures |s| == 10 && s[..7] == IsoMonth(t)
  {
    PadWidth(t.date.day, 2);
    IsoMonth(t) + "-" + Pad(t.date.day, 2)
  }

  /** `toISOString()`: `YYYY-MM-DDTHH:mm:ss.sssZ`. */
  function IsoString(t: Instant): (s: string)
    ensures |s| == 24
    ensures s[..10] == IsoDay(t) && s[..7] == IsoMonth(t)
    ensures s[10] == 'T' && s[23] == 'Z'
  {
    PadWidth(t.hour, 2);
    PadWidth(t.minute, 2);
    PadWidth(t.second, 2);
    PadWidth(t.millis, 3);
    var s := IsoDay(t) + "T" + Pad(t.hour, 2) + ":" + Pad(t.minute, 2) + ":"
             + Pad(t.second, 2) + "." + Pad(t.millis, 3) + "Z";
    assert s[..10] == IsoDay(t);
    assert s[..7] == IsoDay(t)[..7];
    s
  }
}
