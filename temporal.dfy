/**
 * Python's `date` and `datetime` values as far as the pipeline uses them:
 * construction limits, `isoformat()`, and the position on the time line that
 * the event table's DateTime column compares.
 */
module Temporal {
  import opened Wrappers

  /** A `tzinfo`: its `str()` name and its offset from UTC in minutes. */
  datatype TzInfo = TzInfo(name: string, utcOffsetMinutes: int)

  predicate IsLeapYear(y: int) {
    y % 4 == 0 && (y % 100 != 0 || y % 400 == 0)
  }

  function DaysInMonth(y: int, m: int): (n: int)
    requires 1 <= m <= 12
    ensures 28 <= n <= 31
  {
    if m == 2 then (if IsLeapYear(y) then 29 else 28)
    else if m == 4 || m == 6 || m == 9 || m == 11 then 30
    else 31
  }

  datatype DateFields = DateFields(year: int, month: int, day: int)

  /** What the `date` constructor accepts. */
  predicate ValidDate(d: DateFields) {
    1 <= d.year <= 9999 && 1 <= d.month <= 12 && 1 <= d.day <= DaysInMonth(d.year, d.month)
  }

  type Date = d: DateFields | ValidDate(d) witness DateFields(1, 1, 1)

  datatype DateTimeFields = DateTimeFields(
    date: Date, hour: int, minute: int, second: int, microsecond: int, tz: Option<TzInfo>)

  /** What the `datetime` constructor accepts (an offset must be under one day). */
  predicate ValidDateTime(dt: DateTimeFields) {
    && 0 <= dt.hour < 24 && 0 <= dt.minute < 60 && 0 <= dt.second < 60
    && 0 <= dt.microsecond < 1000000
    && (dt.tz.Some? ==> -1440 < dt.tz.value.utcOffsetMinutes < 1440)
  }

  type DateTime = dt: DateTimeFields | ValidDateTime(dt)
    witness DateTimeFields(DateFields(1, 1, 1), 0, 0, 0, 0, None)

  /** `datetime.combine(d, datetime.min.time())`: midnight at the start of `d`, without a zone. */
  function Midnight(d: Date): DateTime {
    DateTimeFields(d, 0, 0, 0, 0, None)
  }

  predicate IsIsoChar(c: char) {
    '0' <= c <= '9' || c == '-' || c == '+' || c == ':' || c == '.' || c == 'T'
  }

  /** `n` in decimal, zero-padded to `width` digits (its low-order digits). */
  function Digits(n: nat, width: nat): (r: string)
    ensures |r| == width
    ensures forall c :: c in r ==> '0' <= c <= '9'
  {
    if width == 0 then "" else Digits(n / 10, width - 1) + [('0' as int + n % 10) as char]
  }

  /** `date.isoformat()`: `YYYY-MM-DD`. */
  function DateIso(d: Date): (r: string)
    ensures |r| == 10 && forall c :: c in r ==> IsIsoChar(c)
  {
    Digits(d.year, 4) + "-" + Digits(d.month, 2) + "-" + Digits(d.day, 2)
  }

  /** The `+HH:MM` / `-HH:MM` suffix of an aware datetime; nothing for a naive one. */
  function OffsetIso(tz: Option<TzInfo>): (r: string)
    ensures forall c :: c in r ==> IsIsoChar(c)
  {
    match tz
    case None => ""
    case Some(z) =>
      var m := if z.utcOffsetMinutes < 0 then -z.utcOffsetMinutes else z.utcOffsetMinutes;
      (if z.utcOffsetMinutes < 0 then "-" else "+") + Digits(m / 60, 2) + ":" + Digits(m % 60, 2)
  }

  /** `datetime.isoformat()`: `YYYY-MM-DDTHH:MM:SS[.ffffff][+HH:MM]`. */
  function IsoFormat(dt: DateTime): (r: string)
    ensures |r| >= 19
    ensures forall c :: c in r ==> IsIsoChar(c)
  {
    DateIso(dt.date) + "T" + Digits(dt.hour, 2) + ":" + Digits(dt.minute, 2) + ":" + Digits(dt.second, 2)
    + (if dt.microsecond != 0 then "." + Digits(dt.microsecond, 6) else "")
    + OffsetIso(dt.tz)
  }

  function DaysBeforeYear(y: int): int {
    var p := y - 1;
    365 * p + p / 4 - p / 100 + p / 400
  }

  function DaysBeforeMonth(y: int, m: int): int
    requires 1 <= m <= 12
  {
    if m == 1 then 0 else DaysBeforeMonth(y, m - 1) + DaysInMonth(y, m - 1)
  }

  /** `date.toordinal()`: 1 for 0001-01-01. */
  function Ordinal(d: Date): int {
    DaysBeforeYear(d.year) + DaysBeforeMonth(d.year, d.month) + d.day
  }

  const MicrosPerSecond: int := 1000000
  const MicrosPerHour: int := 3600 * MicrosPerSecond
  const MicrosPerDay: int := 24 * MicrosPerHour

  /**
   * Microseconds since 0001-01-01T00:00 of the wall-clock value. The event
   * table's DateTime column keeps no zone, so stored times compare by this.
   */
  function Ticks(dt: DateTime): int {
    Ordinal(dt.date) * MicrosPerDay + dt.hour * MicrosPerHour + dt.minute * 60 * MicrosPerSecond
    + dt.second * MicrosPerSecond + dt.microsecond
  }

  /**
   * `a == b` on datetimes: naive values compare by wall clock, aware ones by
   * the instant in UTC, and a naive value never equals an aware one.
   */
  predicate SameDateTime(a: DateTime, b: DateTime) {
    if a.tz.None? && b.tz.None? then Ticks(a) == Ticks(b)
    else if a.tz.Some? && b.tz.Some? then
      Ticks(a) - a.tz.value.utcOffsetMinutes * 60 * MicrosPerSecond
        == Ticks(b) - b.tz.value.utcOffsetMinutes * 60 * MicrosPerSecond
    else false
  }
}
