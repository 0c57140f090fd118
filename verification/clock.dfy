/** .NET `DateTime` values at whole-second resolution.

    An `Instant` counts seconds since 0001-01-01T00:00:00 (the value of
    `DateTime.MinValue`); the largest representable second is
    9999-12-31T23:59:59, the last second of `DateTime.MaxValue`. Any
    `DateTime` arithmetic whose result would leave this range throws
    `ArgumentOutOfRangeException` in the runtime, which the model reports
    as a fault. */
module Clock {

  import opened Wrappers

  const SecondsPerDay: int := 86400
  const MinSecond: int := 0
  const MaxSecond: int := 315537897599

  type Instant = t: int | MinSecond <= t <= MaxSecond

  /** C# `ulong` and `long`. */
  type ULong = x: int | 0 <= x < 0x1_0000_0000_0000_0000
  type Long = x: int | -0x8000_0000_0000_0000 <= x < 0x8000_0000_0000_0000

  /** 1970-01-01T00:00:00Z as an `Instant`. */
  const UnixEpoch: Instant := 62135596800

  /** Days from 1970-01-01 to the given proleptic Gregorian date. */
  function DaysFromCivil(y: int, m: int, d: int): int
    requires 1 <= y && 1 <= m <= 12 && 1 <= d <= 31
  {
    var yy := if m <= 2 then y - 1 else y;
    var era := yy / 400;
    var yoe := yy - era * 400;
    var mp := if m > 2 then m - 3 else m + 9;
    var doy := (153 * mp + 2) / 5 + d - 1;
    var doe := yoe * 365 + yoe / 4 - yoe / 100 + doy;
    era * 146097 + doe - 719468
  }

  /** The instant of a UTC calendar date and time of day. */
  function CivilInstant(y: int, m: int, d: int, hh: int, mm: int, ss: int): int
    requires 1 <= y && 1 <= m <= 12 && 1 <= d <= 31
  {
    (DaysFromCivil(y, m, d) - DaysFromCivil(1, 1, 1)) * SecondsPerDay + hh * 3600 + mm * 60 + ss
  }

  /** The range constants are the calendar instants they are meant to be. */
  lemma CalendarConstants()
    ensures CivilInstant(1, 1, 1, 0, 0, 0) == MinSecond
    ensures CivilInstant(9999, 12, 31, 23, 59, 59) == MaxSecond
    ensures CivilInstant(1970, 1, 1, 0, 0, 0) == UnixEpoch
  {
  }

  /** `new DateTime(1970, 1, 1, 0, 0, 0, DateTimeKind.Utc).AddSeconds(secs)`:
      the instant `secs` seconds after the Unix epoch, or `None` where the
      runtime throws because the result lies past `DateTime.MaxValue`. */
  function FromUnixSeconds(secs: nat): (r: Option<Instant>)
    ensures r.Some? <==> UnixEpoch + secs <= MaxSecond
    ensures r.Some? ==> r.value - UnixEpoch == secs
  {
    if UnixEpoch + secs <= MaxSecond then Some(UnixEpoch + secs) else None
  }

  /** Example: Unix time 1000000000 is 2001-09-09T01:46:40Z. */
  lemma BillionSecondsAfterEpoch()
    ensures FromUnixSeconds(1000000000) == Some(CivilInstant(2001, 9, 9, 1, 46, 40))
  {
  }
}
