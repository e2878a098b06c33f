/**
 * The calendar arithmetic the app asks of Foundation's `Calendar.current`.
 * Instants are whole seconds on the device's local clock, with the zone offset
 * folded into the epoch, so day boundaries fall on multiples of 86400 and day 0
 * (1970-01-01) is a Thursday.
 */
module Calendar {

  const SecondsPerDay: int := 86400
  const SecondsPerHour: int := 3600
  const SecondsPerMinute: int := 60

  /** The day number of an instant. */
  function DayOf(t: int): int {
    t / SecondsPerDay
  }

  /** `calendar.startOfDay(for: t)`: the first second of `t`'s day. */
  function StartOfDay(t: int): (r: int)
    ensures r <= t < r + SecondsPerDay
    ensures DayOf(r) == DayOf(t)
    ensures r % SecondsPerDay == 0
  {
    DayOf(t) * SecondsPerDay
  }

  /** `calendar.isDate(a, inSameDayAs: b)`. */
  predicate SameDay(a: int, b: int) {
    DayOf(a) == DayOf(b)
  }

  /** `dateComponents([.weekday], from: t).weekday`: 1 is Sunday, 2 Monday, ..., 7 Saturday. */
  function Weekday(t: int): (w: int)
    ensures 1 <= w <= 7
    ensures w == 1 <==> DayOf(t) % 7 == 3  // 1970-01-04, day 3, was a Sunday
  {
    (DayOf(t) + 4) % 7 + 1
  }

  /** `calendar.date(byAdding: .day, value: n, to: t)`. */
  function AddDays(t: int, n: int): int {
    t + n * SecondsPerDay
  }

  /** Adding `n` days moves the day number by `n` and keeps the time of day. */
  lemma AddDaysShiftsDay(t: int, n: int)
    ensures DayOf(AddDays(t, n)) == DayOf(t) + n
    ensures AddDays(t, n) % SecondsPerDay == t % SecondsPerDay
  {
    assert AddDays(t, n) == (DayOf(t) + n) * SecondsPerDay + t % SecondsPerDay;
  }

  /** The next day is the next weekday, with Saturday (7) followed by Sunday (1). */
  lemma {:induction false} WeekdayNext(t: int)
    ensures Weekday(AddDays(t, 1)) == Weekday(t) % 7 + 1
  {
    AddDaysShiftsDay(t, 1);
  }

  /** The hour of the day of `t` (0..23). */
  function HourOf(t: int): (h: int)
    ensures 0 <= h < 24
  {
    (t % SecondsPerDay) / SecondsPerHour
  }

  /** The minute of the hour of `t` (0..59). */
  function MinuteOf(t: int): (m: int)
    ensures 0 <= m < 60
  {
    (t % SecondsPerHour) / SecondsPerMinute
  }

  /** `calendar.date(bySettingHour: h, minute: m, second: 0, of: t)`. */
  function SetHourMinute(t: int, h: int, m: int): (r: int)
    requires 0 <= h < 24 && 0 <= m < 60
  {
    StartOfDay(t) + h * SecondsPerHour + m * SecondsPerMinute
  }

  /** Setting the clock keeps the day and makes the clock read exactly `h:m:00`. */
  lemma SetHourMinuteReads(t: int, h: int, m: int)
    requires 0 <= h < 24 && 0 <= m < 60
    ensures SameDay(SetHourMinute(t, h, m), t)
    ensures HourOf(SetHourMinute(t, h, m)) == h
    ensures MinuteOf(SetHourMinute(t, h, m)) == m
    ensures SetHourMinute(t, h, m) % SecondsPerMinute == 0
  {
    var r := SetHourMinute(t, h, m);
    var off := h * SecondsPerHour + m * SecondsPerMinute;
    assert 0 <= off < SecondsPerDay;
    assert r == DayOf(t) * SecondsPerDay + off;
    assert r % SecondsPerDay == off;
    assert r / SecondsPerDay == DayOf(t);
    assert r % SecondsPerHour == m * SecondsPerMinute by {
      assert r == (DayOf(t) * 24 + h) * SecondsPerHour + m * SecondsPerMinute;
    }
    assert r % SecondsPerMinute == 0 by {
      assert r == ((DayOf(t) * 24 + h) * 60 + m) * SecondsPerMinute;
    }
  }

  /** 07:00 on the day of `t`, as the morning briefing uses it. */
  function At0700(t: int): int {
    SetHourMinute(t, 7, 0)
  }
}
