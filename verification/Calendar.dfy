/** Minutes, days and weekdays. Time is an absolute number of minutes since the
    start of 1 January 1970 (a Thursday); a zone is a fixed offset added to it. */
module Calendar {
  const MINUTES_PER_DAY: nat := 1440
  const EPOCH_WEEKDAY: nat := 4  // Sunday is 0

  function MinuteOfDay(local: int): nat {
    local % MINUTES_PER_DAY
  }

  function Weekday(local: int): (d: nat)
    ensures d < 7
  {
    (local / MINUTES_PER_DAY + EPOCH_WEEKDAY) % 7
  }

  /** Known dates: 1 January 1970 was a Thursday, the day before it a Wednesday, 1 January 2000 a Saturday. */
  lemma KnownWeekdays(minute: nat)
    requires minute < 1440
    ensures Weekday(minute) == 4 && Weekday(-1440 + minute) == 3 && Weekday(1440 * 10957 + minute) == 6
  {
    DayAndMinute(minute, 0, minute);
    DayAndMinute(-1440 + minute, -1, minute);
    DayAndMinute(1440 * 10957 + minute, 10957, minute);
  }

  lemma DayAndMinute(local: int, day: int, minute: nat)
    requires minute < 1440 && local == 1440 * day + minute
    ensures local / 1440 == day && local % 1440 == minute
  {
  }

  lemma NextDay(day: int)
    ensures (day + EPOCH_WEEKDAY) % 7 == ((day - 1 + EPOCH_WEEKDAY) % 7 + 1) % 7
  {
  }

  /** Stepping back one minute stays inside the day except at midnight. */
  lemma PreviousMinute(local: int)
    ensures MinuteOfDay(local) != 0 ==>
              MinuteOfDay(local - 1) == MinuteOfDay(local) - 1 && Weekday(local - 1) == Weekday(local)
    ensures MinuteOfDay(local) == 0 ==>
              MinuteOfDay(local - 1) == 1439 && Weekday(local) == (Weekday(local - 1) + 1) % 7
  {
    var day, minute := local / 1440, local % 1440;
    if minute == 0 {
      DayAndMinute(local - 1, day - 1, 1439);
      NextDay(day);
    } else {
      DayAndMinute(local - 1, day, minute - 1);
    }
  }

  /** A local minute that falls on weekday `d` at minute `m` of the day, `weeks` weeks after the epoch. */
  function MomentOn(d: nat, m: nat, weeks: int): (local: int)
    requires d < 7 && m < MINUTES_PER_DAY
    ensures Weekday(local) == d && MinuteOfDay(local) == m
    ensures local >= 10080 * weeks
  {
    var day := 7 * weeks + (d + 3) % 7;
    DayAndMinute(1440 * day + m, day, m);
    assert (day + 4) % 7 == d by { WeekdayOfDay(d, weeks); }
    1440 * day + m
  }

  lemma WeekdayOfDay(d: nat, weeks: int)
    requires d < 7
    ensures (7 * weeks + (d + 3) % 7 + 4) % 7 == d
  {
    assert (d + 3) % 7 == if d < 4 then d + 3 else d - 4;
    var rest := if d < 4 then d + 7 else d;
    assert (7 * weeks + rest) % 7 == rest % 7;
  }
}
