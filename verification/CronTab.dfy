/** Time windows, the cron entries that announce their edges, and the exact
    condition under which the two agree. */
module CronTab {
  import opened Options
  import opened Text
  import opened Calendar
  import opened Triggers

  datatype Clock = Clock(hour: nat, minute: nat, second: nat)

  /** After the seconds: nothing, or a point or comma and at least one digit. */
  predicate IsFraction(text: string) {
    text == "" || (|text| >= 2 && text[0] in {'.', ','} && forall i :: 1 <= i < |text| ==> IsDigit(text[i]))
  }

  /** A number below `limit` and what follows it, up to and including `sep`. */
  function TakeField(s: string, fixed: bool, limit: nat, sep: char): Option<(nat, string)> {
    match TakeNumber(s, fixed)
    case Some((n, rest)) => if n < limit && rest != "" && rest[0] == sep then Some((n, rest[1..])) else None
    case None => None
  }

  /** Clock text: the layout "15:04:05" as Go parses it, with an hour of one or two digits
      and possibly a fraction of a second. */
  function ParseClock(text: string): (r: Result<Clock>)
    ensures r.Ok? ==> r.value.hour < 24 && r.value.minute < 60 && r.value.second < 60
  {
    if text == "" then Err("empty time string")
    else
      match TakeField(text, false, 24, ':')
      case None => Err("invalid time format")
      case Some((hour, rest)) =>
        match TakeField(rest, true, 60, ':')
        case None => Err("invalid time format")
        case Some((minute, rest)) =>
          match TakeNumber(rest, true)
          case None => Err("invalid time format")
          case Some((second, rest)) =>
            if second < 60 && IsFraction(rest) then Ok(Clock(hour, minute, second)) else Err("invalid time format")
  }

  /** `text` writes `clock`: hour, minute and second between colons, and a fraction. */
  ghost predicate Writes(text: string, clock: Clock) {
    && clock.hour < 24 && clock.minute < 60 && clock.second < 60
    && exists hour, fraction :: IsNumberText(hour, clock.hour, false) && IsFraction(fraction)
         && text == hour + (":" + (TwoDigits(clock.minute) + (":" + (TwoDigits(clock.second) + fraction))))
  }

  lemma TakeFieldComplete(text: string, n: nat, rest: string, fixed: bool, limit: nat, sep: char)
    requires IsNumberText(text, n, fixed) && n < limit && !IsDigit(sep)
    ensures TakeField(text + ([sep] + rest), fixed, limit, sep) == Some((n, rest))
  {
    TakeNumberComplete(text, n, [sep] + rest, fixed);
    assert ([sep] + rest)[1..] == rest;
  }

  lemma TakeFieldSound(s: string, fixed: bool, limit: nat, sep: char) returns (text: string)
    requires TakeField(s, fixed, limit, sep).Some?
    ensures var (n, rest) := TakeField(s, fixed, limit, sep).value;
            n < limit && IsNumberText(text, n, fixed) && s == text + ([sep] + rest)
  {
    TakeNumberSound(s, fixed);
    var (n, rest) := TakeNumber(s, fixed).value;
    text :| IsNumberText(text, n, fixed) && s == text + rest;
    assert rest == [sep] + rest[1..];
  }

  /** Exactly which texts are read, and as what. */
  lemma ParseClockIff(text: string, clock: Clock)
    ensures ParseClock(text) == Ok(clock) <==> Writes(text, clock)
  {
    if ParseClock(text) == Ok(clock) {
      ParseClockSound(text);
    }
    if Writes(text, clock) {
      ParseClockComplete(text, clock);
    }
  }

  lemma ParseClockSound(text: string)
    requires ParseClock(text).Ok?
    ensures Writes(text, ParseClock(text).value)
  {
    hide TakeNumber, TakeField, IsFraction, IsNumberText, TwoDigits;
    var hourText := TakeFieldSound(text, false, 24, ':');
    var (hour, rest1) := TakeField(text, false, 24, ':').value;
    var minuteText := TakeFieldSound(rest1, true, 60, ':');
    var (minute, rest2) := TakeField(rest1, true, 60, ':').value;
    TakeNumberSound(rest2, true);
    var (second, fraction) := TakeNumber(rest2, true).value;
    var secondText :| IsNumberText(secondText, second, true) && rest2 == secondText + fraction;
    FixedNumberText(minuteText, minute);
    FixedNumberText(secondText, second);
    assert text == hourText + (":" + (TwoDigits(minute) + (":" + (TwoDigits(second) + fraction))));
  }

  lemma FixedNumberText(text: string, n: nat)
    requires n < 100
    ensures IsNumberText(text, n, true) <==> text == TwoDigits(n)
  {
  }

  lemma ParseClockComplete(text: string, clock: Clock)
    requires Writes(text, clock)
    ensures ParseClock(text) == Ok(clock)
  {
    hide TakeNumber, TakeField, IsNumberText, TwoDigits;
    var hour, fraction :| IsNumberText(hour, clock.hour, false) && IsFraction(fraction)
         && text == hour + (":" + (TwoDigits(clock.minute) + (":" + (TwoDigits(clock.second) + fraction))));
    FixedNumberText(TwoDigits(clock.minute), clock.minute);
    FixedNumberText(TwoDigits(clock.second), clock.second);
    TakeFieldComplete(hour, clock.hour, TwoDigits(clock.minute) + (":" + (TwoDigits(clock.second) + fraction)),
                      false, 24, ':');
    TakeFieldComplete(TwoDigits(clock.minute), clock.minute, TwoDigits(clock.second) + fraction, true, 60, ':');
    TakeNumberComplete(TwoDigits(clock.second), clock.second, fraction, true);
  }

  function MinutesSinceMidnight(clock: Clock): nat {
    clock.hour * 60 + clock.minute
  }

  datatype TimeWindowState = Unknown | Before | Within | After

  predicate IsTimeWithinWindow(current: int, start: int, end: int) {
    if start <= end then start <= current < end
    else current >= start || current < end
  }

  /** The state of the trigger's window at minute `now`. */
  function WindowState(trigger: Trigger, now: int): Result<TimeWindowState> {
    match (ParseClock(trigger.startTime), ParseClock(trigger.endTime))
    case (Err(_), _) => Err("failed to parse start time")
    case (_, Err(_)) => Err("failed to parse end time")
    case (Ok(startClock), Ok(endClock)) =>
      var current := MinuteOfDay(Local(trigger, now));
      var start, end := MinutesSinceMidnight(startClock), MinutesSinceMidnight(endClock);
      if !RecursAt(trigger, now) then Ok(Unknown)
      else if IsTimeWithinWindow(current, start, end) then Ok(Within)
      else if current >= end then Ok(After)
      else Ok(Before)
  }

  predicate IsWithin(trigger: Trigger, now: int) {
    WindowState(trigger, now) == Ok(Within)
  }

  /** The cron entry for a clock time of the trigger: minute, hour, day of month, month, weekday. */
  function CronEntry(trigger: Trigger, timeText: string): Result<string> {
    match ParseClock(timeText)
    case Err(message) => Err(message)
    case Ok(clock) =>
      Ok(Join([Decimal(clock.minute), Decimal(clock.hour), "*", "*", CronWeekdays(trigger)], ' '))
  }

  /** A crontab field, a wildcard or a comma-separated list of numbers, admits `v`. */
  predicate FieldMatches(field: string, v: nat) {
    field == "*" || NumberListHolds(field, v)
  }

  /** A five-field crontab entry whose day of month and month are wildcards
      matches the local minute (crontab, IEEE Std 1003.1-2017, INPUT FILES). */
  predicate EntryMatches(entry: string, local: int) {
    var fields := Split(entry, ' ');
    && |fields| == 5
    && FieldMatches(fields[0], MinuteOfDay(local) % 60)
    && FieldMatches(fields[1], MinuteOfDay(local) / 60)
    && fields[2] == "*"
    && fields[3] == "*"
    && FieldMatches(fields[4], Weekday(local))
  }

  lemma {:induction false} JoinChars(parts: seq<string>, sep: char, c: char)
    requires c in Join(parts, sep)
    ensures c == sep || exists p :: p in parts && c in p
  {
    if |parts| > 1 {
      if c in Join(parts[1..], sep) {
        JoinChars(parts[1..], sep, c);
      }
    }
  }

  lemma CronWeekdaysHasNoSpace(trigger: Trigger)
    ensures ' ' !in CronWeekdays(trigger)
  {
    if ' ' in CronWeekdays(trigger) {
      var pieces := Split(trigger.interval.value.recurring, ',');
      JoinChars(CronNumbers(pieces), ',', ' ');
      CronNumbersAreListed(pieces, 0);
      var p :| p in CronNumbers(pieces) && ' ' in p;
      var d: nat :| d < 7 && p == Decimal(d);
      DecimalRoundTrip(d);
      assert false;
    }
  }

  /** The weekdays on which the trigger's cron entries fire. */
  predicate CronDay(trigger: Trigger, d: nat)
    requires d < 7
  {
    || trigger.interval.None?
    || trigger.interval.value.recurring == ""
    || !ListsSome(trigger.interval.value.recurring)
    || Lists(trigger.interval.value.recurring, d)
  }

  lemma NumberFieldMatches(n: nat, v: nat)
    ensures FieldMatches(Decimal(n), v) <==> n == v
    ensures ' ' !in Decimal(n)
  {
    DecimalRoundTrip(n);
    SplitPiece(Decimal(n), ',');
  }

  /** Reading the generated entry back: it matches exactly its own minute of the
      day on the trigger's cron days. */
  lemma CronEntryMatches(trigger: Trigger, timeText: string, local: int)
    requires ParseClock(timeText).Ok?
    ensures CronEntry(trigger, timeText).Ok?
    ensures EntryMatches(CronEntry(trigger, timeText).value, local)
       <==> MinuteOfDay(local) == MinutesSinceMidnight(ParseClock(timeText).value) && CronDay(trigger, Weekday(local))
  {
    var clock := ParseClock(timeText).value;
    var fields := [Decimal(clock.minute), Decimal(clock.hour), "*", "*", CronWeekdays(trigger)];
    NumberFieldMatches(clock.minute, MinuteOfDay(local) % 60);
    NumberFieldMatches(clock.hour, MinuteOfDay(local) / 60);
    CronWeekdaysHasNoSpace(trigger);
    SplitJoin(fields, ' ');
    if trigger.interval.Some? && trigger.interval.value.recurring != "" {
      WeekdayRoundTrip(trigger, Weekday(local));
    }
    assert FieldMatches(CronWeekdays(trigger), Weekday(local)) <==> CronDay(trigger, Weekday(local));
  }

  /** Triggers that get cron entries at all: a valid interval and readable clock times. */
  predicate Schedulable(trigger: Trigger) {
    HasValidInterval(trigger) && ParseClock(trigger.startTime).Ok? && ParseClock(trigger.endTime).Ok?
  }

  predicate StartFires(trigger: Trigger, now: int) {
    && Schedulable(trigger)
    && CronEntry(trigger, trigger.startTime).Ok?
    && EntryMatches(CronEntry(trigger, trigger.startTime).value, Local(trigger, now))
  }

  predicate EndFires(trigger: Trigger, now: int) {
    && Schedulable(trigger)
    && CronEntry(trigger, trigger.endTime).Ok?
    && EntryMatches(CronEntry(trigger, trigger.endTime).value, Local(trigger, now))
  }

  /** Minute `now` is not special for the trigger unless its window opens or closes there, and then its cron entry
      fires. */
  predicate EdgeAnnounced(trigger: Trigger, now: int) {
    && (StartFires(trigger, now) <==> IsWithin(trigger, now) && !IsWithin(trigger, now - 1))
    && (EndFires(trigger, now) <==> IsWithin(trigger, now - 1) && !IsWithin(trigger, now))
  }

  predicate ListsAll(recurring: string) {
    forall d :: 0 <= d < 7 ==> Lists(recurring, d)
  }

  /** The check on a trigger's text that makes its cron entries exact: at least one
      recognised weekday code, distinct start and end minutes, and no wrap past
      midnight unless every day is listed. Triggers that are never scheduled pass. */
  predicate WellScheduled(trigger: Trigger) {
    Schedulable(trigger) ==>
      var recurring := trigger.interval.value.recurring;
      var start := MinutesSinceMidnight(ParseClock(trigger.startTime).value);
      var end := MinutesSinceMidnight(ParseClock(trigger.endTime).value);
      && recurring != ""
      && ListsSome(recurring)
      && start != end
      && (start < end || ListsAll(recurring))
  }

  lemma WellScheduledEdges(trigger: Trigger, now: int)
    requires WellScheduled(trigger)
    ensures EdgeAnnounced(trigger, now)
  {
    hide CronEntry, EntryMatches, ParseClock, Lists;
    if Schedulable(trigger) {
      var local := Local(trigger, now);
      assert Local(trigger, now - 1) == local - 1;
      PreviousMinute(local);
      CronEntryMatches(trigger, trigger.startTime, local);
      CronEntryMatches(trigger, trigger.endTime, local);
    }
  }

  lemma LastInCycle(days: set<nat>, missing: nat) returns (d: nat)
    requires days != {} && (forall e :: e in days ==> e < 7)
    requires missing < 7 && missing !in days
    ensures d in days && (d + 1) % 7 !in days
  {
    d :| d in days;
    while (d + 1) % 7 in days
      invariant d in days && d < 7
      decreases if d <= missing then missing - d else missing + 7 - d
    {
      d := if d == 6 then 0 else d + 1;
    }
  }

  /** Some listed weekday is followed by one that is not, unless all are listed. */
  lemma LastListedDay(recurring: string) returns (d: nat)
    requires ListsSome(recurring) && !ListsAll(recurring)
    ensures d < 7 && Lists(recurring, d) && !Lists(recurring, (d + 1) % 7)
  {
    hide Lists;
    var some :| 0 <= some < 7 && Lists(recurring, some);
    var missing: nat :| missing < 7 && !Lists(recurring, missing);
    var days := set e: nat | e < 7 && Lists(recurring, e);
    assert some in days;
    d := LastInCycle(days, missing);
  }

  /** A trigger that is not well scheduled has a minute outside its window that either
      fires its start entry out of the blue, or ends the window with no entry firing. */
  lemma MisannouncedMinute(trigger: Trigger) returns (now: int)
    requires !WellScheduled(trigger)
    ensures !IsWithin(trigger, now)
    ensures || (StartFires(trigger, now) && !IsWithin(trigger, now - 1))
            || (IsWithin(trigger, now - 1) && !StartFires(trigger, now) && !EndFires(trigger, now))
  {
    hide StartFires, EndFires, IsWithin, ParseClock, ListsSome, ListsAll;
    var recurring := trigger.interval.value.recurring;
    var start := MinutesSinceMidnight(ParseClock(trigger.startTime).value);
    var end := MinutesSinceMidnight(ParseClock(trigger.endTime).value);
    if recurring == "" || !ListsSome(recurring) || start == end {
      now := StrayStart(trigger, start, end);
    } else {
      now := SilentMidnight(trigger, start, end);
    }
  }

  /** A start entry that fires although the trigger is not within its window. */
  lemma StrayStart(trigger: Trigger, start: nat, end: nat) returns (now: int)
    requires Schedulable(trigger)
    requires start == MinutesSinceMidnight(ParseClock(trigger.startTime).value)
    requires end == MinutesSinceMidnight(ParseClock(trigger.endTime).value)
    requires trigger.interval.value.recurring == "" || !ListsSome(trigger.interval.value.recurring) || start == end
    ensures StartFires(trigger, now) && !IsWithin(trigger, now) && !IsWithin(trigger, now - 1)
  {
    var interval := trigger.interval.value;
    var d: nat := 0;
    if interval.recurring != "" && ListsSome(interval.recurring) {
      d :| 0 <= d < 7 && Lists(interval.recurring, d);
    }
    var after := if interval.endDate.Date? then interval.endDate.midnight + trigger.zoneOffset + 1 else 0;
    var local := MomentOn(d, start, if after > 0 then after else 0);
    now := local - trigger.zoneOffset;
    assert Local(trigger, now) == local;
    CronEntryMatches(trigger, trigger.startTime, local);
  }

  lemma UnlistedDayIsSilent(trigger: Trigger, now: int)
    requires Schedulable(trigger)
    requires trigger.interval.value.recurring != "" && ListsSome(trigger.interval.value.recurring)
    requires !Lists(trigger.interval.value.recurring, Weekday(Local(trigger, now)))
    ensures !StartFires(trigger, now) && !EndFires(trigger, now) && !IsWithin(trigger, now)
  {
    CronEntryMatches(trigger, trigger.startTime, Local(trigger, now));
    CronEntryMatches(trigger, trigger.endTime, Local(trigger, now));
  }

  /** A window cut off at midnight, because the next day is not listed, with no entry firing. */
  lemma SilentMidnight(trigger: Trigger, start: nat, end: nat) returns (now: int)
    requires Schedulable(trigger)
    requires start == MinutesSinceMidnight(ParseClock(trigger.startTime).value)
    requires end == MinutesSinceMidnight(ParseClock(trigger.endTime).value)
    requires trigger.interval.value.recurring != "" && ListsSome(trigger.interval.value.recurring)
    requires !ListsAll(trigger.interval.value.recurring) && start > end
    ensures IsWithin(trigger, now - 1) && !IsWithin(trigger, now)
    ensures !StartFires(trigger, now) && !EndFires(trigger, now)
  {
    var d := LastListedDay(trigger.interval.value.recurring);
    var local := MomentOn((d + 1) % 7, 0, 0);
    now := local - trigger.zoneOffset;
    assert Local(trigger, now) == local && Local(trigger, now - 1) == local - 1;
    UnlistedDayIsSilent(trigger, now);
    assert Weekday(local - 1) == d && MinuteOfDay(local - 1) == 1439 by {
      PreviousMinute(local);
      NextDayInjective(Weekday(local - 1), d);
    }
    assert RecursAt(trigger, now - 1);
    assert IsTimeWithinWindow(1439, start, end);
  }

  lemma NextDayInjective(d: nat, e: nat)
    requires d < 7 && e < 7 && (d + 1) % 7 == (e + 1) % 7
    ensures d == e
  {
  }

  /** Cron edges are exactly window edges, at every minute, if and only if the trigger is well scheduled. */
  lemma EdgesExactIff(trigger: Trigger)
    ensures (forall now :: EdgeAnnounced(trigger, now)) <==> WellScheduled(trigger)
  {
    if WellScheduled(trigger) {
      forall now ensures EdgeAnnounced(trigger, now) {
        WellScheduledEdges(trigger, now);
      }
    } else {
      var now := MisannouncedMinute(trigger);
      assert !EdgeAnnounced(trigger, now);
    }
  }
}
