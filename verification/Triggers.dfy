/** The trigger types of the custom resource and their day filter. */
module Triggers {
  import opened Options
  import opened Text
  import opened Calendar

  type int32 = x: int | -0x8000_0000 <= x < 0x8000_0000

  datatype HPAConfig = HPAConfig(minReplicas: Option<int32>, maxReplicas: Option<int32>)

  /** What a date field holds: nothing, text that is not a date, or a date,
      given by the absolute minute at which it begins in UTC. */
  datatype DateText = NoDate | BadDate | Date(midnight: int)

  datatype Interval = Interval(recurring: string, startDate: DateText, endDate: DateText)

  datatype Trigger = Trigger(
    name: string,
    priority: Option<int>,
    zoneOffset: int,
    interval: Option<Interval>,
    startTime: string,
    endTime: string,
    startHPAConfig: Option<HPAConfig>,
    endHPAConfig: Option<HPAConfig>,
    suspend: bool)

  const WEEKDAY_SHORT: seq<string> := ["SUN", "M", "TU", "W", "TH", "F", "SAT"]

  const WEEKDAY_TO_CRON: map<string, string> :=
    map["SUN" := "0", "M" := "1", "TU" := "2", "W" := "3", "TH" := "4", "F" := "5", "SAT" := "6"]

  function Local(trigger: Trigger, now: int): int {
    now + trigger.zoneOffset
  }

  /** Weekday `d` is one of the days listed in `recurring`. */
  predicate Lists(recurring: string, d: nat)
    requires d < 7
  {
    exists piece :: piece in Split(recurring, ',') && Trim(piece) == WEEKDAY_SHORT[d]
  }

  /** The trigger's day filter lets minute `now` through. */
  predicate RecursAt(trigger: Trigger, now: int) {
    && trigger.interval.Some?
    && var interval := trigger.interval.value;
       if interval.recurring != "" then
         Lists(interval.recurring, Weekday(Local(trigger, now)))
       else
         interval.startDate.Date? && interval.endDate.Date? &&
             interval.startDate.midnight < now < interval.endDate.midnight
  }

  /** A date range without a recurrence, from midnight UTC of day `first` to that of day `last`, passes all of the
      first day after its first instant, which stands for its first minute here, and nothing of the last. */
  lemma DateRangePasses(trigger: Trigger, first: int, last: int, now: int)
    requires trigger.interval == Some(Interval("", Date(1440 * first), Date(1440 * last)))
    ensures RecursAt(trigger, now) <==> first <= now / 1440 < last && now != 1440 * first
  {
  }

  method NeedRecurring(trigger: Trigger, now: int) returns (recurs: bool)
    ensures recurs == RecursAt(trigger, now)
  {
    if trigger.interval.None? {
      return false;
    }
    var interval := trigger.interval.value;
    if interval.recurring != "" {
      var currentDay := WEEKDAY_SHORT[Weekday(Local(trigger, now))];
      var days := Split(interval.recurring, ',');
      for i := 0 to |days|
        invariant forall j :: 0 <= j < i ==> Trim(days[j]) != currentDay
      {
        if Trim(days[i]) == currentDay {
          return true;
        }
      }
      return false;
    }
    if interval.startDate != NoDate && interval.endDate != NoDate {
      if interval.startDate.BadDate? {
        return false;
      }
      if interval.endDate.BadDate? {
        return false;
      }
      return interval.startDate.midnight < now && now < interval.endDate.midnight;
    }
    return false;
  }

  predicate HasValidInterval(trigger: Trigger) {
    && trigger.interval.Some?
    && (|| trigger.interval.value.recurring != ""
        || (trigger.interval.value.startDate != NoDate && trigger.interval.value.endDate != NoDate))
  }

  /** The day filter passes only triggers whose interval counts as valid, so
      filtering on validity loses no trigger that could be in its window. */
  lemma RecurringIsValid(trigger: Trigger, now: int)
    requires RecursAt(trigger, now)
    ensures HasValidInterval(trigger)
  {
  }

  /** The cron numbers of the recognised codes among `pieces`, in order. */
  function CronNumbers(pieces: seq<string>): seq<string> {
    if pieces == [] then []
    else
      var code := Trim(pieces[0]);
      (if code in WEEKDAY_TO_CRON then [WEEKDAY_TO_CRON[code]] else []) + CronNumbers(pieces[1..])
  }

  function CronWeekdays(trigger: Trigger): string {
    if trigger.interval.None? || trigger.interval.value.recurring == "" then "*"
    else
      var numbers := CronNumbers(Split(trigger.interval.value.recurring, ','));
      if |numbers| == 0 then "*" else Join(numbers, ',')
  }

  method GetCronWeekdays(trigger: Trigger) returns (weekdays: string)
    ensures weekdays == CronWeekdays(trigger)
  {
    hide Split, Trim, Join;
    if trigger.interval.None? || trigger.interval.value.recurring == "" {
      return "*";
    }
    var days := Split(trigger.interval.value.recurring, ',');
    var cronDays: seq<string> := [];
    for i := 0 to |days|
      invariant cronDays + CronNumbers(days[i..]) == CronNumbers(days)
    {
      var trimmedDay := Trim(days[i]);
      assert days[i..][1..] == days[i + 1..];
      if trimmedDay in WEEKDAY_TO_CRON {
        cronDays := cronDays + [WEEKDAY_TO_CRON[trimmedDay]];
      }
    }
    if |cronDays| == 0 {
      return "*";
    }
    assert CronNumbers(days[|days|..]) == [];
    assert cronDays == CronNumbers(days);
    return Join(cronDays, ',');
  }

  predicate IsWeekdayNumber(number: string) {
    exists d: nat :: d < 7 && number == Decimal(d)
  }

  /** The two weekday tables of the API agree. */
  lemma WeekdayTablesAgree(d: nat)
    requires d < 7
    ensures WEEKDAY_SHORT[d] in WEEKDAY_TO_CRON && WEEKDAY_TO_CRON[WEEKDAY_SHORT[d]] == Decimal(d)
    ensures Decimal(d) == [Digit(d)]
  {
    if d == 0 {} else if d == 1 {} else if d == 2 {} else if d == 3 {} else if d == 4 {} else if d == 5 {} else {}
  }

  lemma CodeIsWeekday(code: string) returns (d: nat)
    requires code in WEEKDAY_TO_CRON
    ensures d < 7 && code == WEEKDAY_SHORT[d] && WEEKDAY_TO_CRON[code] == Decimal(d)
  {
    d := if code == "SUN" then 0 else if code == "M" then 1 else if code == "TU" then 2 else if code == "W" then 3
         else if code == "TH" then 4 else if code == "F" then 5 else 6;
    WeekdayTablesAgree(d);
  }

  lemma {:induction false} CronNumbersAreListed(pieces: seq<string>, d: nat)
    requires d < 7
    ensures Decimal(d) in CronNumbers(pieces) <==> exists piece :: piece in pieces && Trim(piece) == WEEKDAY_SHORT[d]
    ensures forall n :: n in CronNumbers(pieces) ==> IsWeekdayNumber(n)
  {
    if pieces != [] {
      WeekdayTablesAgree(d);
      var code := Trim(pieces[0]);
      if code in WEEKDAY_TO_CRON {
        var e := CodeIsWeekday(code);
        DecimalRoundTrip(d);
        DecimalRoundTrip(e);
      }
      CronNumbersAreListed(pieces[1..], d);
      assert pieces == [pieces[0]] + pieces[1..];
    }
  }

  predicate ListsSome(recurring: string) {
    exists d :: 0 <= d < 7 && Lists(recurring, d)
  }

  /** Weekday text round trip: read back as a comma-separated list of numbers, the
      cron field names exactly the weekdays on which the day filter passes; with no
      recognised code at all it is the wildcard. */
  lemma WeekdayRoundTrip(trigger: Trigger, v: nat)
    requires trigger.interval.Some? && trigger.interval.value.recurring != ""
    ensures ListsSome(trigger.interval.value.recurring) ==>
              && CronWeekdays(trigger) != "*"
              && (forall piece :: piece in Split(CronWeekdays(trigger), ',') ==>
                  exists d: nat :: d < 7 && ParseDecimal(piece) == Some(d))
              && (NumberListHolds(CronWeekdays(trigger), v) <==> v < 7 && Lists(trigger.interval.value.recurring, v))
    ensures !ListsSome(trigger.interval.value.recurring) ==> CronWeekdays(trigger) == "*"
  {
    hide Decimal, ParseDecimal, Trim, Split, Join, NumberListHolds, IsWeekdayNumber;
    var recurring := trigger.interval.value.recurring;
    var numbers := CronNumbers(Split(recurring, ','));
    forall d: nat | d < 7 ensures Decimal(d) in numbers <==> Lists(recurring, d) {
      CronNumbersAreListed(Split(recurring, ','), d);
    }
    CronNumbersAreListed(Split(recurring, ','), 0);
    if numbers != [] {
      JoinedNumbersHold(numbers, v);
      var d := NumberOf(numbers[0]);
    }
  }

  lemma NumberOf(number: string) returns (d: nat)
    requires IsWeekdayNumber(number)
    ensures d < 7 && number == Decimal(d) && ParseDecimal(number) == Some(d) && ',' !in number && number != "*"
  {
    d :| d < 7 && number == Decimal(d);
    DecimalRoundTrip(d);
  }

  /** A list of weekday numbers, joined and read back. */
  lemma JoinedNumbersHold(numbers: seq<string>, v: nat)
    requires numbers != [] && forall n :: n in numbers ==> IsWeekdayNumber(n)
    ensures Split(Join(numbers, ','), ',') == numbers && Join(numbers, ',') != "*"
    ensures forall n :: n in numbers ==> exists d: nat :: d < 7 && ParseDecimal(n) == Some(d)
    ensures NumberListHolds(Join(numbers, ','), v) <==> v < 7 && Decimal(v) in numbers
  {
    hide Decimal, ParseDecimal, Split, Join, IsWeekdayNumber;
    forall n | n in numbers
      ensures ',' !in n && n != "*" && exists d: nat :: d < 7 && n == Decimal(d) && ParseDecimal(n) == Some(d)
    {
      var d := NumberOf(n);
    }
    SplitJoin(numbers, ',');
    SplitPiece("*", ',');
    DecimalRoundTrip(v);
  }
}
