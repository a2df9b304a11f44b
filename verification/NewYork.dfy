/**
 New York wall time (session.ts), with the platform's time-zone data replaced by the rule of 15
 U.S.C. section 260a: daylight saving from 02:00 on the second Sunday of March to 02:00 on the
 first Sunday of November, UTC-4 in between and UTC-5 otherwise.

 Instants are milliseconds and dates are days, both since 1970-01-01 (UTC and local respectively).
 */
module NewYork {
  import opened Basics

  const MINUTE: int := 60_000
  const HOUR: int := 3_600_000
  const DAY: int := 86_400_000

  /******* The Gregorian calendar *******/

  /** Leap days in the years up to and including `y`. */
  function LeapsThrough(y: int): int {
    y / 4 - y / 100 + y / 400
  }

  predicate IsLeap(y: int) {
    y % 4 == 0 && (y % 100 != 0 || y % 400 == 0)
  }

  /** The first of January of year `y`. */
  function Jan1(y: int): int {
    365 * (y - 1970) + LeapsThrough(y - 1) - LeapsThrough(1969)
  }

  lemma YearLength(y: int)
    ensures Jan1(y + 1) == Jan1(y) + 365 + (if IsLeap(y) then 1 else 0)
  {
    LeapStep(y, 4);
    LeapStep(y, 100);
    LeapStep(y, 400);
  }

  lemma LeapStep(y: int, n: int)
    requires n == 4 || n == 100 || n == 400
    ensures y / n - (y - 1) / n == if y % n == 0 then 1 else 0
  {
  }

  function YearFrom(y: int, day: int): (year: int)
    requires Jan1(y) <= day
    ensures Jan1(year) <= day < Jan1(year + 1)
    decreases day - Jan1(y)
  {
    YearLength(y);
    if day < Jan1(y + 1) then y else YearFrom(y + 1, day)
  }

  function YearBack(y: int, day: int): (year: int)
    requires day < Jan1(y + 1)
    ensures Jan1(year) <= day < Jan1(year + 1)
    decreases Jan1(y + 1) - day
  {
    YearLength(y);
    if Jan1(y) <= day then y else YearBack(y - 1, day)
  }

  /** The year a day is in. */
  function YearOf(day: int): (year: int)
    ensures Jan1(year) <= day < Jan1(year + 1)
  {
    if day >= Jan1(1970) then YearFrom(1970, day) else YearBack(1969, day)
  }

  lemma {:induction false} LaterYearsStartLater(y: int, z: int)
    requires y < z
    ensures Jan1(y) + 365 <= Jan1(z)
    decreases z - y
  {
    YearLength(z - 1);
    if y < z - 1 {
      LaterYearsStartLater(y, z - 1);
    }
  }

  /** 0 is Sunday; 1970-01-01 was a Thursday. */
  function Weekday(day: int): (w: int)
    ensures 0 <= w < 7
  {
    (day + 4) % 7
  }

  function SundayFrom(day: int): (sunday: int)
    ensures day <= sunday < day + 7 && Weekday(sunday) == 0
  {
    day + (7 - Weekday(day)) % 7
  }

  /** The second Sunday of March and the first Sunday of November. */
  function SpringDay(y: int): int {
    SundayFrom(Jan1(y) + 59 + (if IsLeap(y) then 1 else 0) + 7)
  }

  function FallDay(y: int): int {
    SundayFrom(Jan1(y) + 304 + (if IsLeap(y) then 1 else 0))
  }

  lemma SwitchesAreInside(y: int)
    ensures Jan1(y) + 60 < SpringDay(y) < FallDay(y) < Jan1(y + 1) - 50
  {
  }

  /******* Wall time *******/

  /** Daylight saving: from 02:00 EST (07:00 UTC) to 02:00 EDT (06:00 UTC). */
  predicate IsSummer(t: int) {
    var y := YearOf(t / DAY);
    SpringDay(y) * DAY + 7 * HOUR <= t < FallDay(y) * DAY + 6 * HOUR
  }

  function Offset(t: int): (hours: int)
    ensures hours == 4 * HOUR || hours == 5 * HOUR
  {
    if IsSummer(t) then 4 * HOUR else 5 * HOUR
  }

  function Local(t: int): int {
    t - Offset(t)
  }

  datatype Parts = Parts(date: int, weekday: int, minutes: int)

  function NewYorkParts(t: int): (p: Parts)
    ensures 0 <= p.minutes < 1440
  {
    Parts(Local(t) / DAY, Weekday(Local(t) / DAY), (Local(t) % DAY) / MINUTE)
  }

  /** Whether it is summer, from any year the instant is in or at the edge of. */
  lemma SummerIn(y: int, t: int)
    requires Jan1(y) * DAY - DAY <= t < Jan1(y + 1) * DAY + DAY
    ensures IsSummer(t) <==> SpringDay(y) * DAY + 7 * HOUR <= t < FallDay(y) * DAY + 6 * HOUR
  {
    hide YearOf, SpringDay, FallDay, Jan1;
    var z := YearOf(t / DAY);
    SwitchesAreInside(y);
    SwitchesAreInside(z);
    if z < y {
      LaterYearsStartLater(z, y);
      if z + 1 < y { LaterYearsStartLater(z + 1, y); }
    } else if y < z {
      LaterYearsStartLater(y, z);
      if y + 1 < z { LaterYearsStartLater(y + 1, z); }
    }
  }

  /** The two switch dates of the year around a local date, as instants of local time. */
  predicate InSummer(local: int) {
    var y := YearOf(local / DAY);
    SpringDay(y) * DAY + 3 * HOUR <= local < FallDay(y) * DAY + 2 * HOUR
  }

  predicate InWinter(local: int) {
    var y := YearOf(local / DAY);
    local < SpringDay(y) * DAY + 2 * HOUR || FallDay(y) * DAY + 1 * HOUR <= local
  }

  /** A wall time is shown at UTC-4 exactly when it is in summer, and at UTC-5 exactly when it is in winter. */
  lemma ShownWhen(local: int)
    ensures Local(local + 4 * HOUR) == local <==> InSummer(local)
    ensures Local(local + 5 * HOUR) == local <==> InWinter(local)
  {
    hide YearOf, SpringDay, FallDay, IsSummer, Jan1;
    var y := YearOf(local / DAY);
    SummerIn(y, local + 4 * HOUR);
    SummerIn(y, local + 5 * HOUR);
  }

  /** The hour New York skips in March, and the hour it repeats in November. */
  predicate Skipped(local: int) {
    SpringDay(YearOf(local / DAY)) * DAY + 2 * HOUR <= local < SpringDay(YearOf(local / DAY)) * DAY + 3 * HOUR
  }

  predicate Repeated(local: int) {
    FallDay(YearOf(local / DAY)) * DAY + HOUR <= local < FallDay(YearOf(local / DAY)) * DAY + 2 * HOUR
  }

  lemma SkippedOrShown(local: int)
    ensures Skipped(local) <==> !InSummer(local) && !InWinter(local)
    ensures Repeated(local) <==> InSummer(local) && InWinter(local)
  {
  }

  /******* From wall time to instants *******/

  /** The instant `offset` minutes after a local time read as UTC. */
  function Candidate(date: int, minutes: int, offset: int): int {
    date * DAY + (minutes + offset) * MINUTE
  }

  /** The candidate shows the wanted wall time. */
  predicate Lands(date: int, minutes: int, offset: int) {
    var parts := NewYorkParts(Candidate(date, minutes, offset));
    parts.date == date && parts.minutes == minutes
  }

  /** The instant of `minutes` after midnight on a New York date: the earlier one when there are two. */
  function TimeOn(date: int, minutes: int): Option<int> {
    if Lands(date, minutes, 4 * 60) then Some(Candidate(date, minutes, 4 * 60))
    else if Lands(date, minutes, 5 * 60) then Some(Candidate(date, minutes, 5 * 60))
    else None
  }

  /** Tries UTC-4, then UTC-5, and takes the first that lands on the wanted wall time. */
  method NewYorkTimeOn(date: int, minutes: int) returns (t: Option<int>)
    ensures t == TimeOn(date, minutes)
    ensures t.Some? ==> NewYorkParts(t.value).date == date && NewYorkParts(t.value).minutes == minutes
  {
    hide NewYorkParts;
    var offsets := [4 * 60, 5 * 60];
    for i := 0 to |offsets|
      invariant i > 0 ==> !Lands(date, minutes, offsets[0])
      invariant i > 1 ==> !Lands(date, minutes, offsets[1])
    {
      var candidate := date * DAY + (minutes + offsets[i]) * MINUTE;
      assert candidate == Candidate(date, minutes, offsets[i]);
      var parts := NewYorkParts(candidate);
      if parts.date == date && parts.minutes == minutes {
        return Some(candidate);
      }
    }
    t := None;
  }

  function WallTime(date: int, minutes: int): int {
    date * DAY + minutes * MINUTE
  }

  lemma LandsWhen(date: int, minutes: int)
    requires 0 <= minutes < 1440
    ensures Lands(date, minutes, 4 * 60) <==> InSummer(WallTime(date, minutes))
    ensures Lands(date, minutes, 5 * 60) <==> InWinter(WallTime(date, minutes))
  {
    hide InSummer, InWinter, Offset;
    ShownWhen(WallTime(date, minutes));
    PartsOfLocal(date, minutes, 4);
    PartsOfLocal(date, minutes, 5);
  }

  lemma PartsOfLocal(date: int, minutes: int, hours: int)
    requires hours == 4 || hours == 5
    ensures var t := WallTime(date, minutes) + hours * HOUR;
            Lands(date, minutes, hours * 60) <==> (0 <= minutes < 1440 && Local(t) == WallTime(date, minutes))
  {
    hide Offset, Weekday;
    var t := WallTime(date, minutes) + hours * HOUR;
    assert Candidate(date, minutes, hours * 60) == t;
    var behind := if Offset(t) == 4 * HOUR then 4 * 60 else 5 * 60;
    MinutesOf(Local(t), date * 1440 + minutes + hours * 60 - behind, date, minutes);
  }

  lemma MinutesOf(local: int, n: int, date: int, minutes: int)
    requires local == n * MINUTE
    ensures local / DAY == date && (local % DAY) / MINUTE == minutes
            <==> 0 <= minutes < 1440 && local == date * DAY + minutes * MINUTE
  {
    assert local / DAY == n / 1440;
    assert local % DAY == (n % 1440) * MINUTE;
  }

  /**
   The instant shows the wanted wall time. There is one for every minute of every date but those of
   the skipped hour.
   */
  lemma WallTimeOrNone(date: int, minutes: int)
    requires 0 <= minutes < 1440
    ensures TimeOn(date, minutes).None? <==> Skipped(WallTime(date, minutes))
    ensures TimeOn(date, minutes).Some? ==>
              && Local(TimeOn(date, minutes).value) == WallTime(date, minutes)
              && TimeOn(date, minutes).value
                 == WallTime(date, minutes) + if InSummer(WallTime(date, minutes)) then 4 * HOUR else 5 * HOUR
  {
    hide InSummer, InWinter, Skipped, Repeated, Lands, Local;
    LandsWhen(date, minutes);
    ShownWhen(WallTime(date, minutes));
    SkippedOrShown(WallTime(date, minutes));
  }

  lemma NotAMinute(date: int, minutes: int)
    requires !(0 <= minutes < 1440)
    ensures TimeOn(date, minutes).None?
  {
  }

  /** It is the only instant with that wall time but in the repeated hour, where it is the earlier of two. */
  lemma WallTimeIsUnique(date: int, minutes: int, t: int)
    requires 0 <= minutes < 1440 && Local(t) == WallTime(date, minutes)
    ensures TimeOn(date, minutes).Some? && TimeOn(date, minutes).value <= t
    ensures t == TimeOn(date, minutes).value || (Repeated(Local(t)) && t == TimeOn(date, minutes).value + HOUR)
  {
    hide InSummer, InWinter, Skipped, Repeated, TimeOn, Local;
    var local := WallTime(date, minutes);
    LocalIsFourOrFiveBehind(t);
    WallTimeOrNone(date, minutes);
    ShownWhen(local);
    SkippedOrShown(local);
  }

  lemma LocalIsFourOrFiveBehind(t: int)
    ensures t == Local(t) + 4 * HOUR || t == Local(t) + 5 * HOUR
  {
  }

  /** In the repeated hour there are two. */
  lemma RepeatedMeansTwice(date: int, minutes: int)
    requires 0 <= minutes < 1440 && Repeated(WallTime(date, minutes))
    ensures TimeOn(date, minutes).Some?
    ensures Local(TimeOn(date, minutes).value) == Local(TimeOn(date, minutes).value + HOUR) == WallTime(date, minutes)
  {
    hide InSummer, InWinter, Skipped, Repeated, TimeOn, Local;
    WallTimeOrNone(date, minutes);
    ShownWhen(WallTime(date, minutes));
    SkippedOrShown(WallTime(date, minutes));
  }

  /******* The rest of a day *******/

  /** The offset of a date from 03:00 on. */
  function DayOffset(date: int): (hours: int)
    ensures hours == 4 * HOUR || hours == 5 * HOUR
  {
    if SpringDay(YearOf(date)) <= date < FallDay(YearOf(date)) then 4 * HOUR else 5 * HOUR
  }

  /** From 03:00 to midnight a date keeps one offset. */
  lemma OneOffsetADay(date: int, t: int)
    requires date * DAY + 3 * HOUR + DayOffset(date) <= t < (date + 1) * DAY + DayOffset(date)
    ensures Offset(t) == DayOffset(date) && NewYorkParts(t).date == date
    ensures NewYorkParts(t).minutes == (t - DayOffset(date) - date * DAY) / MINUTE
  {
    hide YearOf, SpringDay, FallDay, IsSummer, Jan1;
    SummerIn(YearOf(date), t);
  }

  lemma TimeAfterThree(date: int, minutes: int)
    requires 180 <= minutes < 1440
    ensures TimeOn(date, minutes) == Some(date * DAY + minutes * MINUTE + DayOffset(date))
  {
    hide TimeOn, YearOf, SpringDay, FallDay, Jan1;
    WallTimeOrNone(date, minutes);
    SwitchesAreInside(YearOf(date));
    assert WallTime(date, minutes) / DAY == date;
  }
}
