/**
 The NYSE calendar (session.ts) and when a plan is due next (schedule.ts). The holiday, early-close
 and covered-year tables are a parameter.
 */
module Session {
  import opened Basics
  import opened NewYork

  /** Full-day closures, 13:00 closes and the years both tables cover. */
  datatype Calendar = Calendar(holidays: set<int>, earlyClose: set<int>, knownYears: set<int>)

  datatype UsSession = Regular | Pre | Post | Overnight | Weekend | Holiday

  const REGULAR_OPEN_MINUTES: int := 9 * 60 + 30

  /** A year missing from the tables counts as closed. */
  predicate ClosedDate(cal: Calendar, date: int) {
    date in cal.holidays || YearOf(date) !in cal.knownYears
  }

  predicate IsWeekend(weekday: int) {
    weekday == 6 || weekday == 0
  }

  /** Neither a weekend, nor a holiday, nor a year the tables do not cover. */
  predicate IsTradingDay(cal: Calendar, date: int) {
    !IsWeekend(Weekday(date)) && !ClosedDate(cal, date)
  }

  function CloseMinutes(cal: Calendar, date: int): int {
    if date in cal.earlyClose then 13 * 60 else 16 * 60
  }

  function SessionAt(cal: Calendar, t: int): UsSession {
    var p := NewYorkParts(t);
    if IsWeekend(p.weekday) then Weekend
    else if ClosedDate(cal, p.date) then Holiday
    else if 4 * 60 <= p.minutes < REGULAR_OPEN_MINUTES then Pre
    else if REGULAR_OPEN_MINUTES <= p.minutes < CloseMinutes(cal, p.date) then Regular
    else if CloseMinutes(cal, p.date) <= p.minutes < 20 * 60 then Post
    else Overnight
  }

  /** The end of the regular session that `t` lies in, if it lies in one. */
  function RegularClose(cal: Calendar, t: int): Option<int> {
    if SessionAt(cal, t) != Regular then None
    else
      var date := NewYorkParts(t).date;
      TimeOn(date, CloseMinutes(cal, date))
  }

  /** 09:30 New York time on `date`. */
  function OpenTime(date: int): int {
    date * DAY + REGULAR_OPEN_MINUTES * MINUTE + DayOffset(date)
  }

  lemma OpenTimeIsNineThirty(date: int)
    ensures TimeOn(date, REGULAR_OPEN_MINUTES) == Some(OpenTime(date))
    ensures NewYorkParts(OpenTime(date)) == Parts(date, Weekday(date), REGULAR_OPEN_MINUTES)
  {
    TimeAfterThree(date, REGULAR_OPEN_MINUTES);
    OneOffsetADay(date, OpenTime(date));
  }

  /******* Inside a session *******/

  /** The minute before an open is before the market, the open is in the session. */
  lemma OpensAtNineThirty(cal: Calendar, date: int)
    requires IsTradingDay(cal, date)
    ensures SessionAt(cal, OpenTime(date)) == Regular && SessionAt(cal, OpenTime(date) - MINUTE) == Pre
  {
    OneOffsetADay(date, OpenTime(date));
    OneOffsetADay(date, OpenTime(date) - MINUTE);
  }

  /** When the regular session of a trading day closes. */
  function CloseTime(cal: Calendar, date: int): int {
    date * DAY + CloseMinutes(cal, date) * MINUTE + DayOffset(date)
  }

  /** From 03:00 on, what is left of a trading day: before the open, the session, after it. */
  lemma SessionsOfADay(cal: Calendar, date: int, t: int)
    requires IsTradingDay(cal, date)
    requires date * DAY + 3 * HOUR + DayOffset(date) <= t < (date + 1) * DAY + DayOffset(date)
    ensures SessionAt(cal, t) == Regular <==> OpenTime(date) <= t < CloseTime(cal, date)
    ensures CloseTime(cal, date) <= t < date * DAY + 20 * HOUR + DayOffset(date) ==> SessionAt(cal, t) == Post
  {
    hide DayOffset, ClosedDate, NewYorkParts;
    OneOffsetADay(date, t);
    WeekdayOfParts(t);
  }

  lemma WeekdayOfParts(t: int)
    ensures NewYorkParts(t).weekday == Weekday(NewYorkParts(t).date)
  {
  }

  lemma RegularIsOnATradingDay(cal: Calendar, t: int)
    requires SessionAt(cal, t) == Regular
    ensures var date := NewYorkParts(t).date;
            && IsTradingDay(cal, date)
            && date * DAY + 3 * HOUR + DayOffset(date) <= t < (date + 1) * DAY + DayOffset(date)
            && RegularClose(cal, t) == Some(CloseTime(cal, date))
  {
    hide DayOffset, NewYorkParts, TimeOn;
    var date := NewYorkParts(t).date;
    WeekdayOfParts(t);
    DaytimeOf(t);
    TimeAfterThree(date, CloseMinutes(cal, date));
  }

  lemma DaytimeOf(t: int)
    requires NewYorkParts(t).minutes >= 180
    ensures var date := NewYorkParts(t).date;
            date * DAY + 3 * HOUR + DayOffset(date) <= t < (date + 1) * DAY + DayOffset(date)
  {
    hide YearOf, SpringDay, FallDay, IsSummer, Jan1;
    SummerIn(YearOf(NewYorkParts(t).date), t);
  }

  /** The session runs without a break until its close, which is not in it. */
  lemma RunsUntilItsClose(cal: Calendar, t: int, u: int)
    requires SessionAt(cal, t) == Regular
    requires RegularClose(cal, t).Some? ==> t <= u < RegularClose(cal, t).value
    ensures RegularClose(cal, t).Some? && t < RegularClose(cal, t).value
    ensures SessionAt(cal, u) == Regular && SessionAt(cal, RegularClose(cal, t).value) == Post
  {
    hide SessionAt, RegularClose, NewYorkParts, DayOffset, IsTradingDay;
    RegularIsOnATradingDay(cal, t);
    var date := NewYorkParts(t).date;
    SessionsOfADay(cal, date, t);
    SessionsOfADay(cal, date, u);
    SessionsOfADay(cal, date, CloseTime(cal, date));
  }

  /** The sessions of a date by the New York clock: 09:30 to 16:00, to 13:00 on the short days, on no holiday or weekend. */
  lemma RegularByTheClock(cal: Calendar, t: int)
    ensures var p := NewYorkParts(t);
            SessionAt(cal, t) == Regular
            <==> && 1 <= p.weekday <= 5 && p.date !in cal.holidays && YearOf(p.date) in cal.knownYears
                 && 570 <= p.minutes && p.minutes < if p.date in cal.earlyClose then 780 else 960
  {
    hide NewYorkParts, YearOf;
    WeekdayOfParts(t);
  }

  /** The other sessions by the clock; a weekend is one whatever the tables say. */
  lemma OtherSessionsByTheClock(cal: Calendar, t: int)
    ensures var p := NewYorkParts(t);
            var trades := 1 <= p.weekday <= 5 && p.date !in cal.holidays && YearOf(p.date) in cal.knownYears;
            && (SessionAt(cal, t) == Weekend <==> p.weekday in {0, 6})
            && (SessionAt(cal, t) == Holiday <==> p.weekday !in {0, 6} && !trades)
            && (SessionAt(cal, t) == Pre <==> trades && 240 <= p.minutes < 570)
            && (SessionAt(cal, t) == Post <==> trades && (if p.date in cal.earlyClose then 780 else 960) <= p.minutes < 1200)
            && (SessionAt(cal, t) == Overnight <==> trades && (p.minutes < 240 || p.minutes >= 1200))
  {
    hide NewYorkParts, YearOf;
    WeekdayOfParts(t);
  }

  /** A trading day closes at 16:00 New York time, a short one at 13:00. */
  lemma ClosesAtFourOrOne(cal: Calendar, t: int)
    requires SessionAt(cal, t) == Regular
    ensures RegularClose(cal, t).Some?
    ensures var date, close := NewYorkParts(t).date, NewYorkParts(RegularClose(cal, t).value);
            close.date == date && close.minutes == if date in cal.earlyClose then 780 else 960
  {
    hide NewYorkParts, YearOf, TimeOn, DayOffset;
    RegularIsOnATradingDay(cal, t);
    var date := NewYorkParts(t).date;
    OneOffsetADay(date, CloseTime(cal, date));
  }

  /******* The next open *******/

  /** `t` is 09:30 New York time on a trading day. */
  ghost predicate IsOpen(cal: Calendar, t: int) {
    exists date :: IsTradingDay(cal, date) && t == OpenTime(date)
  }

  lemma OpensAscend(d: int, e: int)
    requires d < e
    ensures OpenTime(d) < OpenTime(e)
  {
  }

  lemma OpenedBefore(now: int, date: int)
    requires date < NewYorkParts(now).date
    ensures OpenTime(date) < now
  {
  }

  lemma OpensAfter(now: int, date: int)
    requires date > NewYorkParts(now).date
    ensures OpenTime(date) > now
  {
  }

  /** Noon of today and each 24 hours later is on the next New York date, whatever the clock does. */
  lemma NoonsVisitEveryDate(today: int, noon: int, i: int)
    requires noon == today * DAY + 12 * HOUR + DayOffset(today)
    ensures NewYorkParts(noon + i * DAY).date == today + i
    ensures NewYorkParts(noon + i * DAY).weekday == Weekday(today + i)
  {
  }

  /** The first open after `now` from a date on. */
  function NextOpen(cal: Calendar, now: int, date: int, days: nat): Option<int>
    decreases days
  {
    if days == 0 then None
    else if IsTradingDay(cal, date) && OpenTime(date) > now then Some(OpenTime(date))
    else NextOpen(cal, now, date + 1, days - 1)
  }

  /** Start of the next regular session strictly after `now`, looking through `searchDays` dates from today. */
  method NextRegularOpen(cal: Calendar, now: int, searchDays: nat) returns (open: Option<int>)
    ensures open == NextOpen(cal, now, NewYorkParts(now).date, searchDays)
    ensures open.Some? ==> IsLeastOpenAfter(cal, now, open.value)
    ensures open.Some? ==> SessionAt(cal, open.value) == Regular && SessionAt(cal, open.value - MINUTE) == Pre
  {
    hide NewYorkParts, OpenTime, IsTradingDay, SessionAt, TimeOn, Weekday, ClosedDate, IsLeastOpenAfter;
    var today := NewYorkParts(now).date;
    TimeAfterThree(today, 12 * 60);
    var first := NewYorkTimeOn(today, 12 * 60);
    var noon := first.value;
    NextOpenIsLeast(cal, now, searchDays);
    for i := 0 to searchDays
      invariant noon == first.value + i * DAY
      invariant NextOpen(cal, now, today, searchDays) == NextOpen(cal, now, today + i, searchDays - i)
    {
      var parts := NewYorkParts(noon);
      NoonsVisitEveryDate(today, first.value, i);
      TradingDayFromParts(cal, parts);
      OpenTimeIsNineThirty(parts.date);
      if !IsWeekend(parts.weekday) && !ClosedDate(cal, parts.date) {
        var at := NewYorkTimeOn(parts.date, REGULAR_OPEN_MINUTES);
        if at.value > now {
          return at;
        }
      }
      noon := noon + DAY;
    }
    open := None;
  }

  /** `t` is an open after `now`, and no other open lies between. */
  ghost predicate IsLeastOpenAfter(cal: Calendar, now: int, t: int) {
    IsOpen(cal, t) && t > now && forall u :: IsOpen(cal, u) && u > now ==> t <= u
  }

  /**
   The search answers the least open after `now` there is, in a session whose minute before is not,
   and it answers exactly when one of the dates searched has an open after `now`.
   */
  lemma NextOpenIsLeast(cal: Calendar, now: int, days: nat)
    ensures var today := NewYorkParts(now).date;
            var r := NextOpen(cal, now, today, days);
            && (r.Some? ==> IsLeastOpenAfter(cal, now, r.value)
                            && SessionAt(cal, r.value) == Regular && SessionAt(cal, r.value - MINUTE) == Pre)
            && (r.Some? <==> exists date :: today <= date < today + days && HasOpenAfter(cal, now, date))
  {
    hide NewYorkParts, OpenTime, IsTradingDay, SessionAt;
    var today := NewYorkParts(now).date;
    NextOpenIsFirst(cal, now, today, days);
    var r := NextOpen(cal, now, today, days);
    if r.Some? {
      var d :| today <= d < today + days && HasOpenAfter(cal, now, d) && r.value == OpenTime(d)
               && forall e :: today <= e < d ==> !HasOpenAfter(cal, now, e);
      OpensAtNineThirty(cal, d);
      LeastOpen(cal, now, today, d);
    }
  }

  predicate HasOpenAfter(cal: Calendar, now: int, date: int) {
    IsTradingDay(cal, date) && OpenTime(date) > now
  }

  lemma {:induction false} NextOpenIsFirst(cal: Calendar, now: int, date: int, days: nat)
    ensures var r := NextOpen(cal, now, date, days);
            && (r.Some? ==> exists d :: date <= d < date + days && HasOpenAfter(cal, now, d) && r.value == OpenTime(d)
                                        && forall e :: date <= e < d ==> !HasOpenAfter(cal, now, e))
            && (r.None? ==> forall d :: date <= d < date + days ==> !HasOpenAfter(cal, now, d))
    decreases days
  {
    hide OpenTime, IsTradingDay;
    if days > 0 && !HasOpenAfter(cal, now, date) {
      NextOpenIsFirst(cal, now, date + 1, days - 1);
    }
  }

  lemma TradingDayFromParts(cal: Calendar, p: Parts)
    requires p.weekday == Weekday(p.date)
    ensures IsTradingDay(cal, p.date) <==> !IsWeekend(p.weekday) && !ClosedDate(cal, p.date)
  {
  }

  lemma LeastOpen(cal: Calendar, now: int, today: int, date: int)
    requires today == NewYorkParts(now).date && today <= date
    requires forall d :: today <= d < date ==> !HasOpenAfter(cal, now, d)
    requires HasOpenAfter(cal, now, date)
    ensures IsLeastOpenAfter(cal, now, OpenTime(date))
  {
    hide NewYorkParts, OpenTime, IsTradingDay;
    forall t | IsOpen(cal, t) && t > now ensures OpenTime(date) <= t {
      var d :| IsTradingDay(cal, d) && t == OpenTime(d);
      assert HasOpenAfter(cal, now, d);
      if d < date {
        if d < today {
          OpenedBefore(now, d);
        }
      } else if date < d {
        OpensAscend(date, d);
      }
    }
  }

  /******* When a plan is due next (schedule.ts) *******/

  const SEARCH_DAYS: nat := 14

  /** Two minutes after the open. */
  const OPEN_SETTLE_MS: int := 2 * MINUTE

  datatype Cadence = Daily | Weekly | Once

  /** `NoSession` is the error of a calendar with no session within reach. */
  datatype NextDue = Due(at: int) | Stop | NoSession

  /** The first regular open on a New York date or after it. */
  function FirstOpenOnOrAfter(cal: Calendar, date: int): Option<int> {
    var midnight := TimeOn(date, 0);
    if midnight.None? then None
    else
      var before := midnight.value - 1;
      NextOpen(cal, before, NewYorkParts(before).date, SEARCH_DAYS)
  }

  function NextDueAt(cal: Calendar, cadence: Cadence, now: int, retryAt: Option<int>): NextDue {
    if retryAt.Some? then Due(retryAt.value)
    else if cadence.Once? then Stop
    else
      var from := NewYorkParts(now).date + if cadence.Weekly? then 7 else 1;
      var open := FirstOpenOnOrAfter(cal, from);
      if open.None? then NoSession else Due(open.value + OPEN_SETTLE_MS)
  }

  lemma MidnightIsThere(date: int)
    ensures TimeOn(date, 0).Some?
    ensures var before := TimeOn(date, 0).value - 1;
            NewYorkParts(before).date == date - 1 && before < OpenTime(date)
  {
    hide TimeOn, InSummer, Skipped, DayOffset, Offset;
    WallTimeOrNone(date, 0);
    NoMidnightIsSkipped(date);
    JustBefore(date, TimeOn(date, 0).value);
  }

  lemma NoMidnightIsSkipped(date: int)
    ensures !Skipped(WallTime(date, 0))
  {
    hide YearOf, SpringDay;
    NoMidnightIn(date, SpringDay(YearOf(WallTime(date, 0) / DAY)));
  }

  lemma NoMidnightIn(date: int, switch: int)
    ensures !(switch * DAY + 2 * HOUR <= date * DAY < switch * DAY + 3 * HOUR)
  {
  }

  lemma JustBefore(date: int, t: int)
    requires Local(t) == date * DAY
    ensures Local(t - 1) == date * DAY - 1
  {
    hide YearOf, SpringDay, FallDay, IsSummer, Jan1;
    SummerIn(YearOf(date), t);
    SummerIn(YearOf(date), t - 1);
  }

  /** `open` is 09:30 on the first trading day from a date on. */
  ghost predicate IsFirstOpen(cal: Calendar, date: int, open: int) {
    exists d :: date <= d && IsTradingDay(cal, d) && open == OpenTime(d) && NoneTradesIn(cal, date, d)
  }

  ghost predicate NoneTradesIn(cal: Calendar, from: int, to: int) {
    forall e :: from <= e < to ==> !IsTradingDay(cal, e)
  }

  /** The open found from a date on is the first there is, and one is found exactly when one of thirteen dates trades. */
  lemma FirstOpenIsFirst(cal: Calendar, date: int)
    ensures FirstOpenOnOrAfter(cal, date).Some? ==> IsFirstOpen(cal, date, FirstOpenOnOrAfter(cal, date).value)
    ensures FirstOpenOnOrAfter(cal, date).None? <==> NoneTradesIn(cal, date, date + 13)
  {
    hide TimeOn, OpenTime, IsTradingDay, NewYorkParts;
    MidnightIsThere(date);
    var before := TimeOn(date, 0).value - 1;
    NextOpenIsFirst(cal, before, date - 1, SEARCH_DAYS);
    OpenBeforeMidnight(date);
    forall e | date <= e ensures HasOpenAfter(cal, before, e) <==> IsTradingDay(cal, e) {
      if date < e {
        OpensAscend(date, e);
      }
    }
    if FirstOpenOnOrAfter(cal, date).Some? {
      var d :| date - 1 <= d < date - 1 + SEARCH_DAYS && HasOpenAfter(cal, before, d)
               && FirstOpenOnOrAfter(cal, date).value == OpenTime(d)
               && forall e :: date - 1 <= e < d ==> !HasOpenAfter(cal, before, e);
      assert forall e :: date <= e < d ==> !IsTradingDay(cal, e);
    }
  }

  lemma OpenBeforeMidnight(date: int)
    requires TimeOn(date, 0).Some?
    ensures OpenTime(date - 1) <= TimeOn(date, 0).value - 1
  {
  }

  /**
   A due time of its own cadence is inside a regular session, on a later New York date than now, a
   week or more later for a weekly plan.
   */
  lemma NextDueIsInASession(cal: Calendar, cadence: Cadence, now: int)
    requires NextDueAt(cal, cadence, now, None).Due?
    ensures var at := NextDueAt(cal, cadence, now, None).at;
            && SessionAt(cal, at) == Regular
            && NewYorkParts(at).date >= NewYorkParts(now).date + (if cadence.Weekly? then 7 else 1)
            && at > now
  {
    hide NewYorkParts, SessionAt, OpenTime, IsTradingDay, FirstOpenOnOrAfter;
    var from := NewYorkParts(now).date + if cadence.Weekly? then 7 else 1;
    FirstOpenIsFirst(cal, from);
    var open := FirstOpenOnOrAfter(cal, from).value;
    var d :| from <= d && IsTradingDay(cal, d) && open == OpenTime(d) && NoneTradesIn(cal, from, d);
    SettledIsInSession(cal, d);
    OpensAfter(now, d);
  }

  /**
   When a plan is due next: at the retry, if there is one; never, if it buys once; and otherwise two
   minutes after the first open from tomorrow on, or from this day next week, unless thirteen dates on end do not trade.
   */
  lemma NextDueIsTheFirst(cal: Calendar, cadence: Cadence, now: int, retryAt: Option<int>)
    ensures var next, from := NextDueAt(cal, cadence, now, retryAt), NewYorkParts(now).date + (if cadence == Weekly then 7 else 1);
            && (retryAt.Some? ==> next == Due(retryAt.value))
            && (next == Stop <==> retryAt.None? && cadence == Once)
            && (next == NoSession <==> retryAt.None? && cadence != Once && NoneTradesIn(cal, from, from + 13))
            && (retryAt.None? && next.Due? ==> IsFirstOpen(cal, from, next.at - 120_000))
  {
    hide NewYorkParts, OpenTime, IsTradingDay, FirstOpenOnOrAfter;
    FirstOpenIsFirst(cal, NewYorkParts(now).date + if cadence == Weekly then 7 else 1);
  }

  lemma SettledIsInSession(cal: Calendar, date: int)
    requires IsTradingDay(cal, date)
    ensures SessionAt(cal, OpenTime(date) + OPEN_SETTLE_MS) == Regular
    ensures NewYorkParts(OpenTime(date) + OPEN_SETTLE_MS).date == date
  {
    OneOffsetADay(date, OpenTime(date) + OPEN_SETTLE_MS);
  }

  /** A finished scheduled cycle moves its plan strictly past the due time it ran for, when a retry lies after now. */
  lemma PlansMoveOn(cal: Calendar, cadence: Cadence, dueAt: int, now: int, retryAt: Option<int>)
    requires dueAt <= now && (retryAt.Some? ==> retryAt.value > now)
    requires NextDueAt(cal, cadence, now, retryAt).Due?
    ensures NextDueAt(cal, cadence, now, retryAt).at > dueAt
  {
    if retryAt.None? {
      NextDueIsInASession(cal, cadence, now);
    }
  }
}
