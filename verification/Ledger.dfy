/**
 The spend ledger (ledger.ts): reservations checked against the daily caps of the house wallet and
 of the plan, and against a judge code's total. Amounts are base units.
 */
module Ledger {
  import opened Basics
  import opened Books

  datatype Owner = House | Judge | Skill

  /** A plan as the ledger's queries see it; `ref` is a judge plan's code. */
  datatype Plan = Plan(id: string, owner: Owner, ref: Option<string>, principal: nat)

  datatype Spend = Spend(plan: string, cycle: nat, day: nat, amount: nat, status: EntryStatus)

  datatype Caps = Caps(globalDaily: nat, planDaily: nat, judgeTotal: Option<nat>)

  datatype Scope = Scope(plan: string, owner: Owner, ref: Option<string>, day: nat, caps: Caps)

  datatype Usage = Usage(globalDay: nat, planDay: nat, judgeTotal: nat)

  datatype Reservation = Reserved | GlobalDaily | PlanDaily | JudgeTotal | CycleTaken

  /******* Sums *******/

  predicate Counts(s: Spend) {
    !s.status.Released?
  }

  function SumWhere(rows: seq<Spend>, p: Spend -> bool): nat {
    if |rows| == 0 then 0
    else SumWhere(rows[..|rows| - 1], p) + if p(rows[|rows| - 1]) then rows[|rows| - 1].amount else 0
  }

  function PrincipalOf(plans: seq<Plan>, code: Option<string>): nat {
    if |plans| == 0 then 0
    else
      var last := plans[|plans| - 1];
      PrincipalOf(plans[..|plans| - 1], code) + if last.owner.Judge? && last.ref == code then last.principal else 0
  }

  predicate OwnedBy(plans: seq<Plan>, id: string, owners: set<Owner>) {
    exists k :: 0 <= k < |plans| && plans[k].id == id && plans[k].owner in owners
  }

  predicate OfCode(plans: seq<Plan>, id: string, code: Option<string>) {
    exists k :: 0 <= k < |plans| && plans[k].id == id && plans[k].owner.Judge? && plans[k].ref == code
  }

  function HouseDay(plans: seq<Plan>, day: nat): Spend -> bool {
    (s: Spend) => Counts(s) && s.day == day && OwnedBy(plans, s.plan, {House, Judge})
  }

  function PlanDay(plan: string, day: nat): Spend -> bool {
    (s: Spend) => Counts(s) && s.day == day && s.plan == plan
  }

  function CodeSpend(plans: seq<Plan>, code: Option<string>): Spend -> bool {
    (s: Spend) => Counts(s) && OfCode(plans, s.plan, code)
  }

  /** usageQuery: the day of whichever wallet pays, the plan's own day, and a judge's total. */
  function UsageOf(plans: seq<Plan>, rows: seq<Spend>, scope: Scope): Usage {
    var planDay := SumWhere(rows, PlanDay(scope.plan, scope.day));
    Usage(if scope.owner.Skill? then planDay else SumWhere(rows, HouseDay(plans, scope.day)),
          planDay,
          if scope.owner.Judge? && scope.ref.Some?
          then SumWhere(rows, CodeSpend(plans, scope.ref)) + PrincipalOf(plans, scope.ref) else 0)
  }

  /** The judge cap of the scope; none for other owners, whatever the caps say. */
  function JudgeCap(scope: Scope): Option<nat> {
    if scope.owner.Judge? then scope.caps.judgeTotal else None
  }

  /** remainingSpend: what the cap nearest to being used up leaves, or zero. */
  function Remaining(u: Usage, scope: Scope): nat {
    var daily := Min(scope.caps.globalDaily - u.globalDay, scope.caps.planDaily - u.planDay);
    AtLeastZero(if JudgeCap(scope).Some? then Min(daily, JudgeCap(scope).value - u.judgeTotal) else daily)
  }

  predicate Fits(u: Usage, scope: Scope, amount: nat) {
    && u.globalDay + amount <= scope.caps.globalDaily
    && u.planDay + amount <= scope.caps.planDaily
    && (JudgeCap(scope).Some? ==> u.judgeTotal + amount <= JudgeCap(scope).value)
  }

  /** Some cap is exceeded already (it was lowered, or a judge deposited past it). */
  predicate Exceeded(u: Usage, scope: Scope) {
    !Fits(u, scope, 0)
  }

  /** An amount is reserved exactly when it is at most what remains; zero also needs no cap to be exceeded. */
  lemma ReservesWhatRemains(u: Usage, scope: Scope, amount: nat)
    ensures Fits(u, scope, amount) <==> amount <= Remaining(u, scope) && (amount == 0 ==> !Exceeded(u, scope))
  {
  }

  /******* How a row changes the sums *******/

  lemma {:induction false} SumAfterUpdate(rows: seq<Spend>, k: nat, row: Spend, p: Spend -> bool)
    requires k < |rows|
    ensures SumWhere(rows[k := row], p) + (if p(rows[k]) then rows[k].amount else 0)
            == SumWhere(rows, p) + if p(row) then row.amount else 0
  {
    var last := |rows| - 1;
    if k == last {
      assert rows[k := row][..last] == rows[..last];
    } else {
      assert rows[k := row][..last] == rows[..last][k := row];
      SumAfterUpdate(rows[..last], k, row, p);
    }
  }

  /** What the ledger promises every day: house and judge plans within one cap, each plan within its own, each code within its total. */
  ghost predicate Within(plans: seq<Plan>, rows: seq<Spend>, scope: Scope) {
    !Exceeded(UsageOf(plans, rows, scope), scope)
  }

  /** A reservation that fits leaves every cap it counts against respected. */
  lemma ReservedStaysWithin(plans: seq<Plan>, rows: seq<Spend>, scope: Scope, cycle: nat, amount: nat)
    requires Fits(UsageOf(plans, rows, scope), scope, amount)
    ensures Within(plans, rows + [Spend(scope.plan, cycle, scope.day, amount, EntryStatus.Reserved)], scope)
  {
  }

  /** A reservation of one plan leaves no other plan's day, and a skill plan's leaves the house wallet's day alone. */
  lemma ReservationsDoNotMix(plans: seq<Plan>, rows: seq<Spend>, row: Spend, scope: Scope)
    requires row.plan != scope.plan
    ensures var u, u' := UsageOf(plans, rows, scope), UsageOf(plans, rows + [row], scope);
            && u'.planDay == u.planDay
            && (scope.owner.Skill? || !OwnedBy(plans, row.plan, {House, Judge}) || row.day != scope.day ==>
                  u'.globalDay == u.globalDay)
            && (!OfCode(plans, row.plan, scope.ref) ==> u'.judgeTotal == u.judgeTotal)
  {
  }

  /** The row settled: freed only if it was a reservation, spent with what was actually spent. */
  function SettledSpend(s: Spend, status: EntryStatus, amount: Option<nat>): Spend {
    if status.Released? && !s.status.Reserved? then s
    else s.(status := status, amount := if amount.Some? then amount.value else s.amount)
  }

  /** Settling a reservation for no more than was reserved never raises any sum, and freeing it gives back exactly its amount. */
  lemma SettlingNeverRaises(rows: seq<Spend>, k: nat, status: EntryStatus, amount: Option<nat>, p: Spend -> bool)
    requires k < |rows| && rows[k].status.Reserved? && !status.Reserved?
    requires amount.Some? ==> amount.value <= rows[k].amount
    requires p(SettledSpend(rows[k], status, amount)) ==> p(rows[k])
    ensures SumWhere(rows[k := SettledSpend(rows[k], status, amount)], p) <= SumWhere(rows, p)
    ensures p(rows[k]) && !p(SettledSpend(rows[k], status, amount)) ==>
              SumWhere(rows[k := SettledSpend(rows[k], status, amount)], p) == SumWhere(rows, p) - rows[k].amount
  {
    SumAfterUpdate(rows, k, SettledSpend(rows[k], status, amount), p);
  }

  /******* What counts towards what, without the query *******/

  /** The plan's id is the key of its table. */
  predicate UniqueIds(plans: seq<Plan>) {
    forall j, k :: 0 <= j < k < |plans| ==> plans[j].id != plans[k].id
  }

  /** The one plan a row is of; none, when it is of no plan in the table. */
  function PlanOf(plans: seq<Plan>, id: string): Option<Plan> {
    if |plans| == 0 then None
    else if plans[|plans| - 1].id == id then Some(plans[|plans| - 1])
    else PlanOf(plans[..|plans| - 1], id)
  }

  /** Reserved and spent amounts count; freed ones do not. */
  function AmountThatCounts(row: Spend): nat {
    match row.status
    case Reserved => row.amount
    case Spent => row.amount
    case Released => 0
  }

  /** What the house wallet pays for on a day: house plans and judge plans alike, all of them together. */
  function HouseWallet(plans: seq<Plan>, rows: seq<Spend>, day: nat): nat {
    if |rows| == 0 then 0
    else
      var last := rows[|rows| - 1];
      var p := PlanOf(plans, last.plan);
      HouseWallet(plans, rows[..|rows| - 1], day)
      + if last.day == day && p.Some? && (p.value.owner.House? || p.value.owner.Judge?) then AmountThatCounts(last) else 0
  }

  /** What one plan reserved or spent on a day. */
  function OnePlan(rows: seq<Spend>, plan: string, day: nat): nat {
    if |rows| == 0 then 0
    else
      var last := rows[|rows| - 1];
      OnePlan(rows[..|rows| - 1], plan, day) + if last.day == day && last.plan == plan then AmountThatCounts(last) else 0
  }

  /** What one judge code reserved or spent, on any day, with all its plans. */
  function OneCode(plans: seq<Plan>, rows: seq<Spend>, code: string): nat {
    if |rows| == 0 then 0
    else
      var last := rows[|rows| - 1];
      var p := PlanOf(plans, last.plan);
      OneCode(plans, rows[..|rows| - 1], code)
      + if p.Some? && p.value.owner.Judge? && p.value.ref == Some(code) then AmountThatCounts(last) else 0
  }

  /** The principal the plans of one judge code hold. */
  function CodePrincipal(plans: seq<Plan>, code: string): nat {
    if |plans| == 0 then 0
    else
      var last := plans[|plans| - 1];
      CodePrincipal(plans[..|plans| - 1], code) + if last.owner.Judge? && last.ref == Some(code) then last.principal else 0
  }

  lemma {:induction false} PlanOfIsThere(plans: seq<Plan>, id: string)
    requires UniqueIds(plans)
    ensures PlanOf(plans, id).Some? ==> PlanOf(plans, id).value in plans && PlanOf(plans, id).value.id == id
    ensures forall k :: 0 <= k < |plans| && plans[k].id == id ==> PlanOf(plans, id) == Some(plans[k])
  {
    if |plans| > 0 {
      PlanOfIsThere(plans[..|plans| - 1], id);
    }
  }

  lemma OwnedByItsPlan(plans: seq<Plan>, id: string)
    requires UniqueIds(plans)
    ensures OwnedBy(plans, id, {House, Judge}) <==>
              PlanOf(plans, id).Some? && (PlanOf(plans, id).value.owner.House? || PlanOf(plans, id).value.owner.Judge?)
    ensures forall code :: OfCode(plans, id, Some(code)) <==>
              PlanOf(plans, id).Some? && PlanOf(plans, id).value.owner.Judge? && PlanOf(plans, id).value.ref == Some(code)
  {
    PlanOfIsThere(plans, id);
  }

  lemma {:induction false} HouseDayIsTheWallet(plans: seq<Plan>, rows: seq<Spend>, day: nat)
    requires UniqueIds(plans)
    ensures SumWhere(rows, HouseDay(plans, day)) == HouseWallet(plans, rows, day)
  {
    if |rows| > 0 {
      HouseDayIsTheWallet(plans, rows[..|rows| - 1], day);
      OwnedByItsPlan(plans, rows[|rows| - 1].plan);
    }
  }

  lemma {:induction false} PlanDayIsThePlans(rows: seq<Spend>, plan: string, day: nat)
    ensures SumWhere(rows, PlanDay(plan, day)) == OnePlan(rows, plan, day)
  {
    if |rows| > 0 {
      PlanDayIsThePlans(rows[..|rows| - 1], plan, day);
    }
  }

  lemma {:induction false} CodeSpendIsTheCodes(plans: seq<Plan>, rows: seq<Spend>, code: string)
    requires UniqueIds(plans)
    ensures SumWhere(rows, CodeSpend(plans, Some(code))) == OneCode(plans, rows, code)
  {
    if |rows| > 0 {
      CodeSpendIsTheCodes(plans, rows[..|rows| - 1], code);
      OwnedByItsPlan(plans, rows[|rows| - 1].plan);
    }
  }

  lemma {:induction false} PrincipalIsTheCodes(plans: seq<Plan>, code: string)
    ensures PrincipalOf(plans, Some(code)) == CodePrincipal(plans, code)
  {
    if |plans| > 0 {
      PrincipalIsTheCodes(plans[..|plans| - 1], code);
    }
  }

  /**
   What the query answers: for a house or a judge plan, whichever, the day of the house wallet; for a
   skill plan its own day; and for a judge plan with a code all the code ever spent, and its principal.
   */
  lemma UsageCounts(plans: seq<Plan>, rows: seq<Spend>, scope: Scope)
    requires UniqueIds(plans)
    ensures var u := UsageOf(plans, rows, scope);
            && u.planDay == OnePlan(rows, scope.plan, scope.day)
            && (scope.owner.House? || scope.owner.Judge? ==> u.globalDay == HouseWallet(plans, rows, scope.day))
            && (scope.owner.Skill? ==> u.globalDay == OnePlan(rows, scope.plan, scope.day))
            && (scope.owner.Judge? && scope.ref.Some? ==>
                  u.judgeTotal == OneCode(plans, rows, scope.ref.value) + CodePrincipal(plans, scope.ref.value))
  {
    HouseDayIsTheWallet(plans, rows, scope.day);
    PlanDayIsThePlans(rows, scope.plan, scope.day);
    if scope.ref.Some? {
      CodeSpendIsTheCodes(plans, rows, scope.ref.value);
      PrincipalIsTheCodes(plans, scope.ref.value);
    }
  }

  /** So all house and judge plans share one day. */
  lemma OneHouseWallet(plans: seq<Plan>, rows: seq<Spend>, a: Scope, b: Scope)
    requires UniqueIds(plans) && a.day == b.day && !a.owner.Skill? && !b.owner.Skill?
    ensures UsageOf(plans, rows, a).globalDay == UsageOf(plans, rows, b).globalDay
  {
    UsageCounts(plans, rows, a);
    UsageCounts(plans, rows, b);
  }

  /**
   A row counts with exactly its amount, reserved or spent: for the house wallet if its plan is a house or a
   judge plan and the day is the same, for the plan's own day, and for the judge code of its plan.
   */
  lemma ARowCounts(plans: seq<Plan>, rows: seq<Spend>, row: Spend, owner: Plan, day: nat, code: string)
    requires UniqueIds(plans) && owner in plans && owner.id == row.plan
    ensures var more := rows + [row];
            && HouseWallet(plans, more, day) == HouseWallet(plans, rows, day)
                 + (if !owner.owner.Skill? && row.day == day && !row.status.Released? then row.amount else 0)
            && OnePlan(more, owner.id, day) == OnePlan(rows, owner.id, day)
                 + (if row.day == day && !row.status.Released? then row.amount else 0)
            && OneCode(plans, more, code) == OneCode(plans, rows, code)
                 + (if owner.owner.Judge? && owner.ref == Some(code) && !row.status.Released? then row.amount else 0)
  {
    PlanOfIsThere(plans, row.plan);
    assert (rows + [row])[..|rows|] == rows;
  }

  /******* Any sequence of calls *******/

  datatype Call = Reserve(scope: Scope, cycle: nat, amount: nat) | Settle(cycle: nat, status: EntryStatus, spent: Option<nat>)

  predicate IsTaken(rows: seq<Spend>, cycle: nat) {
    exists k :: 0 <= k < |rows| && rows[k].cycle == cycle
  }

  /** The rows after one call. */
  function RowsAfter(plans: seq<Plan>, rows: seq<Spend>, call: Call): (now: seq<Spend>) {
    match call
    case Reserve(scope, cycle, amount) =>
      if Fits(UsageOf(plans, rows, scope), scope, amount) && !IsTaken(rows, cycle)
      then rows + [Spend(scope.plan, cycle, scope.day, amount, EntryStatus.Reserved)] else rows
    case Settle(cycle, status, amount) => AllSettled(rows, cycle, status, amount)
  }

  function AllSettled(rows: seq<Spend>, cycle: nat, status: EntryStatus, amount: Option<nat>): (now: seq<Spend>)
    ensures |now| == |rows|
    ensures forall k :: 0 <= k < |rows| ==>
              now[k] == if rows[k].cycle == cycle then SettledSpend(rows[k], status, amount) else rows[k]
  {
    seq(|rows|, (k: nat) requires k < |rows| => if rows[k].cycle == cycle then SettledSpend(rows[k], status, amount) else rows[k])
  }

  function RowsAfterAll(plans: seq<Plan>, calls: seq<Call>): seq<Spend> {
    if |calls| == 0 then []
    else RowsAfter(plans, RowsAfterAll(plans, calls[..|calls| - 1]), calls[|calls| - 1])
  }

  /** The caps in force: one for the house wallet, one a day for each plan, one for each judge code. */
  datatype Limits = Limits(houseDaily: nat, planDaily: map<string, nat>, code: map<string, nat>)

  /** A reservation is asked for a plan of the table, as what it is, under the caps in force. */
  predicate AsksProperly(plans: seq<Plan>, limits: Limits, scope: Scope) {
    var p := PlanOf(plans, scope.plan);
    && p.Some? && p.value.owner == scope.owner && p.value.ref == scope.ref
    && (!scope.owner.Skill? ==> scope.caps.globalDaily == limits.houseDaily)
    && scope.plan in limits.planDaily && scope.caps.planDaily == limits.planDaily[scope.plan]
    && (scope.owner.Judge? && scope.ref.Some? ==>
          scope.ref.value in limits.code && scope.caps.judgeTotal == Some(limits.code[scope.ref.value]))
  }

  /** Settling frees, or spends no more than counted before. */
  predicate SettlesProperly(rows: seq<Spend>, call: Call)
    requires call.Settle?
  {
    forall k :: 0 <= k < |rows| && rows[k].cycle == call.cycle ==>
      AmountThatCounts(SettledSpend(rows[k], call.status, call.spent)) <= AmountThatCounts(rows[k])
  }

  predicate IsProper(plans: seq<Plan>, limits: Limits, rows: seq<Spend>, call: Call) {
    if call.Reserve? then AsksProperly(plans, limits, call.scope) else SettlesProperly(rows, call)
  }

  ghost predicate AllProper(plans: seq<Plan>, limits: Limits, calls: seq<Call>) {
    forall k :: 0 <= k < |calls| ==> IsProper(plans, limits, RowsAfterAll(plans, calls[..k]), calls[k])
  }

  /** Row by row no more counts, and each row is of the same plan and day. */
  ghost predicate NoneRaised(was: seq<Spend>, now: seq<Spend>) {
    && |now| == |was|
    && forall k :: 0 <= k < |was| ==>
         now[k].plan == was[k].plan && now[k].day == was[k].day && AmountThatCounts(now[k]) <= AmountThatCounts(was[k])
  }

  lemma {:induction false} NoSumRaised(plans: seq<Plan>, was: seq<Spend>, now: seq<Spend>, day: nat, plan: string, code: string)
    requires NoneRaised(was, now)
    ensures HouseWallet(plans, now, day) <= HouseWallet(plans, was, day)
    ensures OnePlan(now, plan, day) <= OnePlan(was, plan, day)
    ensures OneCode(plans, now, code) <= OneCode(plans, was, code)
  {
    if |was| > 0 {
      NoSumRaised(plans, was[..|was| - 1], now[..|was| - 1], day, plan, code);
    }
  }

  ghost predicate WithinLimits(plans: seq<Plan>, limits: Limits, rows: seq<Spend>) {
    && (forall day: nat :: HouseWallet(plans, rows, day) <= limits.houseDaily)
    && (forall plan, day: nat :: plan in limits.planDaily ==> OnePlan(rows, plan, day) <= limits.planDaily[plan])
    && (forall code :: code in limits.code && OneCode(plans, rows, code) > 0 ==>
          OneCode(plans, rows, code) + CodePrincipal(plans, code) <= limits.code[code])
  }

  lemma ReservingStaysWithin(plans: seq<Plan>, limits: Limits, rows: seq<Spend>, call: Call)
    requires UniqueIds(plans) && WithinLimits(plans, limits, rows) && call.Reserve? && AsksProperly(plans, limits, call.scope)
    ensures WithinLimits(plans, limits, RowsAfter(plans, rows, call))
  {
    hide UsageOf, HouseWallet, OnePlan, OneCode, CodePrincipal;
    var scope, now := call.scope, RowsAfter(plans, rows, call);
    UsageCounts(plans, rows, scope);
    PlanOfIsThere(plans, scope.plan);
    var owner := PlanOf(plans, scope.plan).value;
    if now != rows {
      var row := Spend(scope.plan, call.cycle, scope.day, call.amount, EntryStatus.Reserved);
      forall day: nat ensures HouseWallet(plans, now, day) <= limits.houseDaily {
        ARowCounts(plans, rows, row, owner, day, "");
      }
      forall plan, day: nat | plan in limits.planDaily ensures OnePlan(now, plan, day) <= limits.planDaily[plan] {
        ARowCounts(plans, rows, row, owner, day, "");
        OtherPlansAlone(rows, row, plan, day);
      }
      forall code | code in limits.code && OneCode(plans, now, code) > 0
        ensures OneCode(plans, now, code) + CodePrincipal(plans, code) <= limits.code[code]
      {
        ARowCounts(plans, rows, row, owner, 0, code);
      }
    }
  }

  lemma OtherPlansAlone(rows: seq<Spend>, row: Spend, plan: string, day: nat)
    ensures row.plan != plan ==> OnePlan(rows + [row], plan, day) == OnePlan(rows, plan, day)
  {
    assert (rows + [row])[..|rows|] == rows;
  }

  lemma SettlingStaysWithin(plans: seq<Plan>, limits: Limits, rows: seq<Spend>, call: Call)
    requires WithinLimits(plans, limits, rows) && call.Settle? && SettlesProperly(rows, call)
    ensures WithinLimits(plans, limits, RowsAfter(plans, rows, call))
  {
    var now := RowsAfter(plans, rows, call);
    forall day: nat ensures HouseWallet(plans, now, day) <= HouseWallet(plans, rows, day) {
      NoSumRaised(plans, rows, now, day, "", "");
    }
    forall plan, day: nat ensures OnePlan(now, plan, day) <= OnePlan(rows, plan, day) {
      NoSumRaised(plans, rows, now, day, plan, "");
    }
    forall code ensures OneCode(plans, now, code) <= OneCode(plans, rows, code) {
      NoSumRaised(plans, rows, now, 0, "", code);
    }
  }

  /**
   Any sequence of reservations and settlements, by any plans: on every day all house and judge plans
   together stay within the house wallet's cap, every plan stays within its own, and every judge code that
   ever bought anything stays, with its principal, within its total.
   */
  lemma {:induction false} EveryCapHolds(plans: seq<Plan>, limits: Limits, calls: seq<Call>)
    requires UniqueIds(plans) && AllProper(plans, limits, calls)
    ensures WithinLimits(plans, limits, RowsAfterAll(plans, calls))
  {
    hide WithinLimits, UsageOf, IsProper;
    if |calls| == 0 {
      NothingIsWithin(plans, limits);
    } else {
      var n := |calls| - 1;
      forall k | 0 <= k < n ensures IsProper(plans, limits, RowsAfterAll(plans, calls[..n][..k]), calls[..n][k]) {
        assert calls[..n][..k] == calls[..k];
      }
      EveryCapHolds(plans, limits, calls[..n]);
      assert IsProper(plans, limits, RowsAfterAll(plans, calls[..n]), calls[n]);
      OneCallStaysWithin(plans, limits, RowsAfterAll(plans, calls[..n]), calls[n]);
    }
  }

  lemma OneCallStaysWithin(plans: seq<Plan>, limits: Limits, rows: seq<Spend>, call: Call)
    requires UniqueIds(plans) && WithinLimits(plans, limits, rows) && IsProper(plans, limits, rows, call)
    ensures WithinLimits(plans, limits, RowsAfter(plans, rows, call))
  {
    hide WithinLimits, RowsAfter;
    if call.Reserve? {
      ReservingStaysWithin(plans, limits, rows, call);
    } else {
      SettlingStaysWithin(plans, limits, rows, call);
    }
  }

  lemma NothingIsWithin(plans: seq<Plan>, limits: Limits)
    ensures WithinLimits(plans, limits, [])
  {
  }

  /** Settling for more than counted before is no check of the caps: it raises the wallet's day by exactly the rest. */
  lemma SettlingForMore(plans: seq<Plan>, row: Spend, owner: Plan, amount: nat)
    requires UniqueIds(plans) && owner in plans && owner.id == row.plan && !owner.owner.Skill?
    requires amount > AmountThatCounts(row)
    ensures var settled := AllSettled([row], row.cycle, EntryStatus.Spent, Some(amount));
            HouseWallet(plans, settled, row.day) == HouseWallet(plans, [row], row.day) + amount - AmountThatCounts(row)
  {
    PlanOfIsThere(plans, row.plan);
    var settled := AllSettled([row], row.cycle, EntryStatus.Spent, Some(amount));
    assert settled[..0] == [] && [row][..0] == [];
  }

  class SpendLedger {
    var plans: seq<Plan>
    var rows: seq<Spend>

    constructor (plans: seq<Plan>)
      ensures this.plans == plans && rows == []
    {
      this.plans, rows := plans, [];
    }

    /** One row per cycle: the table's unique index. */
    predicate OnePerCycle()
      reads this
    {
      forall j, k :: 0 <= j < k < |rows| ==> rows[j].cycle != rows[k].cycle
    }

    method RemainingSpend(scope: Scope) returns (amount: nat)
      ensures amount == Remaining(UsageOf(plans, rows, scope), scope)
      ensures Within(plans, rows, scope) <==> Fits(UsageOf(plans, rows, scope), scope, amount)
      ensures UniqueIds(plans) && amount > 0 ==>
                && OnePlan(rows, scope.plan, scope.day) + amount <= scope.caps.planDaily
                && (!scope.owner.Skill? ==> HouseWallet(plans, rows, scope.day) + amount <= scope.caps.globalDaily)
    {
      if UniqueIds(plans) {
        UsageCounts(plans, rows, scope);
      }
      var u := UsageOf(plans, rows, scope);
      var left := Min(scope.caps.globalDaily - u.globalDay, scope.caps.planDaily - u.planDay);
      if scope.owner.Judge? && scope.caps.judgeTotal.Some? {
        left := Min(left, scope.caps.judgeTotal.value - u.judgeTotal);
      }
      amount := AtLeastZero(left);
    }

    /** Checks every cap and inserts the reservation, all in one transaction. */
    method ReserveSpend(scope: Scope, cycle: nat, amount: nat) returns (r: Reservation)
      requires OnePerCycle()
      modifies this`rows
      ensures OnePerCycle()
      ensures r == Reservation.Reserved <==>
                && Fits(UsageOf(plans, old(rows), scope), scope, amount)
                && forall k :: 0 <= k < |old(rows)| ==> old(rows)[k].cycle != cycle
      ensures rows == if r == Reservation.Reserved
                      then old(rows) + [Spend(scope.plan, cycle, scope.day, amount, EntryStatus.Reserved)] else old(rows)
      ensures rows == RowsAfter(plans, old(rows), Reserve(scope, cycle, amount))
      ensures UniqueIds(plans) && r == Reservation.Reserved ==>
                && (!scope.owner.Skill? ==> HouseWallet(plans, old(rows), scope.day) + amount <= scope.caps.globalDaily)
                && OnePlan(old(rows), scope.plan, scope.day) + amount <= scope.caps.planDaily
                && (scope.owner.Judge? && scope.ref.Some? && scope.caps.judgeTotal.Some? ==>
                      OneCode(plans, old(rows), scope.ref.value) + CodePrincipal(plans, scope.ref.value) + amount
                      <= scope.caps.judgeTotal.value)
      ensures UniqueIds(plans) && r.GlobalDaily? && !scope.owner.Skill? ==>
                HouseWallet(plans, old(rows), scope.day) + amount > scope.caps.globalDaily
      ensures UniqueIds(plans) && r.PlanDaily? ==> OnePlan(old(rows), scope.plan, scope.day) + amount > scope.caps.planDaily
      ensures UniqueIds(plans) && r.JudgeTotal? && scope.ref.Some? ==>
                && scope.owner.Judge? && scope.caps.judgeTotal.Some?
                && OneCode(plans, old(rows), scope.ref.value) + CodePrincipal(plans, scope.ref.value) + amount
                   > scope.caps.judgeTotal.value
      ensures r == Reservation.Reserved ==> Within(plans, rows, scope)
      ensures amount > 0 && (r.GlobalDaily? || r.PlanDaily? || r.JudgeTotal?) ==>
                amount > Remaining(UsageOf(plans, old(rows), scope), scope)
    {
      var u := UsageOf(plans, rows, scope);
      if UniqueIds(plans) {
        UsageCounts(plans, rows, scope);
      }
      if !(u.globalDay + amount <= scope.caps.globalDaily) {
        return GlobalDaily;
      }
      if !(u.planDay + amount <= scope.caps.planDaily) {
        return PlanDaily;
      }
      if JudgeCap(scope).Some? && !(u.judgeTotal + amount <= JudgeCap(scope).value) {
        return JudgeTotal;
      }
      if exists k :: 0 <= k < |rows| && rows[k].cycle == cycle {
        return CycleTaken;
      }
      ReservedStaysWithin(plans, rows, scope, cycle, amount);
      rows := rows + [Spend(scope.plan, cycle, scope.day, amount, EntryStatus.Reserved)];
      r := Reservation.Reserved;
    }

    /** Settles the cycle's row, if it has one. */
    method SettleSpend(cycle: nat, status: EntryStatus, amount: Option<nat>)
      requires OnePerCycle()
      modifies this`rows
      ensures OnePerCycle() && |rows| == |old(rows)|
      ensures forall k :: 0 <= k < |rows| ==>
                rows[k] == if old(rows)[k].cycle == cycle then SettledSpend(old(rows)[k], status, amount) else old(rows)[k]
      ensures forall k :: 0 <= k < |rows| ==>
                && rows[k].plan == old(rows)[k].plan && rows[k].cycle == old(rows)[k].cycle && rows[k].day == old(rows)[k].day
                && if old(rows)[k].cycle != cycle || (status == Released && old(rows)[k].status != EntryStatus.Reserved)
                   then rows[k] == old(rows)[k]
                   else rows[k].status == status && rows[k].amount == if amount.Some? then amount.value else old(rows)[k].amount
      ensures rows == RowsAfter(plans, old(rows), Settle(cycle, status, amount))
    {
      var was := rows;
      rows := seq(|was|, (k: nat) requires k < |was| =>
                    if was[k].cycle == cycle then SettledSpend(was[k], status, amount) else was[k]);
    }
  }
}
