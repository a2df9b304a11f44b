/**
 The settlement protocol as a state machine: processes that take a plan's lock, run a cycle, die or
 lose the lock between any two writes; the chain; and the passes that recover, finish and apply
 what dead processes left. One action is one atomic operation of the program.

 `InTime` is the program's timing assumption: no step between two renewals of a plan lock outlasts
 the lock's lifetime. Only the writes of a lock holder are subject to it.
 */
module Protocol {
  import opened Basics
  import opened Books
  import opened BooksInvariant

  /******* Processes *******/

  /** Where a running cycle stands between two of its writes. */
  datatype Phase =
    | Deciding
    | Decided(decision: Decision)
    | Sent(row: nat)
    | InBlock(row: nat)
    | Closing(bought: bool)
    | Freeing
    | Giving(row: nat)
    | Logged
    | Odd(row: nat)
    | OddLogged
    | Threw

  /** What a lock holder is doing: nothing yet, nothing of the plan open, a cycle, or nothing more. */
  datatype Job =
    | Fresh
    | Clear
    | Live(c: nat, phase: Phase, reserved: Option<nat>, redeemed: bool, approved: bool)
    | Over

  /** `until` is the lock value the process holds; `armed`, that it renewed since its last guarded write. */
  datatype Proc = Proc(plan: string, until: nat, armed: bool, job: Job)

  datatype Config = Config(ttl: nat, house: set<string>, globalCap: nat, planCap: map<string, nat>)

  datatype State = State(now: nat, locks: map<string, Option<nat>>, procs: map<nat, Proc>, db: Db)

  /** The process's lock value is the one stored. */
  predicate Holds(s: State, p: nat) {
    p in s.procs && s.procs[p].plan in s.locks && s.locks[s.procs[p].plan] == Some(s.procs[p].until)
  }

  predicate InTime(s: State, p: nat) {
    p in s.procs && s.now <= s.procs[p].until
  }

  predicate IsLive(s: State, p: nat) {
    p in s.procs && s.procs[p].job.Live?
  }

  function SetJob(s: State, p: nat, job: Job): map<nat, Proc>
    requires p in s.procs
  {
    s.procs[p := s.procs[p].(job := job, armed := false)]
  }

  /******* The ledger's sums *******/

  function Counted(c: Cycle, plans: set<string>, day: nat): nat {
    if c.plan in plans && c.entry.Some? && c.entry.value.day == day && !c.entry.value.status.Released?
    then c.entry.value.amount else 0
  }

  /** Reserved plus spent on `day` by the cycles of `plans`. */
  function DaySum(cycles: seq<Cycle>, plans: set<string>, day: nat): nat {
    if |cycles| == 0 then 0
    else DaySum(cycles[..|cycles| - 1], plans, day) + Counted(cycles[|cycles| - 1], plans, day)
  }

  predicate WithinCaps(g: Config, db: Db, plan: string, day: nat, amount: nat) {
    && DaySum(db.cycles, g.house, day) + amount <= g.globalCap
    && plan in g.planCap && DaySum(db.cycles, {plan}, day) + amount <= g.planCap[plan]
  }

  /******* Actions *******/

  datatype LockStep = Acquire(plan: string) | Renew | Lose | Leave | Die

  /** A lock holder that has opened nothing yet. */
  datatype StartStep = Check | OpenCycle

  datatype LiveStep =
    | Decide(d: Decision) | Reserve(day: nat) | HaveAllowance | Again
    | Sign(kind: Kind) | Observe(waited: bool) | BookLive
    | GiveUp | Throw | Close | Free
    | LogAwait | Park | LogOdd | ParkOdd

  /** Recovering a cycle left running. */
  datatype RecoverStep = RecoverLog(i: nat) | RecoverPark | RecoverOdd(i: nat) | RecoverFree | RecoverClose

  /**
   Finishing a cycle out on chain. `Unanswered` is no write: the node does not answer the re-check of a
   transaction read as failed that was mined after all. The blind steps are what such a pass does then.
   */
  datatype FinishStep =
    | FinishBook(i: nat) | FinishLate | FinishFree | FinishOdd | FinishClose
    | Unanswered | BlindFree | BlindClose

  datatype ReviewStep = ReviewLog | ReviewSpend | ReviewClose

  /** The chain, the broadcast, and an operator's hand on a stuck row. */
  datatype RowStep = Broadcast | Mine(fate: Fate) | Confirm | Fail | NotSent | GiveUpRow(keepVia: bool)

  datatype Action =
    | Tick(now: nat)
    | ByLock(p: nat, lock: LockStep)
    | ByStart(p: nat, start: StartStep)
    | ByCycle(p: nat, live: LiveStep)
    | ByRecovery(p: nat, c: nat, recover: RecoverStep)
    | ByFinisher(c: nat, read: Step, finish: FinishStep)
    | ByReview(p: nat, c: nat, review: ReviewStep)
    | OnRow(i: nat, row: RowStep)
    | BookOrphan(i: nat)
    | SignLoose(plan: string, kind: Kind)

  /******* The lock (plans.ts, plan-lock.ts) *******/

  ghost predicate LockEnabled(s: State, p: nat, step: LockStep) {
    match step
    case Acquire(plan) =>
      p !in s.procs && plan in s.locks && (s.locks[plan].None? || s.locks[plan].value < s.now)
    case Renew => Holds(s, p)
    case Lose => p in s.procs && !Holds(s, p)
    case Leave => p in s.procs
    case Die => p in s.procs
  }

  function LockApply(g: Config, s: State, p: nat, step: LockStep): State
    requires LockEnabled(s, p, step)
  {
    match step
    case Acquire(plan) =>
      s.(locks := s.locks[plan := Some(s.now + g.ttl)],
         procs := s.procs[p := Proc(plan, s.now + g.ttl, false, Fresh)])
    case Renew =>
      s.(locks := s.locks[s.procs[p].plan := Some(s.now + g.ttl)],
         procs := s.procs[p := s.procs[p].(until := s.now + g.ttl, armed := true)])
    case Lose => s.(procs := s.procs - {p})
    case Leave =>
      s.(locks := if Holds(s, p) then s.locks[s.procs[p].plan := None] else s.locks, procs := s.procs - {p})
    case Die => s.(procs := s.procs - {p})
  }

  /******* Opening a cycle *******/

  predicate NothingOpen(db: Db, plan: string) {
    forall c :: 0 <= c < |db.cycles| && db.cycles[c].plan == plan ==> db.cycles[c].state.Done?
  }

  predicate StartEnabled(s: State, p: nat, step: StartStep) {
    && InTime(s, p)
    && match step {
         case Check => s.procs[p].job.Fresh? && NothingOpen(s.db, s.procs[p].plan)
         case OpenCycle => s.procs[p].job.Clear? && s.procs[p].plan in s.db.money
       }
  }

  function StartApply(s: State, p: nat, step: StartStep): State
    requires StartEnabled(s, p, step)
  {
    match step
    case Check => s.(procs := SetJob(s, p, Clear))
    case OpenCycle =>
      s.(procs := SetJob(s, p, Live(|s.db.cycles|, Deciding, None, false, false)),
         db := AddCycle(s.db, s.procs[p].plan))
  }

  /******* A live cycle (cycle.ts) *******/

  /** Nothing signed by the wallet is still undecided. */
  ghost predicate OutboxQuiet(db: Db) {
    forall i :: 0 <= i < |db.outbox| ==> !Unsettled(db.outbox[i])
  }

  /** Something that moves the plan's position has not been booked and still may be. */
  predicate PositionInFlight(db: Db, plan: string) {
    exists i :: 0 <= i < |db.outbox| && MovesInFlight(db.outbox[i], plan)
  }

  predicate MovesInFlight(row: Row, plan: string) {
    row.plan == plan && (row.kind.Deposit? || row.kind.Redeem?) && Unfinished(row)
  }

  /** Steps that write run in time; those the program guards with a renewal run right after one. */
  predicate MayWrite(s: State, p: nat, guarded: bool) {
    InTime(s, p) && (guarded ==> s.procs[p].armed)
  }

  predicate MayBookLive(db: Db, i: nat) {
    && i < |db.outbox| && db.outbox[i].fate.Mined? && db.outbox[i].signedFor.Some?
    && db.outbox[i].plan in db.money
    && (db.outbox[i].cycle.Some? ==> db.outbox[i].cycle.value < |db.cycles|)
  }

  ghost predicate LiveEnabled(g: Config, s: State, p: nat, step: LiveStep) {
    && IsLive(s, p) && s.procs[p].job.c < |s.db.cycles|
    && var job := s.procs[p].job;
    match step
    case Decide(d) => MayWrite(s, p, false) && job.phase.Deciding?
    case Reserve(day) =>
      && MayWrite(s, p, true) && job.phase.Decided? && job.reserved.None?
      && WithinCaps(g, s.db, s.procs[p].plan, day, job.phase.decision.spend)
    case HaveAllowance => job.phase.Decided? && job.reserved.Some?
    case Again => job.phase.Decided?
    case Sign(kind) =>
      && MayWrite(s, p, true) && job.phase.Decided?
      && job.reserved.Some? && job.phase.decision.spend <= job.reserved.value
      && OutboxQuiet(s.db) && s.procs[p].plan in s.db.money
      && (kind == Redeem ==> !job.redeemed) && (kind == Approve ==> !job.approved)
      && (kind == Swap ==> job.approved) && kind != Deposit
    case Observe(waited) => job.phase.Sent? && job.phase.row < |s.db.outbox|
    case BookLive => MayWrite(s, p, false) && job.phase.InBlock? && MayBookLive(s.db, job.phase.row)
    case GiveUp => job.phase.Deciding? || job.phase.Decided?
    case Throw => !job.phase.Freeing?
    case Close => MayWrite(s, p, true) && job.phase.Closing?
    case Free => MayWrite(s, p, false) && job.phase.Freeing?
    case LogAwait =>
      MayWrite(s, p, true) && job.phase.Giving? && LastExecute(s.db.cycles[job.c].steps).Some?
    case Park => MayWrite(s, p, false) && job.phase.Logged?
    case LogOdd => MayWrite(s, p, false) && job.phase.Odd?
    case ParkOdd => MayWrite(s, p, false) && job.phase.OddLogged?
  }

  /** The cycle's job after the step. */
  ghost function JobAfter(g: Config, s: State, p: nat, step: LiveStep): Job
    requires LiveEnabled(g, s, p, step)
  {
    var job := s.procs[p].job;
    match step
    case Decide(d) => job.(phase := Decided(d))
    case Reserve(_) => job.(reserved := Some(job.phase.decision.spend))
    case HaveAllowance => job.(phase := Deciding, approved := true)
    case Again => job.(phase := Deciding)
    case Sign(kind) =>
      job.(phase := Sent(|s.db.outbox|), redeemed := job.redeemed || kind == Redeem,
           approved := job.approved || kind == Approve)
    case Observe(waited) =>
      var row := s.db.outbox[job.phase.row];
      job.(phase := if waited || Unsettled(row) then Giving(job.phase.row)
                    else if row.status.Confirmed? then InBlock(job.phase.row) else Closing(false))
    case BookLive =>
      var row := s.db.outbox[job.phase.row];
      job.(phase := if !row.kind.Swap? then Deciding
                    else if row.fate.logs.tokens > 0 then Closing(true) else Odd(job.phase.row))
    case GiveUp => job.(phase := Closing(false))
    case Throw => job.(phase := Threw)
    case Close => if job.phase.bought || job.reserved.None? then Over else job.(phase := Freeing)
    case Free => Over
    case LogAwait => job.(phase := Logged)
    case Park => Over
    case LogOdd => job.(phase := OddLogged)
    case ParkOdd => Over
  }

  /** The write the step makes. */
  ghost function LiveWrite(g: Config, s: State, p: nat, step: LiveStep): Db
    requires LiveEnabled(g, s, p, step)
  {
    var job := s.procs[p].job;
    match step
    case Decide(d) => AppendStep(s.db, job.c, Execute(d))
    case Reserve(day) => SetEntry(s.db, job.c, Some(Entry(day, job.phase.decision.spend, Reserved)))
    case Sign(kind) =>
      AddRow(s.db, Row(s.procs[p].plan, Some(job.c), kind, Some(job.phase.decision), Signed, false, Unmined, false))
    case BookLive =>
      var row := s.db.outbox[job.phase.row];
      WithReceipt(s.db, job.phase.row, LiveEffect(row, row.signedFor.value))
    case Close => SetState(s.db, job.c, Done)
    case Free => SettleSpend(s.db, job.c, Released, None)
    case LogAwait =>
      AppendStep(s.db, job.c, Awaiting(job.phase.row, LastExecute(s.db.cycles[job.c].steps).value))
    case Park => SetState(s.db, job.c, AwaitingTx)
    case LogOdd => AppendStep(s.db, job.c, Anomaly(Some(job.phase.row)))
    case ParkOdd => SetState(s.db, job.c, AwaitingTx)
    case _ => s.db
  }

  ghost function LiveApply(g: Config, s: State, p: nat, step: LiveStep): State
    requires LiveEnabled(g, s, p, step)
  {
    s.(procs := SetJob(s, p, JobAfter(g, s, p, step)), db := LiveWrite(g, s, p, step))
  }

  /******* Recovery (cycle.ts, settlement.ts) *******/

  /** The cycle is left running and `p` may recover it: it only took the lock, or the cycle is its own and threw. */
  predicate Recovering(s: State, p: nat, c: nat) {
    && InTime(s, p) && c < |s.db.cycles|
    && s.db.cycles[c].plan == s.procs[p].plan && s.db.cycles[c].state.Running?
    && (s.procs[p].job.Fresh? || (IsLive(s, p) && s.procs[p].job.c == c && s.procs[p].job.phase.Threw?))
  }

  predicate Freed(c: Cycle) {
    c.entry.None? || !c.entry.value.status.Reserved?
  }

  predicate RecoverEnabled(s: State, p: nat, c: nat, step: RecoverStep) {
    && Recovering(s, p, c)
    && match step {
         case RecoverLog(i) => Last(s.db, c, i) && LastExecute(s.db.cycles[c].steps).Some?
         case RecoverPark => AwaitingStep(s.db.cycles[c].steps).Some?
         case RecoverOdd(i) => Last(s.db, c, i) && LastExecute(s.db.cycles[c].steps).None?
         case RecoverFree => NoRows(s.db, c)
         case RecoverClose => NoRows(s.db, c) && Freed(s.db.cycles[c])
       }
  }

  function RecoverWrite(s: State, p: nat, c: nat, step: RecoverStep): Db
    requires RecoverEnabled(s, p, c, step)
  {
    match step
    case RecoverLog(i) => AppendStep(s.db, c, Awaiting(i, LastExecute(s.db.cycles[c].steps).value))
    case RecoverPark => SetState(s.db, c, AwaitingTx)
    case RecoverOdd(i) => SetState(AppendStep(s.db, c, Anomaly(None)), c, AwaitingTx)
    case RecoverFree => SettleSpend(s.db, c, Released, None)
    case RecoverClose => SetState(s.db, c, Done)
  }

  /******* Finishing what is out on chain, and orphans (awaiting.ts) *******/

  /** The row is confirmed, has no receipt yet, and its plan and cycle are there. */
  predicate MayBookFrom(db: Db, i: nat) {
    && i < |db.outbox| && db.outbox[i].status.Confirmed? && db.outbox[i].fate.Mined? && !db.outbox[i].booked
    && db.outbox[i].plan in db.money
    && (db.outbox[i].cycle.Some? ==> db.outbox[i].cycle.value < |db.cycles|)
  }

  predicate Waiting(db: Db, c: nat) {
    && c < |db.cycles| && db.cycles[c].state.AwaitingTx?
    && AwaitingStep(db.cycles[c].steps).Some? && AwaitingStep(db.cycles[c].steps).value.Awaiting?
  }

  /** The AWAITING entry a cycle waits on. */
  function PendingStep(db: Db, c: nat): (pending: Step)
    requires Waiting(db, c)
    ensures pending.Awaiting? && pending in db.cycles[c].steps
  {
    AwaitingStepIsAStep(db.cycles[c].steps);
    AwaitingStep(db.cycles[c].steps).value
  }

  function AwaitedRow(db: Db, c: nat): nat
    requires Waiting(db, c)
  {
    PendingStep(db, c).row
  }

  /**
   A pass holds no lock and acts on what it read: by now the cycle may be held or closed, but the entry
   it was read to wait on is still in its log, and its transactions are as settled as they were.
   */
  predicate ReadOnce(db: Db, c: nat, read: Step) {
    && c < |db.cycles| && !db.cycles[c].state.Running? && read.Awaiting? && read in db.cycles[c].steps
    && OfCycle(db, read.row, c)
  }

  /** Every transaction of the cycle has settled and the confirmed ones are booked. */
  ghost predicate RowsAreIn(db: Db, c: nat) {
    forall i :: OfCycle(db, i, c) ==>
      !Unsettled(db.outbox[i]) && (db.outbox[i].status.Confirmed? ==> db.outbox[i].booked)
  }

  ghost predicate AllIn(db: Db, c: nat) {
    Waiting(db, c) && OfCycle(db, AwaitedRow(db, c), c) && RowsAreIn(db, c)
  }

  /** No swap took effect: the last transaction confirmed and is no swap, or it failed and the chain agrees. */
  predicate NoSwapLanded(row: Row) {
    if row.status.Confirmed? then !row.kind.Swap? else !(row.broadcast && row.fate.Mined?)
  }

  ghost predicate FinishEnabled(db: Db, c: nat, read: Step, step: FinishStep) {
    && ReadOnce(db, c, read)
    && var row := db.outbox[read.row];
    match step
    case FinishBook(i) => OfCycle(db, i, c) && MayBookFrom(db, i)
    case FinishLate => Late(row)
    case FinishFree => RowsAreIn(db, c) && NoSwapLanded(row)
    case FinishOdd =>
      RowsAreIn(db, c) && row.kind.Swap? && row.status.Confirmed? && row.fate.Mined? && row.fate.logs.tokens == 0
    case FinishClose =>
      && RowsAreIn(db, c)
      && if NoSwapLanded(row) then Freed(db.cycles[c])
         else row.status.Confirmed? && row.fate.Mined? && row.fate.logs.tokens > 0
    case Unanswered => Late(row)
    case BlindFree => c in db.unanswered
    case BlindClose => c in db.unanswered && Freed(db.cycles[c])
  }

  ghost function FinishWrite(db: Db, c: nat, read: Step, step: FinishStep): Db
    requires FinishEnabled(db, c, read, step)
  {
    match step
    case FinishBook(i) => WithReceipt(db, i, RecoveredEffect(db.outbox[i], Some(read.decision)).value)
    case FinishLate => SetRow(db, read.row, db.outbox[read.row].(status := Confirmed))
    case FinishFree => SettleSpend(db, c, Released, None)
    case FinishOdd => AppendStep(db, c, Anomaly(Some(read.row)))
    case FinishClose => SetState(db, c, Done)
    case Unanswered => AskedInVain(db, c)
    case BlindFree => SettleSpend(db, c, Released, None)
    case BlindClose => SetState(db, c, Done)
  }

  /** The decision the orphan pass reads: the last one the row's cycle recorded. */
  function RecordedDecision(db: Db, i: nat): Option<Decision>
    requires MayBookFrom(db, i)
  {
    if db.outbox[i].cycle.None? then None else LastExecute(db.cycles[db.outbox[i].cycle.value].steps)
  }

  predicate IsOrphan(db: Db, i: nat) {
    && MayBookFrom(db, i)
    && (db.outbox[i].cycle.Some? ==> db.cycles[db.outbox[i].cycle.value].state.Done?)
  }

  /******* The operator's review (review.ts) *******/

  /** The operator's command reads once as well: the cycle was out on chain with nothing to wait on, and still has nothing. */
  predicate HeldOnce(db: Db, c: nat) {
    && c < |db.cycles| && !db.cycles[c].state.Running? && AwaitingStep(db.cycles[c].steps).None?
    && exists k :: 0 <= k < |db.cycles[c].steps| && db.cycles[c].steps[k].Anomaly?
  }

  ghost predicate ReviewEnabled(s: State, p: nat, c: nat) {
    && InTime(s, p) && s.procs[p].job.Fresh?
    && HeldOnce(s.db, c) && s.db.cycles[c].plan == s.procs[p].plan
    && (forall i :: OfCycle(s.db, i, c) ==> !Unsettled(s.db.outbox[i]))
  }

  function ReviewWrite(db: Db, c: nat, step: ReviewStep): Db
    requires c < |db.cycles|
  {
    match step
    case ReviewLog => AppendStep(db, c, Closed)
    case ReviewSpend => SettleSpend(db, c, Spent, None)
    case ReviewClose => SetState(db, c, Done)
  }

  /******* Outbox rows (send.ts, queue.ts) *******/

  /**
   What may happen to a row. A row that is no longer undecided never changes its fate: a transaction
   settled as FAILED is not mined later. An operator's hand touches only rows no process holds, and
   may be wrong about a broadcast one of a cycle: the re-check finds that out.
   */
  ghost predicate RowEnabled(s: State, i: nat, step: RowStep) {
    && i < |s.db.outbox|
    && var row := s.db.outbox[i];
    && Unsettled(row)
    && match step {
         case Broadcast => true
         case Mine(fate) => row.fate.Unmined? && RowOk(row.(fate := fate))
         case Confirm => row.fate.Mined?
         case Fail => row.fate.Reverted?
         case NotSent => row.status.Signed? && row.fate.Unmined?
         case GiveUpRow(keepVia) =>
           && (forall p :: Holds(s, p) ==> s.procs[p].plan != row.plan)
           && (row.fate.Mined? ==> keepVia && row.broadcast && row.cycle.Some?)
       }
  }

  function RowAfter(row: Row, step: RowStep): Row {
    match step
    case Broadcast => row.(status := Pending, broadcast := true)
    case Mine(fate) => row.(fate := fate)
    case Confirm => row.(status := Confirmed)
    case Fail => row.(status := Failed)
    case NotSent => row.(status := Failed)
    case GiveUpRow(keepVia) => row.(status := Failed, broadcast := keepVia && row.broadcast)
  }

  /******* Runs *******/

  ghost predicate Enabled(g: Config, s: State, a: Action) {
    match a
    case Tick(now) => s.now <= now
    case ByLock(p, step) => LockEnabled(s, p, step)
    case ByStart(p, step) => StartEnabled(s, p, step)
    case ByCycle(p, step) => LiveEnabled(g, s, p, step)
    case ByRecovery(p, c, step) => RecoverEnabled(s, p, c, step)
    case ByFinisher(c, read, step) => FinishEnabled(s.db, c, read, step)
    case ByReview(p, c, _) => ReviewEnabled(s, p, c)
    case OnRow(i, step) => RowEnabled(s, i, step)
    case BookOrphan(i) =>
      IsOrphan(s.db, i) && RecoveredEffect(s.db.outbox[i], RecordedDecision(s.db, i)).Some?
    case SignLoose(plan, kind) =>
      plan in s.db.money && kind != Swap && OutboxQuiet(s.db) && (kind.Redeem? ==> !PositionInFlight(s.db, plan))
  }

  ghost function Apply(g: Config, s: State, a: Action): State
    requires Enabled(g, s, a)
  {
    match a
    case Tick(now) => s.(now := now)
    case ByLock(p, step) => LockApply(g, s, p, step)
    case ByStart(p, step) => StartApply(s, p, step)
    case ByCycle(p, step) => LiveApply(g, s, p, step)
    case ByRecovery(p, c, step) => s.(db := RecoverWrite(s, p, c, step))
    case ByFinisher(c, read, step) => s.(db := FinishWrite(s.db, c, read, step))
    case ByReview(p, c, step) => s.(db := ReviewWrite(s.db, c, step))
    case OnRow(i, step) => s.(db := SetRow(s.db, i, RowAfter(s.db.outbox[i], step)))
    case BookOrphan(i) =>
      s.(db := WithReceipt(s.db, i, RecoveredEffect(s.db.outbox[i], RecordedDecision(s.db, i)).value))
    case SignLoose(plan, kind) => s.(db := AddRow(s.db, Row(plan, None, kind, None, Signed, false, Unmined, false)))
  }

  ghost predicate Next(g: Config, s: State, s': State) {
    exists a :: Enabled(g, s, a) && s' == Apply(g, s, a)
  }

  /** No process, nothing signed, no cycle: plans with some money. */
  ghost predicate Init(s: State) {
    && s.procs == map[] && s.db.cycles == [] && s.db.outbox == [] && s.db.receipts == []
    && s.db.unanswered == {} && s.db.revived == {}
    && s.locks.Keys == s.db.money.Keys && forall plan :: plan in s.locks ==> s.locks[plan].None?
  }

  /** A run: states that follow one another from an initial one. */
  ghost predicate IsRun(g: Config, run: seq<State>) {
    |run| > 0 && Init(run[0]) && forall k :: StepAt(g, run, k)
  }

  ghost predicate StepAt(g: Config, run: seq<State>, k: int) {
    0 <= k < |run| - 1 ==> Next(g, run[k], run[k + 1])
  }
}
