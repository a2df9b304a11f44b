/**
 What every reachable state of `Protocol` satisfies: the lock values tell their holders apart, what
 a lock holder believes about its cycle is true of the tables, and the tables satisfy `BooksOk`.
 */
module ProtocolInvariant {
  import opened Basics
  import opened Books
  import opened BooksInvariant
  import opened Protocol

  /******* The leases *******/

  /**
   A process whose value is not the stored one lost it in the past, and no lock is ever stored for a
   time already gone by: so no value stored from now on is a lost one.
   */
  ghost predicate LeasesOk(g: Config, s: State) {
    && g.ttl > 0
    && s.locks.Keys == s.db.money.Keys
    && (forall p :: p in s.procs ==> s.procs[p].plan in s.locks && s.procs[p].until <= s.now + g.ttl)
    && (forall p :: p in s.procs && !Holds(s, p) ==> s.procs[p].until < s.now)
    && (forall p, q :: Holds(s, p) && Holds(s, q) && s.procs[p].plan == s.procs[q].plan ==> p == q)
  }

  /******* What a lock holder knows *******/

  ghost predicate Clean(steps: seq<Step>) {
    forall k :: 0 <= k < |steps| ==> !steps[k].Awaiting? && !steps[k].Anomaly?
  }

  /** The reservation a cycle remembers is the one on the ledger; without one it has signed nothing. */
  ghost predicate ReservedAs(db: Db, c: nat, reserved: Option<nat>)
    requires c < |db.cycles|
  {
    match reserved
    case None => NoRows(db, c) && db.cycles[c].entry.None?
    case Some(u) =>
      && db.cycles[c].entry.Some?
      && db.cycles[c].entry.value.status.Reserved? && db.cycles[c].entry.value.amount == u
  }

  ghost predicate SignedKinds(db: Db, c: nat, redeemed: bool, approved: bool) {
    forall i :: OfCycle(db, i, c) ==>
      (db.outbox[i].kind.Redeem? ==> redeemed) && (db.outbox[i].kind.Approve? ==> approved)
  }

  /** Between two signatures: all is booked, and no swap was signed. */
  ghost predicate BetweenSignatures(db: Db, c: nat) {
    forall i :: OfCycle(db, i, c) ==> db.outbox[i].booked && !db.outbox[i].kind.Swap?
  }

  ghost predicate PhaseOk(db: Db, job: Job)
    requires job.Live? && job.c < |db.cycles|
  {
    var c, cycle := job.c, db.cycles[job.c];
    match job.phase
    case Deciding => BetweenSignatures(db, c) && Working(db, job)
    case Decided(d) => BetweenSignatures(db, c) && Working(db, job) && LastExecute(cycle.steps) == Some(d)
    case Sent(i) =>
      && Working(db, job) && Last(db, c, i) && job.reserved.Some? && !db.outbox[i].booked
      && (db.outbox[i].status.Failed? ==> Dead(db.outbox[i]))
    case InBlock(i) =>
      && Working(db, job) && Last(db, c, i) && job.reserved.Some? && !db.outbox[i].booked
      && db.outbox[i].status.Confirmed?
    case Closing(bought) =>
      && cycle.state.Running? && Clean(cycle.steps)
      && (forall i :: OfCycle(db, i, c) ==> db.outbox[i].booked || Dead(db.outbox[i]))
      && (!bought ==> forall i :: OfCycle(db, i, c) && db.outbox[i].kind.Swap? ==> Dead(db.outbox[i]))
    case Freeing =>
      && cycle.state.Done? && Clean(cycle.steps)
      && forall i :: OfCycle(db, i, c) && db.outbox[i].kind.Swap? ==> Dead(db.outbox[i])
    case Giving(i) => cycle.state.Running? && Last(db, c, i)
    case Logged => cycle.state.Running? && exists k :: 0 <= k < |cycle.steps| && cycle.steps[k].Awaiting?
    case Odd(i) => cycle.state.Running? && EmptySwap(db, c, i)
    case OddLogged => cycle.state.Running? && exists k :: 0 <= k < |cycle.steps| && cycle.steps[k].Anomaly?
    case Threw => true
  }

  ghost predicate Working(db: Db, job: Job)
    requires job.Live? && job.c < |db.cycles|
  {
    && db.cycles[job.c].state.Running? && Clean(db.cycles[job.c].steps)
    && ReservedAs(db, job.c, job.reserved) && SignedKinds(db, job.c, job.redeemed, job.approved)
  }

  ghost predicate JobOk(db: Db, plan: string, job: Job) {
    match job
    case Clear => NothingOpen(db, plan)
    case Live(c, _, _, _, _) => c < |db.cycles| && db.cycles[c].plan == plan && PhaseOk(db, job)
    case _ => true
  }

  ghost predicate HoldersOk(s: State) {
    forall p :: Holds(s, p) ==> JobOk(s.db, s.procs[p].plan, s.procs[p].job)
  }

  /** The cycles as the caps count them: one whose freed reservation was spent after all counts for nothing. */
  function Standing(db: Db): (cycles: seq<Cycle>)
    ensures |cycles| == |db.cycles|
    ensures forall c :: 0 <= c < |cycles| ==> cycles[c] == StandingAt(db, c)
  {
    seq(|db.cycles|, (c: nat) requires c < |db.cycles| => StandingAt(db, c))
  }

  function StandingAt(db: Db, c: nat): Cycle
    requires c < |db.cycles|
  {
    if c in db.revived then db.cycles[c].(entry := None) else db.cycles[c]
  }

  /** Every day's reserved and spent amounts are within the caps. */
  ghost predicate CapsOk(g: Config, db: Db) {
    forall day: nat :: CapsOkOn(g, Standing(db), day)
  }

  ghost predicate CapsOkOn(g: Config, cycles: seq<Cycle>, day: nat) {
    && DaySum(cycles, g.house, day) <= g.globalCap
    && forall plan :: plan in g.planCap ==> DaySum(cycles, {plan}, day) <= g.planCap[plan]
  }

  ghost predicate Inv(g: Config, s: State, start: map<string, Money>) {
    LeasesOk(g, s) && HoldersOk(s) && BooksOk(s.db, start) && CapsOk(g, s.db)
  }

  /** Acting in time means holding the lock. */
  lemma InTimeHolds(g: Config, s: State, p: nat)
    requires LeasesOk(g, s) && InTime(s, p)
    ensures Holds(s, p)
  {
  }

  /******* What others do leaves a holder's knowledge true *******/

  /** The write leaves alone what `job` knows: its own cycle is untouched, nothing of its plan opens. */
  ghost predicate LeavesAlone(db: Db, db': Db, plan: string, job: Job) {
    && (job.Live? && job.c < |db.cycles| ==>
          && job.c < |db'.cycles| && db'.cycles[job.c].plan == db.cycles[job.c].plan
          && (!job.phase.Threw? ==> SameCycle(db, db', job.c)))
    && (job.Clear? && NothingOpen(db, plan) ==> NothingOpen(db', plan))
  }

  lemma LeftAloneStaysOk(db: Db, db': Db, plan: string, job: Job)
    requires JobOk(db, plan, job) && LeavesAlone(db, db', plan, job)
    ensures JobOk(db', plan, job)
  {
  }

  /** Cycles and rows of other plans than `only` are the same, and none is new. */
  ghost predicate OnlyPlan(db: Db, db': Db, only: string) {
    && |db.cycles| <= |db'.cycles| && |db.outbox| <= |db'.outbox| && db'.unanswered == db.unanswered
    && (forall c :: 0 <= c < |db.cycles| ==>
          db'.cycles[c].plan == db.cycles[c].plan && (db.cycles[c].plan != only ==> db'.cycles[c] == db.cycles[c]))
    && (forall c :: |db.cycles| <= c < |db'.cycles| ==> db'.cycles[c].plan == only)
    && (forall i :: 0 <= i < |db.outbox| ==> db'.outbox[i].cycle == db.outbox[i].cycle)
    && (forall i :: 0 <= i < |db'.outbox| ==>
          (i < |db.outbox| && db'.outbox[i] == db.outbox[i]) || db'.outbox[i].plan == only)
  }

  lemma OnlyPlanLeavesAlone(db: Db, db': Db, only: string, plan: string, job: Job)
    requires OnlyPlan(db, db', only) && RefsOk(db') && plan != only && JobOk(db, plan, job)
    ensures LeavesAlone(db, db', plan, job)
  {
  }

  /** A step of a lock holder keeps leases and holders when it keeps its own job and its plan's part of the books. */
  lemma HolderStepKeeps(g: Config, s: State, s': State, p: nat)
    requires LeasesOk(g, s) && HoldersOk(s) && Holds(s, p)
    requires s'.now == s.now && s'.locks == s.locks && s'.db.money.Keys == s.db.money.Keys
    requires s'.procs.Keys == s.procs.Keys
    requires s'.procs[p].plan == s.procs[p].plan && s'.procs[p].until == s.procs[p].until
    requires forall q :: q in s.procs && q != p ==> s'.procs[q] == s.procs[q]
    requires OnlyPlan(s.db, s'.db, s.procs[p].plan) && RefsOk(s'.db)
    requires JobOk(s'.db, s'.procs[p].plan, s'.procs[p].job)
    ensures LeasesOk(g, s') && HoldersOk(s')
  {
    forall q ensures Holds(s', q) <==> Holds(s, q) {}
    forall q | Holds(s', q) ensures JobOk(s'.db, s'.procs[q].plan, s'.procs[q].job) {
      if q != p {
        assert Holds(s, q);
        OnlyPlanLeavesAlone(s.db, s'.db, s.procs[p].plan, s.procs[q].plan, s.procs[q].job);
        LeftAloneStaysOk(s.db, s'.db, s.procs[q].plan, s.procs[q].job);
      }
    }
  }

  /** A write nobody needs a lock for keeps leases and holders when it leaves every job alone. */
  lemma UnlockedWriteKeeps(g: Config, s: State, s': State)
    requires LeasesOk(g, s) && HoldersOk(s)
    requires s' == s.(db := s'.db) && s'.db.money.Keys == s.db.money.Keys
    requires forall q :: Holds(s, q) ==> JobOk(s'.db, s.procs[q].plan, s.procs[q].job)
    ensures LeasesOk(g, s') && HoldersOk(s')
  {
  }

  /******* Caps *******/

  /** What the ledger row of a cycle counts for never rises. */
  predicate NotRaised(was: Cycle, now: Cycle) {
    && now.plan == was.plan
    && (now.entry.Some? && !now.entry.value.status.Released? ==>
          && was.entry.Some? && !was.entry.value.status.Released?
          && now.entry.value.day == was.entry.value.day && now.entry.value.amount <= was.entry.value.amount)
  }

  lemma {:induction false} DaySumAfterUpdate(cycles: seq<Cycle>, c: nat, x: Cycle, plans: set<string>, day: nat)
    requires c < |cycles|
    ensures DaySum(cycles[c := x], plans, day) + Counted(cycles[c], plans, day)
            == DaySum(cycles, plans, day) + Counted(x, plans, day)
  {
    var last := |cycles| - 1;
    if c == last {
      assert cycles[c := x][..last] == cycles[..last];
    } else {
      assert cycles[c := x][..last] == cycles[..last][c := x];
      DaySumAfterUpdate(cycles[..last], c, x, plans, day);
    }
  }

  /** Leaving cycles out only ever makes the sums smaller. */
  lemma {:induction false} StandingIsLess(all: seq<Cycle>, standing: seq<Cycle>, plans: set<string>, day: nat)
    requires |standing| == |all|
    requires forall c :: 0 <= c < |all| ==> standing[c] == all[c] || standing[c].entry.None?
    ensures DaySum(standing, plans, day) <= DaySum(all, plans, day)
  {
    if |all| > 0 {
      StandingIsLess(all[..|all| - 1], standing[..|all| - 1], plans, day);
    }
  }

  lemma CapsNotRaisedOn(g: Config, cycles: seq<Cycle>, c: nat, x: Cycle, day: nat)
    requires CapsOkOn(g, cycles, day) && c < |cycles| && NotRaised(cycles[c], x)
    ensures CapsOkOn(g, cycles[c := x], day)
  {
    DaySumAfterUpdate(cycles, c, x, g.house, day);
    forall plan | plan in g.planCap ensures DaySum(cycles[c := x], {plan}, day) <= g.planCap[plan] {
      DaySumAfterUpdate(cycles, c, x, {plan}, day);
    }
  }

  /** A write to one cycle keeps the caps when it does not raise what stands. */
  lemma CapsNotRaised(g: Config, db: Db, db': Db, c: nat, x: Cycle)
    requires CapsOk(g, db) && c < |db.cycles| && db'.cycles == db.cycles[c := x] && x.plan == db.cycles[c].plan
    requires c !in db'.revived ==> NotRaised(db.cycles[c], x)
    requires db'.revived == db.revived || db'.revived == db.revived + {c}
    ensures CapsOk(g, db')
  {
    assert Standing(db') == Standing(db)[c := StandingAt(db', c)];
    forall day: nat ensures CapsOkOn(g, Standing(db'), day) {
      CapsNotRaisedOn(g, Standing(db), c, StandingAt(db', c), day);
    }
  }

  lemma CapsReserved(g: Config, db: Db, c: nat, day: nat, amount: nat)
    requires CapsOk(g, db) && c < |db.cycles| && db.cycles[c].entry.None?
    requires WithinCaps(g, db, db.cycles[c].plan, day, amount)
    ensures CapsOk(g, SetEntry(db, c, Some(Entry(day, amount, Reserved))))
  {
    var db' := SetEntry(db, c, Some(Entry(day, amount, Reserved)));
    var was, x := Standing(db), StandingAt(db', c);
    assert Standing(db') == was[c := x];
    forall on: nat ensures CapsOkOn(g, Standing(db'), on) {
      assert CapsOkOn(g, was, on);
      StandingIsLess(db.cycles, was, g.house, on);
      DaySumAfterUpdate(was, c, x, g.house, on);
      forall plan | plan in g.planCap ensures DaySum(was[c := x], {plan}, on) <= g.planCap[plan] {
        StandingIsLess(db.cycles, was, {plan}, on);
        DaySumAfterUpdate(was, c, x, {plan}, on);
      }
    }
  }

  lemma CapsWithNewCycle(g: Config, db: Db, plan: string)
    requires CapsOk(g, db)
    ensures CapsOk(g, AddCycle(db, plan))
  {
    var db' := AddCycle(db, plan);
    assert Standing(db')[..|db.cycles|] == Standing(db);
    forall day: nat ensures CapsOkOn(g, Standing(db'), day) {
      assert CapsOkOn(g, Standing(db), day);
    }
  }

  /** Booking a swap raises what its cycle counts for only if its reservation was freed. */
  lemma CapsBooked(g: Config, db: Db, start: map<string, Money>, i: nat, e: Effect)
    requires CapsOk(g, db) && BooksOk(db, start) && MayBook(db, i, e)
    ensures CapsOk(g, WithReceipt(db, i, e))
  {
    var db', row := WithReceipt(db, i, e), db.outbox[i];
    if e.Bought? && row.cycle.Some? {
      var c := row.cycle.value;
      assert CycleOk(db, c) && OfCycle(db, i, c);
      assert SwapCovered(row, db.cycles[c].entry.value, c in db.unanswered);
      assert RowOk(row);
      CapsNotRaised(g, db, db', c, db'.cycles[c]);
    } else {
      SameCyclesSameCaps(g, db, db');
    }
  }

  lemma SameCyclesSameCaps(g: Config, db: Db, db': Db)
    requires CapsOk(g, db) && db'.cycles == db.cycles && db'.revived == db.revived
    ensures CapsOk(g, db')
  {
    assert Standing(db') == Standing(db);
  }
}
