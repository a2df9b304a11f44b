/**
 What the settlement protocol is for, stated over runs: one open cycle per plan, leases that cannot
 be shared, daily caps, signatures covered by a reservation, and money that does not depend on where
 a process died.
 */
module ProtocolTheorems {
  import opened Basics
  import opened Books
  import Ledger
  import opened BooksInvariant
  import opened Protocol
  import opened ProtocolInvariant
  import opened ProtocolSafety
  import opened ProtocolRuns

  /******* One open cycle *******/

  /** At any time a plan has at most one cycle that is running or awaiting. */
  lemma OneOpenCycle(g: Config, run: seq<State>, k: nat, c: nat, d: nat)
    requires IsRun(g, run) && g.ttl > 0 && k < |run|
    requires c < |run[k].db.cycles| && d < |run[k].db.cycles|
    requires Open(run[k].db.cycles[c]) && Open(run[k].db.cycles[d])
    requires run[k].db.cycles[c].plan == run[k].db.cycles[d].plan
    ensures c == d
  {
    RunKeepsInv(g, run, k);
    assert Superseded(run[k].db, c, d) && Superseded(run[k].db, d, c);
  }

  /******* Leases *******/

  /** Only a process that took the lapsed lock ends another's hold: an expired lock nobody took still renews. */
  lemma HoldEndsOnlyByTakeover(g: Config, s: State, start: Start, a: Action, p: nat)
    requires Inv(g, s, start) && Enabled(g, s, a) && Holds(s, p) && p in Apply(g, s, a).procs
    ensures Holds(Apply(g, s, a), p) <==> !(a.ByLock? && a.lock == Acquire(s.procs[p].plan))
    ensures a.ByLock? && a.lock == Acquire(s.procs[p].plan) ==> s.procs[p].until < s.now
  {
  }

  lemma LostStaysLostOneStep(g: Config, s: State, start: Start, a: Action, p: nat)
    requires Inv(g, s, start) && Enabled(g, s, a) && p in s.procs && !Holds(s, p) && p in Apply(g, s, a).procs
    ensures !Holds(Apply(g, s, a), p)
  {
  }

  lemma LostStaysLostInRun(g: Config, run: seq<State>, k: nat, p: nat)
    requires IsRun(g, run) && g.ttl > 0 && k + 1 < |run|
    requires p in run[k].procs && p in run[k + 1].procs && !Holds(run[k], p)
    ensures !Holds(run[k + 1], p)
  {
    RunKeepsInv(g, run, k);
    assert StepAt(g, run, k);
    var a :| Enabled(g, run[k], a) && run[k + 1] == Apply(g, run[k], a);
    LostStaysLostOneStep(g, run[k], run[0].db.money, a, p);
  }

  /** A process that lost its lock never holds it again. */
  lemma {:induction false} LostStaysLost(g: Config, run: seq<State>, k: nat, m: nat, p: nat)
    requires IsRun(g, run) && g.ttl > 0 && k <= m < |run|
    requires forall n :: k <= n <= m ==> p in run[n].procs
    requires !Holds(run[k], p)
    ensures !Holds(run[m], p)
    decreases m
  {
    if k < m {
      LostStaysLost(g, run, k, m - 1, p);
      LostStaysLostInRun(g, run, m - 1, p);
    }
  }

  /** A process that holds no lock any more can neither renew one, nor release one, nor write in time. */
  lemma LostIsPowerless(g: Config, run: seq<State>, k: nat, p: nat)
    requires IsRun(g, run) && g.ttl > 0 && k < |run| && p in run[k].procs && !Holds(run[k], p)
    ensures !LockEnabled(run[k], p, Renew) && !InTime(run[k], p)
    ensures LockApply(g, run[k], p, Leave).locks == run[k].locks
  {
    RunKeepsInv(g, run, k);
  }

  /** At most one process holds a plan's lock, and only it can write to the plan's cycle in time. */
  lemma OneHolder(g: Config, run: seq<State>, k: nat, p: nat, q: nat)
    requires IsRun(g, run) && g.ttl > 0 && k < |run|
    requires p in run[k].procs && q in run[k].procs && run[k].procs[p].plan == run[k].procs[q].plan
    requires Holds(run[k], p) || InTime(run[k], p)
    requires Holds(run[k], q) || InTime(run[k], q)
    ensures p == q
  {
    RunKeepsInv(g, run, k);
  }

  /******* The ledger *******/

  /**
   On every day of every run, house and judge plans stay within the global cap and each plan within
   its own, counting all cycles but those whose freed reservation was spent after all.
   */
  lemma DailyCapsHold(g: Config, run: seq<State>, k: nat, day: nat, plan: string)
    requires IsRun(g, run) && g.ttl > 0 && k < |run|
    ensures DaySum(Standing(run[k].db), g.house, day) <= g.globalCap
    ensures plan in g.planCap ==> DaySum(Standing(run[k].db), {plan}, day) <= g.planCap[plan]
    ensures run[k].db.revived == {} ==> Standing(run[k].db) == run[k].db.cycles
  {
    RunKeepsInv(g, run, k);
    assert CapsOkOn(g, Standing(run[k].db), day);
  }

  /** The cycles' ledger rows as the ledger's own queries see them. */
  function LedgerRows(cycles: seq<Cycle>): seq<Ledger.Spend> {
    if |cycles| == 0 then []
    else
      var c := |cycles| - 1;
      LedgerRows(cycles[..c])
      + if cycles[c].entry.None? then []
        else
          var e := cycles[c].entry.value;
          [Ledger.Spend(cycles[c].plan, c, e.day, e.amount, e.status)]
  }

  /** The sum capped here is the one the ledger's queries come to. */
  lemma {:induction false} DaySumIsTheLedgers(cycles: seq<Cycle>, plans: seq<Ledger.Plan>, house: set<string>, day: nat, plan: string)
    requires Ledger.UniqueIds(plans) && house == set p | p in plans && !p.owner.Skill? :: p.id
    ensures DaySum(cycles, house, day) == Ledger.HouseWallet(plans, LedgerRows(cycles), day)
    ensures DaySum(cycles, {plan}, day) == Ledger.OnePlan(LedgerRows(cycles), plan, day)
  {
    if |cycles| > 0 {
      var c := |cycles| - 1;
      DaySumIsTheLedgers(cycles[..c], plans, house, day, plan);
      if cycles[c].entry.Some? {
        var e := cycles[c].entry.value;
        OneMoreRow(LedgerRows(cycles[..c]), Ledger.Spend(cycles[c].plan, c, e.day, e.amount, e.status), plans, house, day, plan);
      } else {
        assert LedgerRows(cycles) == LedgerRows(cycles[..c]);
      }
    }
  }

  lemma OneMoreRow(rows: seq<Ledger.Spend>, row: Ledger.Spend, plans: seq<Ledger.Plan>, house: set<string>, day: nat, plan: string)
    requires Ledger.UniqueIds(plans) && house == set p | p in plans && !p.owner.Skill? :: p.id
    ensures var counted := if row.day == day && !row.status.Released? then row.amount else 0;
            && Ledger.HouseWallet(plans, rows + [row], day)
               == Ledger.HouseWallet(plans, rows, day) + (if row.plan in house then counted else 0)
            && Ledger.OnePlan(rows + [row], plan, day) == Ledger.OnePlan(rows, plan, day) + if row.plan == plan then counted else 0
  {
    hide Ledger.UniqueIds;
    assert (rows + [row])[..|rows|] == rows;
    HouseIsByItsPlan(plans, row.plan);
  }

  lemma HouseIsByItsPlan(plans: seq<Ledger.Plan>, id: string)
    requires Ledger.UniqueIds(plans)
    ensures (exists p :: p in plans && !p.owner.Skill? && p.id == id)
            <==> Ledger.PlanOf(plans, id).Some? && !Ledger.PlanOf(plans, id).value.owner.Skill?
  {
    Ledger.PlanOfIsThere(plans, id);
  }

  /** So on every day of every run the house and judge plans' rows, and each plan's, are within the caps. */
  lemma DailyCapsHoldInTheLedger(g: Config, run: seq<State>, k: nat, day: nat, plan: string, plans: seq<Ledger.Plan>)
    requires IsRun(g, run) && g.ttl > 0 && k < |run|
    requires Ledger.UniqueIds(plans) && g.house == set p | p in plans && !p.owner.Skill? :: p.id
    ensures var rows := LedgerRows(Standing(run[k].db));
            && Ledger.HouseWallet(plans, rows, day) <= g.globalCap
            && (plan in g.planCap ==> Ledger.OnePlan(rows, plan, day) <= g.planCap[plan])
  {
    DailyCapsHold(g, run, k, day, plan);
    DaySumIsTheLedgers(Standing(run[k].db), plans, g.house, day, plan);
  }

  /** How a ledger row may change: freed or spent only once, and never for more than was reserved. */
  predicate SettlesOnce(was: Option<Entry>, now: Option<Entry>) {
    match was
    case None => now.Some? ==> now.value.status.Reserved?
    case Some(e) =>
      && now.Some? && now.value.day == e.day && now.value.amount <= e.amount
      && (e.status.Released? ==> now == was)
      && (e.status.Spent? ==> now.value.status.Spent?)
  }

  lemma BookingSettlesOnce(db: Db, start: Start, i: nat, e: Effect, c: nat)
    requires BooksOk(db, start) && MayBook(db, i, e) && c < |db.cycles|
    ensures SettlesOnce(db.cycles[c].entry, WithReceipt(db, i, e).cycles[c].entry) <==> !(e.Bought? && IsFreedSwap(db, i, c))
    ensures IsFreedSwap(db, i, c) ==> c in db.unanswered
  {
    if db.outbox[i].cycle == Some(c) && db.outbox[i].kind.Swap? {
      assert CycleOk(db, c) && OfCycle(db, i, c) && RowOk(db.outbox[i]);
      assert SwapCovered(db.outbox[i], db.cycles[c].entry.value, c in db.unanswered);
    }
  }

  /** Row `i` is a swap of cycle `c`, whose reservation was freed. */
  predicate IsFreedSwap(db: Db, i: nat, c: nat) {
    && i < |db.outbox| && db.outbox[i].cycle == Some(c) && db.outbox[i].kind.Swap?
    && c < |db.cycles| && IsFreed(db.cycles[c])
  }

  /** The action books a swap of cycle `c` whose reservation was freed: the finishing pass can, and the orphan pass. */
  predicate SpendsAfterAll(db: Db, a: Action, c: nat) {
    || (a.ByFinisher? && a.finish.FinishBook? && IsFreedSwap(db, a.finish.i, c))
    || (a.BookOrphan? && IsFreedSwap(db, a.i, c))
  }

  lemma BookLiveSettlesOnce(g: Config, s: State, start: Start, p: nat, c: nat)
    requires Inv(g, s, start) && LiveEnabled(g, s, p, BookLive) && c < |s.db.cycles|
    ensures c < |LiveWrite(g, s, p, BookLive).cycles|
    ensures SettlesOnce(s.db.cycles[c].entry, LiveWrite(g, s, p, BookLive).cycles[c].entry)
    ensures LiveWrite(g, s, p, BookLive).revived == s.db.revived
  {
    hide CapsOk, SettlesOnce;
    InTimeHolds(g, s, p);
    var i := s.procs[p].job.phase.row;
    assert RowRefOk(s.db, s.db.outbox[i]) && CycleOk(s.db, s.procs[p].job.c);
    BookingSettlesOnce(s.db, start, i, LiveEffect(s.db.outbox[i], s.db.outbox[i].signedFor.value), c);
  }

  lemma LiveSettlesOnce(g: Config, s: State, start: Start, p: nat, step: LiveStep, c: nat)
    requires Inv(g, s, start) && LiveEnabled(g, s, p, step) && c < |s.db.cycles|
    ensures c < |LiveWrite(g, s, p, step).cycles|
    ensures SettlesOnce(s.db.cycles[c].entry, LiveWrite(g, s, p, step).cycles[c].entry)
    ensures LiveWrite(g, s, p, step).revived == s.db.revived
  {
    if step.BookLive? {
      BookLiveSettlesOnce(g, s, start, p, c);
    } else if step.Reserve? {
      InTimeHolds(g, s, p);
    }
  }

  lemma FinishSettlesOnce(db: Db, start: Start, a: Action, c: nat)
    requires BooksOk(db, start) && a.ByFinisher? && FinishEnabled(db, a.c, a.read, a.finish) && c < |db.cycles|
    ensures var now := FinishWrite(db, a.c, a.read, a.finish);
            && c < |now.cycles|
            && (SettlesOnce(db.cycles[c].entry, now.cycles[c].entry) <==> !SpendsAfterAll(db, a, c))
            && (c in now.revived <==> c in db.revived || SpendsAfterAll(db, a, c))
    ensures SpendsAfterAll(db, a, c) ==> c in db.unanswered
  {
    if a.finish.FinishBook? {
      FinishBooksTheSignedDecision(db, start, a.c, a.read, a.finish.i);
      BookingSettlesOnce(db, start, a.finish.i, ChainEffect(db.outbox[a.finish.i]), c);
    }
  }

  lemma ReviewSettlesOnce(db: Db, start: Start, d: nat, step: ReviewStep, c: nat)
    requires BooksOk(db, start) && HeldOnce(db, d) && c < |db.cycles|
    ensures SettlesOnce(db.cycles[c].entry, ReviewWrite(db, d, step).cycles[c].entry)
  {
    HeldCycleIsBooked(db, start, d);
  }

  lemma QuietSettlesOnce(g: Config, s: State, a: Action, c: nat)
    requires Enabled(g, s, a) && c < |s.db.cycles|
    requires a.Tick? || a.ByLock? || a.ByStart? || a.ByRecovery? || a.OnRow? || a.SignLoose?
    ensures c < |Apply(g, s, a).db.cycles| && Apply(g, s, a).db.revived == s.db.revived
    ensures SettlesOnce(s.db.cycles[c].entry, Apply(g, s, a).db.cycles[c].entry)
  {
  }

  lemma OrphanSettlesOnce(g: Config, s: State, start: Start, i: nat, c: nat)
    requires BooksOk(s.db, start) && Enabled(g, s, BookOrphan(i)) && c < |s.db.cycles|
    ensures var now := Apply(g, s, BookOrphan(i)).db;
            && c < |now.cycles|
            && (SettlesOnce(s.db.cycles[c].entry, now.cycles[c].entry) <==> !SpendsAfterAll(s.db, BookOrphan(i), c))
            && (c in now.revived <==> c in s.db.revived || SpendsAfterAll(s.db, BookOrphan(i), c))
    ensures SpendsAfterAll(s.db, BookOrphan(i), c) ==> c in s.db.unanswered
  {
    OrphansAreLoose(s.db, start, i);
    BookingSettlesOnce(s.db, start, i, ChainEffect(s.db.outbox[i]), c);
  }

  /**
   A released reservation never becomes spent and a spend is never freed, whatever happens next, but
   for one thing: a finishing or an orphan pass books a swap whose reservation was freed. That takes a
   cycle for whose transaction the node once did not answer, and is on record from then on.
   */
  lemma LedgerSettlesOnce(g: Config, s: State, start: Start, a: Action, c: nat)
    requires Inv(g, s, start) && Enabled(g, s, a) && c < |s.db.cycles|
    ensures c < |Apply(g, s, a).db.cycles|
    ensures SettlesOnce(s.db.cycles[c].entry, Apply(g, s, a).db.cycles[c].entry) <==> !SpendsAfterAll(s.db, a, c)
    ensures SpendsAfterAll(s.db, a, c) ==> c in s.db.unanswered
    ensures c in Apply(g, s, a).db.revived <==> c in s.db.revived || SpendsAfterAll(s.db, a, c)
  {
    if a.ByCycle? {
      LiveSettlesOnce(g, s, start, a.p, a.live, c);
    } else if a.ByFinisher? {
      FinishSettlesOnce(s.db, start, a, c);
    } else if a.ByReview? {
      ReviewSettlesOnce(s.db, start, a.c, a.review, c);
    } else if a.BookOrphan? {
      OrphanSettlesOnce(g, s, start, a.i, c);
    } else {
      QuietSettlesOnce(g, s, a, c);
    }
  }

  lemma RunSettlesOnce(g: Config, run: seq<State>, k: nat, c: nat)
    requires IsRun(g, run) && g.ttl > 0 && k + 1 < |run| && c < |run[k].db.cycles|
    ensures c < |run[k + 1].db.cycles| && (c in run[k].db.revived ==> c in run[k + 1].db.revived)
    ensures c !in run[k + 1].db.revived ==> SettlesOnce(run[k].db.cycles[c].entry, run[k + 1].db.cycles[c].entry)
  {
    RunKeepsInv(g, run, k);
    assert StepAt(g, run, k);
    var a :| Enabled(g, run[k], a) && run[k + 1] == Apply(g, run[k], a);
    LedgerSettlesOnce(g, run[k], run[0].db.money, a, c);
  }

  /** So over any stretch of a run: released for good, unless the reservation was spent after all. */
  lemma {:induction false} ReleasedForGood(g: Config, run: seq<State>, k: nat, m: nat, c: nat)
    requires IsRun(g, run) && g.ttl > 0 && k <= m < |run| && c < |run[k].db.cycles|
    requires IsFreed(run[k].db.cycles[c]) && c !in run[k].db.revived
    ensures c < |run[m].db.cycles| && (c in run[m].db.revived || run[m].db.cycles[c].entry == run[k].db.cycles[c].entry)
    decreases m
  {
    if k < m {
      ReleasedForGood(g, run, k, m - 1, c);
      RunSettlesOnce(g, run, m - 1, c);
    }
  }

  /** What one unanswered re-check can do to the ledger: freed by a pass that then dies, found mined by the next, and spent. */
  lemma FreedBlindlyAndSpent(db: Db, start: Start, c: nat, read: Step)
    requires BooksOk(db, start) && FinishEnabled(db, c, read, Unanswered)
    requires db.outbox[read.row].kind.Swap?
    requires db.cycles[c].entry.Some? && db.cycles[c].entry.value.status.Reserved?
    ensures var asked := FinishWrite(db, c, read, Unanswered);
            && FinishEnabled(asked, c, read, BlindFree)
            && var freed := FinishWrite(asked, c, read, BlindFree);
            && IsFreed(freed.cycles[c]) && FinishEnabled(freed, c, read, FinishLate)
            && var found := FinishWrite(freed, c, read, FinishLate);
            && FinishEnabled(found, c, read, FinishBook(read.row))
            && var spent := FinishWrite(found, c, read, FinishBook(read.row));
            && spent.cycles[c].entry.value.status.Spent? && c in spent.revived
  {
    assert RowRefOk(db, db.outbox[read.row]) && RowOk(db.outbox[read.row]);
  }

  /******* Signatures *******/

  /** The rows a cycle signed: each kind at most once, the swap last, each only after the one before it was booked. */
  lemma SignaturesInTurn(g: Config, run: seq<State>, k: nat, c: nat, i: nat, j: nat)
    requires IsRun(g, run) && g.ttl > 0 && k < |run|
    requires i < j && OfCycle(run[k].db, i, c) && OfCycle(run[k].db, j, c)
    ensures run[k].db.outbox[i].kind != run[k].db.outbox[j].kind
    ensures run[k].db.outbox[i].kind.Redeem? || run[k].db.outbox[i].kind.Approve?
    ensures run[k].db.outbox[i].booked
  {
    RunKeepsInv(g, run, k);
    assert InTurn(run[k].db, i, j) && RowRefOk(run[k].db, run[k].db.outbox[i]);
  }

  /** A cycle that signs has a live reservation, its step log ends in the decision it signs for, and that spends no more than reserved. */
  lemma SignedUnderAReservation(g: Config, s: State, start: Start, p: nat, kind: Kind)
    requires Inv(g, s, start) && Enabled(g, s, ByCycle(p, Sign(kind)))
    ensures var s' := Apply(g, s, ByCycle(p, Sign(kind)));
            var c, row := s.procs[p].job.c, s'.db.outbox[|s.db.outbox|];
            && Holds(s, p) && c < |s.db.cycles| && s.db.cycles[c].entry.Some?
            && s.db.cycles[c].entry.value.status.Reserved?
            && row.signedFor.Some? && row.signedFor == LastExecute(s.db.cycles[c].steps)
            && row.signedFor.value.spend <= s.db.cycles[c].entry.value.amount
  {
  }

  /** What a cycle's swap took is within what its ledger row counts for, from its signature to its settlement. */
  lemma SwapStaysCovered(g: Config, run: seq<State>, k: nat, c: nat, i: nat)
    requires IsRun(g, run) && g.ttl > 0 && k < |run|
    requires OfCycle(run[k].db, i, c) && run[k].db.outbox[i].kind.Swap?
    ensures c < |run[k].db.cycles| && run[k].db.cycles[c].entry.Some?
    ensures var row, e := run[k].db.outbox[i], run[k].db.cycles[c].entry.value;
            && (row.fate.Mined? && e.status.Released? ==> c in run[k].db.unanswered && !row.booked)
            && (row.fate.Mined? && !row.booked ==> row.fate.logs.usdt <= e.amount)
  {
    RunKeepsInv(g, run, k);
    var db := run[k].db;
    assert RowRefOk(db, db.outbox[i]) && RowOk(db.outbox[i]) && CycleOk(db, c);
  }

  /******* Recovery *******/

  /** A signed swap is always recovered with the decision it was signed under, and recovery always finds one. */
  lemma RecoveredAsSigned(g: Config, run: seq<State>, k: nat, p: nat, c: nat, step: RecoverStep)
    requires IsRun(g, run) && g.ttl > 0 && k < |run|
    requires Enabled(g, run[k], ByRecovery(p, c, step))
    ensures !step.RecoverOdd?
    ensures step.RecoverLog? && run[k].db.outbox[step.i].kind.Swap? ==>
              run[k].db.outbox[step.i].signedFor == LastExecute(run[k].db.cycles[c].steps)
  {
    RunKeepsInv(g, run, k);
    assert CycleOk(run[k].db, c);
    if step.RecoverLog? || step.RecoverOdd? {
      SignedMeansDecided(run[k].db, run[0].db.money, c, step.i);
    }
  }

  /**
   Every receipt a finishing or orphan pass writes is for what the transaction was signed for. The
   orphan pass finds one of a cycle only if the cycle is closed and the node once did not answer for it.
   */
  lemma BookedAsSigned(g: Config, run: seq<State>, k: nat, a: Action, i: nat)
    requires IsRun(g, run) && g.ttl > 0 && k < |run| && Enabled(g, run[k], a)
    requires a == BookOrphan(i) || (a.ByFinisher? && a.finish == FinishBook(i))
    requires i < |run[k].db.outbox|
    ensures run[k].db.outbox[i].fate.Mined?
    ensures run[k].db.outbox[i].kind.Swap? ==> run[k].db.outbox[i].signedFor.Some?
    ensures Apply(g, run[k], a).db == WithReceipt(run[k].db, i, ChainEffect(run[k].db.outbox[i]))
    ensures a.BookOrphan? && run[k].db.outbox[i].cycle.Some? ==> run[k].db.outbox[i].cycle.value in run[k].db.unanswered
  {
    RunKeepsInv(g, run, k);
    if a.BookOrphan? {
      OrphansAreLoose(run[k].db, run[0].db.money, i);
    } else {
      FinishBooksTheSignedDecision(run[k].db, run[0].db.money, a.c, a.read, i);
    }
  }

  /**
   Closing a cycle, by whatever hand, leaves none of its mined transactions to book, except one that
   was marked failed and whose re-check the node once left unanswered. If another pass finds it mined
   after all, the orphan pass books it.
   */
  lemma ClosedMeansBooked(g: Config, run: seq<State>, k: nat, c: nat, i: nat)
    requires IsRun(g, run) && g.ttl > 0 && k < |run|
    requires c < |run[k].db.cycles| && run[k].db.cycles[c].state.Done? && OfCycle(run[k].db, i, c)
    ensures var db := run[k].db;
            && (db.outbox[i].fate.Mined? ==> (db.outbox[i].booked <==> !Late(db.outbox[i]) && !IsOrphan(db, i)))
            && (Late(db.outbox[i]) || IsOrphan(db, i) ==> c in db.unanswered)
  {
    RunKeepsInv(g, run, k);
    assert CycleOk(run[k].db, c) && RowOk(run[k].db.outbox[i]) && RowRefOk(run[k].db, run[k].db.outbox[i]);
  }
}
