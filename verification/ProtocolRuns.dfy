/**
 The passes that follow a dead process, the chain and the operator keep the invariant as well; so
 every state of every run of `Protocol` satisfies it.
 */
module ProtocolRuns {
  import opened Basics
  import opened Books
  import opened BooksInvariant
  import opened Protocol
  import opened ProtocolInvariant
  import opened ProtocolSafety

  /******* Recovering a cycle left running *******/

  lemma RecoverWriteKeeps(g: Config, s: State, start: Start, p: nat, c: nat, step: RecoverStep)
    requires Inv(g, s, start) && RecoverEnabled(s, p, c, step)
    ensures BooksOk(RecoverWrite(s, p, c, step), start) && CapsOk(g, RecoverWrite(s, p, c, step))
  {
    assert CycleOk(s.db, c);
    match step {
      case RecoverLog(i) => AppendKeeps(g, s.db, start, c, Awaiting(i, LastExecute(s.db.cycles[c].steps).value));
      case RecoverPark =>
        AwaitingStepIsAStep(s.db.cycles[c].steps);
        StateKeeps(g, s.db, start, c, AwaitingTx);
      case RecoverFree => FreedKeeps(g, s.db, start, c);
      case RecoverClose => StateKeeps(g, s.db, start, c, Done);
      case RecoverOdd(i) => SignedMeansDecided(s.db, start, c, i);
    }
  }

  /** A cycle that signed anything recorded what it decided: recovery never has to hold one for want of a decision. */
  lemma SignedMeansDecided(db: Db, start: Start, c: nat, i: nat)
    requires BooksOk(db, start) && c < |db.cycles| && OfCycle(db, i, c)
    ensures LastExecute(db.cycles[c].steps).Some?
  {
    assert CycleOk(db, c);
  }

  lemma RecoverKeeps(g: Config, s: State, start: Start, p: nat, c: nat, step: RecoverStep)
    requires Inv(g, s, start) && RecoverEnabled(s, p, c, step)
    ensures Inv(g, s.(db := RecoverWrite(s, p, c, step)), start)
  {
    InTimeHolds(g, s, p);
    RecoverWriteKeeps(g, s, start, p, c, step);
    HolderStepKeeps(g, s, s.(db := RecoverWrite(s, p, c, step)), p);
  }

  /******* Finishing a cycle out on chain *******/

  /** A cycle's swap is the last thing it signs, and everything before its last row is booked. */
  lemma LastOfCycle(db: Db, start: Start, c: nat, last: nat, i: nat)
    requires BooksOk(db, start) && Last(db, c, last) && OfCycle(db, i, c) && i != last
    ensures db.outbox[i].booked && db.outbox[i].status.Confirmed? && !db.outbox[i].kind.Swap?
  {
    assert InTurn(db, i, last);
    assert RowOk(db.outbox[i]);
  }

  /** The transaction a cycle was read to wait on is the last one it signed; a swap, with the decision it was signed under. */
  lemma ReadsItsLast(db: Db, start: Start, c: nat, read: Step)
    requires BooksOk(db, start) && c < |db.cycles| && read in db.cycles[c].steps && read.Awaiting?
    ensures Last(db, c, read.row)
    ensures db.outbox[read.row].kind.Swap? ==> db.outbox[read.row].signedFor == Some(read.decision)
  {
    assert CycleOk(db, c);
  }

  lemma WaitsOnItsLast(db: Db, start: Start, c: nat)
    requires BooksOk(db, start) && Waiting(db, c)
    ensures Last(db, c, AwaitedRow(db, c)) && ReadOnce(db, c, PendingStep(db, c))
    ensures var row := db.outbox[AwaitedRow(db, c)]; row.kind.Swap? ==> row.signedFor == Some(PendingStep(db, c).decision)
  {
    AwaitingStepIsAStep(db.cycles[c].steps);
    ReadsItsLast(db, start, c, PendingStep(db, c));
  }

  /** What the finishing pass books is what the chain calls for: its decision is the one the swap was signed under. */
  lemma FinishBooksTheSignedDecision(db: Db, start: Start, c: nat, read: Step, i: nat)
    requires BooksOk(db, start) && FinishEnabled(db, c, read, FinishBook(i))
    ensures MayBook(db, i, RecoveredEffect(db.outbox[i], Some(read.decision)).value)
    ensures RecoveredEffect(db.outbox[i], Some(read.decision)).value == ChainEffect(db.outbox[i])
  {
    ReadsItsLast(db, start, c, read);
    if i != read.row {
      LastOfCycle(db, start, c, read.row, i);
    }
    assert RowRefOk(db, db.outbox[i]);
  }

  /** Once all is in and no swap landed, every swap of the cycle is dead. */
  lemma NoSwapMeansDead(db: Db, start: Start, c: nat, last: nat)
    requires BooksOk(db, start) && Last(db, c, last) && RowsAreIn(db, c) && NoSwapLanded(db.outbox[last])
    ensures forall i :: OfCycle(db, i, c) ==> db.outbox[i].booked || Dead(db.outbox[i])
    ensures forall i :: OfCycle(db, i, c) && db.outbox[i].kind.Swap? ==> Dead(db.outbox[i])
  {
    forall i | OfCycle(db, i, c)
      ensures db.outbox[i].booked || Dead(db.outbox[i])
      ensures db.outbox[i].kind.Swap? ==> Dead(db.outbox[i])
    {
      assert RowOk(db.outbox[i]);
      if i != last {
        LastOfCycle(db, start, c, last, i);
      }
    }
  }

  lemma FinishWriteKeeps(g: Config, db: Db, start: Start, c: nat, read: Step, step: FinishStep)
    requires BooksOk(db, start) && CapsOk(g, db) && FinishEnabled(db, c, read, step)
    ensures BooksOk(FinishWrite(db, c, read, step), start) && CapsOk(g, FinishWrite(db, c, read, step))
  {
    ReadsItsLast(db, start, c, read);
    match step {
      case FinishBook(i) =>
        FinishBooksTheSignedDecision(db, start, c, read, i);
        var e := RecoveredEffect(db.outbox[i], Some(read.decision)).value;
        WithReceiptKeeps(db, start, i, e);
        CapsBooked(g, db, start, i, e);
      case FinishLate => LateKeeps(g, db, start, c, read);
      case FinishFree =>
        NoSwapMeansDead(db, start, c, read.row);
        FreedKeeps(g, db, start, c);
      case FinishOdd =>
        AppendKeeps(g, db, start, c, Anomaly(Some(read.row)));
      case FinishClose =>
        FinishedRowsAreIn(db, start, c, read);
        StateKeeps(g, db, start, c, Done);
      case Unanswered => UnansweredKeeps(g, db, start, c, read);
      case BlindFree => BlindFreeKeeps(g, db, start, c);
      case BlindClose => BlindCloseKeeps(g, db, start, c);
    }
  }

  /** A late transaction may be marked confirmed at any time, in a closed cycle too: the node once did not answer for it. */
  lemma LateKeeps(g: Config, db: Db, start: Start, c: nat, read: Step)
    requires BooksOk(db, start) && CapsOk(g, db) && FinishEnabled(db, c, read, FinishLate)
    ensures BooksOk(FinishWrite(db, c, read, FinishLate), start) && CapsOk(g, FinishWrite(db, c, read, FinishLate))
  {
    var now := FinishWrite(db, c, read, FinishLate);
    assert RowOk(db.outbox[read.row]);
    SetRowKeeps(db, start, read.row, now.outbox[read.row]);
    SameCyclesSameCaps(g, db, now);
  }

  /** Recording that the node did not answer asks less of the cycle. */
  lemma UnansweredKeeps(g: Config, db: Db, start: Start, c: nat, read: Step)
    requires BooksOk(db, start) && CapsOk(g, db) && FinishEnabled(db, c, read, Unanswered)
    ensures BooksOk(AskedInVain(db, c), start) && CapsOk(g, AskedInVain(db, c))
  {
    var db' := AskedInVain(db, c);
    forall i | 0 <= i < |db'.outbox| ensures RowRefOk(db', db'.outbox[i]) { assert RowRefOk(db, db.outbox[i]); }
    forall i, j ensures InTurn(db', i, j) { assert InTurn(db, i, j); }
    forall i, j ensures WithdrawnAfter(db', i, j) { assert WithdrawnAfter(db, i, j); }
    forall i, j ensures InCycleOrder(db', i, j) { assert InCycleOrder(db, i, j); }
    forall a, b ensures Superseded(db', a, b) { assert Superseded(db, a, b); }
    SameTransactionsSameReceipts(db, db');
    SameCyclesSameCaps(g, db, db');
    RowsOfALateCycle(db, start, c, read);
    forall d | 0 <= d < |db'.cycles| ensures CycleOk(db', d) {
      assert CycleOk(db, d);
      UnansweredKeepsCycle(db, c, read, d);
    }
  }

  lemma UnansweredKeepsCycle(db: Db, c: nat, read: Step, d: nat)
    requires RowsOk(db) && ReadOnce(db, c, read) && d < |db.cycles| && CycleOk(db, d)
    requires forall i :: OfCycle(db, i, c) ==> Late(db.outbox[i]) || (db.outbox[i].booked && !db.outbox[i].kind.Swap?)
    ensures CycleOk(AskedInVain(db, c), d)
  {
    var db' := AskedInVain(db, c);
    SameCycleColumn(db, db', d);
    forall i: nat ensures EmptySwap(db', d, i) <==> EmptySwap(db, d, i) {}
    if d == c {
      var k :| 0 <= k < |db.cycles[c].steps| && db.cycles[c].steps[k] == read;
      assert db'.cycles[c].steps[k].Awaiting?;
    }
  }

  /** In such a cycle everything but the late last transaction is booked. */
  lemma RowsOfALateCycle(db: Db, start: Start, c: nat, read: Step)
    requires BooksOk(db, start) && FinishEnabled(db, c, read, Unanswered)
    ensures forall i :: OfCycle(db, i, c) ==> Late(db.outbox[i]) || (db.outbox[i].booked && !db.outbox[i].kind.Swap?)
  {
    ReadsItsLast(db, start, c, read);
    forall i | OfCycle(db, i, c) ensures Late(db.outbox[i]) || (db.outbox[i].booked && !db.outbox[i].kind.Swap?) {
      if i != read.row {
        LastOfCycle(db, start, c, read.row, i);
      }
    }
  }

  /** Freeing and closing over a transaction the node once did not answer for breaks nothing but what that is on record for. */
  lemma BlindFreeKeeps(g: Config, db: Db, start: Start, c: nat)
    requires BooksOk(db, start) && CapsOk(g, db) && c < |db.cycles| && c in db.unanswered
    ensures BooksOk(SettleSpend(db, c, Released, None), start) && CapsOk(g, SettleSpend(db, c, Released, None))
  {
    var e := SettledEntry(db.cycles[c].entry, Released, None);
    assert CycleOk(db, c);
    assert SettleSpend(db, c, Released, None) == SetEntry(db, c, e);
    SetEntryKeeps(db, start, c, e);
    CapsNotRaised(g, db, SetEntry(db, c, e), c, SetEntry(db, c, e).cycles[c]);
  }

  lemma BlindCloseKeeps(g: Config, db: Db, start: Start, c: nat)
    requires BooksOk(db, start) && CapsOk(g, db) && c < |db.cycles| && c in db.unanswered
    ensures BooksOk(SetState(db, c, Done), start) && CapsOk(g, SetState(db, c, Done))
  {
    assert CycleOk(db, c);
    StateKeeps(g, db, start, c, Done);
  }

  lemma FinishedRowsAreIn(db: Db, start: Start, c: nat, read: Step)
    requires BooksOk(db, start) && FinishEnabled(db, c, read, FinishClose)
    ensures forall i :: OfCycle(db, i, c) ==> db.outbox[i].booked || Dead(db.outbox[i])
  {
    ReadsItsLast(db, start, c, read);
    if NoSwapLanded(db.outbox[read.row]) {
      NoSwapMeansDead(db, start, c, read.row);
    } else {
      forall i | OfCycle(db, i, c) ensures db.outbox[i].booked {
        if i != read.row {
          LastOfCycle(db, start, c, read.row, i);
        }
      }
    }
  }

  /** Cycles other than `c` and the rows of other cycles are the same. */
  ghost predicate OnlyCycle(db: Db, db': Db, c: nat) {
    && c < |db.cycles| == |db'.cycles| && |db'.outbox| == |db.outbox|
    && (forall d: nat :: d != c ==> (d in db'.unanswered <==> d in db.unanswered))
    && (forall d :: 0 <= d < |db.cycles| ==>
          db'.cycles[d].plan == db.cycles[d].plan && (d != c ==> db'.cycles[d] == db.cycles[d]))
    && (forall i :: 0 <= i < |db.outbox| ==>
          db'.outbox[i].cycle == db.outbox[i].cycle && (db.outbox[i].cycle != Some(c) ==> db'.outbox[i] == db.outbox[i]))
  }

  /** Nobody running a cycle still relies on one that ever waited for the chain. */
  lemma AwaitingCycleIsNobodys(g: Config, s: State, s': State, c: nat)
    requires LeasesOk(g, s) && HoldersOk(s)
    requires s' == s.(db := s'.db) && s'.db.money.Keys == s.db.money.Keys
    requires OnlyCycle(s.db, s'.db, c) && !s.db.cycles[c].state.Running? && WasAwaited(s.db.cycles[c].steps)
    requires s'.db.cycles[c].state.Done? || s'.db.cycles[c].state == s.db.cycles[c].state
    ensures LeasesOk(g, s') && HoldersOk(s')
  {
    forall q | Holds(s, q) ensures JobOk(s'.db, s.procs[q].plan, s.procs[q].job) {
      assert JobOk(s.db, s.procs[q].plan, s.procs[q].job);
      LeftAloneStaysOk(s.db, s'.db, s.procs[q].plan, s.procs[q].job);
    }
    UnlockedWriteKeeps(g, s, s');
  }

  lemma FinishKeeps(g: Config, s: State, start: Start, c: nat, read: Step, step: FinishStep)
    requires Inv(g, s, start) && FinishEnabled(s.db, c, read, step)
    ensures Inv(g, s.(db := FinishWrite(s.db, c, read, step)), start)
  {
    FinishWriteKeeps(g, s.db, start, c, read, step);
    ReadMeansAwaited(s.db, c, read);
    AwaitingCycleIsNobodys(g, s, s.(db := FinishWrite(s.db, c, read, step)), c);
  }

  lemma ReadMeansAwaited(db: Db, c: nat, read: Step)
    requires ReadOnce(db, c, read)
    ensures WasAwaited(db.cycles[c].steps)
  {
    var k :| 0 <= k < |db.cycles[c].steps| && db.cycles[c].steps[k] == read;
    assert db.cycles[c].steps[k].Awaiting?;
  }

  /******* The operator's review *******/

  /** A cycle held for review has all of its rows booked, and its reservation was not freed. */
  lemma HeldCycleIsBooked(db: Db, start: Start, c: nat)
    requires BooksOk(db, start) && HeldOnce(db, c)
    ensures forall i :: OfCycle(db, i, c) ==> db.outbox[i].booked
    ensures db.cycles[c].entry.Some? && !db.cycles[c].entry.value.status.Released?
  {
    assert CycleOk(db, c);
    var steps := db.cycles[c].steps;
    var a :| 0 <= a < |steps| && steps[a].Anomaly?;
    AllBookedUnderAnomaly(db, c);
    var i := steps[a].swap.value;
    assert EmptySwap(db, c, i);
    assert RowOk(db.outbox[i]) && SwapCovered(db.outbox[i], db.cycles[c].entry.value, c in db.unanswered);
  }

  lemma HeldIsHeldOnce(db: Db, start: Start, c: nat)
    requires BooksOk(db, start) && c < |db.cycles| && HeldForReview(db.cycles[c])
    ensures HeldOnce(db, c)
  {
    assert CycleOk(db, c);
    var steps := db.cycles[c].steps;
    var k :| 0 <= k < |steps| && (steps[k].Awaiting? || steps[k].Anomaly?);
    var _ := HeldByAnAnomaly(steps, k);
  }

  lemma ReviewKeeps(g: Config, s: State, start: Start, p: nat, c: nat, step: ReviewStep)
    requires Inv(g, s, start) && ReviewEnabled(s, p, c)
    ensures Inv(g, s.(db := ReviewWrite(s.db, c, step)), start)
  {
    var s' := s.(db := ReviewWrite(s.db, c, step));
    InTimeHolds(g, s, p);
    HeldCycleIsBooked(s.db, start, c);
    match step {
      case ReviewLog => AppendKeeps(g, s.db, start, c, Closed);
      case ReviewSpend => SpentKeeps(g, s.db, start, c);
      case ReviewClose => StateKeeps(g, s.db, start, c, Done);
    }
    HolderStepKeeps(g, s, s', p);
  }

  lemma SpentKeeps(g: Config, db: Db, start: Start, c: nat)
    requires BooksOk(db, start) && CapsOk(g, db) && c < |db.cycles|
    requires db.cycles[c].entry.Some? && !db.cycles[c].entry.value.status.Released?
    ensures BooksOk(SettleSpend(db, c, Spent, None), start) && CapsOk(g, SettleSpend(db, c, Spent, None))
  {
    var e := SettledEntry(db.cycles[c].entry, Spent, None);
    assert CycleOk(db, c);
    SetEntryKeeps(db, start, c, e);
    CapsNotRaised(g, db, SetEntry(db, c, e), c, SetEntry(db, c, e).cycles[c]);
  }

  /******* Rows *******/

  /** A holder's knowledge survives whatever the chain or the operator does to an undecided row. */
  lemma RowStepLeavesJobs(g: Config, s: State, start: Start, i: nat, step: RowStep, p: nat)
    requires Inv(g, s, start) && RowEnabled(s, i, step) && Holds(s, p)
    ensures JobOk(SetRow(s.db, i, RowAfter(s.db.outbox[i], step)), s.procs[p].plan, s.procs[p].job)
  {
    var db' := SetRow(s.db, i, RowAfter(s.db.outbox[i], step));
    var plan, job := s.procs[p].plan, s.procs[p].job;
    assert JobOk(s.db, plan, job);
    assert RowOk(s.db.outbox[i]) && RowRefOk(s.db, s.db.outbox[i]);
    if job.Live? && s.db.outbox[i].cycle == Some(job.c) {
      assert OfCycle(s.db, i, job.c);
      OwnRowStepFits(s, i, step, p);
    } else {
      LeftAloneStaysOk(s.db, db', plan, job);
    }
  }

  lemma OwnRowStepFits(s: State, i: nat, step: RowStep, p: nat)
    requires RowEnabled(s, i, step) && Holds(s, p) && JobOk(s.db, s.procs[p].plan, s.procs[p].job)
    requires s.procs[p].job.Live? && OfCycle(s.db, i, s.procs[p].job.c)
    requires RowOk(s.db.outbox[i]) && RowRefOk(s.db, s.db.outbox[i])
    ensures JobOk(SetRow(s.db, i, RowAfter(s.db.outbox[i], step)), s.procs[p].plan, s.procs[p].job)
  {
  }

  lemma RowKeeps(g: Config, s: State, start: Start, i: nat, step: RowStep)
    requires Inv(g, s, start) && RowEnabled(s, i, step)
    ensures Inv(g, s.(db := SetRow(s.db, i, RowAfter(s.db.outbox[i], step))), start)
  {
    var row := RowAfter(s.db.outbox[i], step);
    assert RowOk(s.db.outbox[i]);
    SetRowKeeps(s.db, start, i, row);
    SameCyclesSameCaps(g, s.db, SetRow(s.db, i, row));
    forall q | Holds(s, q) ensures JobOk(SetRow(s.db, i, row), s.procs[q].plan, s.procs[q].job) {
      RowStepLeavesJobs(g, s, start, i, step, q);
    }
    UnlockedWriteKeeps(g, s, s.(db := SetRow(s.db, i, row)));
  }

  /** The orphan pass finds a transaction of a cycle only if the node once did not answer for it, and books every one as signed. */
  lemma OrphansAreLoose(db: Db, start: Start, i: nat)
    requires BooksOk(db, start) && IsOrphan(db, i)
    ensures db.outbox[i].cycle.Some? ==> db.outbox[i].cycle.value in db.unanswered
    ensures MayBook(db, i, ChainEffect(db.outbox[i]))
    ensures RecoveredEffect(db.outbox[i], RecordedDecision(db, i)) == Some(ChainEffect(db.outbox[i]))
  {
    assert RowRefOk(db, db.outbox[i]) && RowOk(db.outbox[i]);
    if db.outbox[i].cycle.Some? {
      var c := db.outbox[i].cycle.value;
      assert CycleOk(db, c) && OfCycle(db, i, c);
    }
  }

  /** A write that adds or books a row of no cycle. */
  lemma LooseWriteKeeps(g: Config, s: State, db': Db)
    requires LeasesOk(g, s) && HoldersOk(s)
    requires db'.cycles == s.db.cycles && db'.unanswered == s.db.unanswered && db'.money.Keys == s.db.money.Keys && |s.db.outbox| <= |db'.outbox|
    requires forall i :: 0 <= i < |s.db.outbox| ==>
               db'.outbox[i] == s.db.outbox[i] || (db'.outbox[i].cycle.None? && s.db.outbox[i].cycle.None?)
    requires forall i :: |s.db.outbox| <= i < |db'.outbox| ==> db'.outbox[i].cycle.None?
    ensures LeasesOk(g, s.(db := db')) && HoldersOk(s.(db := db'))
  {
    forall q | Holds(s, q) ensures JobOk(db', s.procs[q].plan, s.procs[q].job) {
      LeftAloneStaysOk(s.db, db', s.procs[q].plan, s.procs[q].job);
    }
    UnlockedWriteKeeps(g, s, s.(db := db'));
  }

  lemma OrphanKeeps(g: Config, s: State, start: Start, i: nat)
    requires Inv(g, s, start) && Enabled(g, s, BookOrphan(i))
    ensures Inv(g, Apply(g, s, BookOrphan(i)), start)
  {
    OrphansAreLoose(s.db, start, i);
    var row := s.db.outbox[i];
    var e := ChainEffect(row);
    WithReceiptKeeps(s.db, start, i, e);
    CapsBooked(g, s.db, start, i, e);
    if row.cycle.Some? {
      assert CycleOk(s.db, row.cycle.value);
      AwaitingCycleIsNobodys(g, s, s.(db := WithReceipt(s.db, i, e)), row.cycle.value);
    } else {
      LooseWriteKeeps(g, s, WithReceipt(s.db, i, e));
    }
  }

  /** With no deposit or redeem of the plan in flight nothing signed before still moves its position. */
  lemma LooseMaySign(db: Db, start: Start, plan: string, row: Row)
    requires BooksOk(db, start) && plan in db.money && row.kind != Swap
    requires row.kind.Redeem? ==> !PositionInFlight(db, plan)
    requires row == Row(plan, None, row.kind, None, Signed, false, Unmined, false)
    ensures MaySign(db, row)
  {
    forall i | 0 <= i < |db.outbox| && IsWithdrawal(row) ensures !StillMoves(db.outbox[i], plan) {
      assert RowOk(db.outbox[i]) && RowRefOk(db, db.outbox[i]) && !MovesInFlight(db.outbox[i], plan);
    }
  }

  lemma LooseKeeps(g: Config, s: State, start: Start, plan: string, kind: Kind)
    requires Inv(g, s, start) && Enabled(g, s, SignLoose(plan, kind))
    ensures Inv(g, Apply(g, s, SignLoose(plan, kind)), start)
  {
    var row := Row(plan, None, kind, None, Signed, false, Unmined, false);
    LooseMaySign(s.db, start, plan, row);
    AddRowKeeps(s.db, start, row);
    SameCyclesSameCaps(g, s.db, AddRow(s.db, row));
    LooseWriteKeeps(g, s, AddRow(s.db, row));
  }

  /******* Runs *******/

  /** Whatever happens next, the invariant holds. */
  lemma ActionKeeps(g: Config, s: State, start: Start, a: Action)
    requires Inv(g, s, start) && Enabled(g, s, a)
    ensures Inv(g, Apply(g, s, a), start)
  {
    match a {
      case Tick(now) =>
        forall q ensures Holds(Apply(g, s, a), q) <==> Holds(s, q) {}
      case ByLock(p, step) => LockKeeps(g, s, start, p, step);
      case ByStart(p, step) => StartKeeps(g, s, start, p, step);
      case ByCycle(p, step) => LiveKeeps(g, s, start, p, step);
      case ByRecovery(p, c, step) => RecoverKeeps(g, s, start, p, c, step);
      case ByFinisher(c, read, step) => FinishKeeps(g, s, start, c, read, step);
      case ByReview(p, c, step) => ReviewKeeps(g, s, start, p, c, step);
      case OnRow(i, step) => RowKeeps(g, s, start, i, step);
      case BookOrphan(i) => OrphanKeeps(g, s, start, i);
      case SignLoose(plan, kind) => LooseKeeps(g, s, start, plan, kind);
    }
  }

  lemma InitOk(g: Config, s: State)
    requires Init(s) && g.ttl > 0
    ensures Inv(g, s, s.db.money)
  {
  }

  /** Every state of every run satisfies the invariant, with money counted from what the plans started with. */
  lemma {:induction false} RunKeepsInv(g: Config, run: seq<State>, k: nat)
    requires IsRun(g, run) && g.ttl > 0 && k < |run|
    ensures Inv(g, run[k], run[0].db.money)
  {
    if k == 0 {
      InitOk(g, run[0]);
    } else {
      RunKeepsInv(g, run, k - 1);
      assert StepAt(g, run, k - 1);
      var a :| Enabled(g, run[k - 1], a) && run[k] == Apply(g, run[k - 1], a);
      ActionKeeps(g, run[k - 1], run[0].db.money, a);
    }
  }
}
