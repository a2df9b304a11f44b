/**
 Every action of `Protocol` keeps the invariant, so every state of every run satisfies it.
 */
module ProtocolSafety {
  import opened Basics
  import opened Books
  import opened BooksInvariant
  import opened Protocol
  import opened ProtocolInvariant

  type Start = map<string, Money>

  /******* Locks *******/

  lemma LockKeeps(g: Config, s: State, start: Start, p: nat, step: LockStep)
    requires Inv(g, s, start) && LockEnabled(s, p, step)
    ensures Inv(g, LockApply(g, s, p, step), start)
  {
    LockKeepsLeases(g, s, p, step);
  }

  /** No action on locks lets a process hold a lock it lost, or two hold one. */
  lemma LockKeepsLeases(g: Config, s: State, p: nat, step: LockStep)
    requires LeasesOk(g, s) && HoldersOk(s) && LockEnabled(s, p, step)
    ensures LeasesOk(g, LockApply(g, s, p, step)) && HoldersOk(LockApply(g, s, p, step))
  {
    var s' := LockApply(g, s, p, step);
    match step {
      case Acquire(plan) =>
        forall q | q != p ensures Holds(s', q) <==> Holds(s, q) && s.procs[q].plan != plan {}
      case _ =>
        forall q | q != p ensures Holds(s', q) <==> Holds(s, q) {}
    }
  }

  lemma StartKeeps(g: Config, s: State, start: Start, p: nat, step: StartStep)
    requires Inv(g, s, start) && StartEnabled(s, p, step)
    ensures Inv(g, StartApply(s, p, step), start)
  {
    var s' := StartApply(s, p, step);
    var plan := s.procs[p].plan;
    InTimeHolds(g, s, p);
    if step.OpenCycle? {
      assert JobOk(s.db, plan, Clear);
      AddCycleKeeps(s.db, start, plan);
      CapsWithNewCycle(g, s.db, plan);
      forall i | 0 <= i < |s.db.outbox| ensures s.db.outbox[i].cycle != Some(|s.db.cycles|) {
        assert RowRefOk(s.db, s.db.outbox[i]);
      }
    }
    HolderStepKeeps(g, s, s', p);
  }

  /******* Live cycles *******/

  ghost predicate LiveHolder(g: Config, s: State, p: nat, step: LiveStep) {
    && LiveEnabled(g, s, p, step) && Holds(s, p)
    && JobOk(s.db, s.procs[p].plan, s.procs[p].job)
  }

  /** The step leaves its job true, and touches nothing of other plans. */
  ghost predicate StepFits(g: Config, s: State, p: nat, step: LiveStep)
    requires LiveEnabled(g, s, p, step)
  {
    var db' := LiveWrite(g, s, p, step);
    && db'.money.Keys == s.db.money.Keys
    && OnlyPlan(s.db, db', s.procs[p].plan)
    && JobOk(db', s.procs[p].plan, JobAfter(g, s, p, step))
  }

  ghost predicate KeepsBooks(g: Config, s: State, start: Start, p: nat, step: LiveStep)
    requires LiveEnabled(g, s, p, step)
  {
    BooksOk(LiveWrite(g, s, p, step), start) && CapsOk(g, LiveWrite(g, s, p, step))
  }

  /** Everything the cycle signed before row `i` is booked, and none of it is a swap. */
  ghost predicate BookedBefore(db: Db, c: nat, i: nat) {
    forall j :: OfCycle(db, j, c) && j != i ==> db.outbox[j].booked && !db.outbox[j].kind.Swap?
  }

  lemma BookedBeforeTheLast(db: Db, start: Start, c: nat, i: nat)
    requires BooksOk(db, start) && Last(db, c, i)
    ensures BookedBefore(db, c, i)
  {
    forall j | OfCycle(db, j, c) && j != i ensures db.outbox[j].booked && !db.outbox[j].kind.Swap? {
      assert InTurn(db, j, i);
    }
  }

  /** Queries over rows do not see a write to cycle columns. */
  lemma SameRowsAfterCycleWrite(db: Db, db': Db, c: nat)
    requires db'.outbox == db.outbox
    ensures forall i :: OfCycle(db', i, c) <==> OfCycle(db, i, c)
    ensures forall i: nat :: Last(db', c, i) <==> Last(db, c, i)
    ensures NoRows(db', c) <==> NoRows(db, c)
    ensures forall i: nat :: EmptySwap(db', c, i) <==> EmptySwap(db, c, i)
  {
  }

  lemma QuietStepFits(g: Config, s: State, p: nat, step: LiveStep)
    requires LiveHolder(g, s, p, step)
    requires step.HaveAllowance? || step.Again? || step.GiveUp? || step.Throw?
    ensures StepFits(g, s, p, step)
  {
  }

  lemma ObserveFits(g: Config, s: State, p: nat, step: LiveStep)
    requires LiveHolder(g, s, p, step) && step.Observe?
    requires BookedBefore(s.db, s.procs[p].job.c, s.procs[p].job.phase.row)
    ensures StepFits(g, s, p, step)
  {
  }

  lemma DecideFits(g: Config, s: State, p: nat, step: LiveStep)
    requires LiveHolder(g, s, p, step) && step.Decide?
    ensures StepFits(g, s, p, step)
  {
  }

  lemma DecideKeepsBooks(g: Config, s: State, start: Start, p: nat, step: LiveStep)
    requires Inv(g, s, start) && LiveHolder(g, s, p, step) && step.Decide?
    ensures KeepsBooks(g, s, start, p, step)
  {
    AppendKeeps(g, s.db, start, s.procs[p].job.c, Execute(step.d));
  }

  lemma AppendKeeps(g: Config, db: Db, start: Start, c: nat, entry: Step)
    requires BooksOk(db, start) && CapsOk(g, db) && c < |db.cycles| && MayAppend(db, c, entry)
    ensures BooksOk(AppendStep(db, c, entry), start) && CapsOk(g, AppendStep(db, c, entry))
  {
    AppendStepKeeps(db, start, c, entry);
    CapsNotRaised(g, db, AppendStep(db, c, entry), c, AppendStep(db, c, entry).cycles[c]);
  }

  lemma StateKeeps(g: Config, db: Db, start: Start, c: nat, state: CycleState)
    requires BooksOk(db, start) && CapsOk(g, db) && c < |db.cycles| && MaySetState(db, c, state)
    ensures BooksOk(SetState(db, c, state), start) && CapsOk(g, SetState(db, c, state))
  {
    SetStateKeeps(db, start, c, state);
    CapsNotRaised(g, db, SetState(db, c, state), c, SetState(db, c, state).cycles[c]);
  }

  lemma ReserveFits(g: Config, s: State, p: nat, step: LiveStep)
    requires LiveHolder(g, s, p, step) && step.Reserve?
    ensures StepFits(g, s, p, step)
  {
  }

  lemma ReserveKeepsBooks(g: Config, s: State, start: Start, p: nat, step: LiveStep)
    requires Inv(g, s, start) && LiveHolder(g, s, p, step) && step.Reserve?
    ensures KeepsBooks(g, s, start, p, step)
  {
    var job := s.procs[p].job;
    var amount := job.phase.decision.spend;
    SetEntryKeeps(s.db, start, job.c, Some(Entry(step.day, amount, Reserved)));
    CapsReserved(g, s.db, job.c, step.day, amount);
  }

  lemma SignFits(g: Config, s: State, p: nat, step: LiveStep)
    requires LiveHolder(g, s, p, step) && step.Sign?
    ensures StepFits(g, s, p, step)
  {
  }

  lemma SignKeepsBooks(g: Config, s: State, start: Start, p: nat, step: LiveStep)
    requires Inv(g, s, start) && LiveHolder(g, s, p, step) && step.Sign?
    ensures KeepsBooks(g, s, start, p, step)
  {
    var job := s.procs[p].job;
    var row := Row(s.procs[p].plan, Some(job.c), step.kind, Some(job.phase.decision), Signed, false, Unmined, false);
    SignedRowMaySign(g, s, p, step, row);
    AddRowKeeps(s.db, start, row);
    SameCyclesSameCaps(g, s.db, AddRow(s.db, row));
  }

  lemma SignedRowMaySign(g: Config, s: State, p: nat, step: LiveStep, row: Row)
    requires LiveHolder(g, s, p, step) && step.Sign?
    requires row == Row(s.procs[p].plan, Some(s.procs[p].job.c), step.kind, Some(s.procs[p].job.phase.decision),
                        Signed, false, Unmined, false)
    ensures MaySign(s.db, row)
  {
  }

  lemma BookLiveFits(g: Config, s: State, p: nat, step: LiveStep)
    requires LiveHolder(g, s, p, step) && step.BookLive?
    requires RowRefOk(s.db, s.db.outbox[s.procs[p].job.phase.row])
    requires BookedBefore(s.db, s.procs[p].job.c, s.procs[p].job.phase.row)
    ensures StepFits(g, s, p, step)
  {
  }

  lemma BookLiveKeepsBooks(g: Config, s: State, start: Start, p: nat, step: LiveStep)
    requires Inv(g, s, start) && LiveHolder(g, s, p, step) && step.BookLive?
    ensures KeepsBooks(g, s, start, p, step)
  {
    var i := s.procs[p].job.phase.row;
    var row := s.db.outbox[i];
    assert RowRefOk(s.db, row) && CycleOk(s.db, s.procs[p].job.c);
    var e := LiveEffect(row, row.signedFor.value);
    WithReceiptKeeps(s.db, start, i, e);
    CapsBooked(g, s.db, start, i, e);
  }

  lemma CloseFits(g: Config, s: State, p: nat, step: LiveStep)
    requires LiveHolder(g, s, p, step) && (step.Close? || step.Free? || step.Park? || step.ParkOdd?)
    ensures StepFits(g, s, p, step)
  {
  }

  /** Freeing the reservation of a cycle whose swaps are all dead keeps books and caps. */
  lemma FreedKeeps(g: Config, db: Db, start: Start, c: nat)
    requires BooksOk(db, start) && CapsOk(g, db) && c < |db.cycles|
    requires forall i :: OfCycle(db, i, c) && db.outbox[i].kind.Swap? ==> Dead(db.outbox[i])
    ensures BooksOk(SettleSpend(db, c, Released, None), start) && CapsOk(g, SettleSpend(db, c, Released, None))
  {
    var e := SettledEntry(db.cycles[c].entry, Released, None);
    assert CycleOk(db, c);
    assert SettleSpend(db, c, Released, None) == SetEntry(db, c, e);
    SetEntryKeeps(db, start, c, e);
    var db' := SetEntry(db, c, e);
    CapsNotRaised(g, db, db', c, db'.cycles[c]);
  }

  lemma LogFits(g: Config, s: State, p: nat, step: LiveStep)
    requires LiveHolder(g, s, p, step) && (step.LogAwait? || step.LogOdd?)
    ensures StepFits(g, s, p, step)
  {
    var c, db' := s.procs[p].job.c, LiveWrite(g, s, p, step);
    SameRowsAfterCycleWrite(s.db, db', c);
    var steps' := db'.cycles[c].steps;
    assert steps'[|steps'| - 1].Awaiting? || steps'[|steps'| - 1].Anomaly?;
  }

  lemma LogKeepsBooks(g: Config, s: State, start: Start, p: nat, step: LiveStep)
    requires Inv(g, s, start) && LiveHolder(g, s, p, step) && (step.LogAwait? || step.LogOdd?)
    ensures KeepsBooks(g, s, start, p, step)
  {
    var job := s.procs[p].job;
    assert CycleOk(s.db, job.c);
    var entry := if step.LogOdd? then Anomaly(Some(job.phase.row))
                 else Awaiting(job.phase.row, LastExecute(s.db.cycles[job.c].steps).value);
    AppendKeeps(g, s.db, start, job.c, entry);
  }

  lemma LiveStepFits(g: Config, s: State, start: Start, p: nat, step: LiveStep)
    requires LiveHolder(g, s, p, step) && BooksOk(s.db, start)
    ensures StepFits(g, s, p, step)
  {
    var job := s.procs[p].job;
    match step {
      case Decide(_) => DecideFits(g, s, p, step);
      case Reserve(_) => ReserveFits(g, s, p, step);
      case Sign(_) => SignFits(g, s, p, step);
      case Observe(_) => BookedBeforeTheLast(s.db, start, job.c, job.phase.row); ObserveFits(g, s, p, step);
      case BookLive =>
        BookedBeforeTheLast(s.db, start, job.c, job.phase.row);
        assert RowRefOk(s.db, s.db.outbox[job.phase.row]);
        BookLiveFits(g, s, p, step);
      case LogAwait => LogFits(g, s, p, step);
      case LogOdd => LogFits(g, s, p, step);
      case Close => CloseFits(g, s, p, step);
      case Free => CloseFits(g, s, p, step);
      case Park => CloseFits(g, s, p, step);
      case ParkOdd => CloseFits(g, s, p, step);
      case _ => QuietStepFits(g, s, p, step);
    }
  }

  lemma LiveStepKeepsBooks(g: Config, s: State, start: Start, p: nat, step: LiveStep)
    requires Inv(g, s, start) && LiveHolder(g, s, p, step)
    ensures KeepsBooks(g, s, start, p, step)
  {
    var c := s.procs[p].job.c;
    match step {
      case Decide(_) => DecideKeepsBooks(g, s, start, p, step);
      case Reserve(_) => ReserveKeepsBooks(g, s, start, p, step);
      case Sign(_) => SignKeepsBooks(g, s, start, p, step);
      case BookLive => BookLiveKeepsBooks(g, s, start, p, step);
      case Close => StateKeeps(g, s.db, start, c, Done);
      case Free => FreedKeeps(g, s.db, start, c);
      case LogAwait => LogKeepsBooks(g, s, start, p, step);
      case LogOdd => LogKeepsBooks(g, s, start, p, step);
      case Park => StateKeeps(g, s.db, start, c, AwaitingTx);
      case ParkOdd => StateKeeps(g, s.db, start, c, AwaitingTx);
      case _ =>
    }
  }

  lemma LiveKeeps(g: Config, s: State, start: Start, p: nat, step: LiveStep)
    requires Inv(g, s, start) && LiveEnabled(g, s, p, step)
    ensures Inv(g, LiveApply(g, s, p, step), start)
  {
    hide CapsOk, LiveWrite, JobAfter, LiveEnabled;
    var s' := LiveApply(g, s, p, step);
    if Holds(s, p) {
      LiveStepFits(g, s, start, p, step);
      LiveStepKeepsBooks(g, s, start, p, step);
      HolderStepKeeps(g, s, s', p);
    } else {
      // a process that lost the lock writes nothing
      LostWritesNothing(g, s, p, step);
      LostStepKeeps(g, s, s', p);
    }
  }

  lemma LostWritesNothing(g: Config, s: State, p: nat, step: LiveStep)
    requires LeasesOk(g, s) && LiveEnabled(g, s, p, step) && !Holds(s, p)
    ensures LiveWrite(g, s, p, step) == s.db && p in s.procs
  {
  }

  lemma LostStepKeeps(g: Config, s: State, s': State, p: nat)
    requires LeasesOk(g, s) && HoldersOk(s) && p in s.procs && !Holds(s, p)
    requires s' == s.(procs := s'.procs) && s'.procs.Keys == s.procs.Keys
    requires s'.procs[p].plan == s.procs[p].plan && s'.procs[p].until == s.procs[p].until
    requires forall q :: q in s.procs && q != p ==> s'.procs[q] == s.procs[q]
    ensures LeasesOk(g, s') && HoldersOk(s')
  {
  }
}
