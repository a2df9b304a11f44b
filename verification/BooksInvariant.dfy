/**
 What the tables of `Books` always satisfy, and the lemma for each write saying when it keeps
 that. Nothing here mentions processes or locks: `Protocol` shows that the conditions hold
 whenever a process makes the write.
 */
module BooksInvariant {
  import opened Basics
  import opened Books

  /** Every reference leads somewhere, and a row says what it is. */
  ghost predicate RefsOk(db: Db) {
    && (forall c :: 0 <= c < |db.cycles| ==> db.cycles[c].plan in db.money)
    && (forall i :: 0 <= i < |db.outbox| ==> RowRefOk(db, db.outbox[i]))
    && (forall c :: c in db.unanswered ==> c < |db.cycles|)
  }

  predicate RowRefOk(db: Db, row: Row) {
    && row.plan in db.money
    && (if row.cycle.None? then row.kind != Swap
        else
          && row.cycle.value < |db.cycles|
          && db.cycles[row.cycle.value].plan == row.plan
          && row.kind != Deposit
          && row.signedFor.Some?)
  }

  /** A row's status agrees with the chain; a swap moves at most what it was signed for. */
  predicate RowOk(row: Row) {
    && (row.booked ==> row.status.Confirmed?)
    && (row.status.Confirmed? ==> row.fate.Mined?)
    && (row.status.Failed? && row.fate.Mined? ==> row.broadcast && row.cycle.Some?)
    && (row.kind.Swap? && row.fate.Mined? && row.signedFor.Some? ==>
          row.fate.logs.usdt <= row.signedFor.value.spend)
  }

  ghost predicate RowsOk(db: Db) {
    forall i :: 0 <= i < |db.outbox| ==> RowOk(db.outbox[i])
  }

  /** A cycle signs on only after what it signed before is booked, each kind once, the swap last. */
  ghost predicate SignedInTurn(db: Db) {
    forall i, j :: InTurn(db, i, j)
  }

  predicate InTurn(db: Db, i: int, j: int) {
    0 <= i < j < |db.outbox| && db.outbox[i].cycle.Some? && db.outbox[i].cycle == db.outbox[j].cycle ==>
      db.outbox[i].booked && db.outbox[i].kind != Swap && db.outbox[i].kind != db.outbox[j].kind
  }

  /** The whole position is withdrawn only when each deposit or withdrawal signed before is booked or dead. */
  ghost predicate WithdrawnInTurn(db: Db) {
    forall i, j :: WithdrawnAfter(db, i, j)
  }

  predicate WithdrawnAfter(db: Db, i: int, j: int) {
    0 <= i < j < |db.outbox| && db.outbox[i].plan == db.outbox[j].plan
    && MovesPosition(db.outbox[i]) && IsWithdrawal(db.outbox[j]) ==>
      db.outbox[i].booked || Dead(db.outbox[i])
  }

  /** A redeem outside any cycle takes the whole position. */
  predicate IsWithdrawal(row: Row) {
    row.kind.Redeem? && row.cycle.None?
  }

  predicate MovesPosition(row: Row) {
    row.kind.Deposit? || IsWithdrawal(row)
  }

  /** Only the newest cycle of a plan is ever open: at most one is running or awaiting. */
  ghost predicate OpenIsNewest(db: Db) {
    forall c, d :: Superseded(db, c, d)
  }

  predicate Superseded(db: Db, c: int, d: int) {
    0 <= c < d < |db.cycles| && db.cycles[c].plan == db.cycles[d].plan ==> db.cycles[c].state.Done?
  }

  /** The cycles of a plan signed one after another. */
  ghost predicate RowsFollowCycles(db: Db) {
    forall i, j :: InCycleOrder(db, i, j)
  }

  predicate InCycleOrder(db: Db, i: int, j: int) {
    0 <= i < j < |db.outbox| && db.outbox[i].plan == db.outbox[j].plan
    && db.outbox[i].cycle.Some? && db.outbox[j].cycle.Some? ==>
      db.outbox[i].cycle.value <= db.outbox[j].cycle.value
  }

  /** What the step log of a cycle says about its rows. */
  ghost predicate StepsOk(db: Db, c: nat)
    requires c < |db.cycles|
  {
    var steps := db.cycles[c].steps;
    && (forall i :: OfCycle(db, i, c) ==> LastExecute(steps).Some?)
    && (forall i :: OfCycle(db, i, c) && db.outbox[i].kind.Swap? ==> LastExecute(steps) == db.outbox[i].signedFor)
    && (forall k :: 0 <= k < |steps| && steps[k].Awaiting? ==>
          && Last(db, c, steps[k].row)
          && (db.outbox[steps[k].row].kind.Swap? ==> db.outbox[steps[k].row].signedFor == Some(steps[k].decision)))
    && (forall k :: 0 <= k < |steps| && steps[k].Anomaly? ==>
          steps[k].swap.Some? && EmptySwap(db, c, steps[k].swap.value))
    && (c in db.unanswered ==> WasAwaited(steps))
  }

  ghost predicate WasAwaited(steps: seq<Step>) {
    exists k :: 0 <= k < |steps| && steps[k].Awaiting?
  }

  /** Row `i` is the cycle's swap, mined and booked, and it delivered no tokens. */
  ghost predicate EmptySwap(db: Db, c: nat, i: nat) {
    && Last(db, c, i)
    && db.outbox[i].kind.Swap? && db.outbox[i].booked
    && db.outbox[i].fate.Mined? && db.outbox[i].fate.logs.tokens == 0
  }

  /** What the state of a cycle says about its rows. */
  ghost predicate StateOk(db: Db, c: nat)
    requires c < |db.cycles|
  {
    && (db.cycles[c].state.AwaitingTx? ==>
          exists k :: 0 <= k < |db.cycles[c].steps| && (db.cycles[c].steps[k].Awaiting? || db.cycles[c].steps[k].Anomaly?))
    && (db.cycles[c].state.Done? || c in db.unanswered ==>
          forall i :: OfCycle(db, i, c) ==> IsOver(db, c, db.outbox[i]))
  }

  /** Nothing of the row is left to book; unless the node once did not answer for it. */
  predicate IsOver(db: Db, c: nat, row: Row) {
    row.booked || Dead(row) || (c in db.unanswered && Missed(row))
  }

  /** A cycle that signed has a reservation; a freed one has no swap that could still take effect. */
  ghost predicate EntryOk(db: Db, c: nat)
    requires c < |db.cycles|
  {
    forall i :: OfCycle(db, i, c) ==>
      && db.cycles[c].entry.Some?
      && (db.outbox[i].kind.Swap? ==> SwapCovered(db.outbox[i], db.cycles[c].entry.value, c in db.unanswered))
  }

  predicate SwapCovered(row: Row, e: Entry, isUnanswered: bool) {
    && (e.status.Released? ==> if isUnanswered then !row.booked else Dead(row))
    && (isUnanswered && row.booked ==> e.status.Spent?)
    && (!row.booked ==> row.signedFor.Some? && row.signedFor.value.spend <= e.amount)
  }

  ghost predicate CycleOk(db: Db, c: nat)
    requires c < |db.cycles|
  {
    StepsOk(db, c) && StateOk(db, c) && EntryOk(db, c)
  }

  ghost predicate CyclesOk(db: Db) {
    forall c :: 0 <= c < |db.cycles| ==> CycleOk(db, c)
  }

  /**
   The receipts table: one receipt per booked row, with the effect the chain calls for (or none, for
   a swap that delivered nothing). Those of a plan's cycles are in the order they were signed, but for
   cycles the node once did not answer for; and nothing that was signed before a withdrawal of the
   whole position and moves it too comes after it.
   */
  ghost predicate ReceiptsOk(db: Db) {
    && (forall k :: 0 <= k < |db.receipts| ==> ReceiptOk(db, db.receipts[k]))
    && (forall k, l :: ReceiptsInOrder(db, k, l))
    && (forall i :: 0 <= i < |db.outbox| && db.outbox[i].booked ==> HasReceipt(db, i))
  }

  ghost predicate HasReceipt(db: Db, i: nat) {
    exists k :: 0 <= k < |db.receipts| && db.receipts[k].row == i
  }

  ghost predicate ReceiptOk(db: Db, r: Receipt) {
    && r.row < |db.outbox|
    && var row := db.outbox[r.row];
    && row.booked && row.fate.Mined? && r.plan == row.plan
    && (row.kind.Swap? ==> row.signedFor.Some?)
    && (r.effect == ChainEffect(row) || (row.kind.Swap? && row.fate.logs.tokens == 0 && r.effect == Nothing))
  }

  predicate ReceiptsInOrder(db: Db, k: int, l: int) {
    0 <= k < l < |db.receipts| ==>
      var r, s := db.receipts[k], db.receipts[l];
      && r.row != s.row
      && ((r.row < |db.outbox| && s.row < |db.outbox| && r.plan == s.plan
           && db.outbox[r.row].cycle.Some? && db.outbox[s.row].cycle.Some?
           && db.outbox[s.row].cycle.value !in db.unanswered) ==> r.row < s.row)
      && ((r.row < |db.outbox| && s.row < |db.outbox| && r.plan == s.plan
           && IsWithdrawal(db.outbox[r.row]) && MovesPosition(db.outbox[s.row])) ==> r.row < s.row)
  }

  /** Every plan's money is its receipts, replayed. */
  ghost predicate MoneyOk(db: Db, start: map<string, Money>) {
    && start.Keys == db.money.Keys
    && forall p :: p in db.money ==> db.money[p] == Replay(start[p], db.receipts, p)
  }

  ghost predicate BooksOk(db: Db, start: map<string, Money>) {
    && RefsOk(db) && RowsOk(db)
    && SignedInTurn(db) && WithdrawnInTurn(db) && OpenIsNewest(db) && RowsFollowCycles(db)
    && CyclesOk(db) && ReceiptsOk(db) && MoneyOk(db, start)
  }

  /******* The step log *******/

  lemma {:induction false} AwaitingStepIsAStep(steps: seq<Step>)
    ensures AwaitingStep(steps).Some? ==> AwaitingStep(steps).value in steps && AwaitingStep(steps).value.Awaiting?
  {
    if |steps| > 0 {
      AwaitingStepIsAStep(steps[..|steps| - 1]);
    }
  }

  /**
   The scan from the end finds what the program's two scans find: the last AWAITING entry, unless an
   ANOMALY stands at or after it.
   */
  lemma {:induction false} AwaitingStepIsTheLastOne(steps: seq<Step>, at: nat)
    requires at < |steps| && steps[at].Awaiting?
    requires forall k :: at < k < |steps| ==> !steps[k].Awaiting?
    ensures AwaitingStep(steps) ==
            if exists k :: at <= k < |steps| && steps[k].Anomaly? then None else Some(steps[at])
  {
    if at < |steps| - 1 {
      var rest := steps[..|steps| - 1];
      AwaitingStepIsTheLastOne(rest, at);
      if steps[|steps| - 1].Anomaly? {
        assert at <= |steps| - 1 < |steps|;
      } else if k :| at <= k < |rest| && rest[k].Anomaly? {
        assert steps[k].Anomaly?;
      }
    }
  }

  /** A cycle that waits for nothing although it has something to wait for is held by an ANOMALY. */
  lemma {:induction false} HeldByAnAnomaly(steps: seq<Step>, k: nat) returns (a: nat)
    requires k < |steps| && (steps[k].Awaiting? || steps[k].Anomaly?)
    requires AwaitingStep(steps).None?
    ensures a < |steps| && steps[a].Anomaly?
  {
    var last := |steps| - 1;
    if steps[last].Anomaly? {
      a := last;
    } else {
      a := HeldByAnAnomaly(steps[..last], k);
    }
  }

  lemma AppendedStep(steps: seq<Step>, step: Step)
    ensures LastExecute(steps + [step]) == if step.Execute? then Some(step.decision) else LastExecute(steps)
    ensures step.Awaiting? ==> AwaitingStep(steps + [step]) == Some(step)
    ensures step.Anomaly? ==> AwaitingStep(steps + [step]).None?
  {
  }

  /******* When a write keeps the books *******/

  ghost predicate MayAppend(db: Db, c: nat, step: Step)
    requires c < |db.cycles|
  {
    match step
    case Execute(_) => forall i :: OfCycle(db, i, c) ==> !db.outbox[i].kind.Swap?
    case Awaiting(row, d) =>
      Last(db, c, row) && (db.outbox[row].kind.Swap? ==> db.outbox[row].signedFor == Some(d))
    case Anomaly(swap) => swap.Some? && EmptySwap(db, c, swap.value)
    case Closed => true
  }

  /** Which rows are a cycle's, and which is its last, depends only on the cycle column. */
  lemma SameCycleColumn(db: Db, db': Db, c: nat)
    requires |db'.outbox| == |db.outbox|
    requires forall m :: 0 <= m < |db.outbox| ==> db'.outbox[m].cycle == db.outbox[m].cycle
    ensures forall i :: OfCycle(db', i, c) <==> OfCycle(db, i, c)
    ensures forall i: nat :: Last(db', c, i) <==> Last(db, c, i)
  {
  }

  /** Cycle `c` and its rows are the same in both. */
  ghost predicate SameCycle(db: Db, db': Db, c: nat) {
    && c < |db.cycles| && c < |db'.cycles| && db'.cycles[c] == db.cycles[c]
    && (c in db'.unanswered <==> c in db.unanswered)
    && (forall i :: OfCycle(db, i, c) ==> OfCycle(db', i, c) && db'.outbox[i] == db.outbox[i])
    && (forall i :: OfCycle(db', i, c) ==> OfCycle(db, i, c))
  }

  lemma SameCycleStaysOk(db: Db, db': Db, c: nat)
    requires SameCycle(db, db', c) && CycleOk(db, c)
    ensures CycleOk(db', c)
  {
  }

  /** A write to columns of cycle `c` alone keeps the books when it keeps that cycle. */
  lemma CycleWriteKeeps(db: Db, start: map<string, Money>, c: nat, x: Cycle)
    requires BooksOk(db, start) && c < |db.cycles|
    requires x.plan == db.cycles[c].plan && (db.cycles[c].state.Done? ==> x.state.Done?)
    requires CycleOk(db.(cycles := db.cycles[c := x]), c)
    ensures BooksOk(db.(cycles := db.cycles[c := x]), start)
  {
    var db' := db.(cycles := db.cycles[c := x]);
    CycleWriteKeepsRows(db, c, x);
    forall a, b ensures Superseded(db', a, b) { assert Superseded(db, a, b); }
    forall d | 0 <= d < |db'.cycles| ensures CycleOk(db', d) {
      if d != c {
        assert CycleOk(db, d);
        SameCycleStaysOk(db, db', d);
      }
    }
  }

  lemma CycleWriteKeepsRows(db: Db, c: nat, x: Cycle)
    requires RefsOk(db) && SignedInTurn(db) && WithdrawnInTurn(db) && RowsFollowCycles(db) && ReceiptsOk(db)
    requires c < |db.cycles| && x.plan == db.cycles[c].plan
    ensures var db' := db.(cycles := db.cycles[c := x]);
            RefsOk(db') && SignedInTurn(db') && WithdrawnInTurn(db') && RowsFollowCycles(db') && ReceiptsOk(db')
  {
    var db' := db.(cycles := db.cycles[c := x]);
    forall i | 0 <= i < |db'.outbox| ensures RowRefOk(db', db'.outbox[i]) { assert RowRefOk(db, db.outbox[i]); }
    forall i, j ensures InTurn(db', i, j) { assert InTurn(db, i, j); }
    forall i, j ensures WithdrawnAfter(db', i, j) { assert WithdrawnAfter(db, i, j); }
    forall i, j ensures InCycleOrder(db', i, j) { assert InCycleOrder(db, i, j); }
    SameTransactionsSameReceipts(db, db');
  }

  lemma SameTransactionsSameReceipts(db: Db, db': Db)
    requires ReceiptsOk(db) && db'.outbox == db.outbox && db'.receipts == db.receipts && db.unanswered <= db'.unanswered
    ensures ReceiptsOk(db')
  {
    forall k | 0 <= k < |db.receipts| ensures ReceiptOk(db', db'.receipts[k]) { assert ReceiptOk(db, db.receipts[k]); }
    forall k, l ensures ReceiptsInOrder(db', k, l) { assert ReceiptsInOrder(db, k, l); }
    forall i | 0 <= i < |db'.outbox| && db'.outbox[i].booked ensures HasReceipt(db', i) { assert HasReceipt(db, i); }
  }

  lemma AppendStepKeeps(db: Db, start: map<string, Money>, c: nat, step: Step)
    requires BooksOk(db, start) && c < |db.cycles| && MayAppend(db, c, step)
    ensures BooksOk(AppendStep(db, c, step), start)
  {
    var db' := AppendStep(db, c, step);
    assert CycleOk(db, c);
    AppendStepKeepsCycle(db, c, step);
    CycleWriteKeeps(db, start, c, db'.cycles[c]);
  }

  lemma AppendStepKeepsCycle(db: Db, c: nat, step: Step)
    requires c < |db.cycles| && CycleOk(db, c) && MayAppend(db, c, step)
    ensures CycleOk(AppendStep(db, c, step), c)
  {
    var db' := AppendStep(db, c, step);
    var steps, steps' := db.cycles[c].steps, db'.cycles[c].steps;
    AppendedStep(steps, step);
    assert forall k :: 0 <= k < |steps| ==> steps'[k] == steps[k];
    SameCycleColumn(db, db', c);
    if WasAwaited(steps) {
      var k :| 0 <= k < |steps| && steps[k].Awaiting?;
      assert steps'[k].Awaiting?;
    }
    if db.cycles[c].state.AwaitingTx? {
      var k :| 0 <= k < |steps| && (steps[k].Awaiting? || steps[k].Anomaly?);
      assert steps'[k] == steps[k];
    }
  }

  ghost predicate MaySetState(db: Db, c: nat, state: CycleState)
    requires c < |db.cycles|
  {
    match state
    case Running => false
    case AwaitingTx =>
      && Open(db.cycles[c])
      && exists k :: 0 <= k < |db.cycles[c].steps| && (db.cycles[c].steps[k].Awaiting? || db.cycles[c].steps[k].Anomaly?)
    case Done => forall i :: OfCycle(db, i, c) ==> IsOver(db, c, db.outbox[i])
  }

  lemma SetStateKeeps(db: Db, start: map<string, Money>, c: nat, state: CycleState)
    requires BooksOk(db, start) && c < |db.cycles| && MaySetState(db, c, state)
    ensures BooksOk(SetState(db, c, state), start)
  {
    var db' := SetState(db, c, state);
    assert CycleOk(db, c);
    SetColumnsKeepsCycle(db, c, db'.cycles[c]);
    CycleWriteKeeps(db, start, c, db'.cycles[c]);
  }

  /** A ledger row may change when it still covers what the cycle signed. */
  ghost predicate MaySetEntry(db: Db, c: nat, e: Option<Entry>) {
    forall i :: OfCycle(db, i, c) ==>
      e.Some? && (db.outbox[i].kind.Swap? ==> SwapCovered(db.outbox[i], e.value, c in db.unanswered))
  }

  function SetEntry(db: Db, c: nat, e: Option<Entry>): Db
    requires c < |db.cycles|
  {
    db.(cycles := db.cycles[c := db.cycles[c].(entry := e)])
  }

  lemma SetEntryKeeps(db: Db, start: map<string, Money>, c: nat, e: Option<Entry>)
    requires BooksOk(db, start) && c < |db.cycles| && MaySetEntry(db, c, e)
    ensures BooksOk(SetEntry(db, c, e), start)
  {
    var db' := SetEntry(db, c, e);
    assert CycleOk(db, c);
    SetColumnsKeepsCycle(db, c, db'.cycles[c]);
    CycleWriteKeeps(db, start, c, db'.cycles[c]);
  }

  lemma SetColumnsKeepsCycle(db: Db, c: nat, x: Cycle)
    requires c < |db.cycles| && CycleOk(db, c)
    requires x.steps == db.cycles[c].steps
    requires x.state != db.cycles[c].state ==> MaySetState(db, c, x.state)
    requires MaySetEntry(db, c, x.entry)
    ensures CycleOk(db.(cycles := db.cycles[c := x]), c)
  {
    var db' := db.(cycles := db.cycles[c := x]);
    SameCycleColumn(db, db', c);
  }

  lemma AddCycleKeeps(db: Db, start: map<string, Money>, plan: string)
    requires BooksOk(db, start) && plan in db.money
    requires forall c :: 0 <= c < |db.cycles| && db.cycles[c].plan == plan ==> db.cycles[c].state.Done?
    ensures BooksOk(AddCycle(db, plan), start)
  {
    var db' := AddCycle(db, plan);
    forall i | 0 <= i < |db'.outbox| ensures RowRefOk(db', db'.outbox[i]) { assert RowRefOk(db, db.outbox[i]); }
    forall i, j ensures InTurn(db', i, j) { assert InTurn(db, i, j); }
    forall i, j ensures WithdrawnAfter(db', i, j) { assert WithdrawnAfter(db, i, j); }
    forall i, j ensures InCycleOrder(db', i, j) { assert InCycleOrder(db, i, j); }
    forall a, b ensures Superseded(db', a, b) { assert Superseded(db, a, b); }
    SameTransactionsSameReceipts(db, db');
    forall c | 0 <= c < |db'.cycles| ensures CycleOk(db', c) {
      if c < |db.cycles| {
        assert CycleOk(db, c);
        SameCycleStaysOk(db, db', c);
      } else {
        forall i | 0 <= i < |db.outbox| ensures db.outbox[i].cycle != Some(c) {
          assert RowRefOk(db, db.outbox[i]);
        }
      }
    }
  }

  /**
   When a row may be signed: for a cycle, only on top of booked rows and a live reservation; to withdraw
   the whole position, only with nothing else that moves it out.
   */
  ghost predicate MaySign(db: Db, row: Row) {
    && RowRefOk(db, row)
    && row.status.Signed? && row.fate.Unmined? && !row.booked
    && (row.cycle.Some? ==>
          var c := row.cycle.value;
          && Open(db.cycles[c])
          && (forall i :: OfCycle(db, i, c) ==>
                db.outbox[i].booked && db.outbox[i].kind != Swap && db.outbox[i].kind != row.kind)
          && (forall k :: 0 <= k < |db.cycles[c].steps| ==> !db.cycles[c].steps[k].Awaiting? && !db.cycles[c].steps[k].Anomaly?)
          && LastExecute(db.cycles[c].steps) == row.signedFor
          && db.cycles[c].entry.Some? && !db.cycles[c].entry.value.status.Released?
          && row.signedFor.value.spend <= db.cycles[c].entry.value.amount)
    && (IsWithdrawal(row) ==>
          forall i :: 0 <= i < |db.outbox| ==> !StillMoves(db.outbox[i], row.plan))
  }

  /** The row moves the plan's position, or may yet. */
  predicate StillMoves(row: Row, plan: string) {
    row.plan == plan && MovesPosition(row) && !row.booked && !Dead(row)
  }

  lemma AddRowKeeps(db: Db, start: map<string, Money>, row: Row)
    requires BooksOk(db, start) && MaySign(db, row)
    ensures BooksOk(AddRow(db, row), start)
  {
    var db' := AddRow(db, row);
    forall i | 0 <= i < |db'.outbox| ensures RowRefOk(db', db'.outbox[i]) {
      if i < |db.outbox| { assert RowRefOk(db, db.outbox[i]); }
    }
    AddRowKeepsOrder(db, row);
    forall a, b ensures Superseded(db', a, b) { assert Superseded(db, a, b); }
    forall c | 0 <= c < |db'.cycles| ensures CycleOk(db', c) {
      assert CycleOk(db, c);
      AddRowKeepsCycle(db, row, c);
    }
    AddRowKeepsReceipts(db, row);
  }

  lemma AddRowKeepsOrder(db: Db, row: Row)
    requires RefsOk(db) && SignedInTurn(db) && WithdrawnInTurn(db) && RowsFollowCycles(db) && OpenIsNewest(db) && MaySign(db, row)
    ensures SignedInTurn(AddRow(db, row)) && WithdrawnInTurn(AddRow(db, row)) && RowsFollowCycles(AddRow(db, row))
  {
    var db', n := AddRow(db, row), |db.outbox|;
    forall i, j ensures InTurn(db', i, j) {
      assert InTurn(db, i, j);
      if 0 <= i < j == n && row.cycle.Some? && db.outbox[i].cycle == row.cycle {
        assert OfCycle(db, i, row.cycle.value);
      }
    }
    forall i, j ensures WithdrawnAfter(db', i, j) {
      assert WithdrawnAfter(db, i, j);
      if 0 <= i < j == n {
        assert IsWithdrawal(row) ==> !StillMoves(db.outbox[i], row.plan);
      }
    }
    forall i, j ensures InCycleOrder(db', i, j) {
      assert InCycleOrder(db, i, j);
      if 0 <= i < j == n && db.outbox[i].plan == row.plan && row.cycle.Some? && db.outbox[i].cycle.Some? {
        // the signing cycle is open, so no cycle of its plan is newer
        assert RowRefOk(db, db.outbox[i]);
        assert Superseded(db, row.cycle.value, db.outbox[i].cycle.value);
      }
    }
  }

  lemma AddRowKeepsCycle(db: Db, row: Row, c: nat)
    requires c < |db.cycles| && CycleOk(db, c) && MaySign(db, row)
    ensures CycleOk(AddRow(db, row), c)
  {
    var db', n := AddRow(db, row), |db.outbox|;
    if row.cycle == Some(c) {
      assert forall i :: OfCycle(db', i, c) ==> i == n || OfCycle(db, i, c);
    } else {
      assert SameCycle(db, db', c);
      SameCycleStaysOk(db, db', c);
    }
  }

  lemma AddRowKeepsReceipts(db: Db, row: Row)
    requires ReceiptsOk(db) && !row.booked
    ensures ReceiptsOk(AddRow(db, row))
  {
    var db' := AddRow(db, row);
    forall k | 0 <= k < |db.receipts| ensures ReceiptOk(db', db'.receipts[k]) { assert ReceiptOk(db, db.receipts[k]); }
    forall k, l ensures ReceiptsInOrder(db', k, l) {
      assert ReceiptsInOrder(db, k, l);
      if 0 <= k < l < |db.receipts| {
        assert ReceiptOk(db, db.receipts[k]) && ReceiptOk(db, db.receipts[l]);
      }
    }
    forall i | 0 <= i < |db'.outbox| && db'.outbox[i].booked ensures HasReceipt(db', i) { assert HasReceipt(db, i); }
  }

  /** How the status and the fate of a row may move; what it was signed for never does. */
  ghost predicate MayMove(db: Db, i: nat, row: Row)
    requires i < |db.outbox|
  {
    var was := db.outbox[i];
    && row == was.(status := row.status, broadcast := row.broadcast, fate := row.fate)
    && !was.booked && RowOk(row)
    && (Dead(was) ==> Dead(row))
    && (Missed(was) ==> Missed(row))
  }

  lemma SetRowKeeps(db: Db, start: map<string, Money>, i: nat, row: Row)
    requires BooksOk(db, start) && i < |db.outbox| && MayMove(db, i, row)
    ensures BooksOk(SetRow(db, i, row), start)
  {
    var db' := SetRow(db, i, row);
    assert RowRefOk(db, db.outbox[i]);
    forall j | 0 <= j < |db'.outbox| ensures RowRefOk(db', db'.outbox[j]) { assert RowRefOk(db, db.outbox[j]); }
    forall j | 0 <= j < |db'.outbox| ensures RowOk(db'.outbox[j]) { assert RowOk(db.outbox[j]); }
    SetRowKeepsOrder(db, i, row);
    forall a, b ensures Superseded(db', a, b) { assert Superseded(db, a, b); }
    forall c | 0 <= c < |db'.cycles| ensures CycleOk(db', c) {
      assert CycleOk(db, c);
      SetRowKeepsCycle(db, i, row, c);
    }
  }

  lemma SetRowKeepsOrder(db: Db, i: nat, row: Row)
    requires SignedInTurn(db) && WithdrawnInTurn(db) && RowsFollowCycles(db) && ReceiptsOk(db)
    requires i < |db.outbox| && MayMove(db, i, row)
    ensures var db' := SetRow(db, i, row); SignedInTurn(db') && WithdrawnInTurn(db') && RowsFollowCycles(db') && ReceiptsOk(db')
  {
    var db' := SetRow(db, i, row);
    forall a, b ensures InTurn(db', a, b) { assert InTurn(db, a, b); }
    forall a, b ensures WithdrawnAfter(db', a, b) { assert WithdrawnAfter(db, a, b); }
    forall a, b ensures InCycleOrder(db', a, b) { assert InCycleOrder(db, a, b); }
    forall k | 0 <= k < |db.receipts| ensures ReceiptOk(db', db'.receipts[k]) { assert ReceiptOk(db, db.receipts[k]); }
    forall k, l ensures ReceiptsInOrder(db', k, l) { assert ReceiptsInOrder(db, k, l); }
    forall j | 0 <= j < |db'.outbox| && db'.outbox[j].booked ensures HasReceipt(db', j) { assert HasReceipt(db, j); }
  }

  lemma SetRowKeepsCycle(db: Db, i: nat, row: Row, c: nat)
    requires c < |db.cycles| && CycleOk(db, c) && i < |db.outbox| && MayMove(db, i, row)
    ensures CycleOk(SetRow(db, i, row), c)
  {
    var db' := SetRow(db, i, row);
    SameCycleColumn(db, db', c);
    var steps := db.cycles[c].steps;
    forall k | 0 <= k < |steps| && steps[k].Anomaly? ensures EmptySwap(db', c, steps[k].swap.value) {
      assert EmptySwap(db, c, steps[k].swap.value);
    }
  }

  /** When a confirmed row may be booked, and with what. */
  ghost predicate MayBook(db: Db, i: nat, e: Effect) {
    && i < |db.outbox| && RowRefOk(db, db.outbox[i])
    && var row := db.outbox[i];
    && row.status.Confirmed? && row.fate.Mined? && !row.booked
    && (row.kind.Swap? ==> row.signedFor.Some?)
    && (e == ChainEffect(row) || (row.kind.Swap? && row.fate.logs.tokens == 0 && e == Nothing))
    && (e == Nothing && row.kind.Swap? && row.cycle.Some? ==>
          && row.cycle.value !in db.unanswered
          && var entry := db.cycles[row.cycle.value].entry; entry.Some? ==> !entry.value.status.Released?)
  }

  lemma WithReceiptKeeps(db: Db, start: map<string, Money>, i: nat, e: Effect)
    requires BooksOk(db, start) && MayBook(db, i, e)
    ensures BooksOk(WithReceipt(db, i, e), start)
  {
    var db' := WithReceipt(db, i, e);
    BookedRowsKeep(db, i, e);
    forall c | 0 <= c < |db'.cycles| ensures CycleOk(db', c) {
      assert CycleOk(db, c);
      BookedCycleKeeps(db, i, e, c);
    }
    BookedReceiptsKeep(db, start, i, e);
    BookedMoneyKeeps(db, start, i, e);
  }

  lemma BookedRowsKeep(db: Db, i: nat, e: Effect)
    requires RefsOk(db) && RowsOk(db) && SignedInTurn(db) && WithdrawnInTurn(db) && OpenIsNewest(db) && RowsFollowCycles(db) && MayBook(db, i, e)
    ensures var db' := WithReceipt(db, i, e);
            RefsOk(db') && RowsOk(db') && SignedInTurn(db') && WithdrawnInTurn(db') && OpenIsNewest(db') && RowsFollowCycles(db')
  {
    var db' := WithReceipt(db, i, e);
    forall j | 0 <= j < |db'.outbox| ensures RowRefOk(db', db'.outbox[j]) { assert RowRefOk(db, db.outbox[j]); }
    forall j | 0 <= j < |db'.outbox| ensures RowOk(db'.outbox[j]) { assert RowOk(db.outbox[j]); }
    forall a, b ensures InTurn(db', a, b) { assert InTurn(db, a, b); }
    forall a, b ensures WithdrawnAfter(db', a, b) { assert WithdrawnAfter(db, a, b); }
    forall a, b ensures InCycleOrder(db', a, b) { assert InCycleOrder(db, a, b); }
    forall a, b ensures Superseded(db', a, b) { assert Superseded(db, a, b); }
  }

  lemma BookedMoneyKeeps(db: Db, start: map<string, Money>, i: nat, e: Effect)
    requires MoneyOk(db, start) && MayBook(db, i, e)
    ensures MoneyOk(WithReceipt(db, i, e), start)
  {
  }

  lemma BookedCycleKeeps(db: Db, i: nat, e: Effect, c: nat)
    requires SignedInTurn(db) && WithdrawnInTurn(db) && RowsOk(db) && MayBook(db, i, e)
    requires c < |db.cycles| && CycleOk(db, c)
    ensures CycleOk(WithReceipt(db, i, e), c)
  {
    var db' := WithReceipt(db, i, e);
    if db.outbox[i].cycle == Some(c) {
      assert OfCycle(db, i, c);
      SameCycleColumn(db, db', c);
      AllBookedUnderAnomaly(db, c);
      BookedEntryOk(db, i, e, c);
    } else {
      SameCycleStaysOk(db, db', c);
    }
  }

  /** An ANOMALY names the cycle's last row, booked; so are all rows before it. */
  lemma AllBookedUnderAnomaly(db: Db, c: nat)
    requires SignedInTurn(db) && WithdrawnInTurn(db) && c < |db.cycles| && CycleOk(db, c)
    ensures forall k, i :: 0 <= k < |db.cycles[c].steps| && db.cycles[c].steps[k].Anomaly? && OfCycle(db, i, c) ==>
              db.outbox[i].booked
  {
    var steps := db.cycles[c].steps;
    forall k, i | 0 <= k < |steps| && steps[k].Anomaly? && OfCycle(db, i, c) ensures db.outbox[i].booked {
      assert EmptySwap(db, c, steps[k].swap.value);
      assert InTurn(db, i, steps[k].swap.value);
    }
  }

  lemma BookedEntryOk(db: Db, i: nat, e: Effect, c: nat)
    requires SignedInTurn(db) && WithdrawnInTurn(db) && RowsOk(db) && MayBook(db, i, e) && db.outbox[i].cycle == Some(c)
    requires c < |db.cycles| && CycleOk(db, c)
    ensures EntryOk(WithReceipt(db, i, e), c)
  {
    var db' := WithReceipt(db, i, e);
    assert OfCycle(db, i, c);
    forall j | OfCycle(db', j, c)
      ensures db'.cycles[c].entry.Some? && (db'.outbox[j].kind.Swap? ==> SwapCovered(db'.outbox[j], db'.cycles[c].entry.value, c in db'.unanswered))
    {
      assert OfCycle(db, j, c);
      // the cycle's swap is its last row: any other row is booked under it and is no swap
      assert InTurn(db, i, j) && InTurn(db, j, i);
    }
  }

  lemma BookedReceiptsKeep(db: Db, start: map<string, Money>, i: nat, e: Effect)
    requires BooksOk(db, start) && MayBook(db, i, e)
    ensures ReceiptsOk(WithReceipt(db, i, e))
  {
    var db', n := WithReceipt(db, i, e), |db.receipts|;
    forall k | 0 <= k < |db'.receipts| ensures ReceiptOk(db', db'.receipts[k]) {
      if k < n { assert ReceiptOk(db, db.receipts[k]); }
    }
    forall k, l ensures ReceiptsInOrder(db', k, l) {
      assert ReceiptsInOrder(db, k, l);
      if 0 <= k < l == n { BookedInOrder(db, start, k, i); }
    }
    forall j | 0 <= j < |db'.outbox| && db'.outbox[j].booked ensures HasReceipt(db', j) {
      if j == i {
        assert db'.receipts[n].row == i;
      } else {
        assert HasReceipt(db, j);
        var k :| 0 <= k < n && db.receipts[k].row == j;
        assert db'.receipts[k].row == j;
      }
    }
  }

  /** Whatever of a plan's cycles is booked already was signed before a row still to be booked, unless the node once did not answer. */
  lemma BookedInOrder(db: Db, start: map<string, Money>, k: nat, i: nat)
    requires BooksOk(db, start) && k < |db.receipts|
    requires i < |db.outbox| && db.outbox[i].status.Confirmed? && !db.outbox[i].booked
    ensures var r := db.receipts[k];
            && r.row < |db.outbox| && r.row != i
            && ((r.plan == db.outbox[i].plan && db.outbox[r.row].cycle.Some? && db.outbox[i].cycle.Some?
                 && db.outbox[i].cycle.value !in db.unanswered) ==> r.row < i)
            && ((r.plan == db.outbox[i].plan && IsWithdrawal(db.outbox[r.row]) && MovesPosition(db.outbox[i])) ==> r.row < i)
  {
    var r := db.receipts[k];
    assert ReceiptOk(db, r);
    assert WithdrawnAfter(db, i, r.row) && RowOk(db.outbox[i]);
    if r.plan == db.outbox[i].plan && db.outbox[r.row].cycle.Some? && db.outbox[i].cycle.Some? {
      var c, d := db.outbox[i].cycle.value, db.outbox[r.row].cycle.value;
      assert RowRefOk(db, db.outbox[i]) && RowRefOk(db, db.outbox[r.row]);
      assert CycleOk(db, c) && OfCycle(db, i, c);
      assert Superseded(db, c, d);
      assert InCycleOrder(db, i, r.row) && InTurn(db, i, r.row);
    }
  }
}
