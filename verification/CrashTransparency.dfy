/**
 Where a process dies does not show in the money: once a plan's transactions have settled, its money
 is what its mined transactions do one after another, each counted once, and in the order they were
 signed unless a deposit overtook a withdrawal. The one exception is a swap that delivered no tokens,
 which a running cycle and recovery book differently.
 */
module CrashTransparency {
  import opened Basics
  import opened Books
  import opened BooksInvariant
  import opened EffectOrder
  import opened Protocol
  import opened ProtocolInvariant
  import opened ProtocolRuns

  /******* What happened to a plan *******/

  predicate IsMined(row: Row, plan: string) {
    row.plan == plan && row.fate.Mined? && (row.kind.Swap? ==> row.signedFor.Some?)
  }

  /** The plan's mined transactions, in the order they were signed. */
  function MinedRows(outbox: seq<Row>, plan: string): (rows: seq<nat>)
    ensures AreMined(outbox, rows, plan)
  {
    var rows := IndicesWhere(|outbox|, (i: nat) => i < |outbox| && IsMined(outbox[i], plan));
    assert forall k :: 0 <= k < |rows| ==> rows[k] in rows;
    rows
  }

  predicate AreMined(outbox: seq<Row>, rows: seq<nat>, plan: string) {
    forall k :: 0 <= k < |rows| ==> rows[k] < |outbox| && IsMined(outbox[rows[k]], plan)
  }

  /** What transactions do to a plan's money, one after another. */
  function Happened(m: Money, outbox: seq<Row>, rows: seq<nat>): Money {
    Fold(ApplyEffect, m, outbox, rows)
  }

  /** All of the plan's mined transactions are booked. */
  ghost predicate Settled(db: Db, plan: string) {
    forall i :: 0 <= i < |db.outbox| && db.outbox[i].plan == plan && db.outbox[i].fate.Mined? ==> db.outbox[i].booked
  }

  /** Every mined swap of the plan delivered tokens. */
  ghost predicate Delivered(db: Db, plan: string) {
    forall i :: 0 <= i < |db.outbox| && db.outbox[i].plan == plan && db.outbox[i].kind.Swap? && db.outbox[i].fate.Mined? ==>
      db.outbox[i].fate.logs.tokens > 0
  }

  /** No transaction was booked before one signed earlier that it overtakes. */
  ghost predicate NoneOvertakes(overtakes: (Effect, Effect) -> bool, outbox: seq<Row>, rows: seq<nat>) {
    forall i, j :: FairPair(overtakes, outbox, rows, i, j)
  }

  predicate FairPair(overtakes: (Effect, Effect) -> bool, outbox: seq<Row>, rows: seq<nat>, i: int, j: int) {
    0 <= i < j < |rows| && rows[j] < rows[i] ==> !overtakes(EffectOf(outbox, rows[i]), EffectOf(outbox, rows[j]))
  }

  /** Booked in this order, no transaction takes more than the plan has. */
  ghost predicate NothingCut(m: Money, outbox: seq<Row>, rows: seq<nat>) {
    forall k :: 0 <= k < |rows| ==> UncutAt(m, outbox, rows, k)
  }

  predicate UncutAt(m: Money, outbox: seq<Row>, rows: seq<nat>, k: nat)
    requires k < |rows|
  {
    Uncut(Happened(m, outbox, rows[..k]), EffectOf(outbox, rows[k]))
  }

  /**
   The order in which a plan's transactions were booked is as good as the order they were signed in: no
   deposit overtook a withdrawal of the whole position, and nothing was cut at zero either way; or
   else none of the pairs that differ by such a cut was booked out of turn either.
   */
  ghost predicate GoodOrder(db: Db, m: Money, plan: string) {
    var booked := ReceiptRows(db.receipts, plan);
    || NoneOvertakes(OvertakesOrCuts, db.outbox, booked)
    || (NoneOvertakes(Overtakes, db.outbox, booked)
        && NothingCut(m, db.outbox, booked) && NothingCut(m, db.outbox, MinedRows(db.outbox, plan)))
  }

  /** The rows of a plan's receipts, in the order they were booked. */
  function ReceiptRows(receipts: seq<Receipt>, plan: string): (rows: seq<nat>)
    ensures forall i :: i in rows <==> exists k :: 0 <= k < |receipts| && receipts[k].plan == plan && receipts[k].row == i
  {
    if |receipts| == 0 then []
    else
      var last := receipts[|receipts| - 1];
      var before := ReceiptRows(receipts[..|receipts| - 1], plan);
      if last.plan == plan then before + [last.row] else before
  }

  /******* Each counted once *******/

  lemma {:induction false} NeverBookedTwice(db: Db, n: nat, plan: string)
    requires ReceiptsOk(db) && n <= |db.receipts|
    ensures NoTwice(ReceiptRows(db.receipts[..n], plan))
  {
    if n > 0 {
      assert db.receipts[..n][..n - 1] == db.receipts[..n - 1];
      NeverBookedTwice(db, n - 1, plan);
      var before := ReceiptRows(db.receipts[..n - 1], plan);
      forall i | 0 <= i < |before| ensures before[i] != db.receipts[n - 1].row {
        assert before[i] in before;
        var k :| 0 <= k < n - 1 && db.receipts[..n - 1][k].plan == plan && db.receipts[..n - 1][k].row == before[i];
        assert ReceiptsInOrder(db, k, n - 1);
      }
    }
  }

  /** In a settled plan the booked transactions are exactly the mined ones. */
  lemma BookedAreTheMined(db: Db, start: map<string, Money>, plan: string)
    requires BooksOk(db, start) && Settled(db, plan)
    ensures forall i :: i in ReceiptRows(db.receipts, plan) <==> i in MinedRows(db.outbox, plan)
  {
  }

  /** The money is the receipts' transactions, in booking order. */
  lemma {:induction false} ReplayIsWhatHappened(db: Db, n: nat, m: Money, plan: string)
    requires ReceiptsOk(db) && Delivered(db, plan) && n <= |db.receipts|
    ensures Replay(m, db.receipts[..n], plan) == Happened(m, db.outbox, ReceiptRows(db.receipts[..n], plan))
  {
    if n > 0 {
      var r := db.receipts[n - 1];
      assert db.receipts[..n][..n - 1] == db.receipts[..n - 1];
      ReplayIsWhatHappened(db, n - 1, m, plan);
      assert ReceiptOk(db, r);
      if r.plan == plan {
        var rows := ReceiptRows(db.receipts[..n], plan);
        assert rows[..|rows| - 1] == ReceiptRows(db.receipts[..n - 1], plan);
      }
    }
  }

  /**
   A settled plan's money, whoever booked what and whenever: its mined transactions in some order,
   each exactly once.
   */
  lemma EachCountedOnce(db: Db, start: map<string, Money>, plan: string) returns (order: seq<nat>)
    requires BooksOk(db, start) && plan in db.money && Settled(db, plan) && Delivered(db, plan)
    ensures order == ReceiptRows(db.receipts, plan)
    ensures NoTwice(order) && forall i :: i in order <==> i in MinedRows(db.outbox, plan)
    ensures db.money[plan] == Happened(start[plan], db.outbox, order)
  {
    order := ReceiptRows(db.receipts, plan);
    var n := |db.receipts|;
    assert db.receipts[..n] == db.receipts;
    NeverBookedTwice(db, n, plan);
    BookedAreTheMined(db, start, plan);
    ReplayIsWhatHappened(db, n, start[plan], plan);
  }

  /******* In the order they were signed *******/

  /**
   Only what a plan signs outside its cycles, or a transaction the node once did not answer for, is ever
   booked out of turn; and no withdrawal ever comes before a deposit or withdrawal signed earlier.
   */
  lemma {:induction false} OutOfTurn(db: Db, n: nat, plan: string, i: nat, j: nat)
    requires ReceiptsOk(db) && n <= |db.receipts|
    requires var rows := ReceiptRows(db.receipts[..n], plan); i < j < |rows| && rows[j] < rows[i]
    ensures var rows := ReceiptRows(db.receipts[..n], plan);
            && rows[i] < |db.outbox| && rows[j] < |db.outbox|
            && (IsLoose(db, rows[i]) || IsLoose(db, rows[j]) || db.outbox[rows[j]].cycle.value in db.unanswered)
            && !(IsWithdrawal(db.outbox[rows[i]]) && MovesPosition(db.outbox[rows[j]]))
  {
    assert db.receipts[..n][..n - 1] == db.receipts[..n - 1];
    var rows, before, r := ReceiptRows(db.receipts[..n], plan), ReceiptRows(db.receipts[..n - 1], plan), db.receipts[n - 1];
    if j < |before| {
      OutOfTurn(db, n - 1, plan, i, j);
    } else {
      assert rows[i] == before[i] && before[i] in before;
      var k :| 0 <= k < n - 1 && db.receipts[..n - 1][k].plan == plan && db.receipts[..n - 1][k].row == before[i];
      assert ReceiptsInOrder(db, k, n - 1) && ReceiptOk(db, db.receipts[k]) && ReceiptOk(db, r);
    }
  }

  predicate IsLoose(db: Db, i: nat) {
    i < |db.outbox| && db.outbox[i].cycle.None?
  }

  /** Without cuts the money is plain sums. */
  lemma {:induction false} UncutIsPlainSums(m: Money, outbox: seq<Row>, rows: seq<nat>)
    requires NothingCut(m, outbox, rows)
    ensures BalanceOf(Happened(m, outbox, rows)) == Fold(ApplyUncut, BalanceOf(m), outbox, rows)
  {
    if |rows| > 0 {
      var last := |rows| - 1;
      assert UncutAt(m, outbox, rows, last);
      forall k | 0 <= k < last ensures UncutAt(m, outbox, rows[..last], k) {
        assert rows[..last][..k] == rows[..k] && UncutAt(m, outbox, rows, k);
      }
      UncutIsPlainSums(m, outbox, rows[..last]);
    }
  }

  /** No two rows in the list that clash are out of turn. */
  ghost predicate NoClashOutOfTurn(clash: (Effect, Effect) -> bool, outbox: seq<Row>, rows: seq<nat>) {
    forall i, j :: ClashFree(clash, outbox, rows, i, j)
  }

  predicate ClashFree(clash: (Effect, Effect) -> bool, outbox: seq<Row>, rows: seq<nat>, i: int, j: int) {
    0 <= i < j < |rows| && rows[j] < rows[i] ==>
      !clash(EffectOf(outbox, rows[i]), EffectOf(outbox, rows[j])) && !clash(EffectOf(outbox, rows[j]), EffectOf(outbox, rows[i]))
  }

  /** A list in any good order does what the same transactions do in the order they were signed. */
  lemma InSigningOrder(m: Money, outbox: seq<Row>, booked: seq<nat>, mined: seq<nat>)
    requires NoTwice(booked) && Ascending(mined) && forall i :: i in booked <==> i in mined
    requires NoClashOutOfTurn(Clash, outbox, booked)
             || (NoClashOutOfTurn(ClashUncut, outbox, booked) && NothingCut(m, outbox, booked) && NothingCut(m, outbox, mined))
    ensures Happened(m, outbox, booked) == Happened(m, outbox, mined)
  {
    hide Clash, ClashUncut, NothingCut;
    if NoClashOutOfTurn(Clash, outbox, booked) {
      forall i, j | 0 <= i < j < |booked| && booked[j] < booked[i]
        ensures Commute(ApplyEffect, EffectOf(outbox, booked[i]), EffectOf(outbox, booked[j]))
      {
        assert ClashFree(Clash, outbox, booked, i, j);
        CommuteExactly(EffectOf(outbox, booked[i]), EffectOf(outbox, booked[j]));
      }
      SortedFolds(ApplyEffect, m, outbox, booked);
    } else {
      forall i, j | 0 <= i < j < |booked| && booked[j] < booked[i]
        ensures Commute(ApplyUncut, EffectOf(outbox, booked[i]), EffectOf(outbox, booked[j]))
      {
        assert ClashFree(ClashUncut, outbox, booked, i, j);
        CommuteUncutExactly(EffectOf(outbox, booked[i]), EffectOf(outbox, booked[j]));
      }
      SortedFolds(ApplyUncut, BalanceOf(m), outbox, booked);
      UncutIsPlainSums(m, outbox, booked);
      UncutIsPlainSums(m, outbox, mined);
    }
    SameNumbersSameList(Sorted(booked), mined);
  }

  /** The guard under which a withdrawal is signed rules the other clashes out. */
  lemma NothingElseClashes(db: Db, plan: string, overtakes: (Effect, Effect) -> bool, clash: (Effect, Effect) -> bool)
    requires ReceiptsOk(db) && NoneOvertakes(overtakes, db.outbox, ReceiptRows(db.receipts, plan))
    requires (overtakes == OvertakesOrCuts && clash == Clash) || (overtakes == Overtakes && clash == ClashUncut)
    ensures NoClashOutOfTurn(clash, db.outbox, ReceiptRows(db.receipts, plan))
  {
    hide Overtakes, OvertakesOrCuts, Clash, ClashUncut;
    var rows := ReceiptRows(db.receipts, plan);
    assert db.receipts[..|db.receipts|] == db.receipts;
    forall i, j ensures ClashFree(clash, db.outbox, rows, i, j) {
      if 0 <= i < j < |rows| && rows[j] < rows[i] {
        assert FairPair(overtakes, db.outbox, rows, i, j);
        OutOfTurn(db, |db.receipts|, plan, i, j);
        ClashesAreTold(EffectOf(db.outbox, rows[i]), EffectOf(db.outbox, rows[j]));
      }
    }
  }

  /** A plan's money in a settled state, from nothing but what it started with and what the chain mined. */
  lemma MoneyIsWhatHappened(db: Db, start: map<string, Money>, plan: string)
    requires BooksOk(db, start) && plan in db.money
    requires Settled(db, plan) && Delivered(db, plan) && GoodOrder(db, start[plan], plan)
    ensures db.money[plan] == Happened(start[plan], db.outbox, MinedRows(db.outbox, plan))
  {
    var booked := EachCountedOnce(db, start, plan);
    if NoneOvertakes(OvertakesOrCuts, db.outbox, booked) {
      NothingElseClashes(db, plan, OvertakesOrCuts, Clash);
    } else {
      NothingElseClashes(db, plan, Overtakes, ClashUncut);
    }
    InSigningOrder(start[plan], db.outbox, booked, MinedRows(db.outbox, plan));
  }

  /** The transactions of two outboxes that do the same, one by one. */
  ghost predicate SameEffects(outbox: seq<Row>, rows: seq<nat>, outbox': seq<Row>, rows': seq<nat>) {
    |rows| == |rows'| && forall k :: 0 <= k < |rows| ==> EffectOf(outbox, rows[k]) == EffectOf(outbox', rows'[k])
  }

  lemma {:induction false} SameEffectsSameMoney(m: Money, outbox: seq<Row>, rows: seq<nat>, outbox': seq<Row>, rows': seq<nat>)
    requires SameEffects(outbox, rows, outbox', rows')
    ensures Happened(m, outbox, rows) == Happened(m, outbox', rows')
  {
    if |rows| > 0 {
      var last := |rows| - 1;
      SameEffectsSameMoney(m, outbox, rows[..last], outbox', rows'[..last]);
    }
  }

  /**
   Crash transparency: take any two runs, one with crashes, takeovers, recoveries and orphan passes
   anywhere, the other without. If the chain mined the same transactions for a plan and both have
   settled them in a good order, the plan's principal, vTokens, harvested interest and holdings are the same.
   */
  lemma CrashesDoNotShow(g: Config, run: seq<State>, k: nat, g': Config, run': seq<State>, k': nat, plan: string)
    requires IsRun(g, run) && g.ttl > 0 && k < |run|
    requires IsRun(g', run') && g'.ttl > 0 && k' < |run'|
    requires plan in run[0].db.money && plan in run'[0].db.money && run[0].db.money[plan] == run'[0].db.money[plan]
    requires Settled(run[k].db, plan) && Delivered(run[k].db, plan) && GoodOrder(run[k].db, run[0].db.money[plan], plan)
    requires Settled(run'[k'].db, plan) && Delivered(run'[k'].db, plan) && GoodOrder(run'[k'].db, run'[0].db.money[plan], plan)
    requires SameEffects(run[k].db.outbox, MinedRows(run[k].db.outbox, plan),
                         run'[k'].db.outbox, MinedRows(run'[k'].db.outbox, plan))
    ensures plan in run[k].db.money && plan in run'[k'].db.money
    ensures run[k].db.money[plan] == run'[k'].db.money[plan]
  {
    var db, db' := run[k].db, run'[k'].db;
    SettledMoney(g, run, k, plan);
    SettledMoney(g', run', k', plan);
    SameEffectsSameMoney(run[0].db.money[plan], db.outbox, MinedRows(db.outbox, plan),
                         db'.outbox, MinedRows(db'.outbox, plan));
  }

  lemma SettledMoney(g: Config, run: seq<State>, k: nat, plan: string)
    requires IsRun(g, run) && g.ttl > 0 && k < |run| && plan in run[0].db.money
    requires Settled(run[k].db, plan) && Delivered(run[k].db, plan) && GoodOrder(run[k].db, run[0].db.money[plan], plan)
    ensures plan in run[k].db.money
    ensures run[k].db.money[plan]
            == Happened(run[0].db.money[plan], run[k].db.outbox, MinedRows(run[k].db.outbox, plan))
  {
    RunKeepsInv(g, run, k);
    MoneyIsWhatHappened(run[k].db, run[0].db.money, plan);
  }

  /******* The exception *******/

  /** Booking the swap in full would leave no trace: nothing spent on a holding that is there, no interest taken. */
  predicate NoTrace(m: Money, logs: Logs, d: Decision) {
    && SpentOf(logs, d) == 0 && d.instrument in m.holdings
    && (d.interest.None? || d.interest.value == 0 || m.harvested == 0)
  }

  /**
   A running cycle and recovery leave a plan with the same money, whatever it was, exactly when the
   transaction is no swap that delivered nothing, or when it is one that also cost nothing.
   */
  lemma LiveAndRecoveryAgree(m: Money, row: Row, d: Decision)
    requires row.fate.Mined?
    ensures RecoveredEffect(row, Some(d)).Some?
    ensures ApplyEffect(m, LiveEffect(row, d)) == ApplyEffect(m, RecoveredEffect(row, Some(d)).value)
            <==> !(row.kind.Swap? && row.fate.logs.tokens == 0) || NoTrace(m, row.fate.logs, d)
  {
    var logs := row.fate.logs;
    if row.kind.Swap? && logs.tokens == 0 {
      var recovered := ApplyEffect(m, RecoveredEffect(row, Some(d)).value);
      assert recovered.holdings[d.instrument].cost ==
             (if d.instrument in m.holdings then m.holdings[d.instrument].cost else 0) + SpentOf(logs, d);
      assert d.instrument in m.holdings ==> m.holdings[d.instrument := m.holdings[d.instrument]] == m.holdings;
    }
  }

  /** A decided buy spends something: then the two agree exactly on transactions that are no empty swap. */
  lemma SpendingShows(m: Money, row: Row, d: Decision)
    requires row.fate.Mined? && d.spend > 0
    ensures ApplyEffect(m, LiveEffect(row, d)) == ApplyEffect(m, RecoveredEffect(row, Some(d)).value)
            <==> !(row.kind.Swap? && row.fate.logs.tokens == 0)
  {
    LiveAndRecoveryAgree(m, row, d);
  }

  /** The same empty swap: live, the plan keeps its interest and shows no holding; recovered, the interest is gone. */
  lemma EmptySwapBookedTwoWays()
    ensures var d := Decision("AAPL", 50, Some(50));
            var row := Row("p", Some(0), Swap, Some(d), Confirmed, true, Mined(Logs(50, 0, 0)), false);
            var m := Money(1000, 5000, 70, map[]);
            && ApplyEffect(m, LiveEffect(row, d)) == m
            && RecoveredEffect(row, Some(d)).Some?
            && ApplyEffect(m, RecoveredEffect(row, Some(d)).value) == Money(1000, 5000, 20, map["AAPL" := Holding(0, 50)])
  {
  }
}
