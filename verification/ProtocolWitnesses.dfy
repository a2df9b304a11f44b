/**
 Three things the protocol can do, each shown by a run: a deposit overtakes a withdrawal; two finishing
 passes that disagree leave a closed cycle's transaction to the orphan pass; and the day's cap is then
 exceeded.
 */
module ProtocolWitnesses {
  import opened Basics
  import opened Books
  import opened BooksInvariant
  import opened CrashTransparency
  import opened EffectOrder
  import opened Protocol
  import opened ProtocolInvariant
  import Paths = ProtocolPaths
  import opened ProtocolRuns
  import opened ProtocolTheorems

  /** Some run that starts in `s0` gets to `s`. */
  ghost predicate Reaches(g: Config, s0: State, s: State) {
    exists run :: IsRun(g, run) && run[0] == s0 && run[|run| - 1] == s
  }

  lemma Starts(g: Config, s0: State)
    requires Init(s0)
    ensures Reaches(g, s0, s0)
  {
    assert IsRun(g, [s0]);
  }

  lemma Goes(g: Config, s0: State, s: State, a: Action)
    requires Reaches(g, s0, s) && Enabled(g, s, a)
    ensures Reaches(g, s0, Apply(g, s, a))
  {
    var run :| IsRun(g, run) && run[0] == s0 && run[|run| - 1] == s;
    Paths.Stays(g, s);
    Paths.Goes(g, s, s, a);
    var longer := Paths.RunGoesOn(g, run, Apply(g, s, a));
    assert IsRun(g, longer);
  }

  const G := Config(10, {"p"}, 5, map["p" := 5])

  const BEFORE := Money(50, 5, 0, map[])

  const S0 := Idle(Db(map["p" := BEFORE], [], [], [], {}, {}))

  /** Nobody holds the plan. */
  function Idle(db: Db): State {
    State(0, map["p" := None], map[], db)
  }

  lemma RowGoes(db: Db, i: nat, step: RowStep)
    requires Reaches(G, S0, Idle(db)) && RowEnabled(Idle(db), i, step)
    ensures Reaches(G, S0, Idle(SetRow(db, i, RowAfter(db.outbox[i], step))))
  {
    Goes(G, S0, Idle(db), OnRow(i, step));
  }

  /******* A deposit overtakes a withdrawal *******/

  function Loose(kind: Kind, status: Status, broadcast: bool, fate: Fate, booked: bool): Row {
    Row("p", None, kind, None, status, broadcast, fate, booked)
  }

  /** A row of no cycle, signed and mined and confirmed. */
  lemma SignedAndMined(db: Db, kind: Kind, logs: Logs)
    requires Reaches(G, S0, Idle(db)) && Enabled(G, Idle(db), SignLoose("p", kind)) && (kind.Redeem? || kind.Deposit?)
    ensures Reaches(G, S0, Idle(AddRow(db, Loose(kind, Confirmed, true, Mined(logs), false))))
  {
    var n := |db.outbox|;
    var signed := AddRow(db, Loose(kind, Signed, false, Unmined, false));
    Goes(G, S0, Idle(db), SignLoose("p", kind));
    RowGoes(signed, n, Broadcast);
    var sent := SetRow(signed, n, Loose(kind, Status.Pending, true, Unmined, false));
    RowGoes(sent, n, Mine(Mined(logs)));
    var mined := SetRow(sent, n, Loose(kind, Status.Pending, true, Mined(logs), false));
    RowGoes(mined, n, Confirm);
    assert SetRow(mined, n, Loose(kind, Confirmed, true, Mined(logs), false))
           == AddRow(db, Loose(kind, Confirmed, true, Mined(logs), false));
  }

  const WITHDRAWN := Loose(Redeem, Confirmed, true, Mined(Logs(50, 5, 0)), true)
  const PUT_IN := Loose(Deposit, Confirmed, true, Mined(Logs(100, 10, 0)), true)

  const OVERTAKEN := [Receipt(1, "p", Deposited(100, 10)), Receipt(0, "p", PositionRedeemed(50, 5))]

  const AFTER := Db(map["p" := Money(0, 10, 0, map[])], [], [WITHDRAWN, PUT_IN], OVERTAKEN, {}, {})

  const UNBOOKED := S0.db.(outbox := [WITHDRAWN.(booked := false), PUT_IN.(booked := false)])

  /** The withdrawal is mined but its process dies; then the deposit is signed and mined. */
  lemma BothMined()
    ensures Reaches(G, S0, Idle(UNBOOKED))
  {
    hide Reaches;
    Starts(G, S0);
    SignedAndMined(S0.db, Redeem, Logs(50, 5, 0));
    var one := AddRow(S0.db, WITHDRAWN.(booked := false));
    SignedAndMined(one, Deposit, Logs(100, 10, 0));
    assert AddRow(one, PUT_IN.(booked := false)) == UNBOOKED;
  }

  lemma BooksGo(db: Db, i: nat, e: Effect)
    requires Reaches(G, S0, Idle(db)) && Enabled(G, Idle(db), BookOrphan(i))
    requires RecoveredEffect(db.outbox[i], RecordedDecision(db, i)).value == e
    ensures Reaches(G, S0, Idle(WithReceipt(db, i, e)))
  {
    Goes(G, S0, Idle(db), BookOrphan(i));
  }

  /** The deposit is booked at once; the orphan pass books the withdrawal after it. */
  lemma ADepositOvertakes()
    ensures Reaches(G, S0, Idle(AFTER))
  {
    hide Reaches;
    BothMined();
    BooksGo(UNBOOKED, 1, Deposited(100, 10));
    var booked := UNBOOKED.(money := map["p" := Money(150, 15, 0, map[])], outbox := [UNBOOKED.outbox[0], PUT_IN],
                            receipts := [OVERTAKEN[0]]);
    var first := WithReceipt(UNBOOKED, 1, Deposited(100, 10));
    assert first.money == booked.money && first.outbox == booked.outbox && first.receipts == booked.receipts && first == booked;
    BooksGo(booked, 0, PositionRedeemed(50, 5));
    var both := WithReceipt(booked, 0, PositionRedeemed(50, 5));
    assert both.money == AFTER.money && both.outbox == AFTER.outbox && both.receipts == AFTER.receipts;
  }

  lemma OvertakenLists()
    ensures ReceiptRows(OVERTAKEN, "p") == [1, 0] && MinedRows(AFTER.outbox, "p") == [0, 1]
  {
    var first := OVERTAKEN[..1];
    assert first[..0] == [] && ReceiptRows(first[..0], "p") == [] && first[0] == OVERTAKEN[0];
    assert ReceiptRows(first, "p") == [] + [1];
    SameNumbersSameList(MinedRows(AFTER.outbox, "p"), [0, 1]);
  }

  lemma OvertakenFolds()
    ensures NothingCut(BEFORE, AFTER.outbox, [1, 0]) && NothingCut(BEFORE, AFTER.outbox, [0, 1])
    ensures Happened(BEFORE, AFTER.outbox, [0, 1]) == Money(100, 10, 0, map[])
    ensures !NoneOvertakes(Overtakes, AFTER.outbox, [1, 0]) && !NoneOvertakes(OvertakesOrCuts, AFTER.outbox, [1, 0])
  {
    assert [0, 1][..1] == [0] && [1, 0][..1] == [1] && [0][..0] == [] && [1][..0] == [];
    assert EffectOf(AFTER.outbox, 0) == PositionRedeemed(50, 5) && EffectOf(AFTER.outbox, 1) == Deposited(100, 10);
    assert Happened(BEFORE, AFTER.outbox, []) == BEFORE;
    assert Happened(BEFORE, AFTER.outbox, [0]) == Money(0, 0, 0, map[]);
    assert Happened(BEFORE, AFTER.outbox, [1]) == Money(150, 15, 0, map[]);
    assert Overtakes(EffectOf(AFTER.outbox, 1), EffectOf(AFTER.outbox, 0));
    assert !FairPair(Overtakes, AFTER.outbox, [1, 0], 0, 1) && !FairPair(OvertakesOrCuts, AFTER.outbox, [1, 0], 0, 1);
  }

  /**
   So the order assumed by crash transparency is one that can go wrong: the run settles, nothing is cut
   in either order, and the plan has no principal where signing order would have left it the deposit.
   */
  lemma OvertakingShows()
    ensures Reaches(G, S0, Idle(AFTER)) && S0.db.money["p"] == BEFORE
    ensures Settled(AFTER, "p") && Delivered(AFTER, "p") && !GoodOrder(AFTER, BEFORE, "p")
    ensures NothingCut(BEFORE, AFTER.outbox, ReceiptRows(OVERTAKEN, "p")) && NothingCut(BEFORE, AFTER.outbox, MinedRows(AFTER.outbox, "p"))
    ensures AFTER.money["p"].principal == 0 && Happened(BEFORE, AFTER.outbox, MinedRows(AFTER.outbox, "p")).principal == 100
  {
    hide NothingCut, NoneOvertakes, Happened, ReceiptRows, MinedRows, Reaches;
    ADepositOvertakes();
    OvertakenLists();
    OvertakenFolds();
  }

  /******* Two passes disagree *******/

  const D := Decision("A", 5, None)
  const READ := Awaiting(0, D)
  const LOGS := Logs(5, 0, 1)

  /** One process holds the plan, and does `job`. */
  function Held(job: Job, armed: bool, db: Db): State {
    State(0, map["p" := Some(10)], map[0 := Proc("p", 10, armed, job)], db)
  }

  lemma Takes(db: Db)
    requires Reaches(G, S0, Idle(db))
    ensures Reaches(G, S0, Held(Fresh, false, db))
  {
    Goes(G, S0, Idle(db), ByLock(0, Acquire("p")));
    var s := Apply(G, Idle(db), ByLock(0, Acquire("p")));
    assert s.locks == map["p" := Some(10)] && s.procs == map[0 := Proc("p", 10, false, Fresh)];
  }

  lemma Renews(job: Job, armed: bool, db: Db)
    requires Reaches(G, S0, Held(job, armed, db))
    ensures Reaches(G, S0, Held(job, true, db))
  {
    Goes(G, S0, Held(job, armed, db), ByLock(0, Renew));
    var s := Apply(G, Held(job, armed, db), ByLock(0, Renew));
    assert s.locks == map["p" := Some(10)] && s.procs == map[0 := Proc("p", 10, true, job)];
  }

  lemma Leaves(job: Job, armed: bool, db: Db)
    requires Reaches(G, S0, Held(job, armed, db))
    ensures Reaches(G, S0, Idle(db))
  {
    Goes(G, S0, Held(job, armed, db), ByLock(0, Leave));
    var s := Apply(G, Held(job, armed, db), ByLock(0, Leave));
    assert s.locks == map["p" := None] && s.procs == map[];
  }

  lemma Opens(db: Db)
    requires Reaches(G, S0, Held(Fresh, false, db)) && NothingOpen(db, "p") && "p" in db.money
    ensures Reaches(G, S0, Held(Live(|db.cycles|, Deciding, None, false, false), false, AddCycle(db, "p")))
  {
    Goes(G, S0, Held(Fresh, false, db), ByStart(0, Check));
    var s := Apply(G, Held(Fresh, false, db), ByStart(0, Check));
    assert s.procs == map[0 := Proc("p", 10, false, Clear)];
    Goes(G, S0, s, ByStart(0, OpenCycle));
    var job := Live(|db.cycles|, Deciding, None, false, false);
    assert Apply(G, s, ByStart(0, OpenCycle)).procs == map[0 := Proc("p", 10, false, job)];
  }

  lemma LiveGoes(job: Job, armed: bool, db: Db, step: LiveStep)
    requires Reaches(G, S0, Held(job, armed, db)) && LiveEnabled(G, Held(job, armed, db), 0, step)
    ensures Reaches(G, S0, Held(JobAfter(G, Held(job, armed, db), 0, step), false, LiveWrite(G, Held(job, armed, db), 0, step)))
  {
    var s := Held(job, armed, db);
    Goes(G, S0, s, ByCycle(0, step));
    assert Apply(G, s, ByCycle(0, step)).procs == map[0 := Proc("p", 10, false, JobAfter(G, s, 0, step))];
  }

  lemma HeldRowGoes(job: Job, armed: bool, db: Db, i: nat, step: RowStep)
    requires Reaches(G, S0, Held(job, armed, db)) && RowEnabled(Held(job, armed, db), i, step)
    ensures Reaches(G, S0, Held(job, armed, SetRow(db, i, RowAfter(db.outbox[i], step))))
  {
    Goes(G, S0, Held(job, armed, db), OnRow(i, step));
  }

  lemma FinishGoes(db: Db, c: nat, read: Step, step: FinishStep)
    requires Reaches(G, S0, Idle(db)) && FinishEnabled(db, c, read, step)
    ensures Reaches(G, S0, Idle(FinishWrite(db, c, read, step)))
  {
    Goes(G, S0, Idle(db), ByFinisher(c, read, step));
  }

  /** A cycle of the plan that reserved the day's cap and has the allowance. */
  function Reserving(db: Db, steps: seq<Step>): Db {
    db.(cycles := db.cycles + [Cycle("p", Running, steps, Some(Entry(0, 5, Reserved)))])
  }

  lemma Reserves(db: Db)
    requires Reaches(G, S0, Idle(db)) && NothingOpen(db, "p") && "p" in db.money && DaySum(db.cycles, {"p"}, 0) == 0
    ensures Reaches(G, S0, Held(Live(|db.cycles|, Decided(D), Some(5), false, false), false, Reserving(db, [Execute(D)])))
  {
    hide Reaches;
    var n := |db.cycles|;
    Takes(db);
    Opens(db);
    var started := AddCycle(db, "p");
    LiveGoes(Live(n, Deciding, None, false, false), false, started, Decide(D));
    var decided := AppendStep(started, n, Execute(D));
    assert decided.cycles[n].steps == [Execute(D)];
    assert decided.cycles == db.cycles + [Cycle("p", Running, [Execute(D)], None)];
    assert decided.cycles[..n] == db.cycles;
    Renews(Live(n, Decided(D), None, false, false), false, decided);
    LiveGoes(Live(n, Decided(D), None, false, false), true, decided, Reserve(0));
    assert SetEntry(decided, n, Some(Entry(0, 5, Reserved))).cycles == Reserving(db, [Execute(D)]).cycles;
  }

  function SwapRow(status: Status, broadcast: bool, fate: Fate, booked: bool): Row {
    Row("p", Some(0), Swap, Some(D), status, broadcast, fate, booked)
  }

  function With(steps: seq<Step>, state: CycleState, entry: Entry, row: Row): Db {
    S0.db.(cycles := [Cycle("p", state, steps, Some(entry))], outbox := [row])
  }

  const FIVE := Entry(0, 5, Reserved)

  lemma Signs()
    ensures Reaches(G, S0, Held(Live(0, Sent(0), Some(5), false, true), false,
                                With([Execute(D), Execute(D)], Running, FIVE, SwapRow(Signed, false, Unmined, false))))
  {
    hide Reaches;
    Starts(G, S0);
    Reserves(S0.db);
    var one := Reserving(S0.db, [Execute(D)]);
    LiveGoes(Live(0, Decided(D), Some(5), false, false), false, one, HaveAllowance);
    LiveGoes(Live(0, Deciding, Some(5), false, true), false, one, Decide(D));
    var two := AppendStep(one, 0, Execute(D));
    assert two.cycles[0].steps == [Execute(D), Execute(D)];
    assert two.cycles == [Cycle("p", Running, [Execute(D), Execute(D)], Some(FIVE))];
    Renews(Live(0, Decided(D), Some(5), false, true), false, two);
    LiveGoes(Live(0, Decided(D), Some(5), false, true), true, two, Sign(Swap));
    assert AddRow(two, SwapRow(Signed, false, Unmined, false))
           == With([Execute(D), Execute(D)], Running, FIVE, SwapRow(Signed, false, Unmined, false));
  }

  const STEPS := [Execute(D), Execute(D), READ]

  /** It stops waiting for the swap and leaves; the swap is mined, but an operator takes it for lost. */
  lemma ALateSwap()
    ensures Reaches(G, S0, Idle(With(STEPS, AwaitingTx, FIVE, SwapRow(Failed, true, Mined(LOGS), false))))
  {
    hide Reaches;
    Signs();
    var sent := Live(0, Sent(0), Some(5), false, true);
    var steps := [Execute(D), Execute(D)];
    var db := With(steps, Running, FIVE, SwapRow(Signed, false, Unmined, false));
    HeldRowGoes(sent, false, db, 0, Broadcast);
    var out := With(steps, Running, FIVE, SwapRow(Status.Pending, true, Unmined, false));
    assert SetRow(db, 0, out.outbox[0]) == out;
    HeldRowGoes(sent, false, out, 0, Mine(Mined(LOGS)));
    var mined := With(steps, Running, FIVE, SwapRow(Status.Pending, true, Mined(LOGS), false));
    assert SetRow(out, 0, mined.outbox[0]) == mined;
    LiveGoes(sent, false, mined, Observe(true));
    var giving := sent.(phase := Giving(0));
    Renews(giving, false, mined);
    assert LastExecute(steps) == Some(D);
    LiveGoes(giving, true, mined, LogAwait);
    var logged := With(STEPS, Running, FIVE, mined.outbox[0]);
    assert steps + [READ] == STEPS;
    assert AppendStep(mined, 0, READ).cycles == logged.cycles;
    LiveGoes(sent.(phase := Logged), false, logged, Park);
    var parked := With(STEPS, AwaitingTx, FIVE, mined.outbox[0]);
    assert SetState(logged, 0, AwaitingTx).cycles == parked.cycles;
    Leaves(Over, false, parked);
    RowGoes(parked, 0, GiveUpRow(true));
    var late := With(STEPS, AwaitingTx, FIVE, SwapRow(Failed, true, Mined(LOGS), false));
    assert SetRow(parked, 0, late.outbox[0]) == late;
  }

  function Asked(db: Db): Db {
    db.(unanswered := {0})
  }

  /**
   One pass reads the swap as failed and gets no answer; another gets one and marks it confirmed; the
   first then frees and closes. The cycle is closed, its swap mined, confirmed and for the orphan pass.
   */
  lemma PassesDisagree()
    ensures var db := Asked(With(STEPS, Done, FIVE.(status := Released), SwapRow(Confirmed, true, Mined(LOGS), false)));
            && Reaches(G, S0, Idle(db)) && IsOrphan(db, 0) && db.outbox[0].cycle == Some(0)
            && !Late(db.outbox[0]) && SpendsAfterAll(db, BookOrphan(0), 0)
  {
    hide Reaches;
    ALateSwap();
    var late := With(STEPS, AwaitingTx, FIVE, SwapRow(Failed, true, Mined(LOGS), false));
    assert STEPS[2] == READ;
    FinishGoes(late, 0, READ, Unanswered);
    FinishGoes(Asked(late), 0, READ, FinishLate);
    var row := SwapRow(Confirmed, true, Mined(LOGS), false);
    var marked := Asked(With(STEPS, AwaitingTx, FIVE, row));
    assert SetRow(Asked(late), 0, row) == marked;
    FinishGoes(marked, 0, READ, BlindFree);
    var freed := Asked(With(STEPS, AwaitingTx, FIVE.(status := Released), row));
    assert SettleSpend(marked, 0, Released, None).cycles == freed.cycles;
    FinishGoes(freed, 0, READ, BlindClose);
    assert SetState(freed, 0, Done).cycles == With(STEPS, Done, FIVE.(status := Released), row).cycles;
  }

  /** A second cycle reserves what was freed; then the orphan pass spends it after all, and the day is over its cap. */
  lemma TheCapIsExceeded() returns (s: State)
    ensures Reaches(G, S0, s) && s.db.revived == {0}
    ensures DaySum(s.db.cycles, G.house, 0) == 10 && G.globalCap == 5
  {
    hide Reaches;
    PassesDisagree();
    var row := SwapRow(Confirmed, true, Mined(LOGS), false);
    var db := Asked(With(STEPS, Done, FIVE.(status := Released), row));
    assert db.cycles[..0] == [];
    Reserves(db);
    var job := Live(1, Decided(D), Some(5), false, false);
    var two := Reserving(db, [Execute(D)]);
    assert two.cycles[0] == db.cycles[0] && LastExecute(STEPS[..2]) == Some(D) && LastExecute(STEPS) == Some(D);
    Goes(G, S0, Held(job, false, two), BookOrphan(0));
    s := Apply(G, Held(job, false, two), BookOrphan(0));
    assert s.db.cycles == [Cycle("p", Done, STEPS, Some(Entry(0, 5, Spent))), two.cycles[1]];
    assert s.db.cycles[..1] == [s.db.cycles[0]] && s.db.cycles[..1][..0] == [];
  }
}
