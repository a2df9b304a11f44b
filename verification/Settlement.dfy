/**
 The settle pass: recover the cycles dead processes left running, finish the cycles out on chain,
 apply the transactions no cycle waits for. Proved: the pass keeps the tables' invariant, and two
 passes over a chain that stands still leave every cycle closed or held for review and every
 confirmed transaction booked.
 */
module Settlement {
  import opened Basics
  import opened Books
  import opened BooksInvariant
  import opened Protocol
  import opened ProtocolInvariant
  import opened ProtocolSafety
  import opened ProtocolRuns
  import opened Store

  /** What a pass can see: the Venus market, the instruments in the registry, receipts the node does not return. */
  datatype World = World(venus: bool, instruments: set<string>, unreadable: set<nat>)

  datatype Applied = Effected | Already | Wait

  /******* What the pass reads *******/

  /** A cycle's transactions, oldest first. */
  function RowsOf(outbox: seq<Row>, c: nat): seq<nat> {
    IndicesWhere(|outbox|, (i: nat) => i < |outbox| && outbox[i].cycle == Some(c))
  }

  /** The cycles in a state, oldest first. */
  function CyclesIn(cycles: seq<Cycle>, state: CycleState): seq<nat> {
    IndicesWhere(|cycles|, (c: nat) => c < |cycles| && cycles[c].state == state)
  }

  /** Transactions out on chain, or mined with no receipt yet. */
  function UnfinishedTransactions(outbox: seq<Row>): seq<nat> {
    IndicesWhere(|outbox|, (i: nat) => i < |outbox| && Unfinished(outbox[i]))
  }

  /** The transaction cannot be applied yet, although its receipt is there. */
  predicate Waits(w: World, row: Row, d: Option<Decision>) {
    match row.kind
    case Approve => false
    case Deposit => !w.venus
    case Redeem => !w.venus
    case Swap => d.None? || d.value.instrument !in w.instruments
  }

  /** Nothing but the chain keeps the pass from settling things. */
  ghost predicate AllKnown(w: World, db: Db) {
    && w.venus && w.unreadable == {}
    && forall i :: 0 <= i < |db.outbox| && db.outbox[i].signedFor.Some? ==> db.outbox[i].signedFor.value.instrument in w.instruments
  }

  /******* One confirmed transaction *******/

  /** What a plan holds of an instrument; nothing, if it has no holding. */
  function HeldOf(m: Money, instrument: string): Holding {
    if instrument in m.holdings then m.holdings[instrument] else Holding(0, 0)
  }

  /** No more of one than there is of the other. */
  function Less(x: nat, y: nat): nat {
    if x > y then x - y else 0
  }

  /**
   What a mined transaction does to its plan's money, from its receipt: for a deposit the USDT that left
   the wallet and the vTokens minted; for a redeem the USDT that came back and the vTokens burned, in a
   cycle all of it interest, otherwise the whole position; for a swap the USDT that left (or what was
   decided, if no log shows it), the tokens that came, and the interest used for it.
   */
  predicate MovedAsLogged(row: Row, d: Option<Decision>, m: Money, n: Money)
    requires row.fate.Mined?
  {
    var logs := row.fate.logs;
    match row.kind
    case Approve => n == m
    case Deposit =>
      && n.principal == m.principal + logs.usdt && n.vTokens == m.vTokens + logs.vTokens
      && n.harvested == m.harvested && n.holdings == m.holdings
    case Redeem =>
      && n.vTokens == Less(m.vTokens, logs.vTokens) && n.holdings == m.holdings
      && (row.cycle.Some? ==> n.principal == m.principal && n.harvested == m.harvested + logs.usdt)
      && (row.cycle.None? ==> n.principal == 0 && n.harvested == m.harvested + Less(logs.usdt, m.principal))
    case Swap =>
      && d.Some?
      && var x := d.value.instrument;
      && n.principal == m.principal && n.vTokens == m.vTokens
      && n.harvested == (if d.value.interest.Some? then Less(m.harvested, d.value.interest.value) else m.harvested)
      && x in n.holdings && n.holdings.Keys == m.holdings.Keys + {x}
      && n.holdings[x].tokens == HeldOf(m, x).tokens + logs.tokens
      && n.holdings[x].cost == HeldOf(m, x).cost + (if logs.usdt > 0 then logs.usdt else d.value.spend)
      && forall y :: y in m.holdings && y != x ==> n.holdings[y] == m.holdings[y]
  }

  /** A cycle's swap also settles the cycle's reservation, as spent, with what it took; nothing else of a cycle changes. */
  predicate SettledAsLogged(row: Row, d: Option<Decision>, was: seq<Cycle>, now: seq<Cycle>)
    requires row.fate.Mined?
  {
    && |now| == |was|
    && (forall c :: 0 <= c < |was| && !(row.kind.Swap? && row.cycle == Some(c)) ==> now[c] == was[c])
    && forall c :: 0 <= c < |was| && row.kind.Swap? && row.cycle == Some(c) ==>
         && d.Some? && now[c] == was[c].(entry := now[c].entry)
         && var spent := if row.fate.logs.usdt > 0 then row.fate.logs.usdt else d.value.spend;
         now[c].entry == if was[c].entry.None? then None else Some(was[c].entry.value.(amount := spent, status := Spent))
  }

  /** The transaction was booked: its receipt is there, and everything is as it was but for what the receipt says. */
  predicate BookedAsLogged(was: Db, now: Db, i: nat, d: Option<Decision>)
    requires i < |was.outbox| && was.outbox[i].fate.Mined?
  {
    var row := was.outbox[i];
    && now.outbox == was.outbox[i := row.(booked := true)]
    && |now.receipts| == |was.receipts| + 1 && now.receipts[..|was.receipts|] == was.receipts
    && now.receipts[|was.receipts|].row == i && now.receipts[|was.receipts|].plan == row.plan
    && now.money.Keys == was.money.Keys && row.plan in was.money
    && (forall p :: p in was.money && p != row.plan ==> now.money[p] == was.money[p])
    && MovedAsLogged(row, d, was.money[row.plan], now.money[row.plan])
    && SettledAsLogged(row, d, was.cycles, now.cycles)
  }

  lemma EffectIsAsLogged(row: Row, d: Option<Decision>, m: Money)
    requires row.fate.Mined? && RecoveredEffect(row, d).Some?
    ensures MovedAsLogged(row, d, m, ApplyEffect(m, RecoveredEffect(row, d).value))
  {
  }

  lemma ReceiptIsAsLogged(was: Db, i: nat, d: Option<Decision>)
    requires i < |was.outbox| && was.outbox[i].fate.Mined? && !was.outbox[i].booked && was.outbox[i].plan in was.money
    requires was.outbox[i].cycle.Some? ==> was.outbox[i].cycle.value < |was.cycles|
    requires RecoveredEffect(was.outbox[i], d).Some?
    ensures BookedAsLogged(was, WithReceipt(was, i, RecoveredEffect(was.outbox[i], d).value), i, d)
  {
    hide MovedAsLogged, ApplyEffect;
    EffectIsAsLogged(was.outbox[i], d, was.money[was.outbox[i].plan]);
  }

  /** What the running cycle books is the same, but for a swap that delivered nothing: that moves nothing. */
  lemma LiveIsAsLogged(row: Row, d: Decision, m: Money)
    requires row.fate.Mined?
    ensures if row.kind.Swap? && row.fate.logs.tokens == 0 then ApplyEffect(m, LiveEffect(row, d)) == m
            else MovedAsLogged(row, Some(d), m, ApplyEffect(m, LiveEffect(row, d)))
  {
    if !(row.kind.Swap? && row.fate.logs.tokens == 0) {
      EffectIsAsLogged(row, Some(d), m);
    }
  }

  /** Applies one mined transaction of the outbox, once, or says that it has to wait. */
  method ApplyConfirmed(db: Store, w: World, i: nat, d: Option<Decision>) returns (r: Applied)
    requires db.Refers(i) && db.outbox[i].fate.Mined?
    modifies db`money, db`cycles, db`outbox, db`receipts, db`revived
    ensures r.Wait? <==>
              || ((old(db.outbox)[i].kind.Deposit? || old(db.outbox)[i].kind.Redeem?) && !w.venus)
              || (old(db.outbox)[i].kind.Swap? && (d.None? || d.value.instrument !in w.instruments))
    ensures r.Effected? <==> !r.Wait? && !old(db.outbox)[i].booked
    ensures r.Effected? ==> BookedAsLogged(old(db.Tables()), db.Tables(), i, d)
    ensures !r.Effected? ==> db.Tables() == old(db.Tables())
    ensures r.Wait? <==> Waits(w, old(db.outbox)[i], d)
    ensures !r.Wait? ==> RecoveredEffect(old(db.outbox)[i], d).Some?
    ensures !r.Wait? ==> db.Tables() == WithReceipt(old(db.Tables()), i, RecoveredEffect(old(db.outbox)[i], d).value)
  {
    hide BookedAsLogged;
    ghost var was := db.Tables();
    var row := db.outbox[i];
    var logs, isNew := row.fate.logs, false;
    match row.kind {
      case Approve => isNew := db.RecordReceiptFacts(i);
      case Deposit =>
        if !w.venus { return Wait; }
        isNew := db.ApplyDeposit(i, logs.usdt, logs.vTokens);
      case Redeem =>
        if !w.venus { return Wait; }
        if row.cycle.None? {
          isNew := db.ApplyPositionRedeem(i, logs.usdt, logs.vTokens);
        } else {
          isNew := db.ApplyInterestRedeem(i, logs.usdt, logs.vTokens);
        }
      case Swap =>
        if d.None? || d.value.instrument !in w.instruments { return Wait; }
        var spent := if logs.usdt > 0 then logs.usdt else d.value.spend;
        isNew := db.ApplySwap(i, d.value.instrument, logs.tokens, spent, d.value.interest);
    }
    if !row.booked {
      ReceiptIsAsLogged(was, i, d);
    }
    r := if isNew then Effected else Already;
  }

  /******* Recovering cycles left running *******/

  /** What recovery makes of a cycle: something signed, it waits for the chain; nothing signed, it is over. */
  ghost predicate Recovered(was: Db, now: Db, c: nat) {
    && c < |was.cycles| && c < |now.cycles|
    && (if NoRows(was, c) then now.cycles[c].state.Done? && Freed(now.cycles[c])
        else
          && Waiting(now, c)
          && Last(was, c, AwaitedRow(now, c))
          && Some(AwaitingStep(now.cycles[c].steps).value.decision) == LastExecute(was.cycles[c].steps))
  }

  /** The two writes that put a cycle out on chain, and the two that close one that signed nothing. */
  function PutOut(db: Db, c: nat, row: nat, d: Decision): Db
    requires c < |db.cycles|
  {
    SetState(AppendStep(db, c, Awaiting(row, d)), c, AwaitingTx)
  }

  function ClosedUnsigned(db: Db, c: nat): Db
    requires c < |db.cycles|
  {
    SetState(SettleSpend(db, c, Released, None), c, Done)
  }

  lemma PutOutKeeps(g: Config, db: Db, start: Start, c: nat, row: nat, d: Decision)
    requires BooksOk(db, start) && CapsOk(g, db) && c < |db.cycles| && db.cycles[c].state.Running?
    requires Last(db, c, row) && LastExecute(db.cycles[c].steps) == Some(d)
    ensures BooksOk(PutOut(db, c, row, d), start) && CapsOk(g, PutOut(db, c, row, d))
    ensures Recovered(db, PutOut(db, c, row, d), c)
  {
    assert CycleOk(db, c);
    AppendedStep(db.cycles[c].steps, Awaiting(row, d));
    AppendKeeps(g, db, start, c, Awaiting(row, d));
    var logged := AppendStep(db, c, Awaiting(row, d));
    assert logged.cycles[c].steps[|db.cycles[c].steps|].Awaiting?;
    StateKeeps(g, logged, start, c, AwaitingTx);
  }

  lemma ClosedUnsignedKeeps(g: Config, db: Db, start: Start, c: nat)
    requires BooksOk(db, start) && CapsOk(g, db) && c < |db.cycles| && NoRows(db, c)
    ensures BooksOk(ClosedUnsigned(db, c), start) && CapsOk(g, ClosedUnsigned(db, c))
    ensures Recovered(db, ClosedUnsigned(db, c), c)
  {
    FreedKeeps(g, db, start, c);
    StateKeeps(g, SettleSpend(db, c, Released, None), start, c, Done);
  }

  method RecoverInterrupted(db: Store, c: nat, ghost g: Config, ghost start: Start)
    requires c < |db.cycles| && db.cycles[c].state.Running?
    requires BooksOk(db.Tables(), start) && CapsOk(g, db.Tables())
    modifies db`cycles
    ensures BooksOk(db.Tables(), start) && CapsOk(g, db.Tables())
    ensures Recovered(old(db.Tables()), db.Tables(), c) && OnlyCycle(old(db.Tables()), db.Tables(), c)
  {
    ghost var was := db.Tables();
    var signed := RowsOf(db.outbox, c);
    var decision := LastExecute(db.cycles[c].steps);
    if |signed| > 0 && decision.Some? {
      var latest := signed[|signed| - 1];
      db.AppendCycleStep(c, Awaiting(latest, decision.value));
      db.UpdateCycle(c, AwaitingTx);
      LatestIsLast(was, c, signed);
      PutOutKeeps(g, was, start, c, latest, decision.value);
    } else if |signed| > 0 {
      // nothing says what it was signed for: only a person can close it
      db.AppendCycleStep(c, Anomaly(None));
      db.UpdateCycle(c, AwaitingTx);
      LatestIsLast(was, c, signed);
      SignedMeansDecided(was, start, c, signed[|signed| - 1]);
    } else {
      db.SettleCycleSpend(c, Released, None);
      db.UpdateCycle(c, Done);
      NoneMeansNoRows(was, c);
      ClosedUnsignedKeeps(g, was, start, c);
    }
  }

  lemma LatestIsLast(db: Db, c: nat, rows: seq<nat>)
    requires rows == RowsOf(db.outbox, c) && |rows| > 0
    ensures Last(db, c, rows[|rows| - 1])
  {
    var last := rows[|rows| - 1];
    assert last in rows;
    forall j: nat | j < |db.outbox| ensures db.outbox[j].cycle == Some(c) ==> j <= last {
      assert db.outbox[j].cycle == Some(c) ==> j in rows;
    }
  }

  lemma NoneMeansNoRows(db: Db, c: nat)
    requires RowsOf(db.outbox, c) == []
    ensures NoRows(db, c)
  {
    forall j: nat | j < |db.outbox| ensures db.outbox[j].cycle != Some(c) {
      assert db.outbox[j].cycle == Some(c) ==> j in RowsOf(db.outbox, c);
    }
  }

  /******* Finishing one cycle out on chain *******/

  /** Every transaction of the cycle settled, and each confirmed one can be applied now. */
  ghost predicate CanBook(w: World, db: Db, c: nat)
    requires Waiting(db, c)
  {
    forall i :: OfCycle(db, i, c) ==> !Unsettled(db.outbox[i]) && Bookable(w, db, c, i)
  }

  predicate Bookable(w: World, db: Db, c: nat, i: nat)
    requires i < |db.outbox| && Waiting(db, c)
  {
    db.outbox[i].status.Confirmed? ==>
      i !in w.unreadable && !Waits(w, db.outbox[i], Some(PendingStep(db, c).decision))
  }

  /** The pass would close the cycle as failed: the node does not return the receipt of its mined last transaction. */
  ghost predicate ClosesBlindly(w: World, db: Db, c: nat) {
    && Waiting(db, c) && CanBook(w, db, c) && OfCycle(db, AwaitedRow(db, c), c)
    && Late(db.outbox[AwaitedRow(db, c)]) && AwaitedRow(db, c) in w.unreadable
  }

  /** The cycle is closed over a mined transaction that nobody will book. */
  ghost predicate LostTo(db: Db, c: nat) {
    c < |db.cycles| && db.cycles[c].state.Done? && exists i :: OfCycle(db, i, c) && Late(db.outbox[i])
  }

  /** The cycles given up are those given up before, and `c` if it was closed blindly. */
  ghost predicate GaveUp(w: World, was: Db, now: Db, c: nat) {
    now.unanswered == was.unanswered + if ClosesBlindly(w, was, c) then {c} else {}
  }

  /** All that may happen to a row: it is booked, or a failed one turns out to be mined. */
  predicate Moved(was: Row, now: Row) {
    && now == was.(status := now.status, booked := now.booked)
    && (was.booked ==> now.booked)
    && (now.status == was.status || (Late(was) && now.status.Confirmed?))
  }

  /** What finishing makes of cycle `c`. */
  ghost predicate Completed(w: World, was: Db, now: Db, c: nat) {
    && c < |was.cycles| && c < |now.cycles| && |was.outbox| == |now.outbox|
    && (forall i :: OfCycle(was, i, c) ==> Moved(was.outbox[i], now.outbox[i]))
    && if !Waiting(was, c) || !CanBook(w, was, c) then Untouched(was, now, c)
       else if !OfCycle(was, AwaitedRow(was, c), c) then false
       else
         var row := was.outbox[AwaitedRow(was, c)];
         if Late(row) && AwaitedRow(was, c) !in w.unreadable then
           Untouched(was, now, c) && now.outbox[AwaitedRow(was, c)] == row.(status := Confirmed)
         else if row.status.Confirmed? && row.kind.Swap? && row.fate.Mined? && row.fate.logs.tokens == 0 then
           HeldForReview(now.cycles[c])
         else
           && now.cycles[c].state.Done? && (!(row.status.Confirmed? && row.kind.Swap?) ==> Freed(now.cycles[c]))
           && (Late(row) ==> now.outbox[AwaitedRow(was, c)] == row)
  }

  /** The cycle's state and step log are as they were. */
  predicate Untouched(was: Db, now: Db, c: nat) {
    && c < |was.cycles| && c < |now.cycles|
    && now.cycles[c].state == was.cycles[c].state && now.cycles[c].steps == was.cycles[c].steps
  }

  /** All that happened is that rows of cycle `c` were booked. */
  ghost predicate OnlyBooked(was: Db, now: Db, c: nat) {
    && OnlyCycle(was, now, c) && Untouched(was, now, c) && now.unanswered == was.unanswered
    && forall i :: 0 <= i < |was.outbox| ==>
         now.outbox[i] == was.outbox[i].(booked := now.outbox[i].booked) && (was.outbox[i].booked ==> now.outbox[i].booked)
  }

  lemma RowFacts(db: Db, start: Start, i: nat)
    requires BooksOk(db, start) && i < |db.outbox|
    ensures RowRefOk(db, db.outbox[i]) && RowOk(db.outbox[i])
  {
  }

  /** Applying a confirmed row of a waiting cycle, new or already applied, keeps books and caps. */
  lemma AppliedKeeps(g: Config, db: Db, start: Start, c: nat, i: nat)
    requires BooksOk(db, start) && CapsOk(g, db) && Waiting(db, c) && OfCycle(db, i, c)
    requires db.outbox[i].status.Confirmed?
    ensures RowRefOk(db, db.outbox[i]) && db.outbox[i].fate.Mined?
    ensures var e := RecoveredEffect(db.outbox[i], Some(PendingStep(db, c).decision)).value;
            && BooksOk(WithReceipt(db, i, e), start) && CapsOk(g, WithReceipt(db, i, e))
            && WithReceipt(db, i, e).outbox[i].booked && OnlyBooked(db, WithReceipt(db, i, e), c)
  {
    hide BooksOk, CapsOk;
    RowFacts(db, start, i);
    if !db.outbox[i].booked {
      WaitsOnItsLast(db, start, c);
      FinishWriteKeeps(g, db, start, c, PendingStep(db, c), FinishBook(i));
    }
  }

  lemma OnlyBookedAgain(a: Db, b: Db, d: Db, c: nat)
    requires OnlyBooked(a, b, c) && OnlyBooked(b, d, c)
    ensures OnlyBooked(a, d, c)
  {
  }

  lemma OnlyBookedSameRows(was: Db, now: Db, c: nat)
    requires OnlyBooked(was, now, c)
    ensures forall i :: OfCycle(now, i, c) <==> OfCycle(was, i, c)
    ensures forall i: nat :: Last(now, c, i) <==> Last(was, c, i)
  {
  }

  /** Applies one confirmed transaction of a waiting cycle, unless its receipt or its effect has to wait. */
  method ApplyOne(db: Store, w: World, c: nat, i: nat, pending: Step, ghost g: Config, ghost start: Start)
    returns (applied: bool)
    requires BooksOk(db.Tables(), start) && CapsOk(g, db.Tables())
    requires Waiting(db.Tables(), c) && AwaitingStep(db.cycles[c].steps) == Some(pending)
    requires OfCycle(db.Tables(), i, c) && db.outbox[i].status.Confirmed?
    modifies db`money, db`cycles, db`outbox, db`receipts, db`revived
    ensures BooksOk(db.Tables(), start) && CapsOk(g, db.Tables()) && OnlyBooked(old(db.Tables()), db.Tables(), c)
    ensures applied <==> Bookable(w, old(db.Tables()), c, i)
    ensures applied ==> db.outbox[i].booked && db.outbox[i].fate.Mined?
  {
    AppliedKeeps(g, db.Tables(), start, c, i);
    if i in w.unreadable {
      return false;
    }
    var r := ApplyConfirmed(db, w, i, Some(pending.decision));
    applied := !r.Wait?;
  }

  /** Row `i` of the cycle is done with: nothing to apply, or applied, and a swap's tokens remembered. */
  ghost predicate AppliedAt(w: World, was: Db, now: Db, c: nat, i: nat, received: Option<nat>) {
    && i < |was.outbox| && i < |now.outbox| && Waiting(was, c) && Bookable(w, was, c, i)
    && (now.outbox[i].status.Confirmed? ==> now.outbox[i].booked)
    && (now.outbox[i].status.Confirmed? && now.outbox[i].kind.Swap? ==>
          now.outbox[i].fate.Mined? && received == Some(now.outbox[i].fate.logs.tokens))
  }

  ghost predicate AppliedSoFar(w: World, was: Db, now: Db, c: nat, signed: seq<nat>, k: nat, received: Option<nat>)
    requires k <= |signed|
  {
    forall j :: 0 <= j < k ==> AppliedAt(w, was, now, c, signed[j], received)
  }

  lemma AppliedOneMore(w: World, was: Db, before: Db, now: Db, c: nat, signed: seq<nat>, k: nat,
                       received: Option<nat>, received': Option<nat>)
    requires k < |signed| && AppliedSoFar(w, was, before, c, signed, k, received)
    requires OnlyBooked(was, before, c) && OnlyBooked(before, now, c) && AppliedAt(w, was, now, c, signed[k], received')
    requires received' == received || forall j :: 0 <= j < k ==> signed[j] < |was.outbox| && !was.outbox[signed[j]].kind.Swap?
    ensures AppliedSoFar(w, was, now, c, signed, k + 1, received')
  {
  }

  lemma AllApplied(w: World, was: Db, now: Db, c: nat, signed: seq<nat>, received: Option<nat>)
    requires signed == RowsOf(was.outbox, c) && OnlyBooked(was, now, c)
    requires AppliedSoFar(w, was, now, c, signed, |signed|, received)
    ensures forall i :: OfCycle(was, i, c) ==> AppliedAt(w, was, now, c, i, received)
  {
    forall i: nat | OfCycle(was, i, c) ensures AppliedAt(w, was, now, c, i, received) {
      assert i in signed;
    }
  }

  /** Applies the confirmed transactions of a cycle one by one; stops at the first that has to wait. */
  method ApplyCycle(db: Store, w: World, c: nat, pending: Step, signed: seq<nat>, ghost g: Config, ghost start: Start)
    returns (ready: bool, received: Option<nat>)
    requires BooksOk(db.Tables(), start) && CapsOk(g, db.Tables())
    requires Waiting(db.Tables(), c) && AwaitingStep(db.cycles[c].steps) == Some(pending)
    requires signed == RowsOf(db.outbox, c)
    modifies db`money, db`cycles, db`outbox, db`receipts, db`revived
    ensures BooksOk(db.Tables(), start) && CapsOk(g, db.Tables()) && OnlyBooked(old(db.Tables()), db.Tables(), c)
    ensures ready ==> forall i :: OfCycle(old(db.Tables()), i, c) ==> AppliedAt(w, old(db.Tables()), db.Tables(), c, i, received)
    ensures !ready ==> exists i :: OfCycle(old(db.Tables()), i, c) && !Bookable(w, old(db.Tables()), c, i)
  {
    hide BooksOk, CapsOk;
    ghost var was := db.Tables();
    received := None;
    var k := 0;
    while k < |signed|
      invariant k <= |signed|
      invariant BooksOk(db.Tables(), start) && CapsOk(g, db.Tables()) && OnlyBooked(was, db.Tables(), c)
      invariant AppliedSoFar(w, was, db.Tables(), c, signed, k, received)
    {
      var i := signed[k];
      assert i in signed;
      ghost var before, receivedBefore := db.Tables(), received;
      if db.outbox[i].status.Confirmed? {
        var applied := ApplyOne(db, w, c, i, pending, g, start);
        if !applied {
          assert OfCycle(was, i, c) && !Bookable(w, was, c, i);
          OnlyBookedAgain(was, before, db.Tables(), c);
          return false, received;
        }
        OnlyBookedAgain(was, before, db.Tables(), c);
        if db.outbox[i].kind.Swap? {
          SwapIsLast(was, start, c, signed, k);
          received := Some(db.outbox[i].fate.logs.tokens);
        }
      }
      AppliedOneMore(w, was, before, db.Tables(), c, signed, k, receivedBefore, received);
      k := k + 1;
    }
    AllApplied(w, was, db.Tables(), c, signed, received);
    ready := true;
  }

  lemma SwapIsLast(db: Db, start: Start, c: nat, signed: seq<nat>, k: nat)
    requires BooksOk(db, start) && signed == RowsOf(db.outbox, c) && k < |signed|
    ensures forall j :: 0 <= j < k ==> signed[j] < |db.outbox| && !db.outbox[signed[j]].kind.Swap?
  {
    forall j | 0 <= j < k ensures signed[j] < |db.outbox| && !db.outbox[signed[j]].kind.Swap? {
      assert signed[j] in signed && signed[k] in signed;
      assert InTurn(db, signed[j], signed[k]);
    }
  }

  /******* The last write *******/

  lemma AllInNow(w: World, was: Db, db: Db, start: Start, c: nat, received: Option<nat>)
    requires BooksOk(was, start) && Waiting(was, c) && OnlyBooked(was, db, c)
    requires forall i :: OfCycle(was, i, c) ==> !Unsettled(was.outbox[i])
    requires forall i :: OfCycle(was, i, c) ==> AppliedAt(w, was, db, c, i, received)
    ensures CanBook(w, was, c) && AllIn(db, c) && AwaitedRow(db, c) == AwaitedRow(was, c) < |was.outbox|
    ensures OfCycle(was, AwaitedRow(was, c), c)
    ensures AppliedAt(w, was, db, c, AwaitedRow(was, c), received)
  {
    WaitsOnItsLast(was, start, c);
    OnlyBookedSameRows(was, db, c);
  }

  /** The transaction was marked failed and mined after all: it is confirmed, and the cycle waits one pass more. */
  lemma ReMarked(g: Config, was: Db, db: Db, start: Start, w: World, c: nat)
    requires BooksOk(db, start) && CapsOk(g, db) && AllIn(db, c) && OnlyBooked(was, db, c) && Waiting(was, c)
    requires BooksOk(was, start) && CanBook(w, was, c) && Late(db.outbox[AwaitedRow(db, c)]) && AwaitedRow(db, c) !in w.unreadable
    ensures var now := SetRow(db, AwaitedRow(db, c), db.outbox[AwaitedRow(db, c)].(status := Confirmed));
            BooksOk(now, start) && CapsOk(g, now) && Completed(w, was, now, c) && OnlyCycle(was, now, c)
  {
    FinishWriteKeeps(g, db, start, c, PendingStep(db, c), FinishLate);
    assert RowOk(db.outbox[AwaitedRow(db, c)]);
  }

  lemma HeldFromNow(g: Config, was: Db, db: Db, start: Start, w: World, c: nat)
    requires BooksOk(db, start) && CapsOk(g, db) && AllIn(db, c) && OnlyBooked(was, db, c) && Waiting(was, c)
    requires CanBook(w, was, c) && FinishEnabled(db, c, PendingStep(db, c), FinishOdd)
    ensures var now := AppendStep(db, c, Anomaly(Some(AwaitedRow(db, c))));
            BooksOk(now, start) && CapsOk(g, now) && Completed(w, was, now, c) && OnlyCycle(was, now, c)
  {
    hide BooksOk, CapsOk;
    FinishWriteKeeps(g, db, start, c, PendingStep(db, c), FinishOdd);
    AppendedStep(db.cycles[c].steps, Anomaly(Some(AwaitedRow(db, c))));
  }

  lemma Bought(g: Config, was: Db, db: Db, start: Start, w: World, c: nat)
    requires BooksOk(db, start) && CapsOk(g, db) && AllIn(db, c) && OnlyBooked(was, db, c) && Waiting(was, c)
    requires CanBook(w, was, c) && FinishEnabled(db, c, PendingStep(db, c), FinishClose) && !NoSwapLanded(db.outbox[AwaitedRow(db, c)])
    ensures var now := SetState(db, c, Done);
            BooksOk(now, start) && CapsOk(g, now) && Completed(w, was, now, c) && OnlyCycle(was, now, c)
  {
    hide BooksOk, CapsOk;
    FinishWriteKeeps(g, db, start, c, PendingStep(db, c), FinishClose);
  }

  lemma NothingBought(g: Config, was: Db, db: Db, start: Start, w: World, c: nat)
    requires BooksOk(db, start) && CapsOk(g, db) && AllIn(db, c) && OnlyBooked(was, db, c) && Waiting(was, c)
    requires CanBook(w, was, c) && NoSwapLanded(db.outbox[AwaitedRow(db, c)])
    ensures var now := SetState(SettleSpend(db, c, Released, None), c, Done);
            BooksOk(now, start) && CapsOk(g, now) && Completed(w, was, now, c) && OnlyCycle(was, now, c)
  {
    FinishWriteKeeps(g, db, start, c, PendingStep(db, c), FinishFree);
    var freed := SettleSpend(db, c, Released, None);
    assert AllIn(freed, c) by {
      assert forall i :: OfCycle(freed, i, c) <==> OfCycle(db, i, c);
    }
    FinishWriteKeeps(g, freed, start, c, PendingStep(freed, c), FinishClose);
  }

  /** The node did not answer: the cycle is closed over its mined transaction, and that is all that is lost. */
  lemma ClosedBlindly(g: Config, was: Db, db: Db, start: Start, w: World, c: nat)
    requires BooksOk(db, start) && CapsOk(g, db) && AllIn(db, c) && OnlyBooked(was, db, c) && Waiting(was, c)
    requires BooksOk(was, start) && CanBook(w, was, c)
    requires Late(db.outbox[AwaitedRow(db, c)]) && AwaitedRow(db, c) in w.unreadable
    ensures var now := ClosedUnsigned(AskedInVain(db, c), c);
            BooksOk(now, start) && CapsOk(g, now) && Completed(w, was, now, c) && OnlyCycle(was, now, c)
    ensures ClosesBlindly(w, was, c)
  {
    hide BooksOk, CapsOk;
    var last := AwaitedRow(db, c);
    RowFacts(db, start, last);
    RowFacts(was, start, last);
    WaitsOnItsLast(db, start, c);
    FinishWriteKeeps(g, db, start, c, PendingStep(db, c), Unanswered);
    var given := AskedInVain(db, c);
    BlindFreeKeeps(g, given, start, c);
    BlindCloseKeeps(g, SettleSpend(given, c, Released, None), start, c);
  }

  /** Without the record of cycles given up, books with a lost transaction are wrong. */
  lemma LostIsWrong(db: Db, start: Start, c: nat, known: set<nat>)
    requires LostTo(db, c) && c !in known
    ensures !BooksOk(db.(unanswered := known), start)
  {
    var i :| OfCycle(db, i, c) && Late(db.outbox[i]);
    var forgot := db.(unanswered := known);
    if BooksOk(forgot, start) {
      CycleFacts(forgot, start, c, i);
      assert false;
    }
  }

  lemma CycleFacts(db: Db, start: Start, c: nat, i: nat)
    requires BooksOk(db, start) && c < |db.cycles| && OfCycle(db, i, c)
    ensures RowOk(db.outbox[i])
    ensures db.cycles[c].state.Done? ==> IsOver(db, c, db.outbox[i])
  {
    assert CycleOk(db, c);
  }

  lemma NotBlindly(w: World, was: Db, now: Db, c: nat)
    requires OnlyBooked(was, now, c) && Waiting(was, c) && OfCycle(now, AwaitedRow(was, c), c)
    requires !(Late(now.outbox[AwaitedRow(was, c)]) && AwaitedRow(was, c) in w.unreadable)
    ensures !ClosesBlindly(w, was, c)
  {
  }

  /** The outcome of a cycle whose transactions are all in, from the last of them. */
  method FinishCycle(db: Store, w: World, c: nat, last: nat, received: Option<nat>,
                     ghost was: Db, ghost g: Config, ghost start: Start)
    returns (finished: bool)
    requires BooksOk(db.Tables(), start) && CapsOk(g, db.Tables())
    requires BooksOk(was, start) && OnlyBooked(was, db.Tables(), c) && Waiting(was, c) && CanBook(w, was, c)
    requires AllIn(db.Tables(), c) && last == AwaitedRow(db.Tables(), c)
    requires db.outbox[last].status.Confirmed? && db.outbox[last].kind.Swap? ==>
               db.outbox[last].fate.Mined? && received == Some(db.outbox[last].fate.logs.tokens)
    modifies db`money, db`cycles, db`outbox, db`receipts, db`unanswered, db`revived
    ensures BooksOk(db.Tables(), start) && CapsOk(g, db.Tables())
    ensures OnlyCycle(was, db.Tables(), c) && Completed(w, was, db.Tables(), c) && GaveUp(w, was, db.Tables(), c)
    ensures finished <==> db.cycles[c].state.Done?
  {
    hide BooksOk, CapsOk, ClosesBlindly, Completed;
    ghost var now := db.Tables();
    var row := db.outbox[last];
    if !(Late(row) && last in w.unreadable) {
      NotBlindly(w, was, now, c);
    }
    if row.status.Failed? && row.broadcast && row.fate.Mined? && last !in w.unreadable {
      ReMarked(g, was, now, start, w, c);
      var _ := db.MarkOutbox(last, Confirmed, None);
      return false;
    }
    if row.status.Confirmed? && row.kind.Swap? {
      if received.value == 0 {
        HeldFromNow(g, was, now, start, w, c);
        db.AppendCycleStep(c, Anomaly(Some(last)));
        return false;
      }
      Bought(g, was, now, start, w, c);
    } else {
      if Late(row) {
        ClosedBlindly(g, was, now, start, w, c);
        db.unanswered := db.unanswered + {c};
      } else {
        NothingBought(g, was, now, start, w, c);
      }
      db.SettleCycleSpend(c, Released, None);
    }
    db.UpdateCycle(c, Done);
    finished := true;
  }

  /** The awaited transaction among those the cycle signed, or else the last of them. */
  function LastSigned(signed: seq<nat>, awaited: nat): Option<nat> {
    if awaited in signed then Some(awaited)
    else if |signed| > 0 then Some(signed[|signed| - 1])
    else None
  }

  /**
   Finishes one cycle out on chain when everything it signed has settled. The books stay right but for
   one case: the node does not answer for a last transaction that was marked failed and mined.
   */
  method CompleteCycle(db: Store, w: World, c: nat, ghost g: Config, ghost start: Start) returns (finished: bool)
    requires c < |db.cycles| && db.cycles[c].state.AwaitingTx?
    requires BooksOk(db.Tables(), start) && CapsOk(g, db.Tables())
    modifies db`money, db`cycles, db`outbox, db`receipts, db`unanswered, db`revived
    ensures BooksOk(db.Tables(), start) && CapsOk(g, db.Tables())
    ensures OnlyCycle(old(db.Tables()), db.Tables(), c) && Completed(w, old(db.Tables()), db.Tables(), c)
    ensures GaveUp(w, old(db.Tables()), db.Tables(), c)
    ensures BooksOk(db.Tables().(unanswered := old(db.unanswered)), start)
            <==> !(ClosesBlindly(w, old(db.Tables()), c) && c !in old(db.unanswered))
    ensures finished <==> db.cycles[c].state.Done?
  {
    hide BooksOk, CapsOk;
    ghost var was := db.Tables();
    var pending := AwaitingStep(db.cycles[c].steps);
    AwaitingStepIsAStep(db.cycles[c].steps);
    if pending.None? {
      return false;
    }
    var signed := RowsOf(db.outbox, c);
    if exists i :: i in signed && Unsettled(db.outbox[i]) {
      return false;
    }
    assert forall i: nat :: OfCycle(was, i, c) ==> i in signed;
    var ready, received := ApplyCycle(db, w, c, pending.value, signed, g, start);
    if !ready {
      return false;
    }
    AllInNow(w, was, db.Tables(), start, c, received);
    var last := LastSigned(signed, pending.value.row);
    LastAsWas(was, db.Tables(), c, last.value);
    finished := FinishCycle(db, w, c, last.value, received, was, g, start);
    GivenUpIsLost(w, was, db.Tables(), start, c);
  }

  lemma GivenUpIsLost(w: World, was: Db, now: Db, start: Start, c: nat)
    requires BooksOk(now, start) && Completed(w, was, now, c) && OnlyCycle(was, now, c) && GaveUp(w, was, now, c)
    ensures ClosesBlindly(w, was, c) ==> LostTo(now, c)
    ensures BooksOk(now.(unanswered := was.unanswered), start) <==> !(ClosesBlindly(w, was, c) && c !in was.unanswered)
  {
    hide BooksOk;
    if ClosesBlindly(w, was, c) {
      assert OfCycle(now, AwaitedRow(was, c), c);
      if c !in was.unanswered {
        LostIsWrong(now, start, c, was.unanswered);
      } else {
        assert now.(unanswered := was.unanswered) == now;
      }
    } else {
      assert now.(unanswered := was.unanswered) == now;
    }
  }

  lemma LastAsWas(was: Db, db: Db, c: nat, last: nat)
    requires OnlyBooked(was, db, c) && OfCycle(was, last, c)
    ensures OfCycle(db, last, c) && (Late(db.outbox[last]) <==> Late(was.outbox[last]))
  {
  }

  /**
   Why the re-check has to be answered: closing a cycle as failed keeps the books exactly when its
   last transaction was not mined after all. A node that does not return the receipt of a mined one
   has the cycle closed over a transaction nobody books.
   */
  lemma ClosingAsFailedIsRight(g: Config, db: Db, start: Start, c: nat)
    requires BooksOk(db, start) && CapsOk(g, db) && AllIn(db, c) && db.outbox[AwaitedRow(db, c)].status.Failed?
    requires c !in db.unanswered
    ensures BooksOk(ClosedUnsigned(db, c), start) <==> !Late(db.outbox[AwaitedRow(db, c)])
  {
    var last, closed := AwaitedRow(db, c), ClosedUnsigned(db, c);
    if Late(db.outbox[last]) {
      assert RowOk(db.outbox[last]);
      assert OfCycle(closed, last, c) && !StateOk(closed, c);
      assert BooksOk(closed, start) ==> CycleOk(closed, c);
    } else {
      RowFacts(db, start, last);
      FinishWriteKeeps(g, db, start, c, PendingStep(db, c), FinishFree);
      var freed := SettleSpend(db, c, Released, None);
      assert forall i :: OfCycle(freed, i, c) <==> OfCycle(db, i, c);
      FinishWriteKeeps(g, freed, start, c, PendingStep(freed, c), FinishClose);
    }
  }

  /** Such a state: a swap signed for 5, given up by the operator after its broadcast, and mined. */
  lemma ALateCycle() returns (db: Db, start: Start)
    ensures BooksOk(db, start) && AllIn(db, 0) && 0 !in db.unanswered && Late(db.outbox[AwaitedRow(db, 0)])
    ensures ClosesBlindly(World(true, {"A"}, {0}), db, 0)
    ensures !BooksOk(ClosedUnsigned(db, 0), start)
  {
    var d := Decision("A", 5, None);
    var swap := Row("p", Some(0), Swap, Some(d), Status.Failed, true, Mined(Logs(5, 0, 1)), false);
    var steps := [Execute(d), Awaiting(0, d)];
    start := map["p" := Money(0, 0, 0, map[])];
    db := Db(start, [Cycle("p", AwaitingTx, steps, Some(Entry(0, 5, Reserved)))], [swap], [], {}, {});
    assert steps[..1] == [Execute(d)];
    assert LastExecute([Execute(d)]) == Some(d);
    assert steps[|steps| - 1] == Awaiting(0, d) && LastExecute(steps) == Some(d);
    assert AwaitingStep(steps) == Some(Awaiting(0, d));
    assert OfCycle(db, 0, 0);
    assert steps[1].Awaiting?;
    assert CycleOk(db, 0);
    assert LostTo(ClosedUnsigned(db, 0), 0) by { assert OfCycle(ClosedUnsigned(db, 0), 0, 0); }
    LostIsWrong(ClosedUnsigned(db, 0), start, 0, {});
    assert ClosedUnsigned(db, 0).(unanswered := {}) == ClosedUnsigned(db, 0);
  }

  /******* The passes *******/

  predicate LockFree(locks: map<string, Option<nat>>, plan: string, now: nat) {
    plan in locks && (locks[plan].None? || locks[plan].value < now)
  }

  /** After the first `k` cycles of the list: those are recovered where the lock was free, the rest are as they were. */
  ghost predicate RecoveredSoFar(was: Db, db: Db, locks: map<string, Option<nat>>, now: nat, running: seq<nat>, k: nat)
    requires k <= |running|
  {
    && |db.cycles| == |was.cycles| && db.outbox == was.outbox && db.money == was.money && db.receipts == was.receipts
    && db.unanswered == was.unanswered
    && (forall c :: 0 <= c < |was.cycles| ==> db.cycles[c].plan == was.cycles[c].plan)
    && (forall c: nat :: c < |was.cycles| && (c !in running[..k] || !LockFree(locks, was.cycles[c].plan, now)) ==>
          db.cycles[c] == was.cycles[c])
    && (forall c: nat :: c in running[..k] && c < |was.cycles| && LockFree(locks, was.cycles[c].plan, now) ==>
          Recovered(was, db, c))
  }

  lemma RecoveredOneMore(was: Db, before: Db, db: Db, locks: map<string, Option<nat>>, now: nat, running: seq<nat>, k: nat)
    requires k < |running| && RecoveredSoFar(was, before, locks, now, running, k)
    requires Ascending(running) && running[k] < |was.cycles|
    requires if LockFree(locks, was.cycles[running[k]].plan, now)
             then OnlyCycle(before, db, running[k]) && Recovered(before, db, running[k]) && db == before.(cycles := db.cycles)
             else db == before
    ensures RecoveredSoFar(was, db, locks, now, running, k + 1)
  {
  }

  /** Recovers one cycle, unless its plan's lock is held: then it is still running somewhere. */
  method RecoverUnderLock(db: Store, c: nat, now: nat, ttl: nat, ghost g: Config, ghost start: Start) returns (done: bool)
    requires BooksOk(db.Tables(), start) && CapsOk(g, db.Tables()) && db.locks.Keys == db.money.Keys
    requires c < |db.cycles| && db.cycles[c].state.Running?
    modifies db`cycles, db`locks
    ensures BooksOk(db.Tables(), start) && CapsOk(g, db.Tables()) && db.locks.Keys == db.money.Keys
    ensures forall plan :: LockFree(db.locks, plan, now) <==> LockFree(old(db.locks), plan, now)
    ensures done <==> LockFree(old(db.locks), old(db.cycles)[c].plan, now)
    ensures if done
            then OnlyCycle(old(db.Tables()), db.Tables(), c) && Recovered(old(db.Tables()), db.Tables(), c)
            else db.Tables() == old(db.Tables())
  {
    hide BooksOk, CapsOk;
    var plan := db.cycles[c].plan;
    var held := db.AcquirePlanLock(plan, now, ttl);
    if held.None? {
      return false;
    }
    if db.cycles[c].state.Running? {
      RecoverInterrupted(db, c, g, start);
      done := true;
    }
    var _ := db.ReleasePlanLock(plan, held);
  }

  /** Recovers every cycle left running whose plan nobody holds. */
  method RecoverOrphanedCycles(db: Store, now: nat, ttl: nat, ghost g: Config, ghost start: Start)
    returns (recovered: seq<nat>)
    requires BooksOk(db.Tables(), start) && CapsOk(g, db.Tables()) && db.locks.Keys == db.money.Keys
    modifies db`cycles, db`locks
    ensures BooksOk(db.Tables(), start) && CapsOk(g, db.Tables()) && db.locks.Keys == db.money.Keys
    ensures forall plan :: LockFree(db.locks, plan, now) <==> LockFree(old(db.locks), plan, now)
    ensures var running := CyclesIn(old(db.cycles), Running);
            RecoveredSoFar(old(db.Tables()), db.Tables(), old(db.locks), now, running, |running|)
  {
    hide BooksOk, CapsOk;
    ghost var was, locks := db.Tables(), db.locks;
    recovered := [];
    var running := CyclesIn(db.cycles, Running);
    var k := 0;
    while k < |running|
      invariant k <= |running|
      invariant BooksOk(db.Tables(), start) && CapsOk(g, db.Tables()) && db.locks.Keys == db.money.Keys
      invariant forall plan :: LockFree(db.locks, plan, now) <==> LockFree(locks, plan, now)
      invariant RecoveredSoFar(was, db.Tables(), locks, now, running, k)
    {
      var c := running[k];
      assert c in running && c !in running[..k];
      ghost var before := db.Tables();
      var done := RecoverUnderLock(db, c, now, ttl, g, start);
      if done {
        recovered := recovered + [c];
      }
      RecoveredOneMore(was, before, db.Tables(), locks, now, running, k);
      k := k + 1;
    }
  }

  lemma CompletedSince(w: World, was: Db, before: Db, now: Db, c: nat)
    requires SameCycle(was, before, c) && |was.outbox| == |before.outbox| && Completed(w, before, now, c)
    ensures Completed(w, was, now, c) && (ClosesBlindly(w, before, c) <==> ClosesBlindly(w, was, c))
  {
  }

  lemma CompletedStays(w: World, was: Db, now: Db, later: Db, c: nat, d: nat)
    requires Completed(w, was, now, c) && OnlyCycle(now, later, d) && d != c
    requires forall i :: 0 <= i < |was.outbox| && i < |now.outbox| ==> now.outbox[i].cycle == was.outbox[i].cycle
    ensures Completed(w, was, later, c)
  {
  }

  /** After the first `k` cycles of the list: those are completed, the rest are as they were. */
  ghost predicate CompletedSoFar(w: World, was: Db, db: Db, waiting: seq<nat>, k: nat)
    requires k <= |waiting|
  {
    && |db.cycles| == |was.cycles| && |db.outbox| == |was.outbox|
    && (forall i :: 0 <= i < |was.outbox| ==> db.outbox[i].cycle == was.outbox[i].cycle)
    && (forall i :: 0 <= i < |was.outbox| && was.outbox[i].cycle.None? ==> db.outbox[i] == was.outbox[i])
    && (forall c: nat :: c in waiting[..k] ==> Completed(w, was, db, c))
    && (forall c: nat :: c in db.unanswered <==> c in was.unanswered || (c in waiting[..k] && ClosesBlindly(w, was, c)))
    && (forall c: nat :: c < |was.cycles| && c !in waiting[..k] ==> SameCycle(was, db, c))
  }

  lemma CompletedOneMore(w: World, was: Db, before: Db, db: Db, waiting: seq<nat>, k: nat)
    requires k < |waiting| && CompletedSoFar(w, was, before, waiting, k)
    requires Ascending(waiting) && waiting[k] < |was.cycles|
    requires OnlyCycle(before, db, waiting[k]) && Completed(w, before, db, waiting[k]) && GaveUp(w, before, db, waiting[k])
    ensures CompletedSoFar(w, was, db, waiting, k + 1)
  {
    var c := waiting[k];
    assert waiting[..k + 1] == waiting[..k] + [c];
    assert c !in waiting[..k];
    CompletedSince(w, was, before, db, c);
    forall d: nat | d in waiting[..k] ensures Completed(w, was, db, d) {
      CompletedStays(w, was, before, db, d, c);
    }
  }

  /** Finishes every cycle out on chain whose transactions have all settled. */
  method CompleteAwaitingCycles(db: Store, w: World, ghost g: Config, ghost start: Start) returns (finished: seq<nat>)
    requires BooksOk(db.Tables(), start) && CapsOk(g, db.Tables())
    modifies db`money, db`cycles, db`outbox, db`receipts, db`unanswered, db`revived
    ensures BooksOk(db.Tables(), start) && CapsOk(g, db.Tables())
    ensures var waiting := CyclesIn(old(db.cycles), AwaitingTx);
            CompletedSoFar(w, old(db.Tables()), db.Tables(), waiting, |waiting|)
    ensures forall c :: c in db.unanswered && c !in old(db.unanswered) ==> LostTo(db.Tables(), c)
  {
    hide BooksOk, CapsOk, LostTo;
    ghost var was := db.Tables();
    finished := [];
    var waiting := CyclesIn(db.cycles, AwaitingTx);
    var k := 0;
    while k < |waiting|
      invariant k <= |waiting|
      invariant BooksOk(db.Tables(), start) && CapsOk(g, db.Tables())
      invariant CompletedSoFar(w, was, db.Tables(), waiting, k)
    {
      var c := waiting[k];
      assert c in waiting && c !in waiting[..k];
      ghost var before := db.Tables();
      assert SameCycle(was, before, c);
      var done := CompleteCycle(db, w, c, g, start);
      if done {
        finished := finished + [c];
      }
      CompletedOneMore(w, was, before, db.Tables(), waiting, k);
      k := k + 1;
    }
    NewlyGivenUpAreLost(w, was, db.Tables(), waiting);
  }

  lemma NewlyGivenUpAreLost(w: World, was: Db, db: Db, waiting: seq<nat>)
    requires CompletedSoFar(w, was, db, waiting, |waiting|)
    ensures forall c :: c in db.unanswered && c !in was.unanswered ==> LostTo(db, c)
  {
    forall c | c in db.unanswered && c !in was.unanswered ensures LostTo(db, c) {
      assert Completed(w, was, db, c);
      assert OfCycle(db, AwaitedRow(was, c), c);
    }
  }

  /** The decision the orphan pass has for a row: the last its cycle recorded. */
  function OrphanDecision(db: Db, row: Row): Option<Decision>
    requires row.cycle.Some? ==> row.cycle.value < |db.cycles|
  {
    if row.cycle.None? then None else LastExecute(db.cycles[row.cycle.value].steps)
  }

  /** No cycle waits for the row: it belongs to none, or to one that is closed. */
  predicate IsNobodys(db: Db, row: Row) {
    row.cycle.None? || (row.cycle.value < |db.cycles| && db.cycles[row.cycle.value].state.Done?)
  }

  /** The orphan can be applied now. */
  predicate Ready(w: World, db: Db, i: nat) {
    && i < |db.outbox| && db.outbox[i].status.Confirmed? && IsNobodys(db, db.outbox[i])
    && i !in w.unreadable && !Waits(w, db.outbox[i], OrphanDecision(db, db.outbox[i]))
  }

  /** Nothing of a cycle changed but its ledger row, and of an open one nothing. */
  predicate OnlyEntry(was: Cycle, now: Cycle) {
    now == was.(entry := now.entry) && (Open(was) ==> now == was)
  }

  /** Only rows no cycle waits for were booked; of those listed so far, every one that could be. */
  ghost predicate OrphansSoFar(w: World, was: Db, db: Db, rows: seq<nat>, k: nat)
    requires k <= |rows|
  {
    && |db.cycles| == |was.cycles| && db.unanswered == was.unanswered && |db.outbox| == |was.outbox|
    && (forall c :: 0 <= c < |was.cycles| ==> OnlyEntry(was.cycles[c], db.cycles[c]))
    && (forall i :: 0 <= i < |was.outbox| ==> OnlyOrphan(was, was.outbox[i], db.outbox[i]))
    && (forall i: nat :: i in rows[..k] && Ready(w, was, i) ==> db.outbox[i].booked)
  }

  predicate OnlyOrphan(db: Db, was: Row, now: Row) {
    && now == was.(booked := now.booked) && (was.booked ==> now.booked)
    && (now.booked && !was.booked ==> was.status.Confirmed? && IsNobodys(db, was))
  }

  lemma OrphansOneMore(w: World, was: Db, before: Db, db: Db, rows: seq<nat>, k: nat)
    requires k < |rows| && OrphansSoFar(w, was, before, rows, k) && rows[k] < |was.outbox|
    requires db == before || OneOrphan(before, db, rows[k])
    requires Ready(w, was, rows[k]) ==> db.outbox[rows[k]].booked
    ensures OrphansSoFar(w, was, db, rows, k + 1)
  {
    assert rows[..k + 1] == rows[..k] + [rows[k]];
    forall c | 0 <= c < |was.cycles| ensures OnlyEntry(was.cycles[c], db.cycles[c]) {
      assert OnlyEntry(was.cycles[c], before.cycles[c]);
    }
    forall i | 0 <= i < |was.outbox| ensures OnlyOrphan(was, was.outbox[i], db.outbox[i]) {
      assert OnlyOrphan(was, was.outbox[i], before.outbox[i]);
    }
  }

  /** One row no cycle waits for was booked. */
  ghost predicate OneOrphan(before: Db, db: Db, i: nat) {
    && i < |before.outbox| && before.outbox[i].status.Confirmed? && IsNobodys(before, before.outbox[i])
    && db.outbox == before.outbox[i := before.outbox[i].(booked := true)] && db.unanswered == before.unanswered
    && |db.cycles| == |before.cycles|
    && forall c :: 0 <= c < |before.cycles| ==> OnlyEntry(before.cycles[c], db.cycles[c])
  }

  /** Booking an orphan is the protocol's. */
  lemma OrphanBookedKeeps(g: Config, db: Db, start: Start, i: nat)
    requires BooksOk(db, start) && CapsOk(g, db) && IsOrphan(db, i)
    ensures RecoveredEffect(db.outbox[i], RecordedDecision(db, i)).Some?
    ensures var now := WithReceipt(db, i, RecoveredEffect(db.outbox[i], RecordedDecision(db, i)).value);
            BooksOk(now, start) && CapsOk(g, now) && OneOrphan(db, now, i)
  {
    OrphansAreLoose(db, start, i);
    WithReceiptKeeps(db, start, i, ChainEffect(db.outbox[i]));
    CapsBooked(g, db, start, i, ChainEffect(db.outbox[i]));
  }

  lemma StillReady(w: World, was: Db, before: Db, rows: seq<nat>, k: nat)
    requires k < |rows| && OrphansSoFar(w, was, before, rows, k) && rows[k] < |was.outbox|
    requires RowRefOk(before, before.outbox[rows[k]])
    ensures Ready(w, was, rows[k]) <==> Ready(w, before, rows[k])
  {
    assert OnlyOrphan(was, was.outbox[rows[k]], before.outbox[rows[k]]);
    if was.outbox[rows[k]].cycle.Some? {
      assert OnlyEntry(was.cycles[was.outbox[rows[k]].cycle.value], before.cycles[was.outbox[rows[k]].cycle.value]);
    }
  }

  /** Applies the confirmed transactions no cycle waits for. */
  method ApplyOrphanTransactions(db: Store, w: World, ghost g: Config, ghost start: Start) returns (applied: seq<nat>)
    requires BooksOk(db.Tables(), start) && CapsOk(g, db.Tables())
    modifies db`money, db`cycles, db`outbox, db`receipts, db`revived
    ensures BooksOk(db.Tables(), start) && CapsOk(g, db.Tables())
    ensures var rows := UnfinishedTransactions(old(db.outbox));
            OrphansSoFar(w, old(db.Tables()), db.Tables(), rows, |rows|)
  {
    hide BooksOk, CapsOk;
    ghost var was := db.Tables();
    applied := [];
    var rows := UnfinishedTransactions(db.outbox);
    var k := 0;
    while k < |rows|
      invariant k <= |rows|
      invariant BooksOk(db.Tables(), start) && CapsOk(g, db.Tables())
      invariant OrphansSoFar(w, was, db.Tables(), rows, k)
    {
      var i := rows[k];
      assert i in rows;
      ghost var before := db.Tables();
      RowFacts(before, start, i);
      StillReady(w, was, before, rows, k);
      var row := db.outbox[i];
      if row.status.Confirmed? && (row.cycle.None? || db.cycles[row.cycle.value].state.Done?) && i !in w.unreadable {
        var decision := if row.cycle.None? then None else LastExecute(db.cycles[row.cycle.value].steps);
        if !row.booked {
          OrphanBookedKeeps(g, before, start, i);
        }
        var r := ApplyConfirmed(db, w, i, decision);
        if r.Effected? {
          applied := applied + [i];
        }
      }
      OrphansOneMore(w, was, before, db.Tables(), rows, k);
      k := k + 1;
    }
  }

  /******* The settle pass *******/

  /** The chain stands still and hides nothing: all settled, every lock free, every receipt readable, all known. */
  ghost predicate Still(db: Db, locks: map<string, Option<nat>>, w: World, now: nat) {
    && AllKnown(w, db) && OutboxQuiet(db)
    && forall plan :: plan in locks ==> LockFree(locks, plan, now)
  }

  /** No transaction of an open cycle is marked failed though it was mined. */
  ghost predicate NoneLate(db: Db) {
    forall i :: 0 <= i < |db.outbox| && OfOpenCycle(db, i) ==> !Late(db.outbox[i])
  }

  predicate OfOpenCycle(db: Db, i: nat) {
    && i < |db.outbox| && db.outbox[i].cycle.Some?
    && db.outbox[i].cycle.value < |db.cycles| && Open(db.cycles[db.outbox[i].cycle.value])
  }

  /** Every cycle is closed or held for a person, and every confirmed transaction is booked. */
  ghost predicate AllSettled(db: Db) {
    && (forall c :: 0 <= c < |db.cycles| ==> db.cycles[c].state.Done? || HeldForReview(db.cycles[c]))
    && (forall i :: 0 <= i < |db.outbox| && db.outbox[i].status.Confirmed? ==> db.outbox[i].booked)
  }

  /** Recovery leaves no cycle running once every lock is free. */
  lemma NoneRunning(was: Db, recovered: Db, locks: map<string, Option<nat>>, now: nat, start: Start, c: nat)
    requires BooksOk(was, start) && locks.Keys == was.money.Keys
    requires forall plan :: plan in locks ==> LockFree(locks, plan, now)
    requires var running := CyclesIn(was.cycles, Running); RecoveredSoFar(was, recovered, locks, now, running, |running|)
    requires c < |was.cycles|
    ensures !recovered.cycles[c].state.Running?
  {
    var running := CyclesIn(was.cycles, Running);
    assert running[..|running|] == running;
    assert was.cycles[c].plan in was.money;
    if was.cycles[c].state.Running? {
      assert c in running;
      assert Recovered(was, recovered, c);
    }
  }

  /** With everything known, a cycle whose transactions settled can be finished. */
  lemma KnownCanBook(w: World, db: Db, start: Start, c: nat)
    requires BooksOk(db, start) && AllKnown(w, db) && OutboxQuiet(db) && Waiting(db, c)
    ensures CanBook(w, db, c) && OfCycle(db, AwaitedRow(db, c), c)
  {
    WaitsOnItsLast(db, start, c);
    forall i | OfCycle(db, i, c) ensures Bookable(w, db, c, i) {
      RowFacts(db, start, i);
      if i != AwaitedRow(db, c) {
        LastOfCycle(db, start, c, AwaitedRow(db, c), i);
      }
    }
  }

  /** The cycle waits one pass more: its last transaction was just found to be mined. */
  ghost predicate WaitsOnceMore(was: Db, now: Db, c: nat) {
    && Waiting(was, c) && OfCycle(was, AwaitedRow(was, c), c) && Late(was.outbox[AwaitedRow(was, c)])
    && Untouched(was, now, c) && |now.outbox| == |was.outbox| && now.outbox[AwaitedRow(was, c)].status.Confirmed?
  }

  lemma OutcomeOf(w: World, recovered: Db, completed: Db, start: Start, c: nat)
    requires BooksOk(recovered, start) && AllKnown(w, recovered) && OutboxQuiet(recovered)
    requires c < |recovered.cycles| && !recovered.cycles[c].state.Running?
    requires var waiting := CyclesIn(recovered.cycles, AwaitingTx); CompletedSoFar(w, recovered, completed, waiting, |waiting|)
    ensures completed.cycles[c].state.Done? || HeldForReview(completed.cycles[c]) || WaitsOnceMore(recovered, completed, c)
  {
    var waiting := CyclesIn(recovered.cycles, AwaitingTx);
    assert waiting[..|waiting|] == waiting;
    if c in waiting {
      assert Completed(w, recovered, completed, c);
      AwaitingStepIsAStep(recovered.cycles[c].steps);
      if Waiting(recovered, c) {
        KnownCanBook(w, recovered, start, c);
      }
    } else {
      assert SameCycle(recovered, completed, c);
    }
  }

  lemma RowsMoved(w: World, recovered: Db, completed: Db, start: Start, i: nat)
    requires BooksOk(recovered, start) && i < |recovered.outbox|
    requires var waiting := CyclesIn(recovered.cycles, AwaitingTx); CompletedSoFar(w, recovered, completed, waiting, |waiting|)
    ensures i < |completed.outbox| && Moved(recovered.outbox[i], completed.outbox[i])
  {
    var waiting := CyclesIn(recovered.cycles, AwaitingTx);
    assert waiting[..|waiting|] == waiting;
    RowFacts(recovered, start, i);
    if recovered.outbox[i].cycle.Some? {
      var c := recovered.outbox[i].cycle.value;
      assert OfCycle(recovered, i, c);
      if c in waiting {
        assert Completed(w, recovered, completed, c);
      } else {
        assert SameCycle(recovered, completed, c);
      }
    }
  }

  /** A row of an open cycle is never late after the pass; once its cycle is closed or held, it is booked if it confirmed. */
  lemma RowAfterPass(recovered: Db, completed: Db, db: Db, start: Start, c: nat, i: nat)
    requires BooksOk(recovered, start) && BooksOk(db, start) && OfCycle(db, i, c) && OfCycle(recovered, i, c)
    requires c < |completed.cycles| && c < |db.cycles| && OnlyEntry(completed.cycles[c], db.cycles[c])
    requires i < |completed.outbox| && Moved(recovered.outbox[i], completed.outbox[i])
    requires OnlyOrphan(completed, completed.outbox[i], db.outbox[i])
    requires completed.cycles[c].state.Done? && completed.outbox[i].status.Confirmed? ==> db.outbox[i].booked
    requires completed.cycles[c].state.Done? || HeldForReview(completed.cycles[c]) || WaitsOnceMore(recovered, completed, c)
    ensures Open(db.cycles[c]) ==> !Late(db.outbox[i])
    ensures WaitsOnceMore(recovered, completed, c) || (db.outbox[i].status.Confirmed? ==> db.outbox[i].booked)
  {
    RowFacts(db, start, i);
    if completed.cycles[c].state.Done? {
      assert CycleOk(db, c);
    } else if HeldForReview(completed.cycles[c]) {
      HeldIsHeldOnce(db, start, c);
      HeldCycleIsBooked(db, start, c);
    } else {
      WaitsOnItsLast(recovered, start, c);
      if i != AwaitedRow(recovered, c) {
        LastOfCycle(recovered, start, c, AwaitedRow(recovered, c), i);
      }
    }
  }

  lemma RightUnlessGivenUp(w: World, recovered: Db, completed: Db, db: Db, start: Start)
    requires BooksOk(db, start)
    requires var waiting := CyclesIn(recovered.cycles, AwaitingTx); CompletedSoFar(w, recovered, completed, waiting, |waiting|)
    requires var rows := UnfinishedTransactions(completed.outbox); OrphansSoFar(w, completed, db, rows, |rows|)
    requires forall c :: c in completed.unanswered && c !in recovered.unanswered ==> LostTo(completed, c)
    ensures forall c: nat :: c in db.unanswered <==> c in recovered.unanswered || ClosesBlindly(w, recovered, c)
    ensures BooksOk(db.(unanswered := recovered.unanswered), start) <==> db.unanswered == recovered.unanswered
  {
    hide BooksOk;
    var waiting := CyclesIn(recovered.cycles, AwaitingTx);
    assert waiting[..|waiting|] == waiting;
    if db.unanswered == recovered.unanswered {
      assert db.(unanswered := recovered.unanswered) == db;
    } else {
      assert recovered.unanswered <= db.unanswered;
      var c :| c in db.unanswered && c !in recovered.unanswered;
      var i :| OfCycle(completed, i, c) && Late(completed.outbox[i]);
      assert OfCycle(db, i, c) && Late(db.outbox[i]);
      LostIsWrong(db, start, c, recovered.unanswered);
    }
  }

  lemma SamePlans(db: Db, start: Start)
    requires BooksOk(db, start)
    ensures db.money.Keys == start.Keys
  {
  }

  /** The passes neither add nor remove rows and cycles, nor move a row from one cycle to another. */
  lemma SameShape(w: World, was: Db, recovered: Db, completed: Db, locks: map<string, Option<nat>>, now: nat)
    requires var running := CyclesIn(was.cycles, Running); RecoveredSoFar(was, recovered, locks, now, running, |running|)
    requires var waiting := CyclesIn(recovered.cycles, AwaitingTx); CompletedSoFar(w, recovered, completed, waiting, |waiting|)
    ensures |completed.cycles| == |recovered.cycles| == |was.cycles|
    ensures |completed.outbox| == |recovered.outbox| && recovered.outbox == was.outbox
    ensures forall i :: 0 <= i < |was.outbox| ==> completed.outbox[i].cycle == was.outbox[i].cycle
  {
  }

  lemma PassSettles(w: World, was: Db, recovered: Db, completed: Db, db: Db,
                    locks: map<string, Option<nat>>, now: nat, start: Start)
    requires BooksOk(was, start) && BooksOk(recovered, start) && BooksOk(db, start) && locks.Keys == was.money.Keys
    requires Still(was, locks, w, now)
    requires var running := CyclesIn(was.cycles, Running); RecoveredSoFar(was, recovered, locks, now, running, |running|)
    requires var waiting := CyclesIn(recovered.cycles, AwaitingTx); CompletedSoFar(w, recovered, completed, waiting, |waiting|)
    requires var rows := UnfinishedTransactions(completed.outbox); OrphansSoFar(w, completed, db, rows, |rows|)
    ensures AllKnown(w, db) && OutboxQuiet(db) && NoneLate(db)
    ensures NoneLate(was) ==> AllSettled(db)
  {
    hide BooksOk, CompletedSoFar, RecoveredSoFar;
    var rows := UnfinishedTransactions(completed.outbox);
    assert rows[..|rows|] == rows;
    SameShape(w, was, recovered, completed, locks, now);
    forall c: nat | c < |db.cycles|
      ensures db.cycles[c].state.Done? || HeldForReview(db.cycles[c]) || WaitsOnceMore(recovered, completed, c)
    {
      NoneRunning(was, recovered, locks, now, start, c);
      OutcomeOf(w, recovered, completed, start, c);
    }
    forall c: nat | c < |db.cycles| && NoneLate(was) ensures db.cycles[c].state.Done? || HeldForReview(db.cycles[c]) {
      if WaitsOnceMore(recovered, completed, c) {
        WaitingWasOpen(was, recovered, locks, now, c);
      }
    }
    forall i: nat | i < |db.outbox|
      ensures !Unsettled(db.outbox[i]) && db.outbox[i].signedFor == was.outbox[i].signedFor
      ensures OfOpenCycle(db, i) ==> !Late(db.outbox[i])
      ensures NoneLate(was) && db.outbox[i].status.Confirmed? ==> db.outbox[i].booked
    {
      RowsMoved(w, recovered, completed, start, i);
      RowFacts(db, start, i);
      OrphansAreApplied(w, was, completed, db, start, i);
      if db.outbox[i].cycle.Some? {
        assert OfCycle(recovered, i, db.outbox[i].cycle.value);
        RowAfterPass(recovered, completed, db, start, db.outbox[i].cycle.value, i);
      }
    }
  }

  /** With everything known the orphan pass leaves no confirmed row of a closed cycle or of none unbooked. */
  lemma OrphansAreApplied(w: World, was: Db, completed: Db, db: Db, start: Start, i: nat)
    requires AllKnown(w, was) && BooksOk(db, start) && i < |completed.outbox| == |was.outbox| && i < |db.outbox|
    requires completed.outbox[i].signedFor == was.outbox[i].signedFor
    requires var rows := UnfinishedTransactions(completed.outbox); OrphansSoFar(w, completed, db, rows, |rows|)
    ensures OnlyOrphan(completed, completed.outbox[i], db.outbox[i])
    ensures completed.outbox[i].status.Confirmed? && IsNobodys(completed, completed.outbox[i]) ==> db.outbox[i].booked
  {
    hide BooksOk;
    var rows := UnfinishedTransactions(completed.outbox);
    assert rows[..|rows|] == rows;
    assert OnlyOrphan(completed, completed.outbox[i], db.outbox[i]);
    if completed.outbox[i].status.Confirmed? && IsNobodys(completed, completed.outbox[i]) && !completed.outbox[i].booked {
      RowFacts(db, start, i);
      if completed.outbox[i].cycle.Some? {
        var c := completed.outbox[i].cycle.value;
        assert OnlyEntry(completed.cycles[c], db.cycles[c]);
        DecidedAsSigned(db, start, c, i);
      }
      assert i in rows && Ready(w, completed, i);
    }
  }

  lemma DecidedAsSigned(db: Db, start: Start, c: nat, i: nat)
    requires BooksOk(db, start) && c < |db.cycles| && OfCycle(db, i, c)
    ensures db.outbox[i].kind.Swap? ==> db.outbox[i].signedFor.Some? && LastExecute(db.cycles[c].steps) == db.outbox[i].signedFor
  {
    assert CycleOk(db, c) && RowRefOk(db, db.outbox[i]);
  }

  /** A cycle found waiting for a late transaction was open before, with the same transaction late. */
  lemma WaitingWasOpen(was: Db, recovered: Db, locks: map<string, Option<nat>>, now: nat, c: nat)
    requires var running := CyclesIn(was.cycles, Running); RecoveredSoFar(was, recovered, locks, now, running, |running|)
    requires Waiting(recovered, c) && OfCycle(recovered, AwaitedRow(recovered, c), c)
    requires Late(recovered.outbox[AwaitedRow(recovered, c)])
    ensures !NoneLate(was)
  {
    var running := CyclesIn(was.cycles, Running);
    assert running[..|running|] == running;
    assert c in running ==> was.cycles[c].state.Running?;
    assert OfOpenCycle(was, AwaitedRow(recovered, c));
  }

  /**
   settleOutbox after the reconciliation with the chain: recover, finish, apply, in that order. The
   books stay right but for the cycles it closes blindly; each of those has lost a transaction.
   */
  method SettlePass(db: Store, w: World, now: nat, ttl: nat, ghost g: Config, ghost start: Start)
    returns (ghost recovered: Db)
    requires BooksOk(db.Tables(), start) && CapsOk(g, db.Tables()) && db.locks.Keys == db.money.Keys
    modifies db
    ensures var running := CyclesIn(old(db.cycles), Running);
            RecoveredSoFar(old(db.Tables()), recovered, old(db.locks), now, running, |running|)
    ensures forall c: nat :: c in db.unanswered <==> c in old(db.unanswered) || ClosesBlindly(w, recovered, c)
    ensures BooksOk(db.Tables().(unanswered := old(db.unanswered)), start) <==> db.unanswered == old(db.unanswered)
    ensures BooksOk(db.Tables(), start) && CapsOk(g, db.Tables()) && db.locks.Keys == db.money.Keys
    ensures Still(old(db.Tables()), old(db.locks), w, now) ==>
              Still(db.Tables(), db.locks, w, now) && NoneLate(db.Tables())
    ensures Still(old(db.Tables()), old(db.locks), w, now) && NoneLate(old(db.Tables())) ==> AllSettled(db.Tables())
  {
    hide BooksOk, CapsOk;
    ghost var was, locks := db.Tables(), db.locks;
    var _ := RecoverOrphanedCycles(db, now, ttl, g, start);
    recovered := db.Tables();
    var _ := CompleteAwaitingCycles(db, w, g, start);
    ghost var completed := db.Tables();
    var _ := ApplyOrphanTransactions(db, w, g, start);
    SamePlans(was, start);
    SamePlans(db.Tables(), start);
    RightUnlessGivenUp(w, recovered, completed, db.Tables(), start);
    if Still(was, locks, w, now) {
      PassSettles(w, was, recovered, completed, db.Tables(), locks, now, start);
    }
  }

  /**
   Two ticks of the worker over a chain that stands still: every cycle is closed or held for review,
   and every confirmed transaction has its receipt.
   */
  method TwoTicksSettle(db: Store, w: World, now: nat, later: nat, ttl: nat, ghost g: Config, ghost start: Start)
    requires BooksOk(db.Tables(), start) && CapsOk(g, db.Tables()) && db.locks.Keys == db.money.Keys
    requires Still(db.Tables(), db.locks, w, now) && now <= later
    modifies db
    ensures BooksOk(db.Tables(), start) && CapsOk(g, db.Tables())
    ensures AllSettled(db.Tables())
  {
    ghost var _ := SettlePass(db, w, now, ttl, g, start);
    ghost var _ := SettlePass(db, w, later, ttl, g, start);
  }

  /** Any state of any run is one the ticks can start from. */
  lemma AnyRunCanSettle(g: Config, run: seq<State>, k: nat)
    requires IsRun(g, run) && g.ttl > 0 && k < |run|
    ensures BooksOk(run[k].db, run[0].db.money) && CapsOk(g, run[k].db) && run[k].locks.Keys == run[k].db.money.Keys
  {
    RunKeepsInv(g, run, k);
  }

  /**
   Wherever a run of the protocol got to, with whatever processes dead: once the chain stands still,
   hides nothing, and every lock has lapsed, two ticks settle everything, and the money is still each
   plan's receipts, replayed from what it had before the run.
   */
  method AnyRunSettles(db: Store, w: World, now: nat, later: nat, ttl: nat,
                       ghost g: Config, ghost run: seq<State>, ghost k: nat)
    requires IsRun(g, run) && g.ttl > 0 && k < |run| && db.Tables() == run[k].db && db.locks == run[k].locks
    requires Still(run[k].db, run[k].locks, w, now) && now <= later
    modifies db
    ensures AllSettled(db.Tables()) && MoneyOk(db.Tables(), run[0].db.money) && CapsOk(g, db.Tables())
  {
    AnyRunCanSettle(g, run, k);
    TwoTicksSettle(db, w, now, later, ttl, g, run[0].db.money);
  }

  /** One tick is not enough: a cycle whose transaction was marked failed and mined after all is only re-marked. */
  lemma OneTickMayNotBeEnough(w: World, db: Db, start: Start, now: Db, c: nat)
    requires BooksOk(db, start) && AllKnown(w, db) && OutboxQuiet(db) && Waiting(db, c) && Completed(w, db, now, c)
    ensures OfCycle(db, AwaitedRow(db, c), c)
    ensures Waiting(now, c) <==> Late(db.outbox[AwaitedRow(db, c)])
  {
    KnownCanBook(w, db, start, c);
    RowFacts(db, start, AwaitedRow(db, c));
    AwaitingStepIsAStep(now.cycles[c].steps);
  }

  /**
   A pass that read a cycle before another one closed it keeps books and caps whatever it still does,
   leaves the cycle closed, and touches no other. Unless the node once did not answer for the cycle, it
   books and marks nothing: all it can do is log, or free what is no spend. If it did not, the pass can
   still find the late transaction mined, and book it.
   */
  lemma StalePassIsHarmless(g: Config, db: Db, start: Start, c: nat, read: Step, step: FinishStep)
    requires BooksOk(db, start) && CapsOk(g, db) && FinishEnabled(db, c, read, step) && db.cycles[c].state.Done?
    ensures var now := FinishWrite(db, c, read, step);
            && BooksOk(now, start) && CapsOk(g, now)
            && OnlyCycle(db, now, c) && now.cycles[c].state.Done?
            && (forall i :: OfCycle(db, i, c) ==> Moved(db.outbox[i], now.outbox[i]))
            && (c !in db.unanswered ==> now.(cycles := db.cycles) == db && NotRaised(db.cycles[c], now.cycles[c]))
  {
    hide BooksOk, CapsOk;
    FinishWriteKeeps(g, db, start, c, read, step);
    CycleFacts(db, start, c, read.row);
    if step.FinishBook? {
      CycleFacts(db, start, c, step.i);
      RowFacts(db, start, step.i);
    }
    SettlesNoMore(db.cycles[c]);
  }

  lemma SettlesNoMore(x: Cycle)
    ensures NotRaised(x, x.(entry := SettledEntry(x.entry, Released, None)))
  {
  }

  /******* The operator's close (review.ts) *******/

  datatype CloseReview = ClosedNow(confirmed: seq<nat>) | Locked | NotHeld | UnsettledRows(pending: seq<nat>)

  /** The cycle's transactions in one of the statuses, oldest first. */
  function RowsWith(outbox: seq<Row>, c: nat, statuses: set<Status>): seq<nat> {
    IndicesWhere(|outbox|, (i: nat) => i < |outbox| && outbox[i].cycle == Some(c) && outbox[i].status in statuses)
  }

  function Reviewed(db: Db, c: nat): Db
    requires c < |db.cycles|
  {
    SetState(SettleSpend(AppendStep(db, c, Closed), c, Spent, None), c, Done)
  }

  lemma ReviewedKeeps(g: Config, db: Db, start: Start, c: nat)
    requires BooksOk(db, start) && CapsOk(g, db) && c < |db.cycles| && HeldForReview(db.cycles[c])
    ensures BooksOk(Reviewed(db, c), start) && CapsOk(g, Reviewed(db, c))
    ensures db.cycles[c].entry.Some? && forall i :: OfCycle(db, i, c) ==> db.outbox[i].booked
  {
    HeldIsHeldOnce(db, start, c);
    HeldCycleIsBooked(db, start, c);
    AppendKeeps(g, db, start, c, Closed);
    var logged := AppendStep(db, c, Closed);
    SpentKeeps(g, logged, start, c);
    var spent := SettleSpend(logged, c, Spent, None);
    assert forall i :: OfCycle(spent, i, c) <==> OfCycle(db, i, c);
    StateKeeps(g, spent, start, c, Done);
  }

  /** Closes a cycle held for review: its reservation counts as spent, and nothing of it is left to book. */
  method CloseReviewedCycle(db: Store, plan: string, c: nat, now: nat, ttl: nat, ghost g: Config, ghost start: Start)
    returns (r: CloseReview)
    requires BooksOk(db.Tables(), start) && CapsOk(g, db.Tables())
    modifies db`cycles, db`locks
    ensures BooksOk(db.Tables(), start) && CapsOk(g, db.Tables())
    ensures r.Locked? <==> !LockFree(old(db.locks), plan, now)
    ensures r.ClosedNow? <==>
              && LockFree(old(db.locks), plan, now) && c < |old(db.cycles)| && old(db.cycles)[c].plan == plan
              && HeldForReview(old(db.cycles)[c]) && forall i :: OfCycle(old(db.Tables()), i, c) ==> !Unsettled(db.outbox[i])
    ensures r.ClosedNow? ==>
              && OnlyCycle(old(db.Tables()), db.Tables(), c) && db.cycles[c].state.Done?
              && old(db.cycles)[c].entry.Some?
              && db.cycles[c].entry == Some(old(db.cycles)[c].entry.value.(status := Spent))
              && forall i :: OfCycle(db.Tables(), i, c) ==> db.outbox[i].booked
    ensures !r.ClosedNow? ==> db.Tables() == old(db.Tables())
    ensures forall p :: LockFree(db.locks, p, now) <==> LockFree(old(db.locks), p, now)
  {
    hide BooksOk, CapsOk;
    ghost var was := db.Tables();
    var lock := db.AcquirePlanLock(plan, now, ttl);
    if lock.None? {
      return Locked;
    }
    if c >= |db.cycles| || db.cycles[c].plan != plan || !HeldForReview(db.cycles[c]) {
      r := NotHeld;
    } else {
      var pending := RowsWith(db.outbox, c, {Status.Signed, Status.Pending});
      assert forall i: nat :: i in pending <==> OfCycle(was, i, c) && Unsettled(was.outbox[i]);
      if |pending| > 0 {
        assert pending[0] in pending;
        r := UnsettledRows(pending);
      } else {
        r := ClosedNow(RowsWith(db.outbox, c, {Status.Confirmed}));
        ReviewedKeeps(g, was, start, c);
        db.AppendCycleStep(c, Closed);
        db.SettleCycleSpend(c, Spent, None);
        db.UpdateCycle(c, Done);
      }
    }
    var _ := db.ReleasePlanLock(plan, lock);
  }
}
