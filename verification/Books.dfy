/**
 The tables of the worker's database and the writes made to them: cycles with
 their step log and spend-ledger row, the transaction outbox, the receipts and
 each plan's money. A write here is one SQL statement or one SQL transaction of
 the program; everything that can happen between two writes is in `Protocol`.
 */
module Books {
  import opened Basics

  /******* Rows *******/

  datatype Kind = Approve | Swap | Deposit | Redeem

  datatype Status = Signed | Pending | Confirmed | Failed

  /** What the receipt logs of a mined transaction show moving in or out of the house wallet. */
  datatype Logs = Logs(usdt: nat, vTokens: nat, tokens: nat)

  /** What the chain made of signed bytes. */
  datatype Fate = Unmined | Reverted | Mined(logs: Logs)

  /** The part of an execute decision that outlives its round. */
  datatype Decision = Decision(instrument: string, spend: nat, interest: Option<nat>)

  /**
   An outbox row; its index in the outbox stands for its hash and its nonce. `signedFor` is the
   decision whose amount and token the signed bytes carry. `broadcast` is `broadcastVia !== null`,
   `booked` is "the receipts table holds this hash".
   */
  datatype Row = Row(plan: string, cycle: Option<nat>, kind: Kind, signedFor: Option<Decision>,
                     status: Status, broadcast: bool, fate: Fate, booked: bool)

  /** The step-log entries that decide anything later; `Closed` is the operator's. */
  datatype Step =
    | Execute(decision: Decision)
    | Awaiting(row: nat, decision: Decision)
    | Anomaly(swap: Option<nat>)
    | Closed

  datatype CycleState = Running | AwaitingTx | Done

  datatype EntryStatus = Reserved | Spent | Released

  datatype Entry = Entry(day: nat, amount: nat, status: EntryStatus)

  /** A cycle and its spend-ledger row (the ledger's unique index allows one per cycle). */
  datatype Cycle = Cycle(plan: string, state: CycleState, steps: seq<Step>, entry: Option<Entry>)

  datatype Holding = Holding(tokens: nat, cost: nat)

  /** A plan's money columns and holdings, in base units. */
  datatype Money = Money(principal: nat, vTokens: nat, harvested: nat, holdings: map<string, Holding>)

  /** What booking a receipt does to a plan. */
  datatype Effect =
    | Nothing
    | Deposited(usdt: nat, vTokens: nat)
    | PositionRedeemed(usdt: nat, burned: nat)
    | InterestRedeemed(usdt: nat, burned: nat)
    | Bought(instrument: string, tokens: nat, spent: nat, interest: Option<nat>)

  datatype Receipt = Receipt(row: nat, plan: string, effect: Effect)

  /**
   All tables. Receipts are in the order they were inserted. The last two are history, no tables: the
   cycles for whose last transaction, marked failed and mined after all, the node once did not answer;
   and those whose reservation was freed and spent after all.
   */
  datatype Db = Db(money: map<string, Money>, cycles: seq<Cycle>, outbox: seq<Row>, receipts: seq<Receipt>,
                   unanswered: set<nat>, revived: set<nat>)

  /******* Effects (record.ts) *******/

  function AddHolding(holdings: map<string, Holding>, instrument: string, tokens: nat, cost: nat):
    map<string, Holding>
  {
    var h := if instrument in holdings then holdings[instrument] else Holding(0, 0);
    holdings[instrument := Holding(h.tokens + tokens, h.cost + cost)]
  }

  function ApplyEffect(m: Money, e: Effect): Money {
    match e
    case Nothing => m
    case Deposited(usdt, vTokens) =>
      m.(principal := m.principal + usdt, vTokens := m.vTokens + vTokens)
    case PositionRedeemed(usdt, burned) =>
      m.(principal := 0, vTokens := AtLeastZero(m.vTokens - burned),
         harvested := m.harvested + AtLeastZero(usdt - m.principal))
    case InterestRedeemed(usdt, burned) =>
      m.(harvested := m.harvested + usdt, vTokens := AtLeastZero(m.vTokens - burned))
    case Bought(instrument, tokens, spent, interest) =>
      var bought := m.(holdings := AddHolding(m.holdings, instrument, tokens, spent));
      if interest.Some? then bought.(harvested := AtLeastZero(m.harvested - interest.value)) else bought
  }

  /** What a swap is recorded to have spent: what left the wallet, or the decided amount when no log shows it. */
  function SpentOf(logs: Logs, d: Decision): nat {
    if logs.usdt > 0 then logs.usdt else d.spend
  }

  /**
   The effect recovery books for a confirmed row, given the decision the step log holds; `None` is
   "wait": a swap nobody recorded a decision for.
   */
  function RecoveredEffect(row: Row, d: Option<Decision>): Option<Effect>
    requires row.fate.Mined?
  {
    var logs := row.fate.logs;
    match row.kind
    case Approve => Some(Nothing)
    case Deposit => Some(Deposited(logs.usdt, logs.vTokens))
    case Redeem =>
      Some(if row.cycle.None? then PositionRedeemed(logs.usdt, logs.vTokens)
           else InterestRedeemed(logs.usdt, logs.vTokens))
    case Swap =>
      if d.None? then None
      else Some(Bought(d.value.instrument, logs.tokens, SpentOf(logs, d.value), d.value.interest))
  }

  /** The effect the running cycle books: the same, except that a swap that delivered nothing only keeps its receipt. */
  function LiveEffect(row: Row, d: Decision): Effect
    requires row.fate.Mined?
  {
    if row.kind.Swap? && row.fate.logs.tokens == 0 then Nothing
    else RecoveredEffect(row, Some(d)).value
  }

  /** The effect the chain itself calls for: what the transaction was signed for, and what its logs show. */
  function ChainEffect(row: Row): Effect
    requires row.fate.Mined? && (row.kind.Swap? ==> row.signedFor.Some?)
  {
    RecoveredEffect(row, row.signedFor).value
  }

  /** A plan's money after the first receipts of the table, from what it had at the start. */
  function Replay(start: Money, receipts: seq<Receipt>, plan: string): Money {
    if |receipts| == 0 then start
    else
      var before := Replay(start, receipts[..|receipts| - 1], plan);
      var r := receipts[|receipts| - 1];
      if r.plan == plan then ApplyEffect(before, r.effect) else before
  }

  /******* The step log (awaiting.ts) *******/

  /** The decision of the newest execute entry. */
  function LastExecute(steps: seq<Step>): Option<Decision> {
    if |steps| == 0 then None
    else if steps[|steps| - 1].Execute? then Some(steps[|steps| - 1].decision)
    else LastExecute(steps[..|steps| - 1])
  }

  /** Scanning back from the end: the AWAITING entry found first, unless an ANOMALY or the beginning is. */
  function AwaitingStep(steps: seq<Step>): Option<Step> {
    if |steps| == 0 then None
    else
      var last := steps[|steps| - 1];
      if last.Awaiting? then Some(last)
      else if last.Anomaly? then None
      else AwaitingStep(steps[..|steps| - 1])
  }

  predicate HeldForReview(c: Cycle) {
    c.state == AwaitingTx && AwaitingStep(c.steps).None?
  }

  /******* Queries *******/

  predicate OfCycle(db: Db, i: int, c: nat) {
    0 <= i < |db.outbox| && db.outbox[i].cycle == Some(c)
  }

  /** Row `i` is the last one the cycle signed. */
  predicate Last(db: Db, c: nat, i: nat) {
    OfCycle(db, i, c) && forall j :: i < j < |db.outbox| ==> db.outbox[j].cycle != Some(c)
  }

  predicate NoRows(db: Db, c: nat) {
    forall j :: 0 <= j < |db.outbox| ==> db.outbox[j].cycle != Some(c)
  }

  predicate Unsettled(row: Row) {
    row.status.Signed? || row.status.Pending?
  }

  /** Failed, and the chain agrees: its bytes will never take effect. */
  predicate Dead(row: Row) {
    row.status.Failed? && !row.fate.Mined?
  }

  /** Out on chain, or mined with no receipt yet. */
  predicate Unfinished(row: Row) {
    Unsettled(row) || (row.status.Confirmed? && !row.booked)
  }

  /** Marked failed, broadcast, and mined after all. */
  predicate Late(row: Row) {
    row.status.Failed? && row.broadcast && row.fate.Mined?
  }

  /** Mined and not booked, whether or not it is known to be mined. */
  predicate Missed(row: Row) {
    Late(row) || (row.status.Confirmed? && !row.booked)
  }

  predicate Open(c: Cycle) {
    !c.state.Done?
  }

  /******* Writes *******/

  function AppendStep(db: Db, c: nat, step: Step): Db
    requires c < |db.cycles|
  {
    db.(cycles := db.cycles[c := db.cycles[c].(steps := db.cycles[c].steps + [step])])
  }

  function SetState(db: Db, c: nat, state: CycleState): Db
    requires c < |db.cycles|
  {
    db.(cycles := db.cycles[c := db.cycles[c].(state := state)])
  }

  /** settleSpend on a ledger row: freeing only ever frees a reservation. */
  function SettledEntry(e: Option<Entry>, status: EntryStatus, amount: Option<nat>): Option<Entry> {
    if e.None? then None
    else if status.Released? && !e.value.status.Reserved? then e
    else Some(e.value.(status := status, amount := if amount.Some? then amount.value else e.value.amount))
  }

  function SettleSpend(db: Db, c: nat, status: EntryStatus, amount: Option<nat>): Db
    requires c < |db.cycles|
  {
    db.(cycles := db.cycles[c := db.cycles[c].(entry := SettledEntry(db.cycles[c].entry, status, amount))])
  }

  /** No write: a pass read the cycle's last transaction as failed and gets no answer for it. */
  function AskedInVain(db: Db, c: nat): Db {
    db.(unanswered := db.unanswered + {c})
  }

  function AddCycle(db: Db, plan: string): Db {
    db.(cycles := db.cycles + [Cycle(plan, Running, [], None)])
  }

  /** recordSigned: the row exists before its bytes leave. */
  function AddRow(db: Db, row: Row): Db {
    db.(outbox := db.outbox + [row])
  }

  function SetRow(db: Db, i: nat, row: Row): Db
    requires i < |db.outbox|
  {
    db.(outbox := db.outbox[i := row])
  }

  /** Booking spends a reservation that was freed. */
  predicate Revives(db: Db, i: nat, e: Effect) {
    && i < |db.outbox| && !db.outbox[i].booked && e.Bought? && db.outbox[i].cycle.Some?
    && db.outbox[i].cycle.value < |db.cycles| && IsFreed(db.cycles[db.outbox[i].cycle.value])
  }

  predicate IsFreed(c: Cycle) {
    c.entry.Some? && c.entry.value.status.Released?
  }

  /**
   withReceipt: the receipt and its effect in one transaction, or nothing when the receipt is there
   already. A swap of a cycle also settles the cycle's reservation as spent.
   */
  function WithReceipt(db: Db, i: nat, e: Effect): Db
    requires i < |db.outbox| && db.outbox[i].plan in db.money
    requires db.outbox[i].cycle.Some? ==> db.outbox[i].cycle.value < |db.cycles|
  {
    var row := db.outbox[i];
    if row.booked then db
    else
      var settled := if e.Bought? && row.cycle.Some? then SettleSpend(db, row.cycle.value, Spent, Some(e.spent)) else db;
      settled.(money := db.money[row.plan := ApplyEffect(db.money[row.plan], e)],
               outbox := db.outbox[i := row.(booked := true)],
               receipts := db.receipts + [Receipt(i, row.plan, e)],
               revived := db.revived + if Revives(db, i, e) then {row.cycle.value} else {})
  }
}
