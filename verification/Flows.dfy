/**
 A settled plan's money from nothing but its receipts: what its mined transactions moved, added up kind
 by kind. No order matters to a sum.
 */
module Flows {
  import opened Basics
  import opened Books
  import opened BooksInvariant
  import opened CrashTransparency
  import opened EffectOrder
  import opened Protocol
  import opened ProtocolInvariant
  import opened ProtocolRuns

  /** Of the transactions in the list, in total. */
  function Sum(outbox: seq<Row>, rows: seq<nat>, f: Row -> nat): nat {
    if |rows| == 0 then 0
    else
      var last := rows[|rows| - 1];
      Sum(outbox, rows[..|rows| - 1], f) + if last < |outbox| then f(outbox[last]) else 0
  }

  /******* What a receipt shows *******/

  function LogsOf(row: Row): Logs {
    if row.fate.Mined? then row.fate.logs else Logs(0, 0, 0)
  }

  const VTOKENS_MINTED := (row: Row) => if row.kind.Deposit? then LogsOf(row).vTokens else 0

  const VTOKENS_BURNED := (row: Row) => if row.kind.Redeem? then LogsOf(row).vTokens else 0

  const USDT_DEPOSITED := (row: Row) => if row.kind.Deposit? then LogsOf(row).usdt else 0

  const USDT_REDEEMED := (row: Row) => if row.kind.Redeem? then LogsOf(row).usdt else 0

  /** The interest a swap was decided to use. */
  const INTEREST_USED := (row: Row) =>
    if row.kind.Swap? && row.fate.Mined? && row.signedFor.Some? && row.signedFor.value.interest.Some?
    then row.signedFor.value.interest.value else 0

  predicate Buys(row: Row, instrument: string) {
    row.kind.Swap? && row.fate.Mined? && row.signedFor.Some? && row.signedFor.value.instrument == instrument
  }

  function TokensBought(instrument: string): Row -> nat {
    (row: Row) => if Buys(row, instrument) then row.fate.logs.tokens else 0
  }

  /** The USDT that left for it; the decided amount, when no log shows any. */
  function UsdtSpent(instrument: string): Row -> nat {
    (row: Row) =>
      if !Buys(row, instrument) then 0
      else if row.fate.logs.usdt > 0 then row.fate.logs.usdt else row.signedFor.value.spend
  }

  function TokensHeld(m: Money, instrument: string): nat {
    if instrument in m.holdings then m.holdings[instrument].tokens else 0
  }

  function CostHeld(m: Money, instrument: string): nat {
    if instrument in m.holdings then m.holdings[instrument].cost else 0
  }

  /******* One list *******/

  lemma {:induction false} VTokensAddUp(m: Money, outbox: seq<Row>, rows: seq<nat>, plan: string)
    requires AreMined(outbox, rows, plan) && NothingCut(m, outbox, rows)
    ensures Happened(m, outbox, rows).vTokens + Sum(outbox, rows, VTOKENS_BURNED)
            == m.vTokens + Sum(outbox, rows, VTOKENS_MINTED)
  {
    if |rows| > 0 {
      var last := |rows| - 1;
      Shorter(m, outbox, rows);
      VTokensAddUp(m, outbox, rows[..last], plan);
    }
  }

  /** What holds of all of a list holds of all but the last, and of the last. */
  lemma Shorter(m: Money, outbox: seq<Row>, rows: seq<nat>)
    requires |rows| > 0 && NothingCut(m, outbox, rows)
    ensures NothingCut(m, outbox, rows[..|rows| - 1]) && UncutAt(m, outbox, rows, |rows| - 1)
  {
    var last := |rows| - 1;
    assert UncutAt(m, outbox, rows, last);
    forall k | 0 <= k < last ensures UncutAt(m, outbox, rows[..last], k) {
      assert rows[..last][..k] == rows[..k] && UncutAt(m, outbox, rows, k);
    }
  }

  lemma {:induction false} HoldingsAddUp(m: Money, outbox: seq<Row>, rows: seq<nat>, plan: string, instrument: string)
    requires AreMined(outbox, rows, plan)
    ensures var n := Happened(m, outbox, rows);
            && TokensHeld(n, instrument) == TokensHeld(m, instrument) + Sum(outbox, rows, TokensBought(instrument))
            && CostHeld(n, instrument) == CostHeld(m, instrument) + Sum(outbox, rows, UsdtSpent(instrument))
  {
    if |rows| > 0 {
      HoldingsAddUp(m, outbox, rows[..|rows| - 1], plan, instrument);
    }
  }

  /** Each withdrawal of the whole position brought back at least the principal it stood for. */
  ghost predicate NoLoss(m: Money, outbox: seq<Row>, rows: seq<nat>) {
    forall k :: 0 <= k < |rows| ==> NoLossAt(m, outbox, rows, k)
  }

  predicate NoLossAt(m: Money, outbox: seq<Row>, rows: seq<nat>, k: nat)
    requires k < |rows|
  {
    rows[k] < |outbox| && IsWithdrawal(outbox[rows[k]]) ==>
      Happened(m, outbox, rows[..k]).principal <= LogsOf(outbox[rows[k]]).usdt
  }

  lemma {:induction false} UsdtAddsUp(m: Money, outbox: seq<Row>, rows: seq<nat>, plan: string)
    requires AreMined(outbox, rows, plan) && NothingCut(m, outbox, rows) && NoLoss(m, outbox, rows)
    requires forall k :: 0 <= k < |rows| ==> outbox[rows[k]].kind.Deposit? ==> outbox[rows[k]].cycle.None?
    ensures var n := Happened(m, outbox, rows);
            n.harvested + Sum(outbox, rows, INTEREST_USED) + m.principal + Sum(outbox, rows, USDT_DEPOSITED)
            == m.harvested + Sum(outbox, rows, USDT_REDEEMED) + n.principal
  {
    if |rows| > 0 {
      var last := |rows| - 1;
      Shorter(m, outbox, rows);
      assert NoLossAt(m, outbox, rows, last);
      forall k | 0 <= k < last ensures NoLossAt(m, outbox, rows[..last], k) {
        assert rows[..last][..k] == rows[..k] && NoLossAt(m, outbox, rows, k);
      }
      UsdtAddsUp(m, outbox, rows[..last], plan);
    }
  }

  /******* Any order *******/

  lemma {:induction false} SumOfInsert(outbox: seq<Row>, sorted: seq<nat>, x: nat, f: Row -> nat)
    ensures Sum(outbox, Insert(sorted, x), f) == Sum(outbox, sorted, f) + if x < |outbox| then f(outbox[x]) else 0
  {
    if |sorted| == 0 || sorted[|sorted| - 1] < x {
      assert (sorted + [x])[..|sorted|] == sorted;
    } else {
      var rest := sorted[..|sorted| - 1];
      SumOfInsert(outbox, rest, x, f);
      assert (Insert(rest, x) + [sorted[|sorted| - 1]])[..|Insert(rest, x)|] == Insert(rest, x);
    }
  }

  lemma {:induction false} SumOfSorted(outbox: seq<Row>, rows: seq<nat>, f: Row -> nat)
    requires NoTwice(rows)
    ensures Ascending(Sorted(rows)) && Sum(outbox, Sorted(rows), f) == Sum(outbox, rows, f)
  {
    hide Insert, Ascending;
    if |rows| == 0 {
      NothingAscends();
    } else {
      var rest, x := rows[..|rows| - 1], rows[|rows| - 1];
      assert NoTwice(rest) && x !in rest;
      SumOfSorted(outbox, rest, f);
      InsertAscends(Sorted(rest), x);
      SumOfInsert(outbox, Sorted(rest), x, f);
    }
  }

  lemma NothingAscends()
    ensures Ascending([])
  {
  }

  /** Two lists of the same transactions, none twice, sum to the same. */
  lemma SameSum(outbox: seq<Row>, booked: seq<nat>, mined: seq<nat>, f: Row -> nat)
    requires NoTwice(booked) && Ascending(mined) && forall i :: i in booked <==> i in mined
    ensures Sum(outbox, booked, f) == Sum(outbox, mined, f)
  {
    SumOfSorted(outbox, booked, f);
    SameNumbersSameList(Sorted(booked), mined);
  }

  /******* A plan *******/

  /**
   A settled plan, in whatever order and by whomever its transactions were booked: its vTokens are those
   it started with, plus all that its mined deposits minted, less all that its mined redeems burned; and of
   every instrument it holds what its mined swaps delivered, at the cost of what they took.
   */
  lemma ReceiptsAddUp(db: Db, start: map<string, Money>, plan: string, instrument: string)
    requires BooksOk(db, start) && plan in db.money && Settled(db, plan) && Delivered(db, plan)
    requires NothingCut(start[plan], db.outbox, ReceiptRows(db.receipts, plan))
    ensures var m, n, mined := start[plan], db.money[plan], MinedRows(db.outbox, plan);
            && n.vTokens + Sum(db.outbox, mined, VTOKENS_BURNED) == m.vTokens + Sum(db.outbox, mined, VTOKENS_MINTED)
            && TokensHeld(n, instrument) == TokensHeld(m, instrument) + Sum(db.outbox, mined, TokensBought(instrument))
            && CostHeld(n, instrument) == CostHeld(m, instrument) + Sum(db.outbox, mined, UsdtSpent(instrument))
  {
    hide NothingCut, BooksOk, Happened;
    StartedThere(db, start, plan);
    var booked := EachCountedOnce(db, start, plan);
    var mined := MinedRows(db.outbox, plan);
    OnlyMined(db.outbox, booked, plan);
    VTokensAddUp(start[plan], db.outbox, booked, plan);
    HoldingsAddUp(start[plan], db.outbox, booked, plan, instrument);
    SameSum(db.outbox, booked, mined, VTOKENS_BURNED);
    SameSum(db.outbox, booked, mined, VTOKENS_MINTED);
    SameSum(db.outbox, booked, mined, TokensBought(instrument));
    SameSum(db.outbox, booked, mined, UsdtSpent(instrument));
  }

  lemma StartedThere(db: Db, start: map<string, Money>, plan: string)
    requires BooksOk(db, start) && plan in db.money
    ensures plan in start
  {
  }

  lemma DepositsAreLoose(db: Db, start: map<string, Money>, i: nat)
    requires BooksOk(db, start) && i < |db.outbox| && db.outbox[i].kind.Deposit?
    ensures db.outbox[i].cycle.None?
  {
    assert RowRefOk(db, db.outbox[i]);
  }

  lemma OnlyMined(outbox: seq<Row>, rows: seq<nat>, plan: string)
    requires forall i :: i in rows <==> i in MinedRows(outbox, plan)
    ensures AreMined(outbox, rows, plan)
  {
    forall k | 0 <= k < |rows| ensures rows[k] < |outbox| && IsMined(outbox[rows[k]], plan) {
      assert rows[k] in rows;
    }
  }

  /**
   And its USDT: harvested interest and what was used of it, against the principal and what was put in,
   make up all that its mined redeems brought back, if no withdrawal brought back less than the principal.
   */
  lemma UsdtOfAPlan(db: Db, start: map<string, Money>, plan: string)
    requires BooksOk(db, start) && plan in db.money && Settled(db, plan) && Delivered(db, plan)
    requires NothingCut(start[plan], db.outbox, ReceiptRows(db.receipts, plan))
    requires NoLoss(start[plan], db.outbox, ReceiptRows(db.receipts, plan))
    ensures var m, n, mined := start[plan], db.money[plan], MinedRows(db.outbox, plan);
            n.harvested + Sum(db.outbox, mined, INTEREST_USED) + m.principal + Sum(db.outbox, mined, USDT_DEPOSITED)
            == m.harvested + Sum(db.outbox, mined, USDT_REDEEMED) + n.principal
  {
    hide NothingCut, NoLoss, BooksOk, Happened;
    StartedThere(db, start, plan);
    var booked := EachCountedOnce(db, start, plan);
    var mined := MinedRows(db.outbox, plan);
    OnlyMined(db.outbox, booked, plan);
    forall k | 0 <= k < |booked| && db.outbox[booked[k]].kind.Deposit? ensures db.outbox[booked[k]].cycle.None? {
      DepositsAreLoose(db, start, booked[k]);
    }
    UsdtAddsUp(start[plan], db.outbox, booked, plan);
    SameSum(db.outbox, booked, mined, INTEREST_USED);
    SameSum(db.outbox, booked, mined, USDT_DEPOSITED);
    SameSum(db.outbox, booked, mined, USDT_REDEEMED);
  }

  /** So of any state of any run: what a settled plan holds is what the chain's receipts say. */
  lemma RunsAddUp(g: Config, run: seq<State>, k: nat, plan: string, instrument: string)
    requires IsRun(g, run) && g.ttl > 0 && k < |run| && plan in run[0].db.money
    requires Settled(run[k].db, plan) && Delivered(run[k].db, plan)
    requires NothingCut(run[0].db.money[plan], run[k].db.outbox, ReceiptRows(run[k].db.receipts, plan))
    ensures plan in run[k].db.money
    ensures var m, n := run[0].db.money[plan], run[k].db.money[plan];
            var outbox, mined := run[k].db.outbox, MinedRows(run[k].db.outbox, plan);
            && n.vTokens + Sum(outbox, mined, VTOKENS_BURNED) == m.vTokens + Sum(outbox, mined, VTOKENS_MINTED)
            && TokensHeld(n, instrument) == TokensHeld(m, instrument) + Sum(outbox, mined, TokensBought(instrument))
            && CostHeld(n, instrument) == CostHeld(m, instrument) + Sum(outbox, mined, UsdtSpent(instrument))
  {
    RunKeepsInv(g, run, k);
    ReceiptsAddUp(run[k].db, run[0].db.money, plan, instrument);
  }
}
