/**
 The database as the worker uses it: an object whose methods are the statements and transactions of
 plans.ts, queue.ts, record.ts and ledger.ts. Each method is proved to do to the tables what the
 function of `Books` for that write does.
 */
module Store {
  import opened Basics
  import opened Books
  import opened BooksInvariant

  class Store {
    var money: map<string, Money>
    var cycles: seq<Cycle>
    var outbox: seq<Row>
    var receipts: seq<Receipt>
    /** The history `Db` keeps. */
    ghost var unanswered: set<nat>
    ghost var revived: set<nat>
    /** `lock_until` of each plan. */
    var locks: map<string, Option<nat>>

    constructor (plans: map<string, Money>)
      ensures Tables() == Db(plans, [], [], [], {}, {})
      ensures locks.Keys == plans.Keys && forall p :: p in locks ==> locks[p].None?
    {
      money, cycles, outbox, receipts, unanswered, revived := plans, [], [], [], {}, {};
      locks := map p | p in plans :: None;
    }

    ghost function Tables(): Db
      reads this
    {
      Db(money, cycles, outbox, receipts, unanswered, revived)
    }

    /******* Locks (plans.ts) *******/

    /** Takes the plan's lock when nobody has it or it lapsed. */
    method AcquirePlanLock(plan: string, now: nat, ttl: nat) returns (held: Option<nat>)
      modifies this`locks
      ensures held.Some? <==> plan in old(locks) && (old(locks)[plan].None? || old(locks)[plan].value < now)
      ensures held.Some? ==> held == Some(now + ttl) && locks == old(locks)[plan := held]
      ensures held.None? ==> locks == old(locks)
    {
      held := None;
      if plan in locks && (locks[plan].None? || locks[plan].value < now) {
        held := Some(now + ttl);
        locks := locks[plan := held];
      }
    }

    /** Extends the lock, expired or not, while the stored value is still this holder's. */
    method RenewPlanLock(plan: string, until: nat, now: nat, ttl: nat) returns (renewed: Option<nat>)
      modifies this`locks
      ensures renewed.Some? <==> plan in old(locks) && old(locks)[plan] == Some(until)
      ensures renewed.Some? ==> renewed == Some(now + ttl) && locks == old(locks)[plan := renewed]
      ensures renewed.None? ==> locks == old(locks)
    {
      renewed := None;
      if plan in locks && locks[plan] == Some(until) {
        renewed := Some(now + ttl);
        locks := locks[plan := renewed];
      }
    }

    /** Frees the lock only while the stored value is this holder's. */
    method ReleasePlanLock(plan: string, until: Option<nat>) returns (released: bool)
      modifies this`locks
      ensures released <==> until.Some? && plan in old(locks) && old(locks)[plan] == until
      ensures locks == if released then old(locks)[plan := None] else old(locks)
    {
      released := false;
      if until.Some? && plan in locks && locks[plan] == until {
        locks := locks[plan := None];
        released := true;
      }
    }

    /******* Cycles (plans.ts, ledger.ts) *******/

    method AppendCycleStep(c: nat, step: Step)
      requires c < |cycles|
      modifies this`cycles
      ensures Tables() == AppendStep(old(Tables()), c, step)
    {
      cycles := cycles[c := cycles[c].(steps := cycles[c].steps + [step])];
    }

    method UpdateCycle(c: nat, state: CycleState)
      requires c < |cycles|
      modifies this`cycles
      ensures Tables() == SetState(old(Tables()), c, state)
    {
      cycles := cycles[c := cycles[c].(state := state)];
    }

    /** Confirms or frees a cycle's reservation; freeing leaves a spend on record alone. */
    method SettleCycleSpend(c: nat, status: EntryStatus, amount: Option<nat>)
      requires c < |cycles|
      modifies this`cycles
      ensures Tables() == SettleSpend(old(Tables()), c, status, amount)
    {
      var entry := cycles[c].entry;
      if entry.Some? && (!status.Released? || entry.value.status.Reserved?) {
        var e := entry.value.(status := status);
        if amount.Some? {
          e := e.(amount := amount.value);
        }
        cycles := cycles[c := cycles[c].(entry := Some(e))];
      } else {
        assert cycles[c := cycles[c].(entry := entry)] == cycles;
      }
    }

    /******* The outbox (queue.ts) *******/

    /** A compare-and-set on the status of a row; without `onlyFrom` it always writes. */
    method MarkOutbox(i: nat, status: Status, onlyFrom: Option<set<Status>>) returns (changed: bool)
      requires i < |outbox|
      modifies this`outbox
      ensures changed <==> onlyFrom.None? || old(outbox)[i].status in onlyFrom.value
      ensures Tables() == if changed then SetRow(old(Tables()), i, old(outbox)[i].(status := status)) else old(Tables())
    {
      changed := onlyFrom.None? || outbox[i].status in onlyFrom.value;
      if changed {
        outbox := outbox[i := outbox[i].(status := status)];
      }
    }

    /******* Receipts and what they do (record.ts) *******/

    /** Row `i` refers to a plan and, if to a cycle, to one that exists. */
    predicate Refers(i: nat)
      reads this
    {
      && i < |outbox| && outbox[i].plan in money
      && (outbox[i].cycle.Some? ==> outbox[i].cycle.value < |cycles|)
    }

    /** Inserts the receipt of row `i` unless its hash is there already. */
    method InsertReceipt(i: nat, e: Effect) returns (created: bool)
      requires i < |outbox|
      modifies this`outbox, this`receipts
      ensures created == !old(outbox)[i].booked
      ensures !created ==> outbox == old(outbox) && receipts == old(receipts)
      ensures created ==> && outbox == old(outbox)[i := old(outbox)[i].(booked := true)]
                          && receipts == old(receipts) + [Receipt(i, old(outbox)[i].plan, e)]
    {
      created := !outbox[i].booked;
      if created {
        receipts := receipts + [Receipt(i, outbox[i].plan, e)];
        outbox := outbox[i := outbox[i].(booked := true)];
      }
    }

    method RecordReceiptFacts(i: nat) returns (isNew: bool)
      requires Refers(i)
      modifies this`money, this`outbox, this`receipts
      ensures isNew == !old(outbox)[i].booked
      ensures Tables() == WithReceipt(old(Tables()), i, Nothing)
    {
      var plan := outbox[i].plan;
      isNew := InsertReceipt(i, Nothing);
      assert money[plan := money[plan]] == money;
    }

    method ApplyDeposit(i: nat, usdt: nat, vTokens: nat) returns (isNew: bool)
      requires Refers(i)
      modifies this`money, this`outbox, this`receipts
      ensures isNew == !old(outbox)[i].booked
      ensures Tables() == WithReceipt(old(Tables()), i, Deposited(usdt, vTokens))
    {
      var plan := outbox[i].plan;
      isNew := InsertReceipt(i, Deposited(usdt, vTokens));
      if isNew {
        var m := money[plan];
        money := money[plan := m.(principal := m.principal + usdt, vTokens := m.vTokens + vTokens)];
      }
    }

    method ApplyPositionRedeem(i: nat, usdt: nat, burned: nat) returns (isNew: bool)
      requires Refers(i)
      modifies this`money, this`outbox, this`receipts
      ensures isNew == !old(outbox)[i].booked
      ensures Tables() == WithReceipt(old(Tables()), i, PositionRedeemed(usdt, burned))
    {
      var plan := outbox[i].plan;
      isNew := InsertReceipt(i, PositionRedeemed(usdt, burned));
      if isNew {
        var m := money[plan];
        var interest := AtLeastZero(usdt - m.principal);
        money := money[plan := m.(principal := 0, vTokens := AtLeastZero(m.vTokens - burned),
                                  harvested := m.harvested + interest)];
      }
    }

    method ApplyInterestRedeem(i: nat, usdt: nat, burned: nat) returns (isNew: bool)
      requires Refers(i)
      modifies this`money, this`outbox, this`receipts
      ensures isNew == !old(outbox)[i].booked
      ensures Tables() == WithReceipt(old(Tables()), i, InterestRedeemed(usdt, burned))
    {
      var plan := outbox[i].plan;
      isNew := InsertReceipt(i, InterestRedeemed(usdt, burned));
      if isNew {
        var m := money[plan];
        money := money[plan := m.(harvested := m.harvested + usdt, vTokens := AtLeastZero(m.vTokens - burned))];
      }
    }

    method ApplySwap(i: nat, instrument: string, received: nat, spent: nat, interest: Option<nat>) returns (isNew: bool)
      requires Refers(i)
      modifies this`money, this`cycles, this`outbox, this`receipts, this`revived
      ensures isNew == !old(outbox)[i].booked
      ensures Tables() == WithReceipt(old(Tables()), i, Bought(instrument, received, spent, interest))
    {
      var plan, cycle := outbox[i].plan, outbox[i].cycle;
      ghost var freed := Revives(Tables(), i, Bought(instrument, received, spent, interest));
      isNew := InsertReceipt(i, Bought(instrument, received, spent, interest));
      if isNew {
        if cycle.Some? {
          SettleCycleSpend(cycle.value, Spent, Some(spent));
          revived := revived + if freed then {cycle.value} else {};
        }
        AddToHolding(plan, instrument, received, spent);
        if interest.Some? {
          var m := money[plan];
          money := money[plan := m.(harvested := AtLeastZero(m.harvested - interest.value))];
        }
      }
    }

    method AddToHolding(plan: string, instrument: string, received: nat, spent: nat)
      requires plan in money
      modifies this`money
      ensures var m := old(money)[plan];
              money == old(money)[plan := m.(holdings := Books.AddHolding(m.holdings, instrument, received, spent))]
    {
      var m := money[plan];
      var h := if instrument in m.holdings then m.holdings[instrument] else Holding(0, 0);
      var holding := Holding(h.tokens + received, h.cost + spent);
      money := money[plan := m.(holdings := m.holdings[instrument := holding])];
    }
  }

  /** A held plan lock (plan-lock.ts): every guarded step renews it first. */
  class PlanLease {
    const db: Store
    const plan: string
    var until: Option<nat>

    constructor (db: Store, plan: string, lockUntil: Option<nat>)
      ensures this.db == db && this.plan == plan && until == lockUntil
    {
      this.db, this.plan, until := db, plan, lockUntil;
    }

    /** Whether the stored value is the one this lease holds. */
    predicate Held()
      reads this, db
    {
      until.Some? && plan in db.locks && db.locks[plan] == until
    }

    /** Renews the lock, or finds it lost: then nothing is written and the lease never holds again. */
    method Hold(now: nat, ttl: nat) returns (ok: bool)
      modifies this, db`locks
      ensures ok == old(Held())
      ensures ok ==> until == Some(now + ttl) && db.locks == old(db.locks)[plan := until] && Held()
      ensures !ok ==> until.None? && db.locks == old(db.locks) && !Held()
    {
      var renewed := None;
      if until.Some? {
        renewed := db.RenewPlanLock(plan, until.value, now, ttl);
      }
      until := renewed;
      ok := renewed.Some?;
    }
  }
}
