/**
 The loop of `Rounds` is one of the lock holders of `Protocol`: whatever a live cycle's rounds come to,
 some actions of the protocol come to the same, signing the same transactions for the same decisions in
 the same order. So what is proved of runs holds of the loop.
 */
module LiveRuns {
  import opened Basics
  import opened Books
  import opened BooksInvariant
  import opened Protocol
  import opened ProtocolInvariant
  import opened ProtocolPaths
  import opened ProtocolTheorems
  import D = Decide
  import R = Rounds

  /******* The same things in both *******/

  /** What outlives the round of an execute decision. */
  function Recorded(d: D.Decision): Decision
    requires d.Execute?
  {
    Decision(d.instrument, d.spend, d.interest)
  }

  function KindOf(kind: R.Kind): Kind {
    match kind
    case Redeem => Kind.Redeem
    case Approve => Kind.Approve
    case Swap => Kind.Swap
  }

  predicate IsSignedAs(row: Row, c: nat, sig: R.Signature) {
    row.cycle == Some(c) && row.kind == KindOf(sig.kind) && sig.decision.Execute? && row.signedFor == Some(Recorded(sig.decision))
  }

  /** All that was signed since the outbox was `base` is what the rounds signed, in order. */
  ghost predicate SignedAs(db: Db, c: nat, base: seq<Row>, signed: seq<R.Signature>) {
    && |db.outbox| == |base| + |signed| && db.outbox[..|base|] == base
    && forall k :: 0 <= k < |signed| ==> IsSignedAs(db.outbox[|base| + k], c, signed[k])
  }

  /** The process holds the plan in time, does `job`, and these are the tables. */
  ghost predicate At(s: State, p: nat, job: Job, db: Db) {
    Holds(s, p) && InTime(s, p) && s.procs[p].job == job && s.db == db && s.procs[p].plan in db.money
  }

  ghost predicate Acts(s: State, p: nat) {
    p in s.procs && At(s, p, s.procs[p].job, s.db)
  }

  function Job0(c: nat, phase: Phase, l: R.Loop): Job {
    Live(c, phase, l.reserved, l.redeemDone, l.approved)
  }

  /** Between two rounds: nothing out on chain, and as much may be reserved as the cycle read at its start. */
  ghost predicate Between(g: Config, s: State, p: nat, c: nat, base: seq<Row>, f: R.Fixed, l: R.Loop, day: nat) {
    && At(s, p, Job0(c, Deciding, l), s.db) && c < |s.db.cycles| && OutboxQuiet(s.db)
    && SignedAs(s.db, c, base, l.signed)
    && (l.reserved.None? ==> l.signed == [] && WithinCaps(g, s.db, s.procs[p].plan, day, f.dailyRemaining))
  }

  /** How a job stands when the rounds are over. */
  predicate PhaseFits(phase: Phase, ended: R.Ended) {
    match ended
    case Decided(_) => phase == Closing(false)
    case NotReserved => phase == Closing(false)
    case FailedWith(_) => phase == Closing(false)
    case OutOnChain => phase.Giving?
    case NeedsReview => phase.Odd?
    case BoughtIt(_, _) => phase == Closing(true)
    case Threw => phase == Phase.Threw
    case TooManyRounds => phase == Closing(false)
  }

  ghost predicate Over(s: State, p: nat, c: nat, base: seq<Row>, n: R.Next) {
    && n.End? && p in s.procs && s.procs[p].job.Live? && s.procs[p].job.c == c
    && PhaseFits(s.procs[p].job.phase, n.ended) && SignedAs(s.db, c, base, n.loop.signed)
  }

  /******* One action *******/

  lemma Renews(g: Config, s0: State, s: State, p: nat, job: Job, db: Db) returns (t: State)
    requires Leads(g, s0, s) && At(s, p, job, db)
    ensures Leads(g, s0, t) && At(t, p, job, db) && t.procs[p].armed && t.procs[p].plan == s.procs[p].plan
  {
    Goes(g, s0, s, ByLock(p, Renew));
    t := Apply(g, s, ByLock(p, Renew));
  }

  lemma Lives(g: Config, s0: State, s: State, p: nat, step: LiveStep) returns (t: State)
    requires Leads(g, s0, s) && Holds(s, p) && InTime(s, p) && LiveEnabled(g, s, p, step)
    ensures Leads(g, s0, t) && t == LiveApply(g, s, p, step) && Holds(t, p) && InTime(t, p)
    ensures t.procs[p].plan == s.procs[p].plan && t.procs[p].job == JobAfter(g, s, p, step) && t.db == LiveWrite(g, s, p, step)
  {
    Goes(g, s0, s, ByCycle(p, step));
    t := Apply(g, s, ByCycle(p, step));
  }

  lemma Rows(g: Config, s0: State, s: State, p: nat, i: nat, step: RowStep) returns (t: State)
    requires Leads(g, s0, s) && RowEnabled(s, i, step) && Acts(s, p)
    ensures Leads(g, s0, t) && t == s.(db := SetRow(s.db, i, RowAfter(s.db.outbox[i], step))) && At(t, p, s.procs[p].job, t.db)
  {
    Goes(g, s0, s, OnRow(i, step));
    t := Apply(g, s, OnRow(i, step));
  }

  /******* Deciding and reserving *******/

  /** Appending to the step log leaves the day's sums alone. */
  lemma SumsStay(g: Config, db: Db, c: nat, step: Step, plan: string, day: nat, amount: nat)
    requires c < |db.cycles| && WithinCaps(g, db, plan, day, amount)
    ensures WithinCaps(g, AppendStep(db, c, step), plan, day, amount)
  {
    var x := AppendStep(db, c, step).cycles[c];
    DaySumAfterUpdate(db.cycles, c, x, g.house, day);
    DaySumAfterUpdate(db.cycles, c, x, {plan}, day);
  }

  /** An execute decision is recorded, and reserved for if nothing is yet. */
  lemma DecidesAndReserves(g: Config, s0: State, s: State, p: nat, c: nat, base: seq<Row>, f: R.Fixed, l: R.Loop, d: D.Decision,
                           day: nat)
    returns (t: State)
    requires Leads(g, s0, s) && Between(g, s, p, c, base, f, l, day) && d.Execute? && d.spend <= f.dailyRemaining
    ensures var m := if l.reserved.None? then l.(reserved := Some(d.spend)) else l;
            && Leads(g, s0, t) && At(t, p, Job0(c, Phase.Decided(Recorded(d)), m), t.db) && t.procs[p].plan == s.procs[p].plan
            && c < |t.db.cycles| && OutboxQuiet(t.db) && SignedAs(t.db, c, base, m.signed)
  {
    hide Leads;
    var decided := Lives(g, s0, s, p, LiveStep.Decide(Recorded(d)));
    if l.reserved.None? {
      SumsStay(g, s.db, c, Execute(Recorded(d)), s.procs[p].plan, day, f.dailyRemaining);
      var renewed := Renews(g, s0, decided, p, decided.procs[p].job, decided.db);
      t := Lives(g, s0, renewed, p, Reserve(day));
    } else {
      t := decided;
    }
  }

  /******* Signing *******/

  datatype Outcome = Fine(logs: Logs) | Bad | NotYet

  function FateOf(o: Outcome): Fate
    requires !o.NotYet?
  {
    if o.Fine? then Mined(o.logs) else Reverted
  }

  /** The row signed, as the outcome leaves it. */
  function RowOf(plan: string, c: nat, kind: Kind, d: Decision, o: Outcome): Row {
    if o.NotYet? then Row(plan, Some(c), kind, Some(d), Signed, false, Unmined, false)
    else Row(plan, Some(c), kind, Some(d), if o.Fine? then Confirmed else Failed, true, FateOf(o), false)
  }

  function PhaseOf(row: nat, o: Outcome): Phase {
    match o
    case Fine(_) => InBlock(row)
    case Bad => Closing(false)
    case NotYet => Giving(row)
  }

  /** The job after signing a kind. */
  function After(kind: Kind, job: Job, phase: Phase): Job
    requires job.Live?
  {
    job.(phase := phase, redeemed := job.redeemed || kind == Redeem, approved := job.approved || kind == Approve)
  }

  predicate MaySignNow(job: Job, kind: Kind) {
    && job.Live? && job.phase.Decided? && job.reserved.Some? && job.phase.decision.spend <= job.reserved.value
    && (kind == Redeem ==> !job.redeemed) && (kind == Approve ==> !job.approved) && (kind == Swap ==> job.approved)
    && kind != Deposit
  }

  lemma SignsNow(g: Config, s0: State, s: State, p: nat, job: Job, kind: Kind) returns (t: State)
    requires Leads(g, s0, s) && At(s, p, job, s.db) && MaySignNow(job, kind) && job.c < |s.db.cycles| && OutboxQuiet(s.db)
    ensures Leads(g, s0, t) && At(t, p, After(kind, job, Sent(|s.db.outbox|)), t.db)
    ensures t.procs[p].plan == s.procs[p].plan
    ensures t.db == AddRow(s.db, RowOf(s.procs[p].plan, job.c, kind, job.phase.decision, NotYet))
  {
    hide Leads;
    var renewed := Renews(g, s0, s, p, job, s.db);
    t := Lives(g, s0, renewed, p, Sign(kind));
  }

  /** Broadcast, mined or reverted, and known to be. */
  lemma SettlesNow(g: Config, s0: State, s: State, p: nat, i: nat, o: Outcome) returns (t: State)
    requires Leads(g, s0, s) && Acts(s, p) && !o.NotYet?
    requires i < |s.db.outbox| && s.db.outbox[i].status.Signed? && s.db.outbox[i].fate.Unmined? && !s.db.outbox[i].booked
    requires s.db.outbox[i].kind.Swap? && o.Fine? ==> o.logs.usdt == 0
    ensures Leads(g, s0, t) && t.procs == s.procs && At(t, p, s.procs[p].job, t.db)
    ensures t.db == SetRow(s.db, i, s.db.outbox[i].(status := if o.Fine? then Confirmed else Failed, broadcast := true, fate := FateOf(o)))
  {
    hide Leads;
    var sent := Rows(g, s0, s, p, i, Broadcast);
    var mined := Rows(g, s0, sent, p, i, Mine(FateOf(o)));
    t := Rows(g, s0, mined, p, i, if o.Fine? then Confirm else Fail);
  }

  /** A kind is signed for the decision, and the process learns how it went. */
  lemma Signs(g: Config, s0: State, s: State, p: nat, job: Job, kind: Kind, o: Outcome) returns (t: State)
    requires Leads(g, s0, s) && At(s, p, job, s.db) && MaySignNow(job, kind) && job.c < |s.db.cycles| && OutboxQuiet(s.db)
    requires kind.Swap? && o.Fine? ==> o.logs.usdt == 0
    ensures Leads(g, s0, t) && At(t, p, After(kind, job, PhaseOf(|s.db.outbox|, o)), t.db)
    ensures t.procs[p].plan == s.procs[p].plan
    ensures t.db == AddRow(s.db, RowOf(s.procs[p].plan, job.c, kind, job.phase.decision, o))
  {
    hide Leads;
    var n := |s.db.outbox|;
    var signed := SignsNow(g, s0, s, p, job, kind);
    if o.NotYet? {
      t := Lives(g, s0, signed, p, Observe(true));
    } else {
      var settled := SettlesNow(g, s0, signed, p, n, o);
      assert settled.db.outbox == s.db.outbox + [RowOf(s.procs[p].plan, job.c, kind, job.phase.decision, o)];
      t := Lives(g, s0, settled, p, Observe(false));
    }
  }

  /** What was mined is booked. */
  lemma BooksNow(g: Config, s0: State, s: State, p: nat, job: Job) returns (t: State)
    requires Leads(g, s0, s) && At(s, p, job, s.db) && job.Live? && job.phase.InBlock? && job.c < |s.db.cycles|
    requires job.phase.row < |s.db.outbox|
    requires var row := s.db.outbox[job.phase.row];
             row.fate.Mined? && row.status.Confirmed? && !row.booked && row.signedFor.Some? && row.plan in s.db.money && row.cycle == Some(job.c)
    ensures Leads(g, s0, t) && Acts(t, p) && t.procs[p].plan == s.procs[p].plan
    ensures var row := s.db.outbox[job.phase.row];
            && t.db.outbox == s.db.outbox[job.phase.row := row.(booked := true)] && |t.db.cycles| == |s.db.cycles|
            && t.procs[p].job == job.(phase := if !row.kind.Swap? then Deciding
                                               else if row.fate.logs.tokens > 0 then Closing(true) else Odd(job.phase.row))
  {
    hide Leads;
    t := Lives(g, s0, s, p, BookLive);
  }

  /******* One round *******/

  /** One more row, signed as the rounds' newest signature says. */
  lemma OneMoreSignature(db: Db, row: Row, c: nat, base: seq<Row>, signed: seq<R.Signature>, sig: R.Signature, now: Db)
    requires SignedAs(db, c, base, signed) && IsSignedAs(row, c, sig) && now.outbox == db.outbox + [row]
    ensures SignedAs(now, c, base, signed + [sig])
  {
    assert now.outbox[..|base|] == db.outbox[..|base|];
  }

  lemma GivesUp(g: Config, s0: State, s: State, p: nat, job: Job) returns (t: State)
    requires Leads(g, s0, s) && At(s, p, job, s.db) && job.Live? && job.c < |s.db.cycles| && (job.phase.Deciding? || job.phase.Decided?)
    ensures Leads(g, s0, t) && At(t, p, job.(phase := Closing(false)), s.db)
  {
    hide Leads;
    t := Lives(g, s0, s, p, GiveUp);
  }

  function OutcomeOfRedeem(r: R.RedeemReply): Outcome {
    match r
    case RedeemFailed(_) => Bad
    case RedeemPending => NotYet
    case Redeemed(usdt) => Fine(Logs(usdt, 0, 0))
  }

  function OutcomeOfApprove(r: R.ApproveReply): Outcome
    requires !r.AlreadyAllowed?
  {
    match r
    case ApproveFailed(_) => Bad
    case ApprovePending => NotYet
    case Approved => Fine(Logs(0, 0, 0))
  }

  function OutcomeOfSwap(r: R.SwapReply): Outcome
    requires !r.Requote?
  {
    match r
    case SwapFailed(_) => Bad
    case SwapPending => NotYet
    case SwapMined(tokens) => Fine(Logs(0, 0, tokens))
  }

  /** Ready to act on a recorded decision under a reservation. */
  ghost predicate Ready(s: State, p: nat, c: nat, base: seq<Row>, l: R.Loop, d: D.Decision) {
    && d.Execute? && l.reserved.Some? && d.spend <= l.reserved.value
    && At(s, p, Job0(c, Phase.Decided(Recorded(d)), l), s.db) && c < |s.db.cycles| && OutboxQuiet(s.db)
    && SignedAs(s.db, c, base, l.signed)
  }

  /** Signing one kind in a round: it ends the cycle, or is booked and the rounds go on. */
  lemma SignsInARound(g: Config, s0: State, s: State, p: nat, c: nat, base: seq<Row>, l: R.Loop, d: D.Decision,
                      kind: R.Kind, o: Outcome)
    returns (t: State)
    requires Leads(g, s0, s) && Ready(s, p, c, base, l, d)
    requires MaySignNow(Job0(c, Phase.Decided(Recorded(d)), l), KindOf(kind))
    requires kind.Swap? && o.Fine? ==> o.logs.usdt == 0
    ensures Leads(g, s0, t) && p in t.procs && t.procs[p].plan == s.procs[p].plan
    ensures SignedAs(t.db, c, base, R.Sign(l, kind, d).signed) && c < |t.db.cycles|
    ensures o.Fine? ==> OutboxQuiet(t.db) && Acts(t, p)
    ensures t.procs[p].job == After(KindOf(kind), Job0(c, Phase.Decided(Recorded(d)), l),
              if !o.Fine? then PhaseOf(|s.db.outbox|, o)
              else if !kind.Swap? then Deciding
              else if o.logs.tokens > 0 then Closing(true) else Odd(|s.db.outbox|))
  {
    hide Leads;
    var job, sig := Job0(c, Phase.Decided(Recorded(d)), l), R.Signature(kind, d, l.reserved.value);
    var row := RowOf(s.procs[p].plan, c, KindOf(kind), Recorded(d), o);
    t := Signs(g, s0, s, p, job, KindOf(kind), o);
    if o.Fine? {
      t := BooksNow(g, s0, t, p, t.procs[p].job);
      assert t.db.outbox == s.db.outbox + [row.(booked := true)];
      OneMoreSignature(s.db, row.(booked := true), c, base, l.signed, sig, t.db);
    } else {
      OneMoreSignature(s.db, row, c, base, l.signed, sig, t.db);
    }
  }

  /** Where a round leads: to the next, or to its end. */
  ghost predicate RoundDone(g: Config, t: State, p: nat, c: nat, base: seq<Row>, f: R.Fixed, n: R.Next, day: nat) {
    if n.Continue? then Between(g, t, p, c, base, f, n.loop, day) else Over(t, p, c, base, n)
  }

  lemma RedeemRound(g: Config, s0: State, s: State, p: nat, c: nat, base: seq<Row>, f: R.Fixed, l: R.Loop, d: D.Decision,
                    w: R.World, day: nat)
    returns (t: State)
    requires Leads(g, s0, s) && Ready(s, p, c, base, l, d) && !l.redeemDone
    ensures Leads(g, s0, t) && RoundDone(g, t, p, c, base, f, R.OnRedeem(l, d, w.redeem), day)
  {
    hide Leads;
    if w.redeem == R.RedeemFailed(false) {
      t := GivesUp(g, s0, s, p, s.procs[p].job);
    } else {
      t := SignsInARound(g, s0, s, p, c, base, l, d, R.Redeem, OutcomeOfRedeem(w.redeem));
    }
  }

  lemma ApproveRound(g: Config, s0: State, s: State, p: nat, c: nat, base: seq<Row>, f: R.Fixed, l: R.Loop, d: D.Decision,
                     w: R.World, day: nat)
    returns (t: State)
    requires Leads(g, s0, s) && Ready(s, p, c, base, l, d) && !l.approved
    ensures Leads(g, s0, t) && RoundDone(g, t, p, c, base, f, R.OnApprove(l, d, w.approve), day)
  {
    hide Leads;
    if w.approve == R.ApproveFailed(false) {
      t := GivesUp(g, s0, s, p, s.procs[p].job);
    } else if w.approve.AlreadyAllowed? {
      t := Lives(g, s0, s, p, HaveAllowance);
    } else {
      t := SignsInARound(g, s0, s, p, c, base, l, d, R.Approve, OutcomeOfApprove(w.approve));
    }
  }

  lemma SwapRound(g: Config, s0: State, s: State, p: nat, c: nat, base: seq<Row>, f: R.Fixed, l: R.Loop, d: D.Decision,
                  w: R.World, day: nat)
    returns (t: State)
    requires Leads(g, s0, s) && Ready(s, p, c, base, l, d) && l.approved
    ensures Leads(g, s0, t) && RoundDone(g, t, p, c, base, f, R.OnSwap(l, d, w.swap), day)
  {
    hide Leads;
    if w.swap == R.SwapFailed(false) {
      t := GivesUp(g, s0, s, p, s.procs[p].job);
    } else if w.swap.Requote? {
      t := Lives(g, s0, s, p, Again);
    } else {
      t := SignsInARound(g, s0, s, p, c, base, l, d, R.Swap, OutcomeOfSwap(w.swap));
    }
  }

  lemma ExecuteRound(g: Config, s0: State, s: State, p: nat, c: nat, base: seq<Row>, f: R.Fixed, l: R.Loop, d: D.Decision,
                     w: R.World, day: nat)
    returns (t: State)
    requires Leads(g, s0, s) && Between(g, s, p, c, base, f, l, day) && d.Execute? && d.spend <= f.dailyRemaining
    ensures Leads(g, s0, t) && RoundDone(g, t, p, c, base, f, R.OnExecute(f, l, d, w), day)
  {
    hide Leads, R.OnRedeem, R.OnApprove, R.OnSwap, R.IsConfirmed;
    if !R.IsConfirmed(f, d) || (l.reserved.None? && !w.reserve) {
      t := GivesUp(g, s0, s, p, s.procs[p].job);
    } else {
      t := DecidesAndReserves(g, s0, s, p, c, base, f, l, d, day);
      var m := if l.reserved.None? then l.(reserved := Some(d.spend)) else l;
      if d.spend > m.reserved.value {
        t := GivesUp(g, s0, t, p, t.procs[p].job);
      } else if d.redeem > 0 && !m.redeemDone {
        t := RedeemRound(g, s0, t, p, c, base, f, m, d, w, day);
      } else if !m.approved {
        t := ApproveRound(g, s0, t, p, c, base, f, m, d, w, day);
      } else {
        t := SwapRound(g, s0, t, p, c, base, f, m, d, w, day);
      }
    }
  }

  lemma OneRound(g: Config, s0: State, s: State, p: nat, c: nat, base: seq<Row>, f: R.Fixed, l: R.Loop, w: R.World, day: nat)
    returns (t: State)
    requires Leads(g, s0, s) && Between(g, s, p, c, base, f, l, day)
    requires var d := R.DecisionIn(f, l, w); d.Execute? ==> d.spend <= f.dailyRemaining
    ensures Leads(g, s0, t) && RoundDone(g, t, p, c, base, f, R.Round(f, l, w), day)
  {
    hide Leads, D.DecisionOf, R.OnExecute;
    var d := R.DecisionIn(f, l, w);
    t := s;
    match d {
      case NotDue => t := Lives(g, s0, s, p, Throw);
      case Thrown => t := Lives(g, s0, s, p, Throw);
      case Done(_) => t := GivesUp(g, s0, s, p, s.procs[p].job);
      case AskQuote(_, _) =>
        if w.quote.None? {
          t := Lives(g, s0, s, p, Throw);
        }
      case Execute(_, _, _, _, _, _) => t := ExecuteRound(g, s0, s, p, c, base, f, l, d, w, day);
    }
  }

  /******* All rounds *******/

  lemma {:induction false} SomeRounds(g: Config, s0: State, p: nat, c: nat, f: R.Fixed, env: seq<R.World>, day: nat, k: nat)
    returns (t: State)
    requires k <= |env| && R.UniqueIds(f.markets) && Between(g, s0, p, c, s0.db.outbox, f, R.Begun(f), day)
    ensures Leads(g, s0, t) && RoundDone(g, t, p, c, s0.db.outbox, f, R.After(f, env, k), day)
  {
    hide Leads, Between, Over, R.Round, R.DecisionIn;
    if k == 0 {
      Stays(g, s0);
      t := s0;
    } else {
      t := SomeRounds(g, s0, p, c, f, env, day, k - 1);
      var before := R.After(f, env, k - 1);
      if before.Continue? {
        if R.DecisionIn(f, before.loop, env[k - 1]).Execute? {
          R.EveryBuyIsWithinBounds(f, env, k - 1);
        }
        t := OneRound(g, s0, t, p, c, s0.db.outbox, f, before.loop, env[k - 1], day);
      }
    }
  }

  /**
   Take any state in which a process just opened a cycle with nothing of the wallet out on chain, and
   any replies at all in its rounds. Some actions of the protocol lead from there to a state in which
   exactly what the rounds signed was signed, and the process stands as the rounds ended.
   */
  lemma CycleIsARun(g: Config, s0: State, p: nat, c: nat, f: R.Fixed, env: seq<R.World>, day: nat) returns (t: State)
    requires |env| == R.MAX_ROUNDS && R.UniqueIds(f.markets) && Between(g, s0, p, c, s0.db.outbox, f, R.Begun(f), day)
    ensures Leads(g, s0, t) && Over(t, p, c, s0.db.outbox, R.Conclusion(f, env))
  {
    hide Leads;
    t := SomeRounds(g, s0, p, c, f, env, day, R.MAX_ROUNDS);
    var last := R.After(f, env, R.MAX_ROUNDS);
    if last.Continue? {
      t := GivesUp(g, s0, t, p, t.procs[p].job);
    }
  }

  /** So the order the protocol's runs sign in is the loop's: each kind once, the swap last, each on top of booked ones. */
  lemma RoundsSignInTurn(g: Config, run: seq<State>, p: nat, c: nat, f: R.Fixed, env: seq<R.World>, day: nat, i: nat, j: nat)
    requires IsRun(g, run) && g.ttl > 0
    requires |env| == R.MAX_ROUNDS && R.UniqueIds(f.markets)
    requires var s0 := run[|run| - 1]; Between(g, s0, p, c, s0.db.outbox, f, R.Begun(f), day)
    requires i < j < |R.Conclusion(f, env).loop.signed|
    ensures var signed := R.Conclusion(f, env).loop.signed; signed[i].kind != signed[j].kind && !signed[i].kind.Swap?
  {
    hide Leads, R.Conclusion;
    var s0, signed := run[|run| - 1], R.Conclusion(f, env).loop.signed;
    var t := CycleIsARun(g, s0, p, c, f, env, day);
    var longer := RunGoesOn(g, run, t);
    var n := |s0.db.outbox|;
    assert IsSignedAs(t.db.outbox[n + i], c, signed[i]) && IsSignedAs(t.db.outbox[n + j], c, signed[j]);
    SignaturesInTurn(g, longer, |longer| - 1, c, n + i, n + j);
  }
}
