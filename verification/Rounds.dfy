/**
 The loop that drives a live cycle (cycle.ts): decide, do the one thing the decision asks for, decide
 again, at most `MAX_ROUNDS` times. What the venue, the chain and the ledger answer in a round is an
 arbitrary `World`; nothing is assumed of it but what a theorem says.
 */
module Rounds {
  import opened Basics
  import opened Decide
  import opened Session

  const MAX_ROUNDS: nat := 12

  datatype Kind = Redeem | Approve | Swap

  /** The buy a person confirmed. */
  datatype Confirmed = Confirmed(instrument: string, maxSpend: nat)

  /** What stays the same during the cycle. */
  datatype Fixed = Fixed(cal: Calendar, plan: Plan, minBuy: nat, maxPerTx: nat, dailyRemaining: nat, harvested: nat,
                         markets: seq<Market>, blocked: Option<string>, confirmed: Option<Confirmed>)

  datatype Reply = Reply(receivedAt: int, quoteId: Option<string>, tokens: Option<nat>, impact: Option<real>, rfq: bool,
                         error: Option<string>, action: Option<ErrorAction>)

  datatype RedeemReply = RedeemFailed(wasSent: bool) | RedeemPending | Redeemed(usdt: nat)

  datatype ApproveReply = ApproveFailed(wasSent: bool) | ApprovePending | AlreadyAllowed | Approved

  datatype SwapReply = Requote | SwapFailed(wasSent: bool) | SwapPending | SwapMined(tokens: nat)

  /** One round's answers: the clock, the position's worth, and a reply to whatever is asked; no quote is an error thrown. */
  datatype World = World(now: int, underlying: nat, quote: Option<Reply>, reserve: bool,
                         redeem: RedeemReply, approve: ApproveReply, swap: SwapReply)

  /** A transaction handed to the signer, the decision it was for, and what was reserved then. */
  datatype Signature = Signature(kind: Kind, decision: Decision, reserved: nat)

  datatype Loop = Loop(quotes: seq<Quote>, reserved: Option<nat>, redeemDone: bool, approved: bool, harvested: nat,
                       signed: seq<Signature>)

  datatype Ended =
    | Decided(outcome: Outcome) | NotReserved | FailedWith(code: string) | OutOnChain | NeedsReview
    | BoughtIt(decision: Decision, tokens: nat) | Threw | TooManyRounds

  datatype Next = Continue(loop: Loop) | End(loop: Loop, ended: Ended)

  /******* One round *******/

  function DecideRemaining(f: Fixed): nat {
    if f.confirmed.Some? then Min(f.confirmed.value.maxSpend, f.dailyRemaining) else f.dailyRemaining
  }

  function InputOf(f: Fixed, s: Loop, w: World): Input {
    Input(w.now, f.plan, f.minBuy, f.maxPerTx, DecideRemaining(f), f.markets,
          if f.plan.mode.Yield? then Some(Position(w.underlying, s.harvested)) else None, f.blocked, s.quotes)
  }

  function DecisionIn(f: Fixed, s: Loop, w: World): Decision {
    DecisionOf(f.cal, InputOf(f, s, w))
  }

  function Observed(instrument: string, spend: nat, r: Reply): Quote {
    Quote(instrument, spend, r.receivedAt, r.quoteId, r.tokens, r.impact, r.rfq, r.error, r.action)
  }

  predicate IsConfirmed(f: Fixed, d: Decision)
    requires d.Execute?
  {
    f.confirmed.Some? ==> d.instrument == f.confirmed.value.instrument && d.spend <= f.confirmed.value.maxSpend
  }

  function Sign(s: Loop, kind: Kind, d: Decision): Loop
    requires s.reserved.Some?
  {
    s.(signed := s.signed + [Signature(kind, d, s.reserved.value)])
  }

  function OnRedeem(s: Loop, d: Decision, reply: RedeemReply): Next
    requires s.reserved.Some?
  {
    var done := s.(redeemDone := true);
    match reply
    case RedeemFailed(wasSent) => End(if wasSent then Sign(done, Redeem, d) else done, FailedWith("REDEEM"))
    case RedeemPending => End(Sign(done, Redeem, d), OutOnChain)
    case Redeemed(usdt) => Continue(Sign(done, Redeem, d).(harvested := s.harvested + usdt))
  }

  function OnApprove(s: Loop, d: Decision, reply: ApproveReply): Next
    requires s.reserved.Some?
  {
    match reply
    case ApproveFailed(wasSent) => End(if wasSent then Sign(s, Approve, d) else s, FailedWith("APPROVE"))
    case ApprovePending => End(Sign(s, Approve, d), OutOnChain)
    case AlreadyAllowed => Continue(s.(approved := true))
    case Approved => Continue(Sign(s, Approve, d).(approved := true))
  }

  /** The quote is marked as received at the epoch: too old for anything. */
  function Aged(quotes: seq<Quote>, id: string): seq<Quote> {
    var k := LastOwn(quotes, id);
    if k.None? then quotes else quotes[k.value := quotes[k.value].(receivedAt := 0)]
  }

  function OnSwap(s: Loop, d: Decision, reply: SwapReply): Next
    requires s.reserved.Some? && d.Execute?
  {
    match reply
    case Requote => Continue(s.(quotes := Aged(s.quotes, d.instrument)))
    case SwapFailed(wasSent) => End(if wasSent then Sign(s, Swap, d) else s, FailedWith("SWAP"))
    case SwapPending => End(Sign(s, Swap, d), OutOnChain)
    case SwapMined(tokens) => End(Sign(s, Swap, d), if tokens > 0 then BoughtIt(d, tokens) else NeedsReview)
  }

  function OnReserved(s: Loop, d: Decision, w: World): Next
    requires s.reserved.Some? && d.Execute?
  {
    if d.spend > s.reserved.value then End(s, FailedWith("SPEND_ABOVE_RESERVATION"))
    else if d.redeem > 0 && !s.redeemDone then OnRedeem(s, d, w.redeem)
    else if !s.approved then OnApprove(s, d, w.approve)
    else OnSwap(s, d, w.swap)
  }

  function OnExecute(f: Fixed, s: Loop, d: Decision, w: World): Next
    requires d.Execute?
  {
    if !IsConfirmed(f, d) then End(s, FailedWith("NOT_CONFIRMED"))
    else if s.reserved.None? && !w.reserve then End(s, NotReserved)
    else OnReserved(if s.reserved.None? then s.(reserved := Some(d.spend)) else s, d, w)
  }

  function Round(f: Fixed, s: Loop, w: World): Next {
    var d := DecisionIn(f, s, w);
    match d
    case NotDue => End(s, Threw)
    case Thrown => End(s, Threw)
    case Done(outcome) => End(s, Decided(outcome))
    case AskQuote(instrument, spend) =>
      if w.quote.None? then End(s, Threw) else Continue(s.(quotes := s.quotes + [Observed(instrument, spend, w.quote.value)]))
    case Execute(_, _, _, _, _, _) => OnExecute(f, s, d, w)
  }

  /******* The loop *******/

  function Begun(f: Fixed): Loop {
    Loop([], None, false, false, f.harvested, [])
  }

  /** Where the cycle is after `k` rounds. */
  function After(f: Fixed, env: seq<World>, k: nat): Next
    requires k <= |env|
  {
    if k == 0 then Continue(Begun(f))
    else
      var before := After(f, env, k - 1);
      if before.Continue? then Round(f, before.loop, env[k - 1]) else before
  }

  function Conclusion(f: Fixed, env: seq<World>): Next
    requires |env| == MAX_ROUNDS
    ensures Conclusion(f, env).End?
  {
    var last := After(f, env, MAX_ROUNDS);
    if last.Continue? then End(last.loop, TooManyRounds) else last
  }

  /** A live cycle: the variables its rounds update. */
  class LiveCycle {
    const f: Fixed
    var quotes: seq<Quote>
    var reserved: Option<nat>
    var redeemDone: bool
    var approved: bool
    var harvested: nat
    var signed: seq<Signature>

    constructor (f: Fixed)
      ensures this.f == f && State() == Begun(f)
    {
      this.f := f;
      quotes, reserved, redeemDone, approved, harvested, signed := [], None, false, false, f.harvested, [];
    }

    function State(): Loop
      reads this
    {
      Loop(quotes, reserved, redeemDone, approved, harvested, signed)
    }

    /** The cycle goes on from `next`, or it ended as `next` says. */
    predicate Reached(next: Next, ended: Option<Ended>)
      reads this
    {
      State() == next.loop && ended == if next.Continue? then None else Some(next.ended)
    }

    method AddSignature(kind: Kind, d: Decision)
      requires reserved.Some?
      modifies this`signed
      ensures State() == Sign(old(State()), kind, d)
    {
      signed := signed + [Signature(kind, d, reserved.value)];
    }

    method RedeemInterest(d: Decision, reply: RedeemReply) returns (ended: Option<Ended>)
      requires reserved.Some?
      modifies this
      ensures Reached(OnRedeem(old(State()), d, reply), ended)
      ensures redeemDone && harvested == old(harvested) + if reply.Redeemed? then reply.usdt else 0
    {
      redeemDone := true;
      if reply == RedeemFailed(false) {
        return Some(FailedWith("REDEEM"));
      }
      AddSignature(Redeem, d);
      match reply {
        case RedeemFailed(_) => ended := Some(FailedWith("REDEEM"));
        case RedeemPending => ended := Some(OutOnChain);
        case Redeemed(usdt) =>
          harvested := harvested + usdt;
          ended := None;
      }
    }

    method EnsureApproval(d: Decision, reply: ApproveReply) returns (ended: Option<Ended>)
      requires reserved.Some?
      modifies this
      ensures Reached(OnApprove(old(State()), d, reply), ended)
    {
      match reply {
        case ApproveFailed(wasSent) =>
          if wasSent {
            AddSignature(Approve, d);
          }
          ended := Some(FailedWith("APPROVE"));
        case ApprovePending =>
          AddSignature(Approve, d);
          ended := Some(OutOnChain);
        case AlreadyAllowed =>
          approved := true;
          ended := None;
        case Approved =>
          AddSignature(Approve, d);
          approved := true;
          ended := None;
      }
    }

    method PerformSwap(d: Decision, reply: SwapReply) returns (ended: Option<Ended>)
      requires reserved.Some? && d.Execute?
      modifies this
      ensures Reached(OnSwap(old(State()), d, reply), ended)
      ensures reply.SwapMined? ==> ended == Some(if reply.tokens > 0 then BoughtIt(d, reply.tokens) else NeedsReview)
      ensures reply.Requote? && LastOwn(old(quotes), d.instrument).Some? ==>
                var k := LastOwn(old(quotes), d.instrument).value;
                ended == None && signed == old(signed) && quotes == old(quotes)[k := old(quotes)[k].(receivedAt := 0)]
    {
      match reply {
        case Requote =>
          quotes := Aged(quotes, d.instrument);
          ended := None;
        case SwapFailed(wasSent) =>
          if wasSent {
            AddSignature(Swap, d);
          }
          ended := Some(FailedWith("SWAP"));
        case SwapPending =>
          AddSignature(Swap, d);
          ended := Some(OutOnChain);
        case SwapMined(tokens) =>
          AddSignature(Swap, d);
          ended := Some(if tokens > 0 then BoughtIt(d, tokens) else NeedsReview);
      }
    }

    method ExecuteBuy(d: Decision, w: World) returns (ended: Option<Ended>)
      requires d.Execute?
      modifies this
      ensures Reached(OnExecute(f, old(State()), d, w), ended)
    {
      hide OnRedeem, OnApprove, OnSwap;
      if f.confirmed.Some? && (d.instrument != f.confirmed.value.instrument || d.spend > f.confirmed.value.maxSpend) {
        return Some(FailedWith("NOT_CONFIRMED"));
      }
      if reserved.None? {
        if !w.reserve {
          return Some(NotReserved);
        }
        reserved := Some(d.spend);
      }
      if d.spend > reserved.value {
        return Some(FailedWith("SPEND_ABOVE_RESERVATION"));
      }
      if d.redeem > 0 && !redeemDone {
        ended := RedeemInterest(d, w.redeem);
      } else if !approved {
        ended := EnsureApproval(d, w.approve);
      } else {
        ended := PerformSwap(d, w.swap);
      }
    }

    /** One round: decide, and do the one thing asked for. */
    method OneRound(w: World) returns (ended: Option<Ended>)
      modifies this
      ensures Reached(Round(f, old(State()), w), ended)
    {
      hide DecisionOf, OnExecute;
      var input := Input(w.now, f.plan, f.minBuy, f.maxPerTx, DecideRemaining(f), f.markets,
                         if f.plan.mode.Yield? then Some(Position(w.underlying, harvested)) else None, f.blocked, quotes);
      var d := DecideCycle(f.cal, input);
      match d {
        case NotDue => ended := Some(Threw);
        case Thrown => ended := Some(Threw);
        case Done(outcome) => ended := Some(Decided(outcome));
        case AskQuote(instrument, spend) =>
          if w.quote.None? {
            return Some(Threw);
          }
          quotes := quotes + [Observed(instrument, spend, w.quote.value)];
          ended := None;
        case Execute(_, _, _, _, _, _) => ended := ExecuteBuy(d, w);
      }
    }

    /** The driving loop. */
    method Rounds(env: seq<World>) returns (ended: Ended)
      requires |env| == MAX_ROUNDS && State() == Begun(f)
      modifies this
      ensures ended == Conclusion(f, env).ended && State() == Conclusion(f, env).loop
    {
      hide Round;
      for round := 0 to MAX_ROUNDS
        invariant After(f, env, round) == Continue(State())
      {
        var answer := OneRound(env[round]);
        Stays(f, env, round + 1);
        if answer.Some? {
          return answer.value;
        }
      }
      ended := TooManyRounds;
    }
  }

  /** A cycle that ended stays ended. */
  lemma {:induction false} Stays(f: Fixed, env: seq<World>, k: nat)
    requires k <= |env| == MAX_ROUNDS
    ensures After(f, env, k).End? ==> After(f, env, MAX_ROUNDS) == After(f, env, k)
    decreases MAX_ROUNDS - k
  {
    if k < MAX_ROUNDS {
      Stays(f, env, k + 1);
    }
  }

  /******* Every buy is within its bounds *******/

  /** The registry's ids are unique. */
  predicate UniqueIds(markets: seq<Market>) {
    forall i, j :: 0 <= i < j < |markets| ==> markets[i].id != markets[j].id
  }

  predicate AboveMinimums(f: Fixed, instrument: string, spend: nat) {
    && spend >= f.minBuy
    && forall k :: 0 <= k < |f.markets| && f.markets[k].id == instrument && f.markets[k].venueMin.Some? ==>
         spend >= f.markets[k].venueMin.value
  }

  predicate QuotesOk(f: Fixed, quotes: seq<Quote>) {
    forall k :: 0 <= k < |quotes| ==> AboveMinimums(f, quotes[k].instrument, quotes[k].spend)
  }

  predicate Runs(f: Fixed, env: seq<World>, k: nat) {
    k < |env| && After(f, env, k).Continue?
  }

  lemma BuyableIsTheOne(f: Fixed, input: Input, market: Market, planned: nat)
    requires UniqueIds(f.markets) && input.markets == f.markets && IsBuyable(input, market, planned)
    ensures forall k :: 0 <= k < |f.markets| && f.markets[k].id == market.id ==> f.markets[k] == market
  {
  }

  /** A quote is asked for at least the minimum buy and the venue's minimum. */
  lemma AskedAboveMinimums(f: Fixed, s: Loop, w: World)
    requires UniqueIds(f.markets) && QuotesOk(f, s.quotes) && DecisionIn(f, s, w).AskQuote?
    ensures AboveMinimums(f, DecisionIn(f, s, w).instrument, DecisionIn(f, s, w).spend)
  {
    hide DecisionOf, IsOffHours;
    var input := InputOf(f, s, w);
    var market := AsksOfABuyable(f.cal, input);
    BuyableIsTheOne(f, input, market, PlannedSpend(input, IsOffHours(f.cal, input)));
  }

  lemma RoundKeepsQuotes(f: Fixed, s: Loop, w: World)
    requires UniqueIds(f.markets) && QuotesOk(f, s.quotes)
    ensures QuotesOk(f, Round(f, s, w).loop.quotes)
  {
    hide DecisionOf, AboveMinimums;
    if DecisionIn(f, s, w).AskQuote? {
      AskedAboveMinimums(f, s, w);
    } else if DecisionIn(f, s, w).Execute? {
      AgedIsAsGood(f, s.quotes, DecisionIn(f, s, w).instrument);
    }
  }

  lemma AgedIsAsGood(f: Fixed, quotes: seq<Quote>, id: string)
    requires QuotesOk(f, quotes)
    ensures QuotesOk(f, Aged(quotes, id)) && |Aged(quotes, id)| == |quotes|
  {
  }

  lemma {:induction false} QuotesStayOk(f: Fixed, env: seq<World>, k: nat)
    requires UniqueIds(f.markets) && k <= |env|
    ensures QuotesOk(f, After(f, env, k).loop.quotes)
  {
    if k > 0 {
      QuotesStayOk(f, env, k - 1);
      if After(f, env, k - 1).Continue? {
        RoundKeepsQuotes(f, After(f, env, k - 1).loop, env[k - 1]);
      }
    }
  }

  /**
   Every buy the loop ever sets out to execute, in whatever round: at least the minimum buy and the
   venue's minimum; at most the per-buy limit (half of it off-hours), the day's remainder and, beyond
   the interest used, the contribution; and what is redeemed for it leaves the principal in place.
   */
  lemma EveryBuyIsWithinBounds(f: Fixed, env: seq<World>, k: nat)
    requires UniqueIds(f.markets) && Runs(f, env, k) && DecisionIn(f, After(f, env, k).loop, env[k]).Execute?
    ensures var s, w := After(f, env, k).loop, env[k];
            var d, input := DecisionIn(f, s, w), InputOf(f, s, w);
            && AboveMinimums(f, d.instrument, d.spend)
            && d.spend <= MaxPerBuy(input, IsOffHours(f.cal, input)) && d.spend <= f.dailyRemaining
            && (f.confirmed.Some? ==> d.spend <= f.confirmed.value.maxSpend)
            && HasPosition(input) && d.spend <= InterestAvailable(input) + f.plan.contribution
            && d.spend - (if d.interest.Some? then d.interest.value else 0) <= f.plan.contribution
            && (d.redeem > 0 ==> f.plan.principal + d.redeem <= w.underlying)
  {
    hide DecisionOf, IsOffHours;
    var s, w := After(f, env, k).loop, env[k];
    QuotesStayOk(f, env, k);
    ExecuteWithinItsMeans(f.cal, InputOf(f, s, w));
    ExecuteHasAFreshQuote(f.cal, InputOf(f, s, w));
  }

  /******* What is signed *******/

  /** What a cycle signed so far: each kind once, a swap last, all within the reservation and the confirmation. */
  predicate SignedOk(f: Fixed, s: Loop) {
    && (forall i :: 0 <= i < |s.signed| ==> SignatureOk(f, s, s.signed[i]))
    && (forall i, j :: 0 <= i < j < |s.signed| ==> InTurn(s.signed[i], s.signed[j]))
  }

  predicate SignatureOk(f: Fixed, s: Loop, sig: Signature) {
    && s.reserved == Some(sig.reserved)
    && sig.decision.Execute? && sig.decision.spend <= sig.reserved && IsConfirmed(f, sig.decision)
    && (sig.kind.Redeem? ==> s.redeemDone && sig.decision.redeem > 0)
  }

  /** An approval comes before a redemption only if it was signed when nothing was to be redeemed. */
  predicate InTurn(a: Signature, b: Signature) {
    && a.kind != b.kind && !a.kind.Swap?
    && (a.kind.Approve? && b.kind.Redeem? ==> a.decision.Execute? && a.decision.redeem == 0)
  }

  /** Between two rounds: no swap yet, an approval is remembered, and one signed before a redemption needed none. */
  predicate Underway(s: Loop) {
    forall i :: 0 <= i < |s.signed| ==> UnderwayAt(s, s.signed[i])
  }

  predicate UnderwayAt(s: Loop, sig: Signature) {
    && !sig.kind.Swap?
    && (sig.kind.Approve? ==> s.approved && (!s.redeemDone ==> sig.decision.Execute? && sig.decision.redeem == 0))
  }

  lemma RoundKeepsSignatures(f: Fixed, s: Loop, w: World)
    requires SignedOk(f, s) && Underway(s)
    ensures SignedOk(f, Round(f, s, w).loop)
    ensures Round(f, s, w).Continue? ==> Underway(Round(f, s, w).loop)
  {
    hide DecisionOf;
    var d := DecisionIn(f, s, w);
    if d.Execute? && IsConfirmed(f, d) && (s.reserved.Some? || w.reserve) {
      var t := if s.reserved.None? then s.(reserved := Some(d.spend)) else s;
      assert s.reserved.None? ==> s.signed == [] by {
        assert |s.signed| > 0 ==> SignatureOk(f, s, s.signed[0]);
      }
      forall i | 0 <= i < |t.signed| ensures SignatureOk(f, t, t.signed[i]) {
        assert SignatureOk(f, s, s.signed[i]);
      }
      SigningInTurn(f, t, d, w);
    }
  }

  lemma SigningInTurn(f: Fixed, s: Loop, d: Decision, w: World)
    requires SignedOk(f, s) && Underway(s) && s.reserved.Some? && d.Execute? && IsConfirmed(f, d)
    ensures SignedOk(f, OnReserved(s, d, w).loop)
    ensures OnReserved(s, d, w).Continue? ==> Underway(OnReserved(s, d, w).loop)
  {
    hide SignedOk, Underway, IsConfirmed, Aged;
    if d.spend <= s.reserved.value {
      if d.redeem > 0 && !s.redeemDone {
        RedeemInTurn(f, s, d);
        SameSignatures(f, s, s.(redeemDone := true));
      } else if !s.approved {
        ApproveInTurn(f, s, d);
        SameSignatures(f, s, s.(approved := true));
      } else {
        SwapInTurn(f, s, d);
        SameSignatures(f, s, s.(quotes := Aged(s.quotes, d.instrument)));
      }
    }
  }

  /** Nothing was signed: what was stays in order, whatever else the round remembers. */
  lemma SameSignatures(f: Fixed, s: Loop, t: Loop)
    requires SignedOk(f, s) && Underway(s) && t.signed == s.signed && t.reserved == s.reserved
    requires (s.redeemDone ==> t.redeemDone) && (s.approved ==> t.approved)
    ensures SignedOk(f, t) && Underway(t)
  {
  }

  lemma RedeemInTurn(f: Fixed, s: Loop, d: Decision)
    requires SignedOk(f, s) && Underway(s) && s.reserved.Some? && d.Execute? && IsConfirmed(f, d)
    requires d.spend <= s.reserved.value && d.redeem > 0 && !s.redeemDone
    ensures var t := Sign(s.(redeemDone := true), Redeem, d);
            forall usdt :: SignedOk(f, t) && SignedOk(f, t.(harvested := usdt)) && Underway(t.(harvested := usdt))
  {
  }

  lemma ApproveInTurn(f: Fixed, s: Loop, d: Decision)
    requires SignedOk(f, s) && Underway(s) && s.reserved.Some? && d.Execute? && IsConfirmed(f, d)
    requires d.spend <= s.reserved.value && !(d.redeem > 0 && !s.redeemDone) && !s.approved
    ensures SignedOk(f, Sign(s, Approve, d))
    ensures var t := Sign(s, Approve, d).(approved := true); SignedOk(f, t) && Underway(t)
  {
  }

  lemma SwapInTurn(f: Fixed, s: Loop, d: Decision)
    requires SignedOk(f, s) && Underway(s) && s.reserved.Some? && d.Execute? && IsConfirmed(f, d)
    requires d.spend <= s.reserved.value
    ensures SignedOk(f, Sign(s, Swap, d))
  {
  }

  lemma NothingSignedIsOk(f: Fixed)
    ensures SignedOk(f, Begun(f)) && Underway(Begun(f))
  {
  }

  lemma {:induction false} SignaturesStayOk(f: Fixed, env: seq<World>, k: nat)
    requires k <= |env|
    ensures SignedOk(f, After(f, env, k).loop)
    ensures After(f, env, k).Continue? ==> Underway(After(f, env, k).loop)
  {
    hide Round, SignedOk, Underway;
    NothingSignedIsOk(f);
    if k > 0 {
      SignaturesStayOk(f, env, k - 1);
      if After(f, env, k - 1).Continue? {
        RoundKeepsSignatures(f, After(f, env, k - 1).loop, env[k - 1]);
      }
    }
  }

  /**
   Whatever the venue and the chain answer: a cycle signs each of redeem, approve and swap at most
   once, a swap only as the last, nothing before a reservation succeeded, nothing for more than was
   reserved, and, when a person confirmed the buy, for nothing else.
   */
  lemma SignaturesOfACycle(f: Fixed, env: seq<World>)
    requires |env| == MAX_ROUNDS
    ensures SignedOk(f, Conclusion(f, env).loop)
  {
    SignaturesStayOk(f, env, MAX_ROUNDS);
  }

  function Rank(kind: Kind): nat {
    match kind
    case Redeem => 0
    case Approve => 1
    case Swap => 2
  }

  /** Redeem, approve, swap, in that order. */
  predicate InOrder(signed: seq<Signature>) {
    forall i, j :: 0 <= i < j < |signed| ==> Rank(signed[i].kind) < Rank(signed[j].kind)
  }

  predicate Signs(signed: seq<Signature>, kind: Kind) {
    exists i :: 0 <= i < |signed| && signed[i].kind == kind
  }

  /** The round signs a redemption: for a confirmed decision, within the reservation, the first tried, and handed to the signer. */
  predicate RedeemsNow(f: Fixed, s: Loop, w: World) {
    var d := DecisionIn(f, s, w);
    && d.Execute? && IsConfirmed(f, d)
    && (s.reserved.Some? || w.reserve) && (s.reserved.Some? ==> d.spend <= s.reserved.value)
    && d.redeem > 0 && !s.redeemDone && w.redeem != RedeemFailed(false)
  }

  /** Round `k` does not redeem after an approval. */
  predicate RedeemsInTurn(f: Fixed, env: seq<World>, k: nat) {
    Runs(f, env, k) && RedeemsNow(f, After(f, env, k).loop, env[k]) ==> !Signs(After(f, env, k).loop.signed, Approve)
  }

  /** A round signs at most one thing; a redemption exactly when it redeems now. */
  lemma OneSignatureARound(f: Fixed, s: Loop, w: World)
    ensures var signed := Round(f, s, w).loop.signed;
            if RedeemsNow(f, s, w) then |signed| == |s.signed| + 1 && signed[..|s.signed|] == s.signed && signed[|s.signed|].kind == Redeem
            else signed == s.signed
                 || (|signed| == |s.signed| + 1 && signed[..|s.signed|] == s.signed && signed[|s.signed|].kind != Redeem)
  {
    hide DecisionOf, IsConfirmed, Aged;
  }

  lemma RoundInOrder(f: Fixed, s: Loop, w: World)
    requires SignedOk(f, s) && Underway(s)
    ensures InOrder(Round(f, s, w).loop.signed) <==>
            InOrder(s.signed) && (RedeemsNow(f, s, w) ==> !Signs(s.signed, Approve))
  {
    hide Round, RedeemsNow, SignatureOk;
    OneSignatureARound(f, s, w);
    RoundKeepsSignatures(f, s, w);
    var signed, n := Round(f, s, w).loop.signed, |s.signed|;
    assert forall i :: 0 <= i < n ==> signed[i] == s.signed[i];
    forall i | 0 <= i < n && |signed| > n ensures InTurn(s.signed[i], signed[n]) && UnderwayAt(s, s.signed[i]) {
      assert InTurn(signed[i], signed[n]);
    }
  }

  /**
   After any rounds, whatever was answered: what the cycle signed is in the order redeem, approve,
   swap exactly when no round that redeemed came after one that signed an approval.
   */
  lemma {:induction false} OrderedExactlyWhen(f: Fixed, env: seq<World>, k: nat)
    requires k <= |env|
    ensures InOrder(After(f, env, k).loop.signed) <==> forall j :: 0 <= j < k ==> RedeemsInTurn(f, env, j)
  {
    hide Round, RedeemsNow, SignedOk, Underway, InOrder, Signs;
    if k == 0 {
      NothingIsInOrder();
    } else {
      OrderedExactlyWhen(f, env, k - 1);
      SignaturesStayOk(f, env, k - 1);
      if After(f, env, k - 1).Continue? {
        RoundInOrder(f, After(f, env, k - 1).loop, env[k - 1]);
      }
      assert (forall j :: 0 <= j < k ==> RedeemsInTurn(f, env, j))
             <==> (forall j :: 0 <= j < k - 1 ==> RedeemsInTurn(f, env, j)) && RedeemsInTurn(f, env, k - 1);
    }
  }

  lemma NothingIsInOrder()
    ensures InOrder([])
  {
  }

  /** The same of a whole cycle; and one whose plan is not in yield mode has nothing to redeem. */
  lemma CycleOrderedExactlyWhen(f: Fixed, env: seq<World>)
    requires |env| == MAX_ROUNDS
    ensures InOrder(Conclusion(f, env).loop.signed) <==> forall j :: 0 <= j < MAX_ROUNDS ==> RedeemsInTurn(f, env, j)
    ensures f.plan.mode != Yield ==> InOrder(Conclusion(f, env).loop.signed)
  {
    OrderedExactlyWhen(f, env, MAX_ROUNDS);
    if f.plan.mode != Yield {
      forall j | 0 <= j < MAX_ROUNDS ensures RedeemsInTurn(f, env, j) {
        hide DecisionOf;
        if Runs(f, env, j) && DecisionIn(f, After(f, env, j).loop, env[j]).Execute? {
          ExecuteWithinItsMeans(f.cal, InputOf(f, After(f, env, j).loop, env[j]));
        }
      }
    }
  }
}
