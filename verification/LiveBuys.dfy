/**
 What the rounds of a live cycle (cycle.ts) do to each of its variables, round by round and over all
 rounds: what blocks a buy, what a redemption adds, and what a refused quote leads to.
 */
module LiveBuys {
  import opened Basics
  import opened Decide
  import opened Decisions
  import opened Rounds
  import opened Session
  import Guardian

  /******* One round *******/

  /** If a person confirmed a buy: of that instrument, for no more. */
  predicate AsConfirmed(f: Fixed, d: Decision)
    requires d.Execute?
  {
    f.confirmed.None? || (d.instrument == f.confirmed.value.instrument && d.spend <= f.confirmed.value.maxSpend)
  }

  /** The round carries out a buy: as confirmed, and reserved before or now, for no more than was reserved. */
  predicate Proceeds(f: Fixed, s: Loop, w: World, d: Decision) {
    && d.Execute? && AsConfirmed(f, d)
    && (if s.reserved.Some? then d.spend <= s.reserved.value else w.reserve)
  }

  /** One thing a round: redeem if something is to be redeemed and was not, then approve, then swap. */
  predicate RedeemsIn(f: Fixed, s: Loop, w: World, d: Decision) {
    Proceeds(f, s, w, d) && d.redeem > 0 && !s.redeemDone
  }

  predicate ApprovesIn(f: Fixed, s: Loop, w: World, d: Decision) {
    Proceeds(f, s, w, d) && (d.redeem == 0 || s.redeemDone) && !s.approved
  }

  predicate SwapsIn(f: Fixed, s: Loop, w: World, d: Decision) {
    Proceeds(f, s, w, d) && (d.redeem == 0 || s.redeemDone) && s.approved
  }

  /** What a round leaves in every variable; only a redemption that was mined raises what is harvested. */
  lemma WhatARoundKeeps(f: Fixed, s: Loop, w: World)
    ensures var d, t := DecisionIn(f, s, w), Round(f, s, w).loop;
            && t.reserved == (if s.reserved.None? && Proceeds(f, s, w, d) then Some(d.spend) else s.reserved)
            && t.harvested == s.harvested + (if RedeemsIn(f, s, w, d) && w.redeem.Redeemed? then w.redeem.usdt else 0)
            && (t.redeemDone <==> s.redeemDone || RedeemsIn(f, s, w, d))
            && (t.approved <==> s.approved || (ApprovesIn(f, s, w, d) && w.approve in {AlreadyAllowed, Approved}))
  {
    hide DecisionOf, Aged;
  }

  /** The quotes after a round: one more when it asked for one and got it, the refused one marked, or the same. */
  lemma WhatARoundQuotes(f: Fixed, s: Loop, w: World)
    ensures var d, t := DecisionIn(f, s, w), Round(f, s, w).loop;
            t.quotes == if d.AskQuote? && w.quote.Some? then
                          var r := w.quote.value;
                          s.quotes + [Quote(d.instrument, d.spend, r.receivedAt, r.quoteId, r.tokens, r.impact, r.rfq, r.error, r.action)]
                        else if SwapsIn(f, s, w, d) && w.swap == Requote then Aged(s.quotes, d.instrument)
                        else s.quotes
  {
    hide DecisionOf, Aged;
  }

  /** Whether a reply left a transaction behind. */
  predicate WasSigned(f: Fixed, s: Loop, w: World, d: Decision, kind: Kind) {
    match kind
    case Redeem => RedeemsIn(f, s, w, d) && w.redeem != RedeemFailed(false)
    case Approve => ApprovesIn(f, s, w, d) && w.approve != ApproveFailed(false) && w.approve != AlreadyAllowed
    case Swap => SwapsIn(f, s, w, d) && w.swap != SwapFailed(false) && w.swap != Requote
  }

  /** What a round signs: the one transaction it sent, for its decision. */
  lemma WhatARoundSigns(f: Fixed, s: Loop, w: World)
    ensures var d, t := DecisionIn(f, s, w), Round(f, s, w).loop;
            && (forall kind :: WasSigned(f, s, w, d, kind) ==> t.reserved.Some? && t.signed == s.signed + [Signature(kind, d, t.reserved.value)])
            && ((forall kind :: !WasSigned(f, s, w, d, kind)) ==> t.signed == s.signed)
  {
    hide DecisionOf, Aged;
    var d := DecisionIn(f, s, w);
    assert !WasSigned(f, s, w, d, Redeem) && !WasSigned(f, s, w, d, Approve) && !WasSigned(f, s, w, d, Swap) ==>
             forall kind :: !WasSigned(f, s, w, d, kind);
  }

  /** How a round ends the cycle, and when it does not: a swap that was mined is a buy exactly when it delivered something. */
  lemma HowARoundEnds(f: Fixed, s: Loop, w: World, d: Decision, next: Next)
    requires d == DecisionIn(f, s, w) && next == Round(f, s, w)
    ensures forall tokens: nat ::
              (next.End? && next.ended == BoughtIt(d, tokens) <==> SwapsIn(f, s, w, d) && w.swap == SwapMined(tokens) && tokens > 0)
    ensures next.End? && next.ended == NeedsReview <==> SwapsIn(f, s, w, d) && w.swap == SwapMined(0)
    ensures next.End? && next.ended == OutOnChain
            <==> || (RedeemsIn(f, s, w, d) && w.redeem == RedeemPending)
                 || (ApprovesIn(f, s, w, d) && w.approve == ApprovePending)
                 || (SwapsIn(f, s, w, d) && w.swap == SwapPending)
    ensures next.End? && next.ended == NotReserved <==> d.Execute? && AsConfirmed(f, d) && s.reserved.None? && !w.reserve
    ensures next.End? && next.ended == FailedWith("NOT_CONFIRMED") <==> d.Execute? && !AsConfirmed(f, d)
    ensures next.End? && next.ended == FailedWith("SPEND_ABOVE_RESERVATION")
            <==> d.Execute? && AsConfirmed(f, d) && s.reserved.Some? && d.spend > s.reserved.value
    ensures next.End? && next.ended == FailedWith("REDEEM") <==> RedeemsIn(f, s, w, d) && w.redeem.RedeemFailed?
    ensures next.End? && next.ended == FailedWith("APPROVE") <==> ApprovesIn(f, s, w, d) && w.approve.ApproveFailed?
    ensures next.End? && next.ended == FailedWith("SWAP") <==> SwapsIn(f, s, w, d) && w.swap.SwapFailed?
    ensures forall outcome :: (next.End? && next.ended == Decided(outcome) <==> d == Done(outcome))
    ensures next.End? && next.ended == Threw <==> d == NotDue || d == Thrown || (d.AskQuote? && w.quote.None?)
    ensures next.Continue?
            <==> || (d.AskQuote? && w.quote.Some?)
                 || (RedeemsIn(f, s, w, d) && w.redeem.Redeemed?)
                 || (ApprovesIn(f, s, w, d) && w.approve in {AlreadyAllowed, Approved})
                 || (SwapsIn(f, s, w, d) && w.swap == Requote)
  {
    hide DecisionOf, Aged;
  }

  /******* Over all rounds *******/

  /** A cycle that a guardian rule blocks asks for nothing, reserves nothing and signs nothing, in any round. */
  lemma {:induction false} BlockedSignsNothing(f: Fixed, env: seq<World>, k: nat)
    requires f.blocked.Some? && k <= |env|
    ensures var s := After(f, env, k).loop; s.quotes == [] && s.reserved == None && s.signed == [] && s.harvested == f.harvested
    ensures k > 0 ==> After(f, env, k).End? && After(f, env, k).ended in {Threw, Decided(Skipped(ByGuardian))}
  {
    hide DecisionOf;
    if k > 0 {
      BlockedSignsNothing(f, env, k - 1);
      if k == 1 {
        HeldExactlyWhen(f.cal, InputOf(f, Begun(f), env[0]));
      }
    }
  }

  /** What the redemptions of the first `k` rounds returned. */
  function Returned(f: Fixed, env: seq<World>, k: nat): nat
    requires k <= |env|
  {
    if k == 0 then 0
    else
      var before := After(f, env, k - 1);
      Returned(f, env, k - 1)
      + if before.Continue? && RedeemsIn(f, before.loop, env[k - 1], DecisionIn(f, before.loop, env[k - 1]))
           && env[k - 1].redeem.Redeemed?
        then env[k - 1].redeem.usdt else 0
  }

  lemma {:induction false} HarvestedIsReturned(f: Fixed, env: seq<World>, k: nat)
    requires k <= |env|
    ensures After(f, env, k).loop.harvested == f.harvested + Returned(f, env, k)
  {
    hide Round, RedeemsIn;
    if k > 0 {
      HarvestedIsReturned(f, env, k - 1);
      if After(f, env, k - 1).Continue? {
        WhatARoundKeeps(f, After(f, env, k - 1).loop, env[k - 1]);
      }
    }
  }

  /**
   What a round executes: the last quote its instrument has, at most 25 seconds old by the round's clock and
   of at most 1 % impact, for what that quote asks; paid from what the position is worth above the principal
   now, from the interest harvested before the cycle and from all it redeemed so far, and from the
   contribution only beyond that. No guardian rule blocks the plan, and the day, the limits and the confirmation hold.
   */
  lemma WhatARoundBuys(f: Fixed, env: seq<World>, k: nat)
    requires Runs(f, env, k) && DecisionIn(f, After(f, env, k).loop, env[k]).Execute?
    ensures var s, w, d := After(f, env, k).loop, env[k], DecisionIn(f, After(f, env, k).loop, env[k]);
            var harvested := f.harvested + Returned(f, env, k);
            var earned := if w.underlying > f.plan.principal then w.underlying - f.plan.principal else 0;
            && f.blocked.None? && f.plan.active && f.plan.nextDueAt <= w.now
            && (f.plan.expiresAt.Some? ==> w.now < f.plan.expiresAt.value)
            && (f.plan.regularOnly ==> SessionAt(f.cal, w.now) == Regular)
            && d.quote in s.quotes && d.quote.instrument == d.instrument && d.spend == d.quote.spend
            && d.quote.impact.Some? && d.quote.impact.value <= 1.0 && w.now - d.quote.receivedAt <= 25_000
            && d.spend <= f.plan.maxPerBuy && d.spend <= f.maxPerTx && d.spend <= f.dailyRemaining
            && (f.confirmed.Some? ==> d.spend <= f.confirmed.value.maxSpend)
            && (f.plan.mode == Safe ==> d.interest == None && d.redeem == 0 && d.spend <= f.plan.contribution)
            && (f.plan.mode == Yield ==>
                  && d.interest == Some(if d.spend < earned + harvested then d.spend else earned + harvested)
                  && d.spend - d.interest.value <= f.plan.contribution
                  && d.redeem == if d.interest.value > harvested then d.interest.value - harvested else 0)
  {
    hide DecisionOf, SessionAt, Returned, After;
    var s, w := After(f, env, k).loop, env[k];
    HarvestedIsReturned(f, env, k);
    WhatABuyIs(f.cal, InputOf(f, s, w));
    var j, m := AsksOrBuysOnlyWhen(f.cal, InputOf(f, s, w));
  }

  /******* A quote that was refused *******/

  /** Round `j` reached the swap of the instrument, and its quote was refused. */
  ghost predicate RefusedIn(f: Fixed, env: seq<World>, j: nat, id: string) {
    && Runs(f, env, j) && env[j].swap == Requote
    && var s := After(f, env, j).loop;
       var d := DecisionIn(f, s, env[j]);
       SwapsIn(f, s, env[j], d) && d.instrument == id
  }

  /** Round `h` asked for a quote of the instrument, and got one. */
  ghost predicate AskedIn(f: Fixed, env: seq<World>, h: nat, id: string) {
    && Runs(f, env, h) && env[h].quote.Some?
    && var d := DecisionIn(f, After(f, env, h).loop, env[h]);
       d.AskQuote? && d.instrument == id
  }

  /** The instrument's last quote is marked as received at the epoch. */
  predicate LastIsRefused(quotes: seq<Quote>, id: string) {
    var own := LastOwn(quotes, id);
    own.Some? && quotes[own.value].receivedAt == 0
  }

  lemma LastOwnIs(quotes: seq<Quote>, id: string, k: nat)
    requires k < |quotes| && quotes[k].instrument == id && forall j :: k < j < |quotes| ==> quotes[j].instrument != id
    ensures LastOwn(quotes, id) == Some(k)
  {
  }

  lemma RefusingMarks(f: Fixed, env: seq<World>, j: nat, id: string)
    requires RefusedIn(f, env, j, id)
    ensures After(f, env, j + 1).Continue? && LastIsRefused(After(f, env, j + 1).loop.quotes, id)
  {
    hide DecisionOf, SessionAt;
    var s, w := After(f, env, j).loop, env[j];
    var d := DecisionIn(f, s, w);
    WhatABuyIs(f.cal, InputOf(f, s, w));
    var k :| 0 <= k < |s.quotes| && s.quotes[k] == d.quote && d.quote.instrument == id
             && forall j :: k < j < |s.quotes| ==> s.quotes[j].instrument != id;
    LastOwnIs(s.quotes, id, k);
    LastOwnIs(Aged(s.quotes, id), id, k);
  }

  /** Nothing but another quote of the instrument makes it fresh again. */
  lemma StaysRefused(f: Fixed, s: Loop, w: World, id: string)
    requires LastIsRefused(s.quotes, id)
    requires !(DecisionIn(f, s, w).AskQuote? && DecisionIn(f, s, w).instrument == id && w.quote.Some?)
    ensures LastIsRefused(Round(f, s, w).loop.quotes, id)
  {
    hide DecisionIn, Round, Aged;
    var d, next, k := DecisionIn(f, s, w), Round(f, s, w).loop.quotes, LastOwn(s.quotes, id).value;
    WhatARoundQuotes(f, s, w);
    if d.Execute? {
      AgedKeepsTheRest(s.quotes, d.instrument);
    }
    assert |next| >= |s.quotes| && forall n :: 0 <= n < |s.quotes| ==> next[n] in {s.quotes[n], s.quotes[n].(receivedAt := 0)};
    LastOwnIs(next, id, k);
  }

  /** A request for a new quote marks the quote that was refused as received at the epoch, and no other. */
  lemma TheRefusedQuoteIsMarked(f: Fixed, s: Loop, w: World)
    requires SwapsIn(f, s, w, DecisionIn(f, s, w)) && w.swap == Requote
    ensures var d, t := DecisionIn(f, s, w), Round(f, s, w).loop;
            exists k :: 0 <= k < |s.quotes| && s.quotes[k] == d.quote && d.quote.instrument == d.instrument
                        && (forall j :: k < j < |s.quotes| ==> s.quotes[j].instrument != d.instrument)
                        && t.quotes == s.quotes[k := d.quote.(receivedAt := 0)]
  {
    hide DecisionOf, SessionAt;
    var d := DecisionIn(f, s, w);
    WhatABuyIs(f.cal, InputOf(f, s, w));
    WhatARoundQuotes(f, s, w);
    var k :| 0 <= k < |s.quotes| && s.quotes[k] == d.quote && d.quote.instrument == d.instrument
             && forall j :: k < j < |s.quotes| ==> s.quotes[j].instrument != d.instrument;
    LastOwnIs(s.quotes, d.instrument, k);
  }

  lemma AgedKeepsTheRest(quotes: seq<Quote>, id: string)
    ensures |Aged(quotes, id)| == |quotes|
    ensures forall k :: 0 <= k < |quotes| ==> Aged(quotes, id)[k] in {quotes[k], quotes[k].(receivedAt := 0)}
  {
  }

  lemma {:induction false} RefusedUntilAsked(f: Fixed, env: seq<World>, j: nat, k: nat, id: string)
    requires RefusedIn(f, env, j, id) && j < k <= |env| && After(f, env, k).Continue?
    ensures LastIsRefused(After(f, env, k).loop.quotes, id) || exists h: nat :: j < h < k && AskedIn(f, env, h, id)
  {
    hide Round, LastIsRefused, DecisionIn, RefusedIn;
    if k == j + 1 {
      RefusingMarks(f, env, j, id);
    } else {
      RefusedUntilAsked(f, env, j, k - 1, id);
      if !AskedIn(f, env, k - 1, id) && LastIsRefused(After(f, env, k - 1).loop.quotes, id) {
        StaysRefused(f, After(f, env, k - 1).loop, env[k - 1], id);
      }
    }
  }

  /**
   A refused quote is never used again: between a round whose swap was answered with a request for
   a new quote and a later one that buys the same instrument, some round asked for a quote of it and got
   one. The clocks have to be past the twenty-five seconds after the epoch a quote may be old.
   */
  lemma RefusedMeansAskedAgain(f: Fixed, env: seq<World>, j: nat, k: nat, id: string)
    requires RefusedIn(f, env, j, id) && j < k && Runs(f, env, k) && env[k].now > 25_000
    requires var d := DecisionIn(f, After(f, env, k).loop, env[k]); d.Execute? && d.instrument == id
    ensures exists h: nat :: j < h < k && AskedIn(f, env, h, id)
  {
    hide DecisionOf, SessionAt, After, RefusedIn, AskedIn;
    RefusedUntilAsked(f, env, j, k, id);
    var s, w := After(f, env, k).loop, env[k];
    if LastIsRefused(s.quotes, id) {
      WhatABuyIs(f.cal, InputOf(f, s, w));
      var d := DecisionIn(f, s, w);
      var n :| 0 <= n < |s.quotes| && s.quotes[n] == d.quote && d.quote.instrument == id
               && forall j :: n < j < |s.quotes| ==> s.quotes[j].instrument != id;
      LastOwnIs(s.quotes, id, n);
      assert false;
    }
  }

  /** So the instrument has more quotes then. */
  lemma RefusedMeansMoreQuotes(f: Fixed, env: seq<World>, j: nat, k: nat, id: string)
    requires RefusedIn(f, env, j, id) && j < k && Runs(f, env, k) && env[k].now > 25_000
    requires var d := DecisionIn(f, After(f, env, k).loop, env[k]); d.Execute? && d.instrument == id
    ensures QuotesOf(After(f, env, k).loop.quotes, id) > QuotesOf(After(f, env, j).loop.quotes, id)
  {
    hide DecisionOf, After, RefusedIn, QuotesOf, AskedIn;
    RefusedMeansAskedAgain(f, env, j, k, id);
    var h: nat :| j < h < k && AskedIn(f, env, h, id);
    QuotesOnlyGrow(f, env, j, h, id);
    AskingAdds(f, env, h, id);
    QuotesOnlyGrow(f, env, h + 1, k, id);
  }

  /** How many quotes an instrument has. */
  function QuotesOf(quotes: seq<Quote>, id: string): nat {
    |set k | 0 <= k < |quotes| && quotes[k].instrument == id|
  }

  lemma SameQuotes(a: seq<Quote>, b: seq<Quote>, id: string)
    requires |a| == |b| && forall k :: 0 <= k < |a| ==> a[k].instrument == b[k].instrument
    ensures QuotesOf(a, id) == QuotesOf(b, id)
  {
    assert (set k | 0 <= k < |a| && a[k].instrument == id) == (set k | 0 <= k < |b| && b[k].instrument == id);
  }

  lemma OneMore(quotes: seq<Quote>, q: Quote, id: string)
    ensures QuotesOf(quotes + [q], id) == QuotesOf(quotes, id) + if q.instrument == id then 1 else 0
  {
    var more := quotes + [q];
    var was, now := set k | 0 <= k < |quotes| && quotes[k].instrument == id, set k | 0 <= k < |more| && more[k].instrument == id;
    assert now == was + if q.instrument == id then {|quotes|} else {};
  }

  lemma RoundOnlyAdds(f: Fixed, s: Loop, w: World, id: string)
    ensures QuotesOf(Round(f, s, w).loop.quotes, id) >= QuotesOf(s.quotes, id)
    ensures DecisionIn(f, s, w).AskQuote? && DecisionIn(f, s, w).instrument == id && w.quote.Some? ==>
              QuotesOf(Round(f, s, w).loop.quotes, id) == QuotesOf(s.quotes, id) + 1
  {
    hide DecisionIn, Round, Aged, QuotesOf;
    var d := DecisionIn(f, s, w);
    WhatARoundQuotes(f, s, w);
    if d.AskQuote? && w.quote.Some? {
      OneMore(s.quotes, Observed(d.instrument, d.spend, w.quote.value), id);
    } else {
      if d.Execute? {
        AgedKeepsTheRest(s.quotes, d.instrument);
      }
      SameQuotes(s.quotes, Round(f, s, w).loop.quotes, id);
    }
  }

  lemma AskingAdds(f: Fixed, env: seq<World>, h: nat, id: string)
    requires AskedIn(f, env, h, id)
    ensures QuotesOf(After(f, env, h + 1).loop.quotes, id) == QuotesOf(After(f, env, h).loop.quotes, id) + 1
  {
    hide Round, QuotesOf;
    RoundOnlyAdds(f, After(f, env, h).loop, env[h], id);
  }

  lemma {:induction false} QuotesOnlyGrow(f: Fixed, env: seq<World>, j: nat, k: nat, id: string)
    requires j <= k <= |env|
    ensures QuotesOf(After(f, env, k).loop.quotes, id) >= QuotesOf(After(f, env, j).loop.quotes, id)
    decreases k - j
  {
    hide Round, QuotesOf;
    if j < k {
      QuotesOnlyGrow(f, env, j, k - 1, id);
      if After(f, env, k - 1).Continue? {
        RoundOnlyAdds(f, After(f, env, k - 1).loop, env[k - 1], id);
      }
    }
  }

  /******* The guardian's verdict *******/

  /**
   From the rules to the buy: when the ticks saw the blocking rules' events and one of those rules
   fired when it was last evaluated, a cycle given that verdict signs and reserves nothing.
   */
  lemma FiringStopsBuying(run: seq<Guardian.Happening>, plan: string, f: Fixed, env: seq<World>)
    requires forall rule :: rule in {Guardian.ProtocolPaused, Guardian.TvlDrop, Guardian.UsdtDepeg} ==>
               Guardian.SeenWhenEvaluated(run, rule)
    requires f.blocked.Some? <==> Guardian.VerdictFor(Guardian.EventsAfter(run), plan).Some?
    requires Guardian.LastFired(run, Guardian.ProtocolPaused) || Guardian.LastFired(run, Guardian.TvlDrop)
             || Guardian.LastFired(run, Guardian.UsdtDepeg)
    requires |env| == MAX_ROUNDS
    ensures var end := Conclusion(f, env);
            && end.loop.signed == [] && end.loop.reserved == None && end.loop.quotes == []
            && end.ended in {Threw, Decided(Skipped(ByGuardian))}
  {
    hide After, Guardian.LastFired, Guardian.SeenWhenEvaluated, Guardian.EventsAfter, Guardian.VerdictFor;
    Guardian.BlockedExactlyWhenLastFired(run, plan);
    BlockedSignsNothing(f, env, MAX_ROUNDS);
  }
}
