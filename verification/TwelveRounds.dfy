/**
 Why twelve rounds are enough, and no fewer: while no quote ages out, no swap asks for a new quote
 and what was quoted stays affordable, each of the three issuers is quoted at most three times, and
 the redemption, the approval and the swap take a round each.
 */
module TwelveRounds {
  import opened Basics
  import opened Decide
  import opened Rounds
  import opened Session

  /** How many quotes an instrument got. */
  function CountOwn(quotes: seq<Quote>, id: string): nat {
    if |quotes| == 0 then 0
    else CountOwn(quotes[..|quotes| - 1], id) + if quotes[|quotes| - 1].instrument == id then 1 else 0
  }

  /** An instrument's latest quote, if it is still in the running, is fresh and affordable; and no swap asks for a new one. */
  ghost predicate IsCalm(f: Fixed, s: Loop, w: World) {
    && w.swap != Requote
    && forall id :: LastIsGood(f, s, w, id)
  }

  predicate LastIsGood(f: Fixed, s: Loop, w: World, id: string) {
    var own := LastOwn(s.quotes, id);
    var input := InputOf(f, s, w);
    own.Some? && !IsExcluded(s.quotes, id) && s.quotes[own.value].error.None? && HasPosition(input) ==>
      && w.now - s.quotes[own.value].receivedAt <= MAX_QUOTE_AGE_MS
      && s.quotes[own.value].spend <= PlannedSpend(input, IsOffHours(f.cal, input))
  }

  /** The run meets no stale or unaffordable quote, in any round it reaches. */
  ghost predicate CalmRun(f: Fixed, env: seq<World>) {
    forall k :: CalmAt(f, env, k)
  }

  ghost predicate CalmAt(f: Fixed, env: seq<World>, k: int) {
    0 <= k < |env| && After(f, env, k).Continue? ==> IsCalm(f, After(f, env, k).loop, env[k])
  }

  /******* Three quotes each *******/

  /** At most three quotes, all but the last of them with too high an impact. */
  predicate OwnOk(quotes: seq<Quote>, id: string) {
    && CountOwn(quotes, id) <= 3
    && var own := LastOwn(quotes, id);
    if own.None? then CountOwn(quotes, id) == 0 == Halvings(quotes, id)
    else if IsHigh(quotes[own.value]) then CountOwn(quotes, id) == Halvings(quotes, id)
    else CountOwn(quotes, id) == Halvings(quotes, id) + 1
  }

  ghost predicate CountsOk(quotes: seq<Quote>) {
    forall id :: OwnOk(quotes, id)
  }

  lemma OneMoreQuote(quotes: seq<Quote>, q: Quote, id: string)
    ensures CountOwn(quotes + [q], id) == CountOwn(quotes, id) + (if q.instrument == id then 1 else 0)
    ensures Halvings(quotes + [q], id) == Halvings(quotes, id) + (if q.instrument == id && IsHigh(q) then 1 else 0)
    ensures LastOwn(quotes + [q], id) == if q.instrument == id then Some(|quotes|) else LastOwn(quotes, id)
  {
  }

  /** A second or third quote is asked for only because of its impact: after a full one, half, then half of that. */
  lemma AskedAgainOnlyForImpact(f: Fixed, s: Loop, w: World)
    requires IsCalm(f, s, w) && CountsOk(s.quotes) && DecisionIn(f, s, w).AskQuote?
    ensures var id := DecisionIn(f, s, w).instrument;
            || LastOwn(s.quotes, id).None?
            || (IsHigh(s.quotes[LastOwn(s.quotes, id).value]) && CountOwn(s.quotes, id) <= 2
                && DecisionIn(f, s, w).spend == s.quotes[LastOwn(s.quotes, id).value].spend / 2)
  {
    hide DecisionOf, IsOffHours, CountOwn, Halvings;
    var market := AsksOfABuyable(f.cal, InputOf(f, s, w));
    assert LastIsGood(f, s, w, market.id) && OwnOk(s.quotes, market.id);
  }

  lemma AskKeepsCounts(f: Fixed, s: Loop, w: World, q: Quote)
    requires IsCalm(f, s, w) && CountsOk(s.quotes) && DecisionIn(f, s, w).AskQuote?
    requires q.instrument == DecisionIn(f, s, w).instrument
    ensures CountsOk(s.quotes + [q])
  {
    hide DecisionIn, IsCalm;
    AskedAgainOnlyForImpact(f, s, w);
    forall id ensures OwnOk(s.quotes + [q], id) {
      assert OwnOk(s.quotes, id);
      OneMoreQuote(s.quotes, q, id);
    }
  }

  /******* Three issuers *******/

  predicate IsIdOf(f: Fixed, issuer: Issuer, id: string) {
    MarketOf(f.markets, f.plan.ticker, issuer).Some? && MarketOf(f.markets, f.plan.ticker, issuer).value.id == id
  }

  predicate FromAnIssuer(f: Fixed, id: string) {
    IsIdOf(f, Bstocks, id) || IsIdOf(f, Ondo, id) || IsIdOf(f, Xstocks, id)
  }

  predicate FromIssuers(f: Fixed, quotes: seq<Quote>) {
    forall k :: 0 <= k < |quotes| ==> FromAnIssuer(f, quotes[k].instrument)
  }

  function CountOfIssuer(f: Fixed, quotes: seq<Quote>, issuer: Issuer): nat {
    var m := MarketOf(f.markets, f.plan.ticker, issuer);
    if m.Some? then CountOwn(quotes, m.value.id) else 0
  }

  lemma {:induction false} EveryQuoteIsCounted(f: Fixed, quotes: seq<Quote>)
    requires FromIssuers(f, quotes)
    ensures |quotes| <= CountOfIssuer(f, quotes, Bstocks) + CountOfIssuer(f, quotes, Ondo) + CountOfIssuer(f, quotes, Xstocks)
  {
    if |quotes| > 0 {
      EveryQuoteIsCounted(f, quotes[..|quotes| - 1]);
      assert FromAnIssuer(f, quotes[|quotes| - 1].instrument);
    }
  }

  lemma NineQuotesAtMost(f: Fixed, quotes: seq<Quote>)
    requires FromIssuers(f, quotes) && CountsOk(quotes)
    ensures |quotes| <= 9
  {
    hide CountOwn, Halvings;
    EveryQuoteIsCounted(f, quotes);
    forall issuer: Issuer ensures CountOfIssuer(f, quotes, issuer) <= 3 {
      var m := MarketOf(f.markets, f.plan.ticker, issuer);
      if m.Some? {
        assert OwnOk(quotes, m.value.id);
      }
    }
  }

  lemma AskedOfAnIssuer(f: Fixed, s: Loop, w: World)
    requires DecisionIn(f, s, w).AskQuote?
    ensures FromAnIssuer(f, DecisionIn(f, s, w).instrument)
  {
    hide DecisionOf, IsOffHours, OnQuote;
    var market := AsksOfABuyable(f.cal, InputOf(f, s, w));
    match market.issuer {
      case Bstocks => assert IsIdOf(f, Bstocks, market.id);
      case Ondo => assert IsIdOf(f, Ondo, market.id);
      case Xstocks => assert IsIdOf(f, Xstocks, market.id);
    }
  }

  /******* Twelve rounds *******/

  /** What the rounds so far were spent on. */
  function Spent(s: Loop): nat {
    |s.quotes| + (if s.redeemDone then 1 else 0) + (if s.approved then 1 else 0)
  }

  ghost predicate CountedSoFar(f: Fixed, s: Loop, rounds: nat) {
    Spent(s) == rounds && CountsOk(s.quotes) && FromIssuers(f, s.quotes)
  }

  /** A round that goes on asked for a quote, redeemed or approved. */
  lemma RoundIsCounted(f: Fixed, s: Loop, w: World, rounds: nat)
    requires CountedSoFar(f, s, rounds) && IsCalm(f, s, w) && Round(f, s, w).Continue?
    ensures CountedSoFar(f, Round(f, s, w).loop, rounds + 1)
  {
    hide DecisionOf, CountOwn, Halvings, FromAnIssuer;
    if DecisionIn(f, s, w).AskQuote? {
      AskedOfAnIssuer(f, s, w);
      AskKeepsCounts(f, s, w, Observed(DecisionIn(f, s, w).instrument, DecisionIn(f, s, w).spend, w.quote.value));
    }
  }

  lemma NothingAskedYet(f: Fixed)
    ensures CountedSoFar(f, Begun(f), 0)
  {
  }

  lemma {:induction false} RoundsAreCounted(f: Fixed, env: seq<World>, k: nat)
    requires k <= |env| && CalmRun(f, env) && After(f, env, k).Continue?
    ensures CountedSoFar(f, After(f, env, k).loop, k)
  {
    hide Round, IsCalm, CountedSoFar;
    if k == 0 {
      NothingAskedYet(f);
    } else {
      RoundsAreCounted(f, env, k - 1);
      assert CalmAt(f, env, k - 1);
      RoundIsCounted(f, After(f, env, k - 1).loop, env[k - 1], k - 1);
    }
  }

  /** In a calm run no instrument is quoted more than three times. */
  lemma ThreeQuotesEach(f: Fixed, env: seq<World>, k: nat, id: string)
    requires k <= |env| && CalmRun(f, env) && After(f, env, k).Continue?
    ensures CountOwn(After(f, env, k).loop.quotes, id) <= 3
  {
    RoundsAreCounted(f, env, k);
    assert OwnOk(After(f, env, k).loop.quotes, id);
  }

  /** A calm run always comes to a decision: whatever the venue answers, `MAX_ROUNDS` rounds are enough. */
  lemma TwelveRoundsAreEnough(f: Fixed, env: seq<World>)
    requires |env| == MAX_ROUNDS && CalmRun(f, env)
    ensures Conclusion(f, env).ended != TooManyRounds
  {
    hide Round, CountsOk, FromIssuers;
    if After(f, env, MAX_ROUNDS).Continue? {
      RoundsAreCounted(f, env, MAX_ROUNDS);
      NineQuotesAtMost(f, After(f, env, MAX_ROUNDS).loop.quotes);
    } else {
      NoRoundGivesUp(f, env, MAX_ROUNDS);
    }
  }

  lemma {:induction false} NoRoundGivesUp(f: Fixed, env: seq<World>, k: nat)
    requires k <= |env|
    ensures After(f, env, k).End? ==> After(f, env, k).ended != TooManyRounds
  {
    hide DecisionOf;
    if k > 0 {
      NoRoundGivesUp(f, env, k - 1);
    }
  }
}
