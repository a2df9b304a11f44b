/**
 One step of a plan's cycle (decide.ts): given everything read so far, an outcome, a quote to ask
 for, or the buy to execute. Amounts are base units; prices and impacts are exact rationals, and one
 that is no finite number is missing.
 */
module Decide {
  import opened Amounts
  import opened Basics
  import opened NewYork
  import opened Session

  const MAX_QUOTE_AGE_MS: int := 25_000
  const MAX_PRICE_IMPACT_PCT: real := 1.0
  const MAX_REQUOTES: nat := 2
  const MAX_PRICE_GAP_PCT: real := 2.0
  const RETRY_LATER_MS: int := 30 * 60_000

  datatype Issuer = Bstocks | Ondo | Xstocks

  datatype Mode = Safe | Yield

  datatype Plan = Plan(active: bool, expiresAt: Option<int>, nextDueAt: int, ticker: string, issuerPreference: seq<Issuer>,
                       regularOnly: bool, mode: Mode, principal: nat, contribution: nat, maxPerBuy: nat)

  datatype Status = Status(openState: bool, reasonCode: Option<string>, nextOpenTime: Option<int>)

  datatype Market = Market(id: string, ticker: string, issuer: Issuer, status: Status,
                           onchain: Option<real>, independent: Option<real>, venueMin: Option<nat>)

  datatype ErrorAction = NextIssuer | ClosedMarket

  /** A quote as it was observed; `error` is the code of a failed one. */
  datatype Quote = Quote(instrument: string, spend: nat, receivedAt: int, quoteId: Option<string>, tokens: Option<nat>,
                         impact: Option<real>, rfq: bool, error: Option<string>, action: Option<ErrorAction>)

  datatype Position = Position(underlying: nat, harvested: nat)

  datatype Input = Input(now: int, plan: Plan, minBuy: nat, maxPerTx: nat, dailyRemaining: nat, markets: seq<Market>,
                         position: Option<Position>, blocked: Option<string>, quotes: seq<Quote>)

  datatype Skip = ByGuardian | BelowMin | DailyCap | CorporateAction | NoInstrument

  datatype Delay = MarketClosed | DataUnavailable | PriceGap | QuoteImpact

  datatype Outcome = Skipped(skip: Skip) | Deferred(delay: Delay, retryAt: int) | Failed(code: string)

  /** `Thrown` stands for the errors the step throws. */
  datatype Decision =
    | NotDue
    | Done(outcome: Outcome)
    | AskQuote(instrument: string, spend: nat)
    | Execute(instrument: string, spend: nat, quote: Quote, redeem: nat, interest: Option<nat>, offHours: bool)
    | Thrown

  /******* Codes *******/

  predicate IsCorporateAction(code: string) {
    code == "ASSET_PAUSED" || code == "ASSET_LIMITED"
  }

  predicate IsSessionClosed(code: string) {
    code == "MARKET_CLOSED" || code == "MARKET_PAUSED" || code == "MARKET_MAINTENANCE"
  }

  predicate IsOffHoursQuote(code: string) {
    code == "40369" || code == "40367"
  }

  /** Why a quote takes its instrument out of the running until the cycle ends; none if it does not. */
  function ExclusionOf(q: Quote): Option<string> {
    if q.error == Some("40374") then Some("no_liquidity")
    else if q.error == Some("40375") then Some("venue_minimum")
    else if q.error.Some? && q.action == Some(NextIssuer) then q.error
    else if (q.error.None? || q.error == Some("")) && q.rfq then Some("rfq_not_enabled")
    else None
  }

  /** An empty reason is no reason. */
  predicate RulesOut(q: Quote) {
    ExclusionOf(q).Some? && ExclusionOf(q) != Some("")
  }

  predicate IsExcluded(quotes: seq<Quote>, id: string) {
    exists k :: 0 <= k < |quotes| && quotes[k].instrument == id && RulesOut(quotes[k])
  }

  predicate IsHigh(q: Quote) {
    q.impact.Some? && q.impact.value > MAX_PRICE_IMPACT_PCT
  }

  /******* The budget *******/

  function PerBuyLimit(input: Input): nat {
    Min(input.plan.maxPerBuy, input.maxPerTx)
  }

  function MaxPerBuy(input: Input, offHours: bool): nat {
    if offHours then PerBuyLimit(input) / 2 else PerBuyLimit(input)
  }

  predicate HasPosition(input: Input) {
    input.plan.mode.Yield? ==> input.position.Some? && input.plan.principal > 0
  }

  function InterestInPosition(input: Input): nat
    requires HasPosition(input)
  {
    if input.plan.mode.Yield? then InterestUnits(input.position.value.underlying, input.plan.principal, 0) else 0
  }

  function HarvestedUnspent(input: Input): nat
    requires HasPosition(input)
  {
    if input.plan.mode.Yield? then input.position.value.harvested else 0
  }

  function InterestAvailable(input: Input): nat
    requires HasPosition(input)
  {
    InterestInPosition(input) + HarvestedUnspent(input)
  }

  function Budget(input: Input): nat
    requires HasPosition(input)
  {
    InterestAvailable(input) + input.plan.contribution
  }

  function PlannedSpend(input: Input, offHours: bool): nat
    requires HasPosition(input)
  {
    Min(Min(Budget(input), MaxPerBuy(input, offHours)), input.dailyRemaining)
  }

  /******* The asset *******/

  function MarketOf(markets: seq<Market>, ticker: string, issuer: Issuer): Option<Market> {
    if |markets| == 0 then None
    else if markets[0].ticker == ticker && markets[0].issuer == issuer then Some(markets[0])
    else MarketOf(markets[1..], ticker, issuer)
  }

  /** The markets of the plan's ticker in issuer preference order. */
  function Candidates(input: Input, preference: seq<Issuer>): seq<Market> {
    if |preference| == 0 then []
    else
      var first := MarketOf(input.markets, input.plan.ticker, preference[0]);
      (if first.Some? then [first.value] else []) + Candidates(input, preference[1..])
  }

  datatype Closed = Closed(code: string, nextOpenTime: Option<int>)

  /** What the scan of the candidates found so far. */
  datatype Scan =
    | Chosen(market: Market)
    | Corporate
    | Scanning(closed: Option<Closed>, statusUnavailable: bool, venueMinimum: Option<nat>)

  function Look(scan: Scan, market: Market, quotes: seq<Quote>, planned: nat): Scan
    requires scan.Scanning?
  {
    var code := if market.status.reasonCode.Some? then market.status.reasonCode.value else "UNKNOWN";
    if IsExcluded(quotes, market.id) then scan
    else if market.status.reasonCode == Some("UNAVAILABLE") then scan.(statusUnavailable := true)
    else if !market.status.openState || market.status.reasonCode != Some("TRADING") then
      if IsCorporateAction(code) then Corporate
      else if IsSessionClosed(code) && scan.closed.None? then scan.(closed := Some(Closed(code, market.status.nextOpenTime)))
      else scan
    else if market.venueMin.Some? && planned < market.venueMin.value then
      scan.(venueMinimum := Some(if scan.venueMinimum.None? then market.venueMin.value
                                 else Min(scan.venueMinimum.value, market.venueMin.value)))
    else Chosen(market)
  }

  const NOTHING_SEEN := Scanning(None, false, None)

  /** The scan of the first candidates; it stops at one that is chosen or under a corporate action. */
  function Scanned(candidates: seq<Market>, quotes: seq<Quote>, planned: nat): Scan {
    if |candidates| == 0 then NOTHING_SEEN
    else
      var before := Scanned(candidates[..|candidates| - 1], quotes, planned);
      if before.Scanning? then Look(before, candidates[|candidates| - 1], quotes, planned) else before
  }

  /******* Outcomes *******/

  function Closing(retryAt: int): Decision {
    Done(Deferred(MarketClosed, retryAt))
  }

  /** Two minutes after the next regular open; an error when there is none within reach. */
  function AfterTheOpen(cal: Calendar, now: int): Decision {
    var open := NextOpen(cal, now, NewYorkParts(now).date, SEARCH_DAYS);
    if open.None? then Thrown else Closing(open.value + OPEN_SETTLE_MS)
  }

  /** No candidate can be bought: why, the most hopeful reason first. */
  function NoneChosen(cal: Calendar, input: Input, offHours: bool, scan: Scan): Decision
    requires scan.Scanning? && HasPosition(input)
  {
    if scan.closed.Some? then
      var next := scan.closed.value.nextOpenTime;
      Closing(if next.Some? && next.value > input.now then next.value + OPEN_SETTLE_MS else input.now + RETRY_LATER_MS)
    else if scan.statusUnavailable then Done(Deferred(DataUnavailable, input.now + RETRY_LATER_MS))
    else if scan.venueMinimum.Some? then
      var venueMin := scan.venueMinimum.value;
      if CapOf(input, MaxPerBuy(input, offHours)) < venueMin then
        if CapOf(input, PerBuyLimit(input)) >= venueMin then AfterTheOpen(cal, input.now)
        else Done(Skipped(BelowMin))
      else if Budget(input) < venueMin then Done(Skipped(BelowMin))
      else Done(Skipped(DailyCap))
    else Done(Skipped(NoInstrument))
  }

  /** The limit of one buy; the contribution also bounds a safe plan's. */
  function CapOf(input: Input, limit: nat): nat {
    if input.plan.mode.Safe? then Min(limit, input.plan.contribution) else limit
  }

  predicate IsPremium(m: Market) {
    && m.onchain.Some? && m.onchain.value > 0.0 && m.independent.Some? && m.independent.value > 0.0
    && (m.onchain.value / m.independent.value - 1.0) * 100.0 > MAX_PRICE_GAP_PCT
  }

  /******* The quote *******/

  function LastOwn(quotes: seq<Quote>, id: string): (k: Option<nat>)
    ensures k.Some? ==> k.value < |quotes| && quotes[k.value].instrument == id
    ensures k.Some? ==> forall j :: k.value < j < |quotes| ==> quotes[j].instrument != id
    ensures k.None? ==> forall j :: 0 <= j < |quotes| ==> quotes[j].instrument != id
  {
    if |quotes| == 0 then None
    else if quotes[|quotes| - 1].instrument == id then Some(|quotes| - 1)
    else LastOwn(quotes[..|quotes| - 1], id)
  }

  /** How many quotes of the instrument had too high an impact. */
  function Halvings(quotes: seq<Quote>, id: string): nat {
    if |quotes| == 0 then 0
    else
      var last := quotes[|quotes| - 1];
      Halvings(quotes[..|quotes| - 1], id) + if last.instrument == id && IsHigh(last) then 1 else 0
  }

  function OnQuote(cal: Calendar, input: Input, offHours: bool, chosen: Market): Decision
    requires HasPosition(input)
  {
    var planned := PlannedSpend(input, offHours);
    var own := LastOwn(input.quotes, chosen.id);
    if own.None? then AskQuote(chosen.id, planned)
    else
      var last := input.quotes[own.value];
      if last.error.Some? then
        if IsOffHoursQuote(last.error.value) || last.action == Some(ClosedMarket) then
          if offHours then AfterTheOpen(cal, input.now) else Closing(input.now + RETRY_LATER_MS)
        else Done(Failed(last.error.value))
      else if last.quoteId.None? || last.tokens.None? then Done(Failed("QUOTE_INCOMPLETE"))
      else if last.spend > planned then AskQuote(chosen.id, planned)
      else if last.impact.None? then Done(Deferred(DataUnavailable, input.now + RETRY_LATER_MS))
      else if IsHigh(last) then
        var half := last.spend / 2;
        var venueMin := if chosen.venueMin.Some? then chosen.venueMin.value else 0;
        if Halvings(input.quotes, chosen.id) <= MAX_REQUOTES && half >= input.minBuy && half >= venueMin then
          AskQuote(chosen.id, half)
        else Done(Deferred(QuoteImpact, input.now + RETRY_LATER_MS))
      else if input.now - last.receivedAt > MAX_QUOTE_AGE_MS then AskQuote(chosen.id, last.spend)
      else
        var used := Min(last.spend, InterestAvailable(input));
        if input.plan.mode.Safe? then Execute(chosen.id, last.spend, last, 0, None, offHours)
        else Execute(chosen.id, last.spend, last, AtLeastZero(used - HarvestedUnspent(input)), Some(used), offHours)
  }

  /******* The step *******/

  predicate IsDue(input: Input) {
    && input.plan.active
    && (input.plan.expiresAt.Some? ==> input.plan.expiresAt.value > input.now)
    && input.plan.nextDueAt <= input.now
  }

  function IsOffHours(cal: Calendar, input: Input): bool {
    SessionAt(cal, input.now) != Regular
  }

  function FromBudget(cal: Calendar, input: Input): Decision {
    var offHours := IsOffHours(cal, input);
    if PerBuyLimit(input) < input.minBuy then Thrown
    else if MaxPerBuy(input, offHours) < input.minBuy then AfterTheOpen(cal, input.now)
    else if !HasPosition(input) then Thrown
    else if Budget(input) < input.minBuy then Done(Skipped(BelowMin))
    else if input.dailyRemaining < input.minBuy then Done(Skipped(DailyCap))
    else
      var scan := Scanned(Candidates(input, input.plan.issuerPreference), input.quotes, PlannedSpend(input, offHours));
      if scan.Corporate? then Done(Skipped(CorporateAction))
      else if scan.Scanning? then NoneChosen(cal, input, offHours, scan)
      else if !offHours && IsPremium(scan.market) then Done(Deferred(PriceGap, input.now + RETRY_LATER_MS))
      else OnQuote(cal, input, offHours, scan.market)
  }

  function DecisionOf(cal: Calendar, input: Input): Decision {
    if !IsDue(input) then NotDue
    else if input.blocked.Some? then Done(Skipped(ByGuardian))
    else if input.plan.regularOnly && IsOffHours(cal, input) then AfterTheOpen(cal, input.now)
    else FromBudget(cal, input)
  }

  /** The first market that can be bought, with the scan's own loop. */
  method ScanCandidates(candidates: seq<Market>, quotes: seq<Quote>, planned: nat) returns (scan: Scan)
    ensures scan == Scanned(candidates, quotes, planned)
  {
    hide Look, NOTHING_SEEN;
    var excluded: map<string, string> := map[];
    for k := 0 to |quotes|
      invariant forall id :: id in excluded <==> IsExcluded(quotes[..k], id)
    {
      var reason := ExclusionOf(quotes[k]);
      OneMoreExcluded(quotes, k);
      if reason.Some? && reason != Some("") {
        excluded := excluded[quotes[k].instrument := reason.value];
      }
    }
    assert quotes[..|quotes|] == quotes;
    var k := 0;
    scan := NOTHING_SEEN;
    while k < |candidates| && scan.Scanning?
      invariant k <= |candidates| && scan == Scanned(candidates[..k], quotes, planned)
    {
      assert candidates[..k + 1][..k] == candidates[..k];
      scan := Looked(scan, candidates[k], candidates[k].id in excluded, quotes, planned);
      k := k + 1;
    }
    ScanStops(candidates, k, quotes, planned);
  }

  /** One market, given whether a quote ruled it out. */
  function Looked(scan: Scan, market: Market, excluded: bool, quotes: seq<Quote>, planned: nat): (next: Scan)
    requires scan.Scanning? && excluded == IsExcluded(quotes, market.id)
    ensures next == Look(scan, market, quotes, planned)
  {
    if excluded then scan else Look(scan, market, quotes, planned)
  }

  lemma OneMoreExcluded(quotes: seq<Quote>, k: nat)
    requires k < |quotes|
    ensures forall id :: IsExcluded(quotes[..k + 1], id) <==>
              IsExcluded(quotes[..k], id) || (quotes[k].instrument == id && RulesOut(quotes[k]))
  {
    var longer, shorter := quotes[..k + 1], quotes[..k];
    forall id ensures IsExcluded(longer, id) <==> IsExcluded(shorter, id) || (quotes[k].instrument == id && RulesOut(quotes[k])) {
      assert longer[k] == quotes[k] && forall j :: 0 <= j < k ==> longer[j] == shorter[j];
    }
  }

  lemma {:induction false} ScanStops(candidates: seq<Market>, k: nat, quotes: seq<Quote>, planned: nat)
    requires k <= |candidates| && (k == |candidates| || !Scanned(candidates[..k], quotes, planned).Scanning?)
    ensures Scanned(candidates[..k], quotes, planned) == Scanned(candidates, quotes, planned)
  {
    if k == |candidates| {
      assert candidates[..k] == candidates;
    } else {
      var shorter := candidates[..|candidates| - 1];
      assert shorter[..k] == candidates[..k];
      ScanStops(shorter, k, quotes, planned);
    }
  }

  /** The step itself; `Decisions` gives the exact condition of every answer. */
  method DecideCycle(cal: Calendar, input: Input) returns (d: Decision)
    ensures d == DecisionOf(cal, input)
    ensures input.blocked.Some? ==> d == NotDue || d == Done(Skipped(ByGuardian))
    ensures d.AskQuote? || d.Execute? ==>
              && input.plan.active && input.plan.nextDueAt <= input.now
              && (input.plan.expiresAt.Some? ==> input.now < input.plan.expiresAt.value)
              && (input.plan.regularOnly ==> SessionAt(cal, input.now) == Regular)
              && input.minBuy <= input.plan.maxPerBuy && input.minBuy <= input.maxPerTx && input.minBuy <= input.dailyRemaining
  {
    if !IsDue(input) {
      return NotDue;
    }
    if input.blocked.Some? {
      return Done(Skipped(ByGuardian));
    }
    var regular := SessionAt(cal, input.now) == Regular;
    if input.plan.regularOnly && !regular {
      return AfterTheOpen(cal, input.now);
    }
    var perBuyLimit := PerBuyLimit(input);
    if perBuyLimit < input.minBuy {
      return Thrown;
    }
    var maxPerBuy := MaxPerBuy(input, !regular);
    if maxPerBuy < input.minBuy {
      return AfterTheOpen(cal, input.now);
    }
    if !HasPosition(input) {
      return Thrown;
    }
    var budget := Budget(input);
    if budget < input.minBuy {
      return Done(Skipped(BelowMin));
    }
    if input.dailyRemaining < input.minBuy {
      return Done(Skipped(DailyCap));
    }
    var planned := Min(Min(budget, maxPerBuy), input.dailyRemaining);
    var scan := ScanCandidates(Candidates(input, input.plan.issuerPreference), input.quotes, planned);
    match scan {
      case Corporate => d := Done(Skipped(CorporateAction));
      case Scanning(_, _, _) => d := NoneChosen(cal, input, !regular, scan);
      case Chosen(market) =>
        if regular && IsPremium(market) {
          d := Done(Deferred(PriceGap, input.now + RETRY_LATER_MS));
        } else {
          d := OnQuote(cal, input, !regular, market);
        }
    }
  }

  /******* What a decision promises *******/

  /** A retry of this decision lies strictly after now. */
  predicate LiesAhead(d: Decision, now: int) {
    d.Done? && d.outcome.Deferred? ==> d.outcome.retryAt > now
  }

  lemma OpensAhead(cal: Calendar, now: int)
    ensures LiesAhead(AfterTheOpen(cal, now), now)
  {
    hide NewYorkParts, SessionAt;
    NextOpenIsLeast(cal, now, SEARCH_DAYS);
  }

  lemma NoneChosenLiesAhead(cal: Calendar, input: Input, offHours: bool, scan: Scan)
    requires scan.Scanning? && HasPosition(input)
    ensures LiesAhead(NoneChosen(cal, input, offHours, scan), input.now)
  {
    hide AfterTheOpen;
    OpensAhead(cal, input.now);
  }

  lemma OnQuoteLiesAhead(cal: Calendar, input: Input, offHours: bool, chosen: Market)
    requires HasPosition(input)
    ensures LiesAhead(OnQuote(cal, input, offHours, chosen), input.now)
  {
    hide AfterTheOpen;
    OpensAhead(cal, input.now);
  }

  /** Every retry lies strictly after now, so a deferred cycle always moves its plan on. */
  lemma RetriesLieAhead(cal: Calendar, input: Input)
    ensures LiesAhead(DecisionOf(cal, input), input.now)
  {
    hide AfterTheOpen, NoneChosen, OnQuote, SessionAt, Scanned, Candidates;
    OpensAhead(cal, input.now);
    var offHours := IsOffHours(cal, input);
    if HasPosition(input) {
      var scan := Scanned(Candidates(input, input.plan.issuerPreference), input.quotes, PlannedSpend(input, offHours));
      match scan {
        case Scanning(_, _, _) => NoneChosenLiesAhead(cal, input, offHours, scan);
        case Chosen(market) => OnQuoteLiesAhead(cal, input, offHours, market);
        case Corporate =>
      }
    }
  }

  /** Whatever a due cycle decided, the plan's next due time lies strictly past the one it ran for. */
  lemma DecidedPlansMoveOn(cal: Calendar, cadence: Cadence, input: Input)
    requires DecisionOf(cal, input).Done?
    ensures var o := DecisionOf(cal, input).outcome;
            var next := NextDueAt(cal, cadence, input.now, if o.Deferred? then Some(o.retryAt) else None);
            next.Due? ==> next.at > input.plan.nextDueAt
  {
    hide NextDueAt, FromBudget, AfterTheOpen;
    RetriesLieAhead(cal, input);
    var o := DecisionOf(cal, input).outcome;
    var retryAt := if o.Deferred? then Some(o.retryAt) else None;
    if NextDueAt(cal, cadence, input.now, retryAt).Due? {
      PlansMoveOn(cal, cadence, input.plan.nextDueAt, input.now, retryAt);
    }
  }

  lemma {:induction false} CandidateIsAMarket(input: Input, preference: seq<Issuer>, k: nat)
    requires k < |Candidates(input, preference)|
    ensures var m := Candidates(input, preference)[k]; MarketOf(input.markets, input.plan.ticker, m.issuer) == Some(m)
    ensures Candidates(input, preference)[k] in input.markets
  {
    var first := MarketOf(input.markets, input.plan.ticker, preference[0]);
    FoundIsThere(input.markets, input.plan.ticker, preference[0]);
    if first.None? {
      CandidateIsAMarket(input, preference[1..], k);
    } else if k > 0 {
      CandidateIsAMarket(input, preference[1..], k - 1);
    }
  }

  lemma {:induction false} FoundIsThere(markets: seq<Market>, ticker: string, issuer: Issuer)
    ensures var m := MarketOf(markets, ticker, issuer); m.Some? ==> m.value in markets && m.value.issuer == issuer
  {
    if |markets| > 0 {
      FoundIsThere(markets[1..], ticker, issuer);
    }
  }

  /** The chosen market: in the registry, not excluded, trading, and its venue takes the planned spend. */
  predicate IsBuyable(input: Input, market: Market, planned: nat) {
    && market in input.markets && MarketOf(input.markets, input.plan.ticker, market.issuer) == Some(market)
    && !IsExcluded(input.quotes, market.id)
    && market.status.openState && market.status.reasonCode == Some("TRADING")
    && (market.venueMin.Some? ==> market.venueMin.value <= planned)
  }

  lemma {:induction false} ChosenIsBuyable(input: Input, candidates: seq<Market>, planned: nat)
    requires forall k :: 0 <= k < |candidates| ==>
               candidates[k] in input.markets
               && MarketOf(input.markets, input.plan.ticker, candidates[k].issuer) == Some(candidates[k])
    ensures var scan := Scanned(candidates, input.quotes, planned);
            scan.Chosen? ==> IsBuyable(input, scan.market, planned)
  {
    if |candidates| > 0 {
      ChosenIsBuyable(input, candidates[..|candidates| - 1], planned);
    }
  }

  /** The market a step asks a quote of, or buys. */
  lemma AsksOfABuyable(cal: Calendar, input: Input) returns (market: Market)
    requires DecisionOf(cal, input).AskQuote? || DecisionOf(cal, input).Execute?
    ensures HasPosition(input) && IsBuyable(input, market, PlannedSpend(input, IsOffHours(cal, input)))
    ensures DecisionOf(cal, input).instrument == market.id
    ensures DecisionOf(cal, input) == OnQuote(cal, input, IsOffHours(cal, input), market)
    ensures input.minBuy <= PlannedSpend(input, IsOffHours(cal, input))
  {
    hide SessionAt;
    var planned := PlannedSpend(input, IsOffHours(cal, input));
    var candidates := Candidates(input, input.plan.issuerPreference);
    forall k | 0 <= k < |candidates|
      ensures candidates[k] in input.markets
              && MarketOf(input.markets, input.plan.ticker, candidates[k].issuer) == Some(candidates[k])
    {
      CandidateIsAMarket(input, input.plan.issuerPreference, k);
    }
    ChosenIsBuyable(input, candidates, planned);
    market := Scanned(candidates, input.quotes, planned).market;
  }

  /**
   What an execute may spend and redeem: at most the per-buy limit (half of it off-hours), what is
   left of the day, and interest plus contribution; the part interest does not pay is at most the
   contribution, and what is redeemed is at most what the position holds above its principal.
   */
  lemma ExecuteWithinItsMeans(cal: Calendar, input: Input)
    requires DecisionOf(cal, input).Execute?
    ensures var d := DecisionOf(cal, input);
            && HasPosition(input)
            && d.spend <= PlannedSpend(input, IsOffHours(cal, input))
            && d.spend <= MaxPerBuy(input, IsOffHours(cal, input)) && d.spend <= input.dailyRemaining
            && d.spend <= InterestAvailable(input) + input.plan.contribution
            && (d.interest.Some? <==> input.plan.mode.Yield?)
            && (d.interest.None? ==> d.redeem == 0 && d.spend <= input.plan.contribution)
            && (d.interest.Some? ==>
                  && d.interest.value <= d.spend && d.spend - d.interest.value <= input.plan.contribution
                  && d.interest.value <= input.position.value.harvested + d.redeem
                  && (d.redeem > 0 ==> input.plan.principal + d.redeem <= input.position.value.underlying))
  {
    hide SessionAt, NewYorkParts;
    var market := AsksOfABuyable(cal, input);
  }

  /** The buy executes the instrument's last quote: complete, read, of low impact and not too old. */
  lemma ExecuteHasAFreshQuote(cal: Calendar, input: Input)
    requires DecisionOf(cal, input).Execute?
    ensures var d := DecisionOf(cal, input);
            && d.quote in input.quotes && d.quote.instrument == d.instrument && d.quote.spend == d.spend
            && d.quote.error.None? && d.quote.quoteId.Some? && d.quote.tokens.Some?
            && d.quote.impact.Some? && !IsHigh(d.quote) && input.now - d.quote.receivedAt <= MAX_QUOTE_AGE_MS
  {
    hide SessionAt, NewYorkParts;
    var market := AsksOfABuyable(cal, input);
  }

  /** An exclusion lasts: more quotes never let an instrument back in. */
  lemma ExclusionIsPermanent(quotes: seq<Quote>, more: seq<Quote>, id: string)
    requires IsExcluded(quotes, id)
    ensures IsExcluded(quotes + more, id)
  {
    var k :| 0 <= k < |quotes| && quotes[k].instrument == id && RulesOut(quotes[k]);
    assert (quotes + more)[k] == quotes[k];
  }
}
