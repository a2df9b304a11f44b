/**
 When a step answers what (decide.ts). Every answer is given its exact condition on the input alone,
 in numbers, clauses over the markets in preference order and clauses over the quotes.
 */
module Decisions {
  import opened Basics
  import opened Decide
  import opened NewYork
  import opened Session

  /******* What a plan may spend now *******/

  predicate DueNow(i: Input) {
    i.plan.active && i.plan.nextDueAt <= i.now && (i.plan.expiresAt.None? || i.now < i.plan.expiresAt.value)
  }

  predicate InSession(cal: Calendar, i: Input) {
    SessionAt(cal, i.now) == Regular
  }

  function Limit(i: Input): nat {
    if i.plan.maxPerBuy <= i.maxPerTx then i.plan.maxPerBuy else i.maxPerTx
  }

  /** Outside the session half the limit. */
  function LimitNow(cal: Calendar, i: Input): nat {
    if InSession(cal, i) then Limit(i) else Limit(i) / 2
  }

  predicate OnRecord(i: Input) {
    i.plan.mode == Safe || (i.position.Some? && i.plan.principal >= 1)
  }

  /** What a yield plan earned: the part of its position above the principal, and what was harvested. */
  function Interest(i: Input): nat {
    if i.plan.mode == Safe || i.position.None? then 0
    else if i.position.value.underlying <= i.plan.principal then i.position.value.harvested
    else i.position.value.underlying - i.plan.principal + i.position.value.harvested
  }

  /** The least of three amounts. */
  predicate IsLeast(x: nat, a: nat, b: nat, c: nat) {
    x <= a && x <= b && x <= c && (x == a || x == b || x == c)
  }

  /** All a plan may spend now: interest and contribution, the limit, what is left of the day. */
  function Planned(cal: Calendar, i: Input): (planned: nat)
    ensures IsLeast(planned, Interest(i) + i.plan.contribution, LimitNow(cal, i), i.dailyRemaining)
  {
    var means, limit := Interest(i) + i.plan.contribution, LimitNow(cal, i);
    if means <= limit && means <= i.dailyRemaining then means else if limit <= i.dailyRemaining then limit else i.dailyRemaining
  }

  /** Due, not blocked, and within the plan's window. */
  predicate InWindow(cal: Calendar, i: Input) {
    DueNow(i) && i.blocked.None? && (i.plan.regularOnly ==> InSession(cal, i))
  }

  /** The minimum buy is within every limit. */
  predicate MayBuy(cal: Calendar, i: Input) {
    && InWindow(cal, i) && OnRecord(i)
    && i.minBuy <= LimitNow(cal, i) && i.minBuy <= Interest(i) + i.plan.contribution && i.minBuy <= i.dailyRemaining
  }

  lemma TheAmounts(cal: Calendar, i: Input)
    ensures IsDue(i) == DueNow(i) && IsOffHours(cal, i) == !InSession(cal, i) && HasPosition(i) == OnRecord(i)
    ensures PerBuyLimit(i) == Limit(i) && MaxPerBuy(i, IsOffHours(cal, i)) == LimitNow(cal, i) <= Limit(i)
    ensures OnRecord(i) ==>
              && Budget(i) == Interest(i) + i.plan.contribution && InterestAvailable(i) == Interest(i)
              && PlannedSpend(i, IsOffHours(cal, i)) == Planned(cal, i)
  {
    hide SessionAt;
  }

  /******* The markets *******/

  /** The quote takes its instrument out of the running. */
  predicate IsRefusal(q: Quote) {
    || q.error == Some("40374") || q.error == Some("40375")
    || (q.action == Some(NextIssuer) && q.error.Some? && q.error.value != "")
    || (q.rfq && (q.error.None? || (q.error.value == "" && q.action != Some(NextIssuer))))
  }

  predicate IsOut(i: Input, id: string) {
    exists k :: 0 <= k < |i.quotes| && i.quotes[k].instrument == id && IsRefusal(i.quotes[k])
  }

  lemma OutIsExcluded(i: Input, id: string)
    ensures IsExcluded(i.quotes, id) <==> IsOut(i, id)
  {
    assert forall k :: 0 <= k < |i.quotes| ==> (RulesOut(i.quotes[k]) <==> IsRefusal(i.quotes[k]));
  }

  /** The registry's first market of the plan's ticker and its `j`-th preferred issuer. */
  ghost predicate IsPreferred(i: Input, j: nat, m: Market) {
    && j < |i.plan.issuerPreference|
    && exists k :: 0 <= k < |i.markets| && i.markets[k] == m && IsListed(i, j, m)
                   && forall h :: 0 <= h < k ==> !IsListed(i, j, i.markets[h])
  }

  predicate IsListed(i: Input, j: nat, m: Market)
    requires j < |i.plan.issuerPreference|
  {
    m.ticker == i.plan.ticker && m.issuer == i.plan.issuerPreference[j]
  }

  /** The market can be bought: not out of the running, trading, and its minimum is reached. */
  predicate Takes(i: Input, m: Market, planned: nat) {
    && !IsOut(i, m.id) && m.status.openState && m.status.reasonCode == Some("TRADING")
    && (m.venueMin.Some? ==> m.venueMin.value <= planned)
  }

  /** A corporate action: it concerns the stock, whichever venue. */
  predicate IsBarred(i: Input, m: Market) {
    !IsOut(i, m.id) && (m.status.reasonCode == Some("ASSET_PAUSED") || m.status.reasonCode == Some("ASSET_LIMITED"))
  }

  predicate IsShut(i: Input, m: Market) {
    && !IsOut(i, m.id)
    && m.status.reasonCode in {Some("MARKET_CLOSED"), Some("MARKET_PAUSED"), Some("MARKET_MAINTENANCE")}
  }

  predicate IsUnknown(i: Input, m: Market) {
    !IsOut(i, m.id) && m.status.reasonCode == Some("UNAVAILABLE")
  }

  /** Trading, but its minimum is out of reach now. */
  predicate IsTooDear(i: Input, m: Market, planned: nat) {
    && !IsOut(i, m.id) && m.status.openState && m.status.reasonCode == Some("TRADING")
    && m.venueMin.Some? && planned < m.venueMin.value
  }

  /** None of the first `n` preferred markets can be bought or is under a corporate action. */
  ghost predicate PassedOver(i: Input, planned: nat, n: nat) {
    forall j: nat, m :: j < n && IsPreferred(i, j, m) ==> !Takes(i, m, planned) && !IsBarred(i, m)
  }

  ghost predicate ChosenIn(i: Input, planned: nat, n: nat, m: Market) {
    exists j: nat :: j < n && IsPreferred(i, j, m) && Takes(i, m, planned) && PassedOver(i, planned, j)
  }

  ghost predicate BarredIn(i: Input, planned: nat, n: nat) {
    exists j: nat, m :: j < n && IsPreferred(i, j, m) && IsBarred(i, m) && PassedOver(i, planned, j)
  }

  ghost predicate SomeShutIn(i: Input, n: nat) {
    exists j: nat, m :: j < n && IsPreferred(i, j, m) && IsShut(i, m)
  }

  /** The first market that is closed. */
  ghost predicate FirstShutIn(i: Input, n: nat, m: Market) {
    exists j: nat :: j < n && IsPreferred(i, j, m) && IsShut(i, m) && !SomeShutIn(i, j)
  }

  ghost predicate SomeUnknownIn(i: Input, n: nat) {
    exists j: nat, m :: j < n && IsPreferred(i, j, m) && IsUnknown(i, m)
  }

  ghost predicate TooDearIn(i: Input, planned: nat, n: nat, venueMin: nat) {
    exists j: nat, m :: j < n && IsPreferred(i, j, m) && IsTooDear(i, m, planned) && m.venueMin == Some(venueMin)
  }

  ghost predicate LeastMinimumIn(i: Input, planned: nat, n: nat, venueMin: nat) {
    TooDearIn(i, planned, n, venueMin) && forall v: nat :: TooDearIn(i, planned, n, v) ==> venueMin <= v
  }

  /** What a scan of the first `n` preferences saw. */
  ghost predicate Saw(i: Input, planned: nat, n: nat, scan: Scan) {
    match scan
    case Chosen(m) => ChosenIn(i, planned, n, m)
    case Corporate => BarredIn(i, planned, n)
    case Scanning(closed, unavailable, venueMinimum) =>
      && PassedOver(i, planned, n)
      && (closed.None? ==> !SomeShutIn(i, n))
      && (closed.Some? ==> exists m :: FirstShutIn(i, n, m) && closed.value.nextOpenTime == m.status.nextOpenTime)
      && (unavailable <==> SomeUnknownIn(i, n))
      && (venueMinimum.None? ==> forall v: nat :: !TooDearIn(i, planned, n, v))
      && (venueMinimum.Some? ==> LeastMinimumIn(i, planned, n, venueMinimum.value))
  }

  lemma {:induction false} MarketOfIsFirst(markets: seq<Market>, ticker: string, issuer: Issuer)
    ensures var m := MarketOf(markets, ticker, issuer);
            && (m.None? ==> forall h :: 0 <= h < |markets| ==> !(markets[h].ticker == ticker && markets[h].issuer == issuer))
            && (m.Some? ==> exists k :: 0 <= k < |markets| && markets[k] == m.value
                                        && m.value.ticker == ticker && m.value.issuer == issuer
                                        && forall h :: 0 <= h < k ==> !(markets[h].ticker == ticker && markets[h].issuer == issuer))
  {
    if |markets| > 0 && !(markets[0].ticker == ticker && markets[0].issuer == issuer) {
      MarketOfIsFirst(markets[1..], ticker, issuer);
      var m := MarketOf(markets[1..], ticker, issuer);
      assert forall h :: 0 < h < |markets| ==> markets[h] == markets[1..][h - 1];
      if m.Some? {
        var k :| 0 <= k < |markets[1..]| && markets[1..][k] == m.value
                 && forall h :: 0 <= h < k ==> !(markets[1..][h].ticker == ticker && markets[1..][h].issuer == issuer);
        assert markets[k + 1] == m.value;
      }
    }
  }

  lemma PreferredIs(i: Input, j: nat, m: Market)
    requires j < |i.plan.issuerPreference|
    ensures IsPreferred(i, j, m) <==> MarketOf(i.markets, i.plan.ticker, i.plan.issuerPreference[j]) == Some(m)
  {
    MarketOfIsFirst(i.markets, i.plan.ticker, i.plan.issuerPreference[j]);
  }

  lemma {:induction false} OneMoreCandidate(i: Input, n: nat)
    requires n < |i.plan.issuerPreference|
    ensures var p, m := i.plan.issuerPreference, MarketOf(i.markets, i.plan.ticker, i.plan.issuerPreference[n]);
            Candidates(i, p[..n + 1]) == Candidates(i, p[..n]) + if m.Some? then [m.value] else []
  {
    var p := i.plan.issuerPreference;
    assert p[..n + 1] == p[..n] + [p[n]];
    CandidatesJoin(i, p[..n], [p[n]]);
  }

  lemma {:induction false} CandidatesJoin(i: Input, a: seq<Issuer>, b: seq<Issuer>)
    ensures Candidates(i, a + b) == Candidates(i, a) + Candidates(i, b)
  {
    if a == [] {
      assert a + b == b;
    } else {
      assert (a + b)[1..] == a[1..] + b;
      CandidatesJoin(i, a[1..], b);
    }
  }

  lemma StaysStopped(i: Input, planned: nat, n: nat, scan: Scan)
    requires Saw(i, planned, n, scan) && !scan.Scanning?
    ensures Saw(i, planned, n + 1, scan)
  {
    hide IsPreferred, Takes, IsBarred;
  }

  /** How one more preference, with or without a market, changes what is remembered. */
  lemma OneMoreMarket(i: Input, planned: nat, n: nat, scan: Scan, m: Option<Market>)
    requires Saw(i, planned, n, scan) && scan.Scanning?
    requires forall other :: IsPreferred(i, n, other) <==> m == Some(other)
    ensures Saw(i, planned, n + 1, if m.Some? then Look(scan, m.value, i.quotes, planned) else scan)
  {
    hide IsPreferred, IsExcluded, IsOut, PassedOver, SomeShutIn, FirstShutIn, SomeUnknownIn, TooDearIn, LeastMinimumIn;
    var next := if m.Some? then Look(scan, m.value, i.quotes, planned) else scan;
    if m.Some? {
      OutIsExcluded(i, m.value.id);
    }
    if next.Chosen? {
      assert Takes(i, m.value, planned);
      assert IsPreferred(i, n, m.value);
    } else if next.Corporate? {
      assert IsBarred(i, m.value);
      assert IsPreferred(i, n, m.value);
    } else {
      assert m.Some? ==> !Takes(i, m.value, planned) && !IsBarred(i, m.value);
      OneMorePassed(i, planned, n, m);
      OneMoreShut(i, n, m);
      OneMoreUnknown(i, n, m);
      OneMoreTooDear(i, planned, n, n + 1, m, scan.venueMinimum);
      if m.Some? && scan.closed.None? && IsShut(i, m.value) {
        assert FirstShutIn(i, n + 1, m.value);
      } else if scan.closed.Some? {
        var first :| FirstShutIn(i, n, first) && scan.closed.value.nextOpenTime == first.status.nextOpenTime;
        assert FirstShutIn(i, n + 1, first);
      }
    }
  }

  lemma OneMorePassed(i: Input, planned: nat, n: nat, m: Option<Market>)
    requires PassedOver(i, planned, n) && (m.Some? ==> !Takes(i, m.value, planned) && !IsBarred(i, m.value))
    requires forall other :: IsPreferred(i, n, other) <==> m == Some(other)
    ensures PassedOver(i, planned, n + 1)
  {
    hide IsPreferred, Takes, IsBarred;
  }

  lemma OneMoreShut(i: Input, n: nat, m: Option<Market>)
    requires forall other :: IsPreferred(i, n, other) <==> m == Some(other)
    ensures SomeShutIn(i, n + 1) <==> SomeShutIn(i, n) || (m.Some? && IsShut(i, m.value))
    ensures forall other :: FirstShutIn(i, n, other) ==> FirstShutIn(i, n + 1, other)
    ensures m.Some? && IsShut(i, m.value) && !SomeShutIn(i, n) ==> FirstShutIn(i, n + 1, m.value)
  {
    hide IsPreferred, IsShut;
    assert m.Some? ==> IsPreferred(i, n, m.value);
  }

  lemma OneMoreUnknown(i: Input, n: nat, m: Option<Market>)
    requires forall other :: IsPreferred(i, n, other) <==> m == Some(other)
    ensures SomeUnknownIn(i, n + 1) <==> SomeUnknownIn(i, n) || (m.Some? && IsUnknown(i, m.value))
  {
    hide IsPreferred, IsUnknown;
    assert m.Some? ==> IsPreferred(i, n, m.value);
  }

  lemma OneMoreTooDear(i: Input, planned: nat, n: nat, next: nat, m: Option<Market>, least: Option<nat>)
    requires next == n + 1 && forall other :: IsPreferred(i, n, other) <==> m == Some(other)
    requires if least.Some? then LeastMinimumIn(i, planned, n, least.value) else forall v: nat :: !TooDearIn(i, planned, n, v)
    ensures var more := m.Some? && IsTooDear(i, m.value, planned);
            if !more && least.None? then forall v: nat :: !TooDearIn(i, planned, next, v)
            else LeastMinimumIn(i, planned, next,
                   if !more then least.value
                   else if least.None? || m.value.venueMin.value < least.value then m.value.venueMin.value
                   else least.value)
  {
    hide IsPreferred, TooDearIn;
    forall v: nat
      ensures TooDearIn(i, planned, next, v)
              <==> TooDearIn(i, planned, n, v) || (m.Some? && IsTooDear(i, m.value, planned) && m.value.venueMin == Some(v))
    {
      TooDearNext(i, planned, n, m, v);
    }
  }

  lemma TooDearNext(i: Input, planned: nat, n: nat, m: Option<Market>, v: nat)
    requires forall other :: IsPreferred(i, n, other) <==> m == Some(other)
    ensures TooDearIn(i, planned, n + 1, v)
            <==> TooDearIn(i, planned, n, v) || (m.Some? && IsTooDear(i, m.value, planned) && m.value.venueMin == Some(v))
  {
    hide IsPreferred, IsTooDear;
    assert m.Some? ==> IsPreferred(i, n, m.value);
  }

  /** What the scan remembers is what a reader of the preferences would say of them. */
  lemma {:induction false} ScanSaw(i: Input, planned: nat, n: nat)
    requires n <= |i.plan.issuerPreference|
    ensures Saw(i, planned, n, Scanned(Candidates(i, i.plan.issuerPreference[..n]), i.quotes, planned))
  {
    hide Saw, IsPreferred, Look, Candidates;
    if n == 0 {
      NothingSeen(i, planned);
      NoCandidates(i);
    } else {
      var k := n - 1;
      ScanSaw(i, planned, k);
      var before := Candidates(i, i.plan.issuerPreference[..k]);
      var scan := Scanned(before, i.quotes, planned);
      OneMoreCandidate(i, k);
      var m := MarketOf(i.markets, i.plan.ticker, i.plan.issuerPreference[k]);
      forall other ensures IsPreferred(i, k, other) <==> m == Some(other) {
        PreferredIs(i, k, other);
      }
      if m.Some? {
        assert (before + [m.value])[..|before|] == before;
      } else {
        assert before + [] == before;
      }
      if scan.Scanning? {
        OneMoreMarket(i, planned, k, scan, m);
      } else {
        StaysStopped(i, planned, k, scan);
      }
    }
  }

  lemma NothingSeen(i: Input, planned: nat)
    ensures Saw(i, planned, 0, Scanned([], i.quotes, planned))
  {
    hide IsPreferred;
  }

  lemma NoCandidates(i: Input)
    ensures Candidates(i, i.plan.issuerPreference[..0]) == []
  {
  }

  /******* What is chosen *******/

  /** The first preferred market that can be bought, with none before it under a corporate action. */
  ghost predicate Chooses(cal: Calendar, i: Input, m: Market) {
    MayBuy(cal, i) && ChosenIn(i, Planned(cal, i), |i.plan.issuerPreference|, m)
  }

  ghost predicate StoppedByAnAction(cal: Calendar, i: Input) {
    MayBuy(cal, i) && BarredIn(i, Planned(cal, i), |i.plan.issuerPreference|)
  }

  ghost predicate ChoosesNone(cal: Calendar, i: Input) {
    MayBuy(cal, i) && PassedOver(i, Planned(cal, i), |i.plan.issuerPreference|)
  }

  ghost predicate FirstShut(i: Input, m: Market) {
    FirstShutIn(i, |i.plan.issuerPreference|, m)
  }

  ghost predicate SomeShut(i: Input) {
    SomeShutIn(i, |i.plan.issuerPreference|)
  }

  ghost predicate SomeUnknown(i: Input) {
    SomeUnknownIn(i, |i.plan.issuerPreference|)
  }

  /** The least minimum of the markets that trade with a minimum out of reach. */
  ghost predicate LeastMinimum(cal: Calendar, i: Input, venueMin: nat) {
    LeastMinimumIn(i, Planned(cal, i), |i.plan.issuerPreference|, venueMin)
  }

  function ScanOf(cal: Calendar, i: Input): Scan {
    Scanned(Candidates(i, i.plan.issuerPreference), i.quotes, Planned(cal, i))
  }

  lemma PreferredOnce(i: Input, j: nat, m: Market, other: Market)
    requires IsPreferred(i, j, m) && IsPreferred(i, j, other)
    ensures m == other
  {
    PreferredIs(i, j, m);
    PreferredIs(i, j, other);
  }

  lemma ChosenOnce(i: Input, planned: nat, n: nat, m: Market, other: Market)
    requires ChosenIn(i, planned, n, m) && ChosenIn(i, planned, n, other)
    ensures m == other
  {
    hide IsPreferred, Takes, IsBarred;
    var j: nat :| j < n && IsPreferred(i, j, m) && Takes(i, m, planned) && PassedOver(i, planned, j);
    var k: nat :| k < n && IsPreferred(i, k, other) && Takes(i, other, planned) && PassedOver(i, planned, k);
    if j == k {
      PreferredOnce(i, j, m, other);
    }
  }

  lemma ChosenNotBarred(i: Input, planned: nat, n: nat, m: Market)
    requires ChosenIn(i, planned, n, m)
    ensures !BarredIn(i, planned, n) && !PassedOver(i, planned, n)
  {
    hide IsPreferred, IsOut;
    var j: nat :| j < n && IsPreferred(i, j, m) && Takes(i, m, planned) && PassedOver(i, planned, j);
    if BarredIn(i, planned, n) {
      var k: nat, other :| k < n && IsPreferred(i, k, other) && IsBarred(i, other) && PassedOver(i, planned, k);
      if j == k {
        PreferredOnce(i, j, m, other);
      }
    }
  }

  lemma BarredIsNotPassed(i: Input, planned: nat, n: nat)
    requires BarredIn(i, planned, n)
    ensures !PassedOver(i, planned, n)
  {
    hide IsPreferred, IsBarred, Takes;
  }

  /** The scan's answer is the choice; there is exactly one of the three. */
  lemma WhatIsChosen(cal: Calendar, i: Input)
    requires MayBuy(cal, i)
    ensures forall m :: Chooses(cal, i, m) <==> ScanOf(cal, i) == Chosen(m)
    ensures StoppedByAnAction(cal, i) <==> ScanOf(cal, i) == Corporate
    ensures ChoosesNone(cal, i) <==> ScanOf(cal, i).Scanning?
    ensures Saw(i, Planned(cal, i), |i.plan.issuerPreference|, ScanOf(cal, i))
  {
    hide ChosenIn, BarredIn, PassedOver, Scanned, Candidates, Planned, MayBuy, FirstShutIn, SomeShutIn, SomeUnknownIn, TooDearIn,
         LeastMinimumIn;
    var n, planned := |i.plan.issuerPreference|, Planned(cal, i);
    assert i.plan.issuerPreference[..n] == i.plan.issuerPreference;
    ScanSaw(i, planned, n);
    forall m ensures Chooses(cal, i, m) <==> ScanOf(cal, i) == Chosen(m) {
      if Chooses(cal, i, m) {
        ChosenNotBarred(i, planned, n, m);
        if ScanOf(cal, i).Chosen? {
          ChosenOnce(i, planned, n, m, ScanOf(cal, i).market);
        }
      }
    }
    if BarredIn(i, planned, n) {
      BarredIsNotPassed(i, planned, n);
    }
    match ScanOf(cal, i) {
      case Chosen(m) => ChosenNotBarred(i, planned, n, m);
      case Corporate =>
      case Scanning(_, _, _) =>
    }
  }

  /******* The quotes of what is chosen *******/

  predicate NoneAsked(i: Input, id: string) {
    forall k :: 0 <= k < |i.quotes| ==> i.quotes[k].instrument != id
  }

  predicate IsLast(i: Input, id: string, q: Quote) {
    exists k :: 0 <= k < |i.quotes| && i.quotes[k] == q && q.instrument == id
                && forall j :: k < j < |i.quotes| ==> i.quotes[j].instrument != id
  }

  /** In the session the on-chain price is more than 2 % above the independent one. */
  predicate IsOverpriced(cal: Calendar, i: Input, m: Market) {
    && InSession(cal, i) && m.onchain.Some? && m.independent.Some? && m.onchain.value > 0.0 && m.independent.value > 0.0
    && 100.0 * m.onchain.value > 102.0 * m.independent.value
  }

  /** The market is chosen at no premium, and its last quote is this one. */
  ghost predicate Reads(cal: Calendar, i: Input, m: Market, q: Quote) {
    Chooses(cal, i, m) && !IsOverpriced(cal, i, m) && IsLast(i, m.id, q)
  }

  predicate IsComplete(q: Quote) {
    q.error.None? && q.quoteId.Some? && q.tokens.Some?
  }

  /** The quotes of an instrument with an impact above 1 %. */
  function HighOnes(quotes: seq<Quote>, id: string): set<int> {
    set k | 0 <= k < |quotes| && quotes[k].instrument == id && quotes[k].impact.Some? && quotes[k].impact.value > 1.0
  }

  lemma {:induction false} HalvingsAreHighOnes(quotes: seq<Quote>, id: string)
    ensures Halvings(quotes, id) == |HighOnes(quotes, id)|
  {
    if |quotes| > 0 {
      var n := |quotes| - 1;
      HalvingsAreHighOnes(quotes[..n], id);
      assert forall k :: 0 <= k < n ==> quotes[..n][k] == quotes[k];
      var last := quotes[n];
      if last.instrument == id && IsHigh(last) {
        assert HighOnes(quotes, id) == HighOnes(quotes[..n], id) + {n};
      } else {
        assert HighOnes(quotes, id) == HighOnes(quotes[..n], id);
      }
    }
  }

  /** The third quote of high impact is the last, and half of it has to reach both minimums. */
  predicate MayHalve(i: Input, m: Market, q: Quote) {
    && |HighOnes(i.quotes, m.id)| <= 2 && q.spend / 2 >= i.minBuy
    && (m.venueMin.Some? ==> q.spend / 2 >= m.venueMin.value)
  }

  lemma PremiumIsOverprice(cal: Calendar, i: Input, m: Market)
    ensures IsOverpriced(cal, i, m) <==> !IsOffHours(cal, i) && IsPremium(m)
  {
    hide SessionAt;
    if m.onchain.Some? && m.independent.Some? && m.independent.value > 0.0 {
      AboveTwoPercent(m.onchain.value, m.independent.value);
    }
  }

  lemma AboveTwoPercent(a: real, b: real)
    requires b > 0.0
    ensures (a / b - 1.0) * 100.0 > 2.0 <==> 100.0 * a > 102.0 * b
  {
    var ratio := a / b;
    assert ratio * b == a;
    if ratio > 1.02 {
      assert ratio * b > 1.02 * b;
    } else {
      assert ratio * b <= 1.02 * b;
    }
  }

  /** A premium on the way to a chosen market, and what its quotes say otherwise. */
  lemma AfterChoosing(cal: Calendar, i: Input, m: Market)
    requires Chooses(cal, i, m)
    ensures var d := DecisionOf(cal, i);
            && (IsOverpriced(cal, i, m) ==> d == Done(Deferred(PriceGap, i.now + 1_800_000)))
            && (!IsOverpriced(cal, i, m) ==> HasPosition(i) && d == OnQuote(cal, i, !InSession(cal, i), m))
  {
    hide SessionAt, Scanned, Candidates, ChosenIn, IsPremium, IsOverpriced, OnQuote;
    TheAmounts(cal, i);
    WhatIsChosen(cal, i);
    PremiumIsOverprice(cal, i, m);
  }

  /** The last quote says to ask again: for what may be spent now, for half, or for the same. */
  predicate AsksAgain(cal: Calendar, i: Input, m: Market, q: Quote, spend: nat) {
    && IsComplete(q)
    && if q.spend > Planned(cal, i) then spend == Planned(cal, i)
       else if q.impact.None? then false
       else if q.impact.value > 1.0 then MayHalve(i, m, q) && spend == q.spend / 2
       else i.now - q.receivedAt > 25_000 && spend == q.spend
  }

  /** The last quote can be executed: complete, affordable, of at most 1 % impact, and at most 25 seconds old. */
  predicate IsGood(cal: Calendar, i: Input, q: Quote) {
    && IsComplete(q) && q.spend <= Planned(cal, i) && q.impact.Some? && q.impact.value <= 1.0
    && i.now - q.receivedAt <= 25_000
  }

  /** Interest pays first, harvested interest before any is redeemed; a safe plan has none. */
  predicate PaysWith(i: Input, spend: nat, interest: Option<nat>, redeem: nat) {
    if i.plan.mode == Safe || i.position.None? then interest == None && redeem == 0
    else
      var harvested := i.position.value.harvested;
      && interest == Some(if spend <= Interest(i) then spend else Interest(i))
      && redeem == if interest.value <= harvested then 0 else interest.value - harvested
  }

  /** The venue is closed to quotes. */
  predicate IsClosedToQuotes(q: Quote) {
    q.error.Some? && (q.error == Some("40369") || q.error == Some("40367") || q.action == Some(ClosedMarket))
  }

  lemma TheLastIsOne(i: Input, id: string)
    ensures LastOwn(i.quotes, id).None? <==> NoneAsked(i, id)
    ensures LastOwn(i.quotes, id).Some? ==> IsLast(i, id, i.quotes[LastOwn(i.quotes, id).value])
    ensures forall q :: IsLast(i, id, q) ==> LastOwn(i.quotes, id).Some? && i.quotes[LastOwn(i.quotes, id).value] == q
  {
    var own := LastOwn(i.quotes, id);
  }

  lemma AskedFirst(cal: Calendar, i: Input, m: Market)
    requires Chooses(cal, i, m) && !IsOverpriced(cal, i, m) && NoneAsked(i, m.id)
    ensures DecisionOf(cal, i) == AskQuote(m.id, Planned(cal, i))
  {
    hide SessionAt, ChosenIn, IsOverpriced, DecisionOf;
    AfterChoosing(cal, i, m);
    TheAmounts(cal, i);
    TheLastIsOne(i, m.id);
  }

  /** What the last quote of a chosen market makes of the step. */
  ghost predicate SaidByItsQuote(cal: Calendar, i: Input, m: Market, q: Quote) {
    var d := DecisionOf(cal, i);
    if IsClosedToQuotes(q) then d == if InSession(cal, i) then Closing(i.now + 1_800_000) else AfterTheOpen(cal, i.now)
    else if q.error.Some? then d == Done(Failed(q.error.value))
    else if !IsComplete(q) then d == Done(Failed("QUOTE_INCOMPLETE"))
    else if q.spend > Planned(cal, i) then d == AskQuote(m.id, Planned(cal, i))
    else if q.impact.None? then d == Done(Deferred(DataUnavailable, i.now + 1_800_000))
    else if q.impact.value > 1.0 then
      d == if MayHalve(i, m, q) then AskQuote(m.id, q.spend / 2) else Done(Deferred(QuoteImpact, i.now + 1_800_000))
    else if i.now - q.receivedAt > 25_000 then d == AskQuote(m.id, q.spend)
    else
      && d.Execute? && PaysWith(i, q.spend, d.interest, d.redeem)
      && d == Execute(m.id, q.spend, q, d.redeem, d.interest, !InSession(cal, i))
  }

  lemma AfterReading(cal: Calendar, i: Input, m: Market, q: Quote)
    requires Reads(cal, i, m, q)
    ensures SaidByItsQuote(cal, i, m, q)
  {
    hide SessionAt, ChosenIn, IsOverpriced, DecisionOf, LastOwn, AfterTheOpen, Halvings, HighOnes, Planned;
    AfterChoosing(cal, i, m);
    TheAmounts(cal, i);
    TheLastIsOne(i, m.id);
    HalvingsAreHighOnes(i.quotes, m.id);
  }

  /******* The answers *******/

  /** One of the dates searched has an open after now. */
  ghost predicate OpenWithinReach(cal: Calendar, now: int) {
    var today := NewYorkParts(now).date;
    exists date :: today <= date < today + 14 && HasOpenAfter(cal, now, date)
  }

  lemma AfterTheOpenIs(cal: Calendar, now: int, retryAt: int)
    ensures AfterTheOpen(cal, now) == Thrown <==> !OpenWithinReach(cal, now)
    ensures AfterTheOpen(cal, now) == Closing(retryAt)
            <==> OpenWithinReach(cal, now) && IsLeastOpenAfter(cal, now, retryAt - 120_000)
  {
    hide NewYorkParts, SessionAt, HasOpenAfter, IsOpen;
    NextOpenIsLeast(cal, now, SEARCH_DAYS);
  }

  /** The limit of one buy; a safe plan has no more than its contribution, whatever it earned. */
  function Reach(i: Input, limit: nat): nat {
    if i.plan.mode == Safe && i.plan.contribution < limit then i.plan.contribution else limit
  }

  /** Trading markets were passed over for their minimums only, the least of which is this. */
  ghost predicate OnlyTooDear(cal: Calendar, i: Input, venueMin: nat) {
    ChoosesNone(cal, i) && !SomeShut(i) && !SomeUnknown(i) && LeastMinimum(cal, i, venueMin)
  }

  /** The half limit of a closed session is too small, for the minimum buy or for every market's minimum. */
  ghost predicate HalfIsTooLittle(cal: Calendar, i: Input) {
    || (InWindow(cal, i) && LimitNow(cal, i) < i.minBuy <= Limit(i))
    || (exists v: nat :: OnlyTooDear(cal, i, v) && Reach(i, LimitNow(cal, i)) < v <= Reach(i, Limit(i)))
  }

  ghost predicate ClosedToQuotes(cal: Calendar, i: Input) {
    exists m, q :: Reads(cal, i, m, q) && IsClosedToQuotes(q)
  }

  /** The step waits for the next regular session. */
  ghost predicate WaitsForTheOpen(cal: Calendar, i: Input) {
    || (DueNow(i) && i.blocked.None? && i.plan.regularOnly && !InSession(cal, i))
    || HalfIsTooLittle(cal, i)
    || (ClosedToQuotes(cal, i) && !InSession(cal, i))
  }

  predicate TooLittleForTheMinimum(cal: Calendar, i: Input) {
    InWindow(cal, i) && OnRecord(i) && i.minBuy <= LimitNow(cal, i) && Interest(i) + i.plan.contribution < i.minBuy
  }

  predicate TooLittleLeftToday(cal: Calendar, i: Input) {
    && InWindow(cal, i) && OnRecord(i) && i.minBuy <= LimitNow(cal, i) && i.minBuy <= Interest(i) + i.plan.contribution
    && i.dailyRemaining < i.minBuy
  }

  /** The step cannot be taken: the limit is below the minimum buy, or a yield plan has no position or principal. */
  predicate IsMisconfigured(cal: Calendar, i: Input) {
    InWindow(cal, i) && (Limit(i) < i.minBuy || (i.minBuy <= LimitNow(cal, i) && !OnRecord(i)))
  }

  /** The answers that look at no market. */
  ghost predicate SaidBeforeTheMarkets(cal: Calendar, i: Input) {
    DecisionOf(cal, i) ==
      if !DueNow(i) then NotDue
      else if i.blocked.Some? then Done(Skipped(ByGuardian))
      else if i.plan.regularOnly && !InSession(cal, i) then AfterTheOpen(cal, i.now)
      else if Limit(i) < i.minBuy then Thrown
      else if LimitNow(cal, i) < i.minBuy then AfterTheOpen(cal, i.now)
      else if !OnRecord(i) then Thrown
      else if Interest(i) + i.plan.contribution < i.minBuy then Done(Skipped(BelowMin))
      else Done(Skipped(DailyCap))
  }

  lemma BeforeTheMarkets(cal: Calendar, i: Input)
    requires !MayBuy(cal, i)
    ensures SaidBeforeTheMarkets(cal, i)
  {
    hide SessionAt, AfterTheOpen;
    TheAmounts(cal, i);
  }

  /** What the scan remembers of the markets it passed over. */
  lemma WhatWasPassed(cal: Calendar, i: Input)
    requires ChoosesNone(cal, i)
    ensures var scan := ScanOf(cal, i);
            && scan.Scanning?
            && (scan.closed.None? <==> !SomeShut(i))
            && (scan.closed.Some? ==> exists m :: FirstShut(i, m) && scan.closed.value.nextOpenTime == m.status.nextOpenTime)
            && (scan.statusUnavailable <==> SomeUnknown(i))
            && (scan.venueMinimum.None? ==> forall v: nat :: !LeastMinimum(cal, i, v))
            && (scan.venueMinimum.Some? ==> forall v: nat :: LeastMinimum(cal, i, v) <==> v == scan.venueMinimum.value)
  {
    hide MayBuy, PassedOver, FirstShutIn, SomeShutIn, SomeUnknownIn, TooDearIn, ScanOf;
    WhatIsChosen(cal, i);
    ShutOnce(i);
    var scan := ScanOf(cal, i);
    if scan.closed.Some? {
      var m :| FirstShutIn(i, |i.plan.issuerPreference|, m) && scan.closed.value.nextOpenTime == m.status.nextOpenTime;
      assert FirstShut(i, m);
    }
  }

  /** The answers when no market is chosen. */
  ghost predicate SaidOfNone(cal: Calendar, i: Input) {
    var d := DecisionOf(cal, i);
    if SomeShut(i) then
      exists m :: FirstShut(i, m) && d == Closing(OpensAgain(i, m))
    else if SomeUnknown(i) then d == Done(Deferred(DataUnavailable, i.now + 1_800_000))
    else if exists v: nat :: LeastMinimum(cal, i, v) then
      exists v: nat :: OnlyTooDear(cal, i, v) && d == (
        if Reach(i, Limit(i)) < v then Done(Skipped(BelowMin))
        else if Reach(i, LimitNow(cal, i)) < v then AfterTheOpen(cal, i.now)
        else if Interest(i) + i.plan.contribution < v then Done(Skipped(BelowMin))
        else Done(Skipped(DailyCap)))
    else d == Done(Skipped(NoInstrument))
  }

  /** Two minutes after the venue says it opens, if that is ahead; in half an hour otherwise. */
  function OpensAgain(i: Input, m: Market): int {
    var next := m.status.nextOpenTime;
    if next.Some? && i.now < next.value then next.value + 120_000 else i.now + 1_800_000
  }

  lemma AfterChoosingNone(cal: Calendar, i: Input)
    requires ChoosesNone(cal, i)
    ensures SaidOfNone(cal, i)
  {
    hide SessionAt, AfterTheOpen, PassedOver, FirstShut, SomeShut, SomeUnknown, LeastMinimum, ScanOf;
    WhatWasPassed(cal, i);
    NoneChosenThen(cal, i);
    TheAmounts(cal, i);
    ShutOnce(i);
    var scan := ScanOf(cal, i);
    assert scan.venueMinimum.Some? ==> LeastMinimum(cal, i, scan.venueMinimum.value);
    assert scan.closed.None? && !scan.statusUnavailable && scan.venueMinimum.Some? ==> OnlyTooDear(cal, i, scan.venueMinimum.value);
  }

  lemma NoneChosenThen(cal: Calendar, i: Input)
    requires ChoosesNone(cal, i) && ScanOf(cal, i).Scanning?
    ensures HasPosition(i) && DecisionOf(cal, i) == NoneChosen(cal, i, IsOffHours(cal, i), ScanOf(cal, i))
  {
    hide SessionAt, NoneChosen, PassedOver, Scanned, Candidates;
    TheAmounts(cal, i);
  }

  lemma ShutOnce(i: Input)
    ensures forall m, other :: FirstShut(i, m) && FirstShut(i, other) ==> m == other
    ensures forall m :: FirstShut(i, m) ==> SomeShut(i)
  {
    hide IsPreferred, IsShut;
    forall m, other | FirstShut(i, m) && FirstShut(i, other) ensures m == other {
      var j: nat :| j < |i.plan.issuerPreference| && IsPreferred(i, j, m) && IsShut(i, m) && !SomeShutIn(i, j);
      var k: nat :| k < |i.plan.issuerPreference| && IsPreferred(i, k, other) && IsShut(i, other) && !SomeShutIn(i, k);
      if j == k {
        PreferredOnce(i, j, m, other);
      }
    }
  }

  /** Where the step goes: not as far as the markets, or to exactly one of the scan's three answers. */
  lemma Regions(cal: Calendar, i: Input) returns (m: Option<Market>, q: Option<Quote>)
    ensures m.Some? <==> exists chosen :: Chooses(cal, i, chosen)
    ensures m.Some? ==> Chooses(cal, i, m.value) && MayBuy(cal, i) && !StoppedByAnAction(cal, i) && !ChoosesNone(cal, i)
    ensures forall other :: Chooses(cal, i, other) ==> m == Some(other)
    ensures MayBuy(cal, i) && m.None? ==> StoppedByAnAction(cal, i) != ChoosesNone(cal, i)
    ensures !MayBuy(cal, i) ==> !StoppedByAnAction(cal, i) && !ChoosesNone(cal, i)
    ensures q.Some? <==> m.Some? && !IsOverpriced(cal, i, m.value) && !NoneAsked(i, m.value.id)
    ensures q.Some? ==> Reads(cal, i, m.value, q.value)
    ensures forall other, last :: Reads(cal, i, other, last) ==> m == Some(other) && q == Some(last)
  {
    hide MayBuy, ChosenIn, BarredIn, PassedOver, ScanOf, IsOverpriced;
    m, q := None, None;
    if MayBuy(cal, i) {
      WhatIsChosen(cal, i);
      if ScanOf(cal, i).Chosen? {
        m := Some(ScanOf(cal, i).market);
        TheLastIsOne(i, m.value.id);
        var own := LastOwn(i.quotes, m.value.id);
        if own.Some? && !IsOverpriced(cal, i, m.value) {
          q := Some(i.quotes[own.value]);
        }
      }
    }
  }

  lemma Cases(cal: Calendar, i: Input) returns (m: Option<Market>, q: Option<Quote>)
    ensures m.Some? <==> exists chosen :: Chooses(cal, i, chosen)
    ensures m.Some? ==> Chooses(cal, i, m.value) && MayBuy(cal, i) && !StoppedByAnAction(cal, i) && !ChoosesNone(cal, i)
    ensures forall other :: Chooses(cal, i, other) ==> m == Some(other)
    ensures q.Some? <==> m.Some? && !IsOverpriced(cal, i, m.value) && !NoneAsked(i, m.value.id)
    ensures q.Some? ==> Reads(cal, i, m.value, q.value) && SaidByItsQuote(cal, i, m.value, q.value)
    ensures forall other, last :: Reads(cal, i, other, last) ==> m == Some(other) && q == Some(last)
    ensures MayBuy(cal, i) && m.None? ==> StoppedByAnAction(cal, i) != ChoosesNone(cal, i)
    ensures if MayBuy(cal, i) then true else SaidBeforeTheMarkets(cal, i) && !StoppedByAnAction(cal, i) && !ChoosesNone(cal, i)
    ensures ChoosesNone(cal, i) ==> SaidOfNone(cal, i)
    ensures StoppedByAnAction(cal, i) ==> DecisionOf(cal, i) == Done(Skipped(CorporateAction))
    ensures m.Some? && IsOverpriced(cal, i, m.value) ==> DecisionOf(cal, i) == Done(Deferred(PriceGap, i.now + 1_800_000))
    ensures m.Some? && !IsOverpriced(cal, i, m.value) && q.None? ==> DecisionOf(cal, i) == AskQuote(m.value.id, Planned(cal, i))
  {
    hide MayBuy, Chooses, IsOverpriced, DecisionOf, SaidByItsQuote, SaidBeforeTheMarkets, SaidOfNone, StoppedByAnAction, ChoosesNone,
         Planned, NoneAsked;
    m, q := Regions(cal, i);
    if m.Some? {
      AfterChoosing(cal, i, m.value);
      if q.Some? {
        AfterReading(cal, i, m.value, q.value);
      } else if !IsOverpriced(cal, i, m.value) {
        AskedFirst(cal, i, m.value);
      }
    } else if !MayBuy(cal, i) {
      BeforeTheMarkets(cal, i);
    } else if ChoosesNone(cal, i) {
      AfterChoosingNone(cal, i);
    } else {
      StoppedIs(cal, i);
    }
  }

  lemma StoppedIs(cal: Calendar, i: Input)
    requires StoppedByAnAction(cal, i)
    ensures DecisionOf(cal, i) == Done(Skipped(CorporateAction))
  {
    hide SessionAt, Scanned, Candidates, BarredIn;
    TheAmounts(cal, i);
    WhatIsChosen(cal, i);
  }

  /**
   Which steps ask for a quote, of what and for how much: the first quote of the chosen market for all
   that may be spent, and another one when the last was for more than that, had too high an impact
   or is too old.
   */
  lemma AsksExactlyWhen(cal: Calendar, i: Input, id: string, spend: nat)
    ensures DecisionOf(cal, i) == AskQuote(id, spend)
            <==> || (exists m :: Chooses(cal, i, m) && !IsOverpriced(cal, i, m) && m.id == id && NoneAsked(i, id)
                                 && spend == Planned(cal, i))
                 || (exists m, q :: Reads(cal, i, m, q) && m.id == id && AsksAgain(cal, i, m, q, spend))
  {
    hide Chooses, IsOverpriced, DecisionOf, StoppedByAnAction, ChoosesNone, Planned, NoneAsked, SessionAt, NextOpen, NewYorkParts,
         FirstShut, SomeShut, SomeUnknown, OnlyTooDear, LeastMinimum;
    var m, q := Cases(cal, i);
  }

  /** Which steps buy, what, for how much, on which quote, and with whose money. */
  lemma BuysExactlyWhen(cal: Calendar, i: Input, id: string, spend: nat, q: Quote, redeem: nat, interest: Option<nat>, offHours: bool)
    ensures DecisionOf(cal, i) == Execute(id, spend, q, redeem, interest, offHours)
            <==> && (exists m :: Reads(cal, i, m, q) && m.id == id)
                 && IsGood(cal, i, q) && spend == q.spend && PaysWith(i, spend, interest, redeem)
                 && (offHours <==> !InSession(cal, i))
  {
    hide Chooses, IsOverpriced, DecisionOf, StoppedByAnAction, ChoosesNone, Planned, NoneAsked, SessionAt, NextOpen, NewYorkParts,
         FirstShut, SomeShut, SomeUnknown, OnlyTooDear, LeastMinimum;
    var m, last := Cases(cal, i);
  }

  /** Which steps are not due, and which a guardian rule holds: those of every plan due, whatever the rest of the input. */
  lemma HeldExactlyWhen(cal: Calendar, i: Input)
    ensures DecisionOf(cal, i) == NotDue
            <==> !(i.plan.active && i.plan.nextDueAt <= i.now && (i.plan.expiresAt.Some? ==> i.now < i.plan.expiresAt.value))
    ensures DecisionOf(cal, i) == Done(Skipped(ByGuardian)) <==> DecisionOf(cal, i) != NotDue && i.blocked.Some?
  {
    hide Chooses, IsOverpriced, DecisionOf, StoppedByAnAction, ChoosesNone, Planned, NoneAsked, SessionAt, NextOpen, NewYorkParts,
         FirstShut, SomeShut, SomeUnknown, LeastMinimum;
    var m, q := Cases(cal, i);
  }

  lemma LeastOnce(cal: Calendar, i: Input)
    ensures forall v: nat, w: nat :: LeastMinimum(cal, i, v) && LeastMinimum(cal, i, w) ==> v == w
  {
    hide TooDearIn, Planned;
  }

  /** Which steps skip the buy, and why. */
  lemma SkipsExactlyWhen(cal: Calendar, i: Input)
    ensures DecisionOf(cal, i) == Done(Skipped(BelowMin))
            <==> || TooLittleForTheMinimum(cal, i)
                 || exists v: nat :: OnlyTooDear(cal, i, v)
                      && (Reach(i, Limit(i)) < v || (v <= Reach(i, LimitNow(cal, i)) && Interest(i) + i.plan.contribution < v))
    ensures DecisionOf(cal, i) == Done(Skipped(DailyCap))
            <==> || TooLittleLeftToday(cal, i)
                 || exists v: nat :: OnlyTooDear(cal, i, v)
                      && v <= Reach(i, LimitNow(cal, i)) && v <= Interest(i) + i.plan.contribution
    ensures DecisionOf(cal, i) == Done(Skipped(CorporateAction)) <==> StoppedByAnAction(cal, i)
    ensures DecisionOf(cal, i) == Done(Skipped(NoInstrument))
            <==> ChoosesNone(cal, i) && !SomeShut(i) && !SomeUnknown(i) && forall v: nat :: !LeastMinimum(cal, i, v)
  {
    hide Chooses, IsOverpriced, DecisionOf, StoppedByAnAction, ChoosesNone, Planned, NoneAsked, SessionAt, NextOpen, NewYorkParts,
         FirstShut, SomeShut, SomeUnknown, LeastMinimum;
    LeastOnce(cal, i);
    var m, q := Cases(cal, i);
  }

  /** Which steps wait, for what and until when. */
  lemma DefersExactlyWhen(cal: Calendar, i: Input, retryAt: int)
    ensures DecisionOf(cal, i) == Done(Deferred(DataUnavailable, retryAt))
            <==> && retryAt == i.now + 1_800_000
                 && (|| (ChoosesNone(cal, i) && !SomeShut(i) && SomeUnknown(i))
                     || exists m, q :: Reads(cal, i, m, q) && IsComplete(q) && q.spend <= Planned(cal, i) && q.impact.None?)
    ensures DecisionOf(cal, i) == Done(Deferred(PriceGap, retryAt))
            <==> retryAt == i.now + 1_800_000 && exists m :: Chooses(cal, i, m) && IsOverpriced(cal, i, m)
    ensures DecisionOf(cal, i) == Done(Deferred(QuoteImpact, retryAt))
            <==> && retryAt == i.now + 1_800_000
                 && exists m, q :: Reads(cal, i, m, q) && IsComplete(q) && q.spend <= Planned(cal, i)
                                   && q.impact.Some? && q.impact.value > 1.0 && !MayHalve(i, m, q)
  {
    hide Chooses, IsOverpriced, DecisionOf, StoppedByAnAction, ChoosesNone, Planned, NoneAsked, SessionAt, NextOpen, NewYorkParts,
         FirstShut, SomeShut, SomeUnknown, LeastMinimum;
    var m, q := Cases(cal, i);
  }

  /** Which steps wait for a market to open: for the next session, or for the venue. */
  lemma WaitsExactlyWhen(cal: Calendar, i: Input, retryAt: int)
    ensures DecisionOf(cal, i) == Done(Deferred(MarketClosed, retryAt))
            <==> || (WaitsForTheOpen(cal, i) && OpenWithinReach(cal, i.now) && IsLeastOpenAfter(cal, i.now, retryAt - 120_000))
                 || (ChoosesNone(cal, i) && exists m :: FirstShut(i, m) && retryAt == OpensAgain(i, m))
                 || (ClosedToQuotes(cal, i) && InSession(cal, i) && retryAt == i.now + 1_800_000)
  {
    hide Chooses, IsOverpriced, DecisionOf, StoppedByAnAction, ChoosesNone, Planned, NoneAsked, SessionAt, NextOpen, NewYorkParts,
         FirstShut, SomeShut, SomeUnknown, LeastMinimum;
    hide OpenWithinReach, IsLeastOpenAfter;
    LeastOnce(cal, i);
    ShutOnce(i);
    AfterTheOpenIs(cal, i.now, retryAt);
    var m, q := Cases(cal, i);
  }

  /** Which steps fail, and which throw: no session within reach to wait for, or a plan that can never buy. */
  lemma FailsExactlyWhen(cal: Calendar, i: Input, code: string)
    ensures DecisionOf(cal, i) == Done(Failed(code))
            <==> exists m, q :: Reads(cal, i, m, q) && !IsClosedToQuotes(q) && !IsComplete(q)
                                && code == if q.error.Some? then q.error.value else "QUOTE_INCOMPLETE"
    ensures DecisionOf(cal, i) == Thrown
            <==> IsMisconfigured(cal, i) || (WaitsForTheOpen(cal, i) && !OpenWithinReach(cal, i.now))
  {
    hide Chooses, IsOverpriced, DecisionOf, StoppedByAnAction, ChoosesNone, Planned, NoneAsked, SessionAt, NextOpen, NewYorkParts,
         FirstShut, SomeShut, SomeUnknown, LeastMinimum;
    hide OpenWithinReach, IsLeastOpenAfter;
    LeastOnce(cal, i);
    ShutOnce(i);
    AfterTheOpenIs(cal, i.now, 0);
    var m, q := Cases(cal, i);
  }

  /******* What asking and buying take *******/

  /**
   A step that asks for a quote or buys: the plan is active, due, not expired and not held by a guardian
   rule, in session if it buys in session only; the minimum buy is within every limit, half of it
   outside the session; the market is the plan's, the first of its issuer, trading, refused by no quote
   and, in session, at no premium above 2 %; and no market preferred to it can be bought or is
   under a corporate action.
   */
  lemma AsksOrBuysOnlyWhen(cal: Calendar, i: Input) returns (j: nat, m: Market)
    requires DecisionOf(cal, i).AskQuote? || DecisionOf(cal, i).Execute?
    ensures i.plan.active && i.plan.nextDueAt <= i.now && (i.plan.expiresAt.Some? ==> i.now < i.plan.expiresAt.value)
    ensures i.blocked.None?
    ensures i.plan.regularOnly ==> SessionAt(cal, i.now) == Regular
    ensures i.minBuy <= i.plan.maxPerBuy && i.minBuy <= i.maxPerTx && i.minBuy <= i.dailyRemaining
    ensures SessionAt(cal, i.now) != Regular ==> 2 * i.minBuy <= i.plan.maxPerBuy && 2 * i.minBuy <= i.maxPerTx
    ensures i.plan.mode == Safe ==> i.minBuy <= i.plan.contribution
    ensures i.plan.mode == Yield ==> i.position.Some? && i.plan.principal > 0
    ensures DecisionOf(cal, i).instrument == m.id
    ensures m in i.markets && IsPreferred(i, j, m) && m.ticker == i.plan.ticker && m.issuer in i.plan.issuerPreference
    ensures m.status.openState && m.status.reasonCode == Some("TRADING")
    ensures forall k :: 0 <= k < |i.quotes| && i.quotes[k].instrument == m.id ==> !IsRefusal(i.quotes[k])
    ensures SessionAt(cal, i.now) == Regular && m.onchain.Some? && m.independent.Some? && m.independent.value > 0.0 ==>
              100.0 * m.onchain.value <= 102.0 * m.independent.value
    ensures forall k: nat, other :: k < j && IsPreferred(i, k, other) ==> !IsBarred(i, other) && !Takes(i, other, Planned(cal, i))
  {
    m := WhoIsAsked(cal, i);
    hide SessionAt, DecisionOf, Planned, IsPreferred;
    j :| j < |i.plan.issuerPreference| && IsPreferred(i, j, m) && Takes(i, m, Planned(cal, i)) && PassedOver(i, Planned(cal, i), j);
    PreferredIsListed(i, j, m);
  }

  lemma PreferredIsListed(i: Input, j: nat, m: Market)
    requires IsPreferred(i, j, m)
    ensures m in i.markets && m.ticker == i.plan.ticker && m.issuer in i.plan.issuerPreference
  {
  }

  lemma WhoIsAsked(cal: Calendar, i: Input) returns (m: Market)
    requires DecisionOf(cal, i).AskQuote? || DecisionOf(cal, i).Execute?
    ensures MayBuy(cal, i) && Chooses(cal, i, m) && !IsOverpriced(cal, i, m) && DecisionOf(cal, i).instrument == m.id
    ensures DecisionOf(cal, i).Execute? ==> IsLast(i, m.id, DecisionOf(cal, i).quote)
  {
    hide Chooses, IsOverpriced, DecisionOf, StoppedByAnAction, ChoosesNone, Planned, NoneAsked, SessionAt, NextOpen, NewYorkParts,
         FirstShut, SomeShut, SomeUnknown, LeastMinimum;
    var chosen, q := Cases(cal, i);
    m := chosen.value;
  }

  /** The interest is what the position is worth above the principal, and what was harvested; the contribution pays the rest. */
  predicate BuysFromInterest(i: Input, position: Position, d: Decision)
    requires d.Execute?
  {
    var earned := if position.underlying > i.plan.principal then position.underlying - i.plan.principal else 0;
    && d.interest == Some(if d.spend < earned + position.harvested then d.spend else earned + position.harvested)
    && d.spend - d.interest.value <= i.plan.contribution
    && d.redeem == if d.interest.value > position.harvested then d.interest.value - position.harvested else 0
  }

  /**
   What a buy is: the last quote of its instrument, for what that quote asks, within the limit (half of
   it outside the session), the day, and interest and contribution; the quote complete, of at most 1 %
   impact and at most 25 seconds old. Interest pays first, harvested interest before any is
   redeemed, and what is redeemed is exactly the rest of it. A safe plan redeems nothing.
   */
  lemma WhatABuyIs(cal: Calendar, i: Input)
    requires DecisionOf(cal, i).Execute?
    ensures var d := DecisionOf(cal, i);
            && IsLast(i, d.instrument, d.quote) && d.spend == d.quote.spend
            && d.quote.error.None? && d.quote.quoteId.Some? && d.quote.tokens.Some?
            && d.quote.impact.Some? && d.quote.impact.value <= 1.0 && i.now - d.quote.receivedAt <= 25_000
            && (d.offHours <==> SessionAt(cal, i.now) != Regular)
            && d.spend <= i.plan.maxPerBuy && d.spend <= i.maxPerTx && d.spend <= i.dailyRemaining
            && (d.offHours ==> 2 * d.spend <= i.plan.maxPerBuy && 2 * d.spend <= i.maxPerTx)
            && (i.plan.mode == Safe ==> d.interest == None && d.redeem == 0 && d.spend <= i.plan.contribution)
    ensures i.plan.mode == Yield ==> i.position.Some? && BuysFromInterest(i, i.position.value, DecisionOf(cal, i))
  {
    hide SessionAt, DecisionOf, IsLast, Planned, Interest;
    BuysAGoodQuote(cal, i);
    InterestIs(i);
  }

  lemma InterestIs(i: Input)
    ensures Interest(i) ==
            if i.plan.mode == Safe || i.position.None? then 0
            else
              (if i.position.value.underlying > i.plan.principal then i.position.value.underlying - i.plan.principal else 0)
              + i.position.value.harvested
  {
  }

  lemma BuysAGoodQuote(cal: Calendar, i: Input)
    requires DecisionOf(cal, i).Execute?
    ensures var d := DecisionOf(cal, i);
            && IsLast(i, d.instrument, d.quote) && IsGood(cal, i, d.quote) && d.spend == d.quote.spend
            && PaysWith(i, d.spend, d.interest, d.redeem) && (d.offHours <==> !InSession(cal, i)) && MayBuy(cal, i)
  {
    hide SessionAt, DecisionOf, Chooses, MayBuy, IsLast, IsGood, PaysWith, IsOverpriced;
    var m := WhoIsAsked(cal, i);
    var d := DecisionOf(cal, i);
    BuysExactlyWhen(cal, i, d.instrument, d.spend, d.quote, d.redeem, d.interest, d.offHours);
  }
}
