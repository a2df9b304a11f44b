/**
 Two concrete cycles: one calm run that needs all twelve rounds, and one that signs its approval
 before its redemption.
 */
module RoundsWitnesses {
  import opened Amounts
  import opened Basics
  import opened Decide
  import opened NewYork
  import opened Rounds
  import opened Session
  import opened TwelveRounds

  /** A calendar that covers no year: every instant is off-hours. */
  const CLOSED := Calendar({}, {}, {})

  lemma AlwaysOffHours(now: int)
    ensures SessionAt(CLOSED, now) != Regular
  {
  }

  function MarketNamed(id: string, issuer: Issuer): Market {
    Market(id, "T", issuer, Status(true, Some("TRADING"), None), None, None, None)
  }

  function Named(i: nat): string
    requires i < 3
  {
    ["A", "B", "C"][i]
  }

  const MARKETS := [MarketNamed("A", Bstocks), MarketNamed("B", Ondo), MarketNamed("C", Xstocks)]

  function PlanWith(contribution: nat): Plan {
    Plan(true, None, 0, "T", [Bstocks, Ondo, Xstocks], false, Yield, 100, contribution, 100)
  }

  function Cycle(contribution: nat): Fixed {
    Fixed(CLOSED, PlanWith(contribution), 1, 100, 100, 0, MARKETS, None, None)
  }

  const HIGH := Reply(1, Some("q"), Some(1), Some(2.0), false, None, None)
  const LOW := Reply(1, Some("q"), Some(1), Some(0.0), false, None, None)
  const NO_LIQUIDITY := Reply(1, None, None, None, false, Some("40374"), None)

  /******* What the step answers in these cycles *******/

  function InputFor(contribution: nat, s: Loop, underlying: nat): Input {
    Input(1, PlanWith(contribution), 1, 100, 100, MARKETS, Some(Position(underlying, s.harvested)), None, s.quotes)
  }

  lemma CandidatesAreTheMarkets(input: Input)
    requires input.markets == MARKETS && input.plan.ticker == "T" && input.plan.issuerPreference == [Bstocks, Ondo, Xstocks]
    ensures Candidates(input, input.plan.issuerPreference) == MARKETS
  {
    assert MarketOf(MARKETS, "T", Bstocks) == Some(MARKETS[0]);
    assert MARKETS[1..][0] == MARKETS[1] && MARKETS[1..][1..][0] == MARKETS[2];
    assert MarketOf(MARKETS[1..], "T", Ondo) == Some(MARKETS[1]) && MarketOf(MARKETS, "T", Ondo) == Some(MARKETS[1]);
    assert MarketOf(MARKETS[1..][1..], "T", Xstocks) == Some(MARKETS[2]);
    assert MarketOf(MARKETS[1..], "T", Xstocks) == Some(MARKETS[2]) && MarketOf(MARKETS, "T", Xstocks) == Some(MARKETS[2]);
    assert [Bstocks, Ondo, Xstocks][1..] == [Ondo, Xstocks] && [Ondo, Xstocks][1..] == [Xstocks] && [Xstocks][1..] == [];
    assert Candidates(input, [Xstocks]) == [MARKETS[2]];
    assert Candidates(input, [Ondo, Xstocks]) == [MARKETS[1], MARKETS[2]];
  }

  /** The instruments before the `i`-th are ruled out, it and the later ones are not. */
  predicate OnlyBefore(quotes: seq<Quote>, i: nat) {
    i < 3 && forall j: nat :: j < 3 ==> (IsExcluded(quotes, Named(j)) <==> j < i)
  }

  lemma ScanFinds(quotes: seq<Quote>, i: nat, planned: nat)
    requires OnlyBefore(quotes, i)
    ensures Scanned(MARKETS, quotes, planned) == Chosen(MARKETS[i])
  {
    assert Named(0) == "A" && Named(1) == "B" && Named(2) == "C";
    assert IsExcluded(quotes, Named(0)) <==> 0 < i;
    assert IsExcluded(quotes, Named(1)) <==> 1 < i;
    assert !IsExcluded(quotes, Named(2));
    assert MARKETS[..2] == [MARKETS[0], MARKETS[1]] && MARKETS[..2][..1] == [MARKETS[0]] && MARKETS[..2][..1][..0] == [];
    assert Scanned([], quotes, planned) == NOTHING_SEEN;
    assert Scanned(MARKETS[..2][..1], quotes, planned) == Look(NOTHING_SEEN, MARKETS[0], quotes, planned);
  }

  /** The step comes down to the quotes of the first instrument still in the running. */
  lemma StepIsOnQuote(contribution: nat, s: Loop, underlying: nat, i: nat)
    requires OnlyBefore(s.quotes, i) && contribution <= 50
    requires 100 < underlying <= 150 || contribution > 0
    ensures var input := InputFor(contribution, s, underlying);
            HasPosition(input) && DecisionOf(CLOSED, input) == OnQuote(CLOSED, input, true, MARKETS[i])
  {
    hide OnQuote, SessionAt, Scanned, Candidates;
    var input := InputFor(contribution, s, underlying);
    AlwaysOffHours(1);
    CandidatesAreTheMarkets(input);
    ScanFinds(s.quotes, i, PlannedSpend(input, true));
  }

  lemma RuledOutAfter(quotes: seq<Quote>, q: Quote, id: string)
    ensures IsExcluded(quotes + [q], id) <==> IsExcluded(quotes, id) || (q.instrument == id && RulesOut(q))
  {
    OneMoreExcluded(quotes + [q], |quotes|);
    assert (quotes + [q])[..|quotes| + 1] == quotes + [q] && (quotes + [q])[..|quotes|] == quotes;
  }

  /******* Twelve rounds *******/

  /** The venue's answer in a quote round: too high twice, then no liquidity; for the last instrument a good one. */
  function TightReply(k: nat): Reply {
    if k == 8 then LOW else if k % 3 == 2 then NO_LIQUIDITY else HIGH
  }

  function TightWorld(k: nat): World {
    World(1, if k <= 9 then 108 else 106, Some(TightReply(k)), true, Redeemed(2), Approved, SwapMined(1))
  }

  function TightEnv(): (env: seq<World>)
    ensures |env| == MAX_ROUNDS && forall k :: 0 <= k < MAX_ROUNDS ==> env[k] == TightWorld(k)
  {
    seq(MAX_ROUNDS, (k: nat) => TightWorld(k))
  }

  function SpendOf(h: nat): nat
    requires h < 3
  {
    [8, 4, 2][h]
  }

  /** `h` quotes of the `i`-th instrument so far, all too high. */
  ghost predicate Asking(s: Loop, i: nat, h: nat) {
    && i < 3 && h < 3 && OnlyBefore(s.quotes, i)
    && s == Loop(s.quotes, None, false, false, 0, [])
    && Halvings(s.quotes, Named(i)) == h
    && (forall j :: i < j < 3 ==> LastOwn(s.quotes, Named(j)).None? && Halvings(s.quotes, Named(j)) == 0)
    && (if h == 0 then LastOwn(s.quotes, Named(i)).None?
        else LastOwn(s.quotes, Named(i)).Some?
             && s.quotes[LastOwn(s.quotes, Named(i)).value] == Observed(Named(i), SpendOf(h - 1), HIGH))
    && AllModest(s.quotes)
  }

  predicate AllModest(quotes: seq<Quote>) {
    forall k :: 0 <= k < |quotes| ==> quotes[k].receivedAt == 1 && quotes[k].spend <= 8
  }

  lemma PlansEight(s: Loop, underlying: nat)
    requires underlying + s.harvested == 108 && underlying > 100
    ensures HasPosition(InputFor(0, s, underlying)) && PlannedSpend(InputFor(0, s, underlying), true) == 8
    ensures InterestAvailable(InputFor(0, s, underlying)) == 8
  {
  }

  lemma TightIsCalm(s: Loop, k: nat)
    requires AllModest(s.quotes) && s.harvested == if k <= 9 then 0 else 2
    ensures IsCalm(Cycle(0), s, TightWorld(k))
  {
  }

  lemma AsksTheNext(s: Loop, i: nat, h: nat)
    requires Asking(s, i, h)
    ensures DecisionIn(Cycle(0), s, TightWorld(3 * i + h)) == AskQuote(Named(i), SpendOf(h))
  {
    hide DecisionOf, SessionAt, Halvings, LastOwn, IsExcluded;
    StepIsOnQuote(0, s, 108, i);
    PlansEight(s, 108);
    assert MARKETS[i].id == Named(i);
    assert InputOf(Cycle(0), s, TightWorld(3 * i + h)) == InputFor(0, s, 108);
  }

  /** What one more quote of the `i`-th instrument changes, for each of the three. */
  lemma NextQuote(s: Loop, i: nat, h: nat, q: Quote, j: nat)
    requires i < 3 && h < 3 && j < 3 && !(i == 2 && h == 2)
    requires q == Observed(Named(i), SpendOf(h), TightReply(3 * i + h))
    ensures IsExcluded(s.quotes + [q], Named(j)) <==> IsExcluded(s.quotes, Named(j)) || (j == i && h == 2)
    ensures LastOwn(s.quotes + [q], Named(j)) == if j == i then Some(|s.quotes|) else LastOwn(s.quotes, Named(j))
    ensures Halvings(s.quotes + [q], Named(j)) == Halvings(s.quotes, Named(j)) + if j == i && h < 2 then 1 else 0
  {
  }

  lemma TightQuoteRound(s: Loop, i: nat, h: nat) returns (t: Loop)
    requires Asking(s, i, h) && !(i == 2 && h == 2)
    ensures Round(Cycle(0), s, TightWorld(3 * i + h)) == Continue(t)
    ensures if h < 2 then Asking(t, i, h + 1) else Asking(t, i + 1, 0)
  {
    hide DecisionOf, IsExcluded, LastOwn, Halvings, IsHigh;
    AsksTheNext(s, i, h);
    var q := Observed(Named(i), SpendOf(h), TightReply(3 * i + h));
    t := s.(quotes := s.quotes + [q]);
    forall j: nat | j < 3
      ensures IsExcluded(t.quotes, Named(j)) <==> IsExcluded(s.quotes, Named(j)) || (j == i && h == 2)
      ensures LastOwn(t.quotes, Named(j)) == if j == i then Some(|s.quotes|) else LastOwn(s.quotes, Named(j))
      ensures Halvings(t.quotes, Named(j)) == Halvings(s.quotes, Named(j)) + if j == i && h < 2 then 1 else 0
    {
      NextQuote(s, i, h, q, j);
    }
  }

  /** The last instrument's third quote is good, and the plan buys at it. */
  ghost predicate Buying(s: Loop) {
    && OnlyBefore(s.quotes, 2) && AllModest(s.quotes)
    && LastOwn(s.quotes, "C").Some?
    && s.quotes[LastOwn(s.quotes, "C").value] == Observed("C", 2, LOW)
  }

  lemma LastQuoteRound(s: Loop) returns (t: Loop)
    requires Asking(s, 2, 2)
    ensures Round(Cycle(0), s, TightWorld(8)) == Continue(t) && Buying(t) && t == Loop(t.quotes, None, false, false, 0, [])
  {
    hide DecisionOf, IsExcluded, LastOwn, Halvings, IsHigh;
    AsksTheNext(s, 2, 2);
    var q := Observed("C", 2, LOW);
    t := s.(quotes := s.quotes + [q]);
    assert Named(2) == "C" && SpendOf(2) == 2;
    forall j: nat | j < 3 ensures IsExcluded(t.quotes, Named(j)) <==> IsExcluded(s.quotes, Named(j)) {
      RuledOutAfter(s.quotes, q, Named(j));
      NotRuledOut(q);
    }
    OneMoreQuote(s.quotes, q, "C");
  }

  lemma NotRuledOut(q: Quote)
    requires q.error.None? && !q.rfq
    ensures !RulesOut(q)
  {
  }

  lemma BuysTheLast(s: Loop, k: nat)
    requires Buying(s) && 9 <= k < 12 && s.harvested == if k == 9 then 0 else 2
    ensures var d := DecisionIn(Cycle(0), s, TightWorld(k));
            && d.Execute? && d.instrument == "C" && d.spend == 2 && d.redeem == (if k == 9 then 2 else 0)
  {
    hide DecisionOf, SessionAt, IsExcluded, LastOwn, Halvings;
    var underlying := if k == 9 then 108 else 106;
    StepIsOnQuote(0, s, underlying, 2);
    PlansEight(s, underlying);
    assert MARKETS[2].id == "C";
    assert InputOf(Cycle(0), s, TightWorld(k)) == InputFor(0, s, underlying);
  }

  /** The states of the tight run, round by round: nine quotes, the redemption, the approval. */
  lemma TightRun() returns (states: seq<Loop>)
    ensures |states| == 12 && forall k :: 0 <= k < 12 ==> TightAt(states[k], k)
  {
    hide Round, Asking, Buying;
    var s := Begun(Cycle(0));
    NothingAsked();
    states := [s];
    var n := 0;
    while n < 8
      invariant n <= 8 && |states| == n + 1 && states[n] == s
      invariant Asking(s, n / 3, n % 3)
      invariant forall k :: 0 <= k <= n ==> TightAt(states[k], k)
    {
      var t := TightQuoteRound(s, n / 3, n % 3);
      NextIsReached(s, t, n);
      AskingIsModest(t, (n + 1) / 3, (n + 1) % 3);
      s, states, n := t, states + [t], n + 1;
    }
    var bought := LastQuoteRound(s);
    NextIsReached(s, bought, 8);
    var redeemed, approved := LastRounds(bought);
    states := states + [bought, redeemed, approved];
  }

  ghost predicate TightAt(s: Loop, k: nat) {
    && k <= 12 && After(Cycle(0), TightEnv(), k) == Continue(s)
    && AllModest(s.quotes) && s.harvested == (if k <= 9 then 0 else 2)
  }

  lemma NothingAsked()
    ensures Asking(Begun(Cycle(0)), 0, 0) && TightAt(Begun(Cycle(0)), 0)
  {
  }

  lemma AskingIsModest(s: Loop, i: nat, h: nat)
    requires Asking(s, i, h)
    ensures AllModest(s.quotes) && s.harvested == 0
  {
  }

  lemma NextIsReached(s: Loop, t: Loop, k: nat)
    requires k < 12 && After(Cycle(0), TightEnv(), k) == Continue(s) && Round(Cycle(0), s, TightWorld(k)) == Continue(t)
    ensures After(Cycle(0), TightEnv(), k + 1) == Continue(t)
  {
    hide Round;
    assert TightEnv()[k] == TightWorld(k);
  }

  lemma LastRounds(s: Loop) returns (redeemed: Loop, approved: Loop)
    requires Buying(s) && s == Loop(s.quotes, None, false, false, 0, []) && After(Cycle(0), TightEnv(), 9) == Continue(s)
    ensures TightAt(s, 9) && TightAt(redeemed, 10) && TightAt(approved, 11) && Buying(approved)
    ensures approved.approved && approved.redeemDone && approved.reserved == Some(2)
  {
    hide DecisionOf, After, IsExcluded, LastOwn;
    BuysTheLast(s, 9);
    redeemed := Round(Cycle(0), s, TightWorld(9)).loop;
    NextIsReached(s, redeemed, 9);
    BuysTheLast(redeemed, 10);
    approved := Round(Cycle(0), redeemed, TightWorld(10)).loop;
    NextIsReached(redeemed, approved, 10);
  }

  /** A calm run that is still undecided after eleven rounds, and buys in the twelfth. */
  lemma ElevenRoundsAreNotEnough()
    ensures CalmRun(Cycle(0), TightEnv())
    ensures After(Cycle(0), TightEnv(), 11).Continue?
  {
    hide Round, IsCalm;
    var states := TightRun();
    assert TightAt(states[11], 11);
    forall k ensures CalmAt(Cycle(0), TightEnv(), k) {
      if 0 <= k < 12 {
        assert TightAt(states[k], k) && TightEnv()[k] == TightWorld(k);
        TightIsCalm(states[k], k);
      }
    }
  }

  /******* The approval first *******/

  /** Nothing to redeem when the buy is approved; interest accrues meanwhile. */
  function AccruingEnv(): (env: seq<World>)
    ensures |env| == MAX_ROUNDS
  {
    seq(MAX_ROUNDS, (k: nat) =>
      World(1, if k == 2 then 105 else 100, Some(LOW), true, Redeemed(5), Approved, SwapMined(1)))
  }

  lemma AccruingStep(s: Loop, underlying: nat)
    requires s.quotes == [Observed("A", 10, LOW)] && 100 <= underlying <= 105 && s.harvested <= 5
    ensures var d := DecisionOf(CLOSED, InputFor(10, s, underlying));
            && d.Execute? && d.instrument == "A" && d.spend == 10
            && d.redeem == Min(10, underlying - 100 + s.harvested) - Min(Min(10, underlying - 100 + s.harvested), s.harvested)
  {
    hide DecisionOf, SessionAt;
    var quotes := s.quotes;
    NotRuledOut(quotes[0]);
    assert forall j: nat :: j < 3 ==> !IsExcluded(quotes, Named(j));
    StepIsOnQuote(10, s, underlying, 0);
    assert MARKETS[0].id == "A";
    assert LastOwn(quotes, "A") == Some(0);
  }

  lemma AccruingAsks(s: Loop)
    requires s.quotes == [] && s.harvested == 0
    ensures DecisionOf(CLOSED, InputFor(10, s, 100)) == AskQuote("A", 10)
  {
    hide DecisionOf, SessionAt;
    assert forall j: nat :: j < 3 ==> !IsExcluded(s.quotes, Named(j));
    StepIsOnQuote(10, s, 100, 0);
    assert MARKETS[0].id == "A";
  }

  /** Redeem, approve, swap is the usual order, not the only one: an approval signed when nothing was to be redeemed may come first. */
  lemma ApprovalMayComeFirst()
    ensures var signed := Conclusion(Cycle(10), AccruingEnv()).loop.signed;
            |signed| == 3 && signed[0].kind == Approve && signed[1].kind == Redeem && signed[2].kind == Swap
  {
    hide DecisionOf;
    var f, env := Cycle(10), AccruingEnv();
    var s0 := Begun(f);
    AccruingAsks(s0);
    assert InputOf(f, s0, env[0]) == InputFor(10, s0, 100);
    var s1 := Round(f, s0, env[0]).loop;
    AccruingStep(s1, 100);
    assert InputOf(f, s1, env[1]) == InputFor(10, s1, 100);
    var s2 := Round(f, s1, env[1]).loop;
    AccruingStep(s2, 105);
    assert InputOf(f, s2, env[2]) == InputFor(10, s2, 105);
    var s3 := Round(f, s2, env[2]).loop;
    AccruingStep(s3, 100);
    assert InputOf(f, s3, env[3]) == InputFor(10, s3, 100);
    assert Round(f, s3, env[3]).End?;
    FourRounds(f, env, s0, s1, s2, s3);
  }

  lemma FourRounds(f: Fixed, env: seq<World>, s0: Loop, s1: Loop, s2: Loop, s3: Loop)
    requires |env| == MAX_ROUNDS && s0 == Begun(f)
    requires Round(f, s0, env[0]) == Continue(s1) && Round(f, s1, env[1]) == Continue(s2)
    requires Round(f, s2, env[2]) == Continue(s3) && Round(f, s3, env[3]).End?
    ensures Conclusion(f, env) == Round(f, s3, env[3])
  {
    hide Round;
    assert After(f, env, 1) == Continue(s1);
    assert After(f, env, 2) == Continue(s2);
    assert After(f, env, 3) == Continue(s3);
    Stays(f, env, 4);
  }
}
