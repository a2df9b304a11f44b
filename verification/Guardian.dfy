/**
 The guardian: its rules (core guardian.ts), and the tick that opens and resolves their events
 (the worker's guardian.ts). Readings are exact rationals; a reading that is not a finite number is
 missing.
 */
module Guardian {
  import opened Basics

  datatype Rule = ProtocolPaused | TvlDrop | UtilizationHigh | UsdtDepeg

  datatype Response = RedeemAll | PauseBuys | StopDeposits | Warn

  datatype Venus = Venus(mintPaused: bool, redeemPaused: bool, utilizationBps: nat)

  datatype Tvl = Tvl(nowUsd: Option<real>, dayAgoUsd: Option<real>)

  datatype Usdt = Usdt(priceUsd: Option<real>, belowPegSince: Option<int>)

  datatype Inputs = Inputs(now: int, venus: Option<Venus>, tvl: Option<Tvl>, usdt: Option<Usdt>)

  datatype Action = Action(rule: Rule, response: Response)

  const TVL_DROP_PCT: real := 30.0
  const UTILIZATION_LIMIT_BPS: nat := 9_500
  const USDT_PEG_FLOOR: real := 0.99
  const USDT_DEPEG_MS: int := 30 * 60_000

  /******* The rules *******/

  /** There is a reading and it is positive; any other is as good as none. */
  predicate Usable(value: Option<real>) {
    value.Some? && value.value > 0.0
  }

  predicate TvlUsable(inputs: Inputs) {
    inputs.tvl.Some? && Usable(inputs.tvl.value.nowUsd) && Usable(inputs.tvl.value.dayAgoUsd)
  }

  predicate UsdtUsable(inputs: Inputs) {
    inputs.usdt.Some? && Usable(inputs.usdt.value.priceUsd)
  }

  /** The rules whose readings are missing or unusable. */
  function UnevaluatedRules(inputs: Inputs): set<Rule> {
    (if inputs.venus.None? then {ProtocolPaused, UtilizationHigh} else {})
    + (if !TvlUsable(inputs) then {TvlDrop} else {})
    + (if !UsdtUsable(inputs) then {UsdtDepeg} else {})
  }

  /** What the rules call for, at most one action each. */
  function EvaluateGuardian(inputs: Inputs): (actions: seq<Action>)
    ensures forall i, j :: 0 <= i < j < |actions| ==> actions[i].rule != actions[j].rule
  {
    var venus := inputs.venus;
    (if venus.Some? && (venus.value.mintPaused || venus.value.redeemPaused)
     then [Action(ProtocolPaused, if venus.value.redeemPaused then PauseBuys else RedeemAll)] else [])
    + (if TvlUsable(inputs)
          && (inputs.tvl.value.nowUsd.value / inputs.tvl.value.dayAgoUsd.value - 1.0) * 100.0 <= -TVL_DROP_PCT
       then [Action(TvlDrop, RedeemAll)] else [])
    + (if venus.Some? && venus.value.utilizationBps > UTILIZATION_LIMIT_BPS
       then [Action(UtilizationHigh, StopDeposits)] else [])
    + (if UsdtUsable(inputs) && inputs.usdt.value.priceUsd.value < USDT_PEG_FLOOR
          && inputs.usdt.value.belowPegSince.Some? && inputs.now - inputs.usdt.value.belowPegSince.value >= USDT_DEPEG_MS
       then [Action(UsdtDepeg, PauseBuys)] else [])
  }

  predicate Fires(actions: seq<Action>, rule: Rule) {
    exists k :: 0 <= k < |actions| && actions[k].rule == rule
  }

  /** A rule that fires was evaluated: missing data neither opens nor closes anything. */
  lemma FiringIsEvaluated(inputs: Inputs, rule: Rule)
    requires Fires(EvaluateGuardian(inputs), rule)
    ensures rule !in UnevaluatedRules(inputs)
  {
  }

  /** The TVL rule without its division: the drop is at least 30 % of what it was a day ago. */
  lemma TvlDropsByThirtyPercent(inputs: Inputs)
    requires TvlUsable(inputs)
    ensures Fires(EvaluateGuardian(inputs), TvlDrop) <==>
            10.0 * inputs.tvl.value.nowUsd.value <= 7.0 * inputs.tvl.value.dayAgoUsd.value
  {
    var now, ago := inputs.tvl.value.nowUsd.value, inputs.tvl.value.dayAgoUsd.value;
    var ratio := now / ago;
    assert ratio * ago == now;
    if ratio <= 0.7 {
      assert ratio * ago <= 0.7 * ago;
      var k := if inputs.venus.Some? && (inputs.venus.value.mintPaused || inputs.venus.value.redeemPaused) then 1 else 0;
      assert EvaluateGuardian(inputs)[k].rule == TvlDrop;
    } else {
      assert ratio * ago > 0.7 * ago;
    }
  }

  /** What each rule calls for, exactly when. */
  lemma RulesCallExactlyWhen(inputs: Inputs)
    ensures var actions, venus := EvaluateGuardian(inputs), inputs.venus;
            && (Action(ProtocolPaused, PauseBuys) in actions <==> venus.Some? && venus.value.redeemPaused)
            && (Action(ProtocolPaused, RedeemAll) in actions <==> venus.Some? && venus.value.mintPaused && !venus.value.redeemPaused)
            && (Action(UtilizationHigh, StopDeposits) in actions <==> venus.Some? && venus.value.utilizationBps > 9_500)
    ensures Action(TvlDrop, RedeemAll) in EvaluateGuardian(inputs)
            <==> && inputs.tvl.Some? && inputs.tvl.value.nowUsd.Some? && inputs.tvl.value.dayAgoUsd.Some?
                 && inputs.tvl.value.nowUsd.value > 0.0 && inputs.tvl.value.dayAgoUsd.value > 0.0
                 && 10.0 * inputs.tvl.value.nowUsd.value <= 7.0 * inputs.tvl.value.dayAgoUsd.value
    ensures Action(UsdtDepeg, PauseBuys) in EvaluateGuardian(inputs)
            <==> && inputs.usdt.Some? && inputs.usdt.value.priceUsd.Some? && 0.0 < inputs.usdt.value.priceUsd.value < 0.99
                 && inputs.usdt.value.belowPegSince.Some? && inputs.now - inputs.usdt.value.belowPegSince.value >= 1_800_000
    ensures forall action :: action in EvaluateGuardian(inputs) ==>
              action in {Action(ProtocolPaused, PauseBuys), Action(ProtocolPaused, RedeemAll), Action(TvlDrop, RedeemAll),
                         Action(UtilizationHigh, StopDeposits), Action(UsdtDepeg, PauseBuys)}
  {
    hide EvaluateGuardian;
    if TvlUsable(inputs) {
      SeventyPercent(inputs.tvl.value.nowUsd.value, inputs.tvl.value.dayAgoUsd.value);
    }
    forall action ensures action in EvaluateGuardian(inputs) <==> IsCalledFor(inputs, action) {
      CalledForIsEvaluated(inputs, action);
    }
  }

  /** The rules one by one. */
  predicate IsCalledFor(inputs: Inputs, action: Action) {
    match action.rule
    case ProtocolPaused =>
      && inputs.venus.Some? && (inputs.venus.value.mintPaused || inputs.venus.value.redeemPaused)
      && action.response == if inputs.venus.value.redeemPaused then PauseBuys else RedeemAll
    case TvlDrop =>
      && TvlUsable(inputs) && action.response == RedeemAll
      && (inputs.tvl.value.nowUsd.value / inputs.tvl.value.dayAgoUsd.value - 1.0) * 100.0 <= -30.0
    case UtilizationHigh =>
      inputs.venus.Some? && inputs.venus.value.utilizationBps > 9_500 && action.response == StopDeposits
    case UsdtDepeg =>
      && UsdtUsable(inputs) && inputs.usdt.value.priceUsd.value < 0.99 && action.response == PauseBuys
      && inputs.usdt.value.belowPegSince.Some? && inputs.now - inputs.usdt.value.belowPegSince.value >= 1_800_000
  }

  lemma CalledForIsEvaluated(inputs: Inputs, action: Action)
    ensures action in EvaluateGuardian(inputs) <==> IsCalledFor(inputs, action)
  {
  }

  lemma SeventyPercent(now: real, ago: real)
    requires ago > 0.0
    ensures (now / ago - 1.0) * 100.0 <= -30.0 <==> 10.0 * now <= 7.0 * ago
  {
    var ratio := now / ago;
    assert ratio * ago == now;
    if ratio <= 0.7 {
      assert ratio * ago <= 0.7 * ago;
    } else {
      assert ratio * ago > 0.7 * ago;
    }
  }

  /** Which rules a tick leaves as they are: those without a positive reading. */
  lemma UnevaluatedExactlyWhen(inputs: Inputs)
    ensures ProtocolPaused in UnevaluatedRules(inputs) <==> inputs.venus.None?
    ensures UtilizationHigh in UnevaluatedRules(inputs) <==> inputs.venus.None?
    ensures TvlDrop !in UnevaluatedRules(inputs)
            <==> && inputs.tvl.Some? && inputs.tvl.value.nowUsd.Some? && inputs.tvl.value.dayAgoUsd.Some?
                 && inputs.tvl.value.nowUsd.value > 0.0 && inputs.tvl.value.dayAgoUsd.value > 0.0
    ensures UsdtDepeg !in UnevaluatedRules(inputs)
            <==> inputs.usdt.Some? && inputs.usdt.value.priceUsd.Some? && inputs.usdt.value.priceUsd.value > 0.0
  {
  }

  /******* Events *******/

  datatype EventRule = OfRule(rule: Rule) | MultiplierChanged

  /** An event; `plan` is none for a global one. Events are in the order they were inserted. */
  datatype Event = Event(rule: EventRule, response: Response, plan: Option<string>, isOpen: bool)

  const LIST_LIMIT: nat := 500

  predicate IsGlobal(e: Event, rule: Rule) {
    e.isOpen && e.plan.None? && e.rule == OfRule(rule)
  }

  /** The newest open events, at most `limit` of them, newest first. */
  function ListOpen(events: seq<Event>, limit: nat): seq<Event> {
    if |events| == 0 || limit == 0 then []
    else
      var last := events[|events| - 1];
      if last.isOpen then [last] + ListOpen(events[..|events| - 1], limit - 1)
      else ListOpen(events[..|events| - 1], limit)
  }

  /** The rules with a global event among the open ones listed. */
  function SeenRules(events: seq<Event>): set<Rule> {
    set e | e in ListOpen(events, LIST_LIMIT) && e.plan.None? && e.rule.OfRule? :: e.rule.rule
  }

  /** How many global events a rule has open. */
  function OpenCount(events: seq<Event>, rule: Rule): nat {
    if |events| == 0 then 0
    else OpenCount(events[..|events| - 1], rule) + if IsGlobal(events[|events| - 1], rule) then 1 else 0
  }

  /** resolveGuardianEvents: closes every open event of a rule, whichever plan it is of. */
  function Resolved(events: seq<Event>, rules: set<Rule>): (r: seq<Event>)
    ensures |r| == |events|
  {
    seq(|events|, (k: nat) requires k < |events| =>
      if events[k].rule.OfRule? && events[k].rule.rule in rules then events[k].(isOpen := false) else events[k])
  }

  function Opened(actions: seq<Action>, seen: set<Rule>): seq<Event> {
    if |actions| == 0 then []
    else
      var last := actions[|actions| - 1];
      Opened(actions[..|actions| - 1], seen)
      + if last.rule in seen then [] else [Event(OfRule(last.rule), last.response, None, true)]
  }

  /** The rules a tick resolves: open among those listed, evaluated, and quiet. */
  function Quieted(events: seq<Event>, actions: seq<Action>, unevaluated: set<Rule>): set<Rule> {
    set rule | rule in SeenRules(events) && !Fires(actions, rule) && rule !in unevaluated
  }

  /** The events after a tick. */
  function Ticked(events: seq<Event>, inputs: Inputs): seq<Event> {
    var actions := EvaluateGuardian(inputs);
    Resolved(events, Quieted(events, actions, UnevaluatedRules(inputs))) + Opened(actions, SeenRules(events))
  }

  class GuardianEvents {
    var events: seq<Event>

    constructor ()
      ensures events == []
    {
      events := [];
    }

    method Insert(rule: EventRule, response: Response, plan: Option<string>)
      modifies this
      ensures events == old(events) + [Event(rule, response, plan, true)]
    {
      events := events + [Event(rule, response, plan, true)];
    }

    method Resolve(rule: Rule)
      modifies this
      ensures events == Resolved(old(events), {rule})
    {
      var was := events;
      events := seq(|was|, (k: nat) requires k < |was| =>
                      if was[k].rule == OfRule(rule) then was[k].(isOpen := false) else was[k]);
    }

    /** Closes what is open of each listed rule that had its readings and does not fire. */
    method ResolveQuiet(seen: set<Rule>, actions: seq<Action>, unevaluated: set<Rule>)
      modifies this
      ensures events == Resolved(old(events), set rule | rule in seen && !Fires(actions, rule) && rule !in unevaluated)
    {
      hide Fires;
      ghost var was := events;
      ghost var quiet := set rule | rule in seen && !Fires(actions, rule) && rule !in unevaluated;
      var todo := seen;
      assert quiet - todo == {};
      assert Resolved(was, {}) == was;
      while todo != {}
        invariant todo <= seen && events == Resolved(was, quiet - todo)
        decreases |todo|
      {
        var rule :| rule in todo;
        ghost var closed := quiet - todo;
        todo := todo - {rule};
        if !Fires(actions, rule) && rule !in unevaluated {
          ResolvedTwice(was, closed, rule);
          assert quiet - todo == closed + {rule};
          Resolve(rule);
        } else {
          assert quiet - todo == closed;
        }
      }
      assert quiet - {} == quiet;
    }

    method OpenNew(actions: seq<Action>, seen: set<Rule>) returns (raised: seq<Rule>)
      modifies this
      ensures events == old(events) + Opened(actions, seen)
    {
      raised := [];
      for k := 0 to |actions|
        invariant events == old(events) + Opened(actions[..k], seen)
      {
        assert actions[..k + 1][..k] == actions[..k];
        if actions[k].rule !in seen {
          Insert(OfRule(actions[k].rule), actions[k].response, None);
          raised := raised + [actions[k].rule];
        }
      }
      assert actions[..|actions|] == actions;
    }

    /** One tick: resolves the quiet rules, opens those that fire and are not open. */
    method Tick(inputs: Inputs) returns (raised: seq<Rule>)
      modifies this
      ensures events == Ticked(old(events), inputs)
    {
      var actions := EvaluateGuardian(inputs);
      var seen := SeenRules(events);
      ResolveQuiet(seen, actions, UnevaluatedRules(inputs));
      raised := OpenNew(actions, seen);
    }
  }

  lemma ResolvedTwice(events: seq<Event>, rules: set<Rule>, rule: Rule)
    ensures Resolved(Resolved(events, rules), {rule}) == Resolved(events, rules + {rule})
  {
  }

  /******* What one tick does *******/

  lemma {:induction false} CountAfterResolve(events: seq<Event>, rules: set<Rule>, rule: Rule)
    ensures OpenCount(Resolved(events, rules), rule) == if rule in rules then 0 else OpenCount(events, rule)
  {
    if |events| > 0 {
      var n := |events| - 1;
      CountAfterResolve(events[..n], rules, rule);
      assert Resolved(events, rules)[..n] == Resolved(events[..n], rules);
    }
  }

  lemma {:induction false} CountOfBoth(a: seq<Event>, b: seq<Event>, rule: Rule)
    ensures OpenCount(a + b, rule) == OpenCount(a, rule) + OpenCount(b, rule)
  {
    if |b| > 0 {
      CountOfBoth(a, b[..|b| - 1], rule);
      assert (a + b)[..|a + b| - 1] == a + b[..|b| - 1];
    } else {
      assert a + b == a;
    }
  }

  lemma CountOfOne(events: seq<Event>, rule: Rule)
    requires |events| <= 1
    ensures OpenCount(events, rule) == if |events| == 1 && IsGlobal(events[0], rule) then 1 else 0
  {
  }

  lemma LastFires(actions: seq<Action>, rule: Rule)
    requires |actions| > 0 && forall i, j :: 0 <= i < j < |actions| ==> actions[i].rule != actions[j].rule
    ensures var n := |actions| - 1;
            && (Fires(actions, rule) <==> Fires(actions[..n], rule) || actions[n].rule == rule)
            && (actions[n].rule == rule ==> !Fires(actions[..n], rule))
  {
  }

  lemma {:induction false} CountOpened(actions: seq<Action>, seen: set<Rule>, rule: Rule)
    requires forall i, j :: 0 <= i < j < |actions| ==> actions[i].rule != actions[j].rule
    ensures OpenCount(Opened(actions, seen), rule) == if Fires(actions, rule) && rule !in seen then 1 else 0
  {
    if |actions| > 0 {
      var n := |actions| - 1;
      var before := actions[..n];
      CountOpened(before, seen, rule);
      var more := if actions[n].rule in seen then [] else [Event(OfRule(actions[n].rule), actions[n].response, None, true)];
      CountOfBoth(Opened(before, seen), more, rule);
      CountOfOne(more, rule);
      LastFires(actions, rule);
    }
  }

  /** How many events a rule has open after a tick. */
  lemma CountAfterTick(events: seq<Event>, inputs: Inputs, rule: Rule)
    ensures var fires := Fires(EvaluateGuardian(inputs), rule);
            var seen := rule in SeenRules(events);
            OpenCount(Ticked(events, inputs), rule)
            == (if seen && !fires && rule !in UnevaluatedRules(inputs) then 0 else OpenCount(events, rule))
               + (if fires && !seen then 1 else 0)
  {
    var actions := EvaluateGuardian(inputs);
    var quieted := Quieted(events, actions, UnevaluatedRules(inputs));
    CountAfterResolve(events, quieted, rule);
    CountOpened(actions, SeenRules(events), rule);
    CountOfBoth(Resolved(events, quieted), Opened(actions, SeenRules(events)), rule);
  }

  /** The event is open, with fewer than `limit` open ones after it. */
  predicate IsAmongTheNewest(events: seq<Event>, limit: nat, k: nat) {
    k < |events| && events[k].isOpen && AllOpen(events[k + 1..]) < limit
  }

  lemma NewestButOne(events: seq<Event>, limit: nat, k: nat)
    requires limit > 0 && k < |events| - 1
    ensures var n := |events| - 1;
            IsAmongTheNewest(events, limit, k)
            <==> IsAmongTheNewest(events[..n], if events[n].isOpen then limit - 1 else limit, k)
  {
    var n := |events| - 1;
    var newer := events[k + 1..];
    assert newer[..|newer| - 1] == events[..n][k + 1..];
    assert newer[|newer| - 1] == events[n];
  }

  /** What is listed is the newest of what is open. */
  lemma {:induction false} ListedAreTheNewest(events: seq<Event>, limit: nat, e: Event)
    ensures e in ListOpen(events, limit) <==> exists k: nat :: IsAmongTheNewest(events, limit, k) && events[k] == e
  {
    if |events| > 0 && limit > 0 {
      var n := |events| - 1;
      var rest := if events[n].isOpen then limit - 1 else limit;
      ListedAreTheNewest(events[..n], rest, e);
      forall k: nat | k < n ensures IsAmongTheNewest(events, limit, k) <==> IsAmongTheNewest(events[..n], rest, k) {
        NewestButOne(events, limit, k);
      }
      assert events[n + 1..] == [];
      assert IsAmongTheNewest(events, limit, n) <==> events[n].isOpen;
      hide IsAmongTheNewest, AllOpen;
      if e in ListOpen(events[..n], rest) {
        var k: nat :| IsAmongTheNewest(events[..n], rest, k) && events[..n][k] == e;
        InBounds(events[..n], rest, k);
        assert IsAmongTheNewest(events, limit, k) && events[k] == e;
      }
      if k: nat :| IsAmongTheNewest(events, limit, k) && events[k] == e {
        InBounds(events, limit, k);
        if k < n {
          assert IsAmongTheNewest(events[..n], rest, k) && events[..n][k] == e;
        }
      }
    }
  }

  lemma InBounds(events: seq<Event>, limit: nat, k: nat)
    ensures IsAmongTheNewest(events, limit, k) ==> k < |events|
  {
  }

  /** The event is opened for an action of a rule not seen open. */
  predicate IsOpening(actions: seq<Action>, seen: set<Rule>, e: Event) {
    exists action :: action in actions && action.rule !in seen && e == Event(OfRule(action.rule), action.response, None, true)
  }

  /**
   What a tick leaves of every event: one is closed when it is of a rule seen open, evaluated and quiet, and
   is else as it was; behind them stands one new event for each action of a rule not seen open.
   */
  lemma WhatATickLeaves(events: seq<Event>, inputs: Inputs)
    ensures var after, actions, seen := Ticked(events, inputs), EvaluateGuardian(inputs), SeenRules(events);
            && |after| >= |events|
            && (forall k :: 0 <= k < |events| ==>
                  after[k] == if events[k].rule.OfRule? && events[k].rule.rule in seen && !Fires(actions, events[k].rule.rule)
                                 && events[k].rule.rule !in UnevaluatedRules(inputs)
                              then events[k].(isOpen := false) else events[k])
            && (forall e :: e in after[|events|..] <==> IsOpening(actions, seen, e))
  {
    hide EvaluateGuardian, UnevaluatedRules, SeenRules, Fires;
    var actions, seen := EvaluateGuardian(inputs), SeenRules(events);
    assert Ticked(events, inputs)[|events|..] == Opened(actions, seen);
    forall e ensures e in Opened(actions, seen) <==> IsOpening(actions, seen, e) {
      OpenedAre(actions, seen, e);
    }
  }

  lemma {:induction false} OpenedAre(actions: seq<Action>, seen: set<Rule>, e: Event)
    ensures e in Opened(actions, seen) <==> IsOpening(actions, seen, e)
  {
    if |actions| > 0 {
      OpenedAre(actions[..|actions| - 1], seen, e);
      assert actions == actions[..|actions| - 1] + [actions[|actions| - 1]];
    }
  }

  /** The rule's open event, if it has one, is among those the tick lists. */
  predicate IsVisible(events: seq<Event>, rule: Rule) {
    OpenCount(events, rule) > 0 ==> rule in SeenRules(events)
  }

  /** What should be open: what fired, or what was open when the rule could not be evaluated. */
  function Expected(was: nat, inputs: Inputs, rule: Rule): nat {
    if rule in UnevaluatedRules(inputs) then was
    else if Fires(EvaluateGuardian(inputs), rule) then 1 else 0
  }

  /** A tick gets a rule right exactly when its open event was listed, or the rule was not evaluated. */
  lemma TickIsRight(events: seq<Event>, inputs: Inputs, rule: Rule)
    requires OpenCount(events, rule) <= 1
    ensures OpenCount(Ticked(events, inputs), rule) == Expected(OpenCount(events, rule), inputs, rule)
            <==> IsVisible(events, rule) || rule in UnevaluatedRules(inputs)
  {
    CountAfterTick(events, inputs, rule);
    if rule in SeenRules(events) {
      SeenIsOpen(events, rule);
    }
    if Fires(EvaluateGuardian(inputs), rule) {
      FiringIsEvaluated(inputs, rule);
    }
  }

  lemma SeenIsOpen(events: seq<Event>, rule: Rule)
    requires rule in SeenRules(events)
    ensures OpenCount(events, rule) > 0
  {
    var e :| e in ListOpen(events, LIST_LIMIT) && e.plan.None? && e.rule == OfRule(rule);
    ListedIsOpen(events, LIST_LIMIT, e, rule);
  }

  lemma {:induction false} ListedIsOpen(events: seq<Event>, limit: nat, e: Event, rule: Rule)
    requires e in ListOpen(events, limit) && e.plan.None? && e.rule == OfRule(rule)
    ensures OpenCount(events, rule) > 0
  {
    var n := |events| - 1;
    if !(events[n].isOpen && events[n] == e) {
      ListedIsOpen(events[..n], if events[n].isOpen then limit - 1 else limit, e, rule);
    }
  }

  /******* Runs *******/

  /** What happens to the events: a tick, or a plan's multiplier warning, which nothing ever resolves. */
  datatype Happening = TickOf(inputs: Inputs) | PlanWarning(plan: string)

  function EventsAfter(run: seq<Happening>): seq<Event> {
    if |run| == 0 then []
    else
      var before, last := EventsAfter(run[..|run| - 1]), run[|run| - 1];
      match last
      case TickOf(inputs) => Ticked(before, inputs)
      case PlanWarning(plan) => before + [Event(MultiplierChanged, Warn, Some(plan), true)]
  }

  /** Whether the rule fired at its most recent tick that could evaluate it; not, if there was none. */
  predicate LastFired(run: seq<Happening>, rule: Rule) {
    |run| > 0 &&
    var last := run[|run| - 1];
    if last.TickOf? && rule !in UnevaluatedRules(last.inputs) then Fires(EvaluateGuardian(last.inputs), rule)
    else LastFired(run[..|run| - 1], rule)
  }

  /** At every tick of the run at most `LIST_LIMIT` events are open, so none is cut off the list. */
  ghost predicate FitsTheList(run: seq<Happening>) {
    forall k :: 0 <= k < |run| && run[k].TickOf? ==> AllOpen(EventsAfter(run[..k])) <= LIST_LIMIT
  }

  function AllOpen(events: seq<Event>): nat {
    if |events| == 0 then 0
    else AllOpen(events[..|events| - 1]) + if events[|events| - 1].isOpen then 1 else 0
  }

  lemma {:induction false} AllAreListed(events: seq<Event>, limit: nat, rule: Rule)
    requires AllOpen(events) <= limit && OpenCount(events, rule) > 0
    ensures exists e :: e in ListOpen(events, limit) && IsGlobal(e, rule)
  {
    var n := |events| - 1;
    if IsGlobal(events[n], rule) {
      assert events[n] in ListOpen(events, limit);
    } else {
      var rest := if events[n].isOpen then limit - 1 else limit;
      AllAreListed(events[..n], rest, rule);
      var e :| e in ListOpen(events[..n], rest) && IsGlobal(e, rule);
      assert e in ListOpen(events, limit);
    }
  }

  lemma FewEnoughAreVisible(events: seq<Event>, rule: Rule)
    requires AllOpen(events) <= LIST_LIMIT
    ensures IsVisible(events, rule)
  {
    if OpenCount(events, rule) > 0 {
      AllAreListed(events, LIST_LIMIT, rule);
      var e :| e in ListOpen(events, LIST_LIMIT) && IsGlobal(e, rule);
      assert e.rule.rule in SeenRules(events);
    }
  }

  /** At every tick that could evaluate the rule, its open event was among those listed. */
  predicate SeenWhenEvaluated(run: seq<Happening>, rule: Rule) {
    forall k :: 0 <= k < |run| ==> SeenAt(run, rule, k)
  }

  predicate SeenAt(run: seq<Happening>, rule: Rule, k: nat)
    requires k < |run|
  {
    run[k].TickOf? && rule !in UnevaluatedRules(run[k].inputs) ==> IsVisible(EventsAfter(run[..k]), rule)
  }

  /** After the first `k` happenings the rule is open exactly when it last fired, and once. */
  predicate RightAfter(run: seq<Happening>, rule: Rule, k: nat)
    requires k <= |run|
  {
    OpenCount(EventsAfter(run[..k]), rule) == if LastFired(run[..k], rule) then 1 else 0
  }

  predicate AlwaysRight(run: seq<Happening>, rule: Rule) {
    forall k :: 0 <= k <= |run| ==> RightAfter(run, rule, k)
  }

  lemma OneMoreHappening(run: seq<Happening>, rule: Rule)
    requires |run| > 0 && RightAfter(run, rule, |run| - 1)
    ensures RightAfter(run, rule, |run|) <==> SeenAt(run, rule, |run| - 1)
  {
    hide EvaluateGuardian, UnevaluatedRules, Ticked, SeenRules;
    var before, last := run[..|run| - 1], run[|run| - 1];
    assert run[..|run|] == run;
    match last {
      case TickOf(inputs) => TickIsRight(EventsAfter(before), inputs, rule);
      case PlanWarning(plan) =>
        var warning := Event(MultiplierChanged, Warn, Some(plan), true);
        assert (EventsAfter(before) + [warning])[..|EventsAfter(before)|] == EventsAfter(before);
    }
  }

  /**
   All through a run a rule is open exactly when it last fired, and once, if and only if every tick
   that could evaluate it saw its open event.
   */
  lemma {:induction false} OpenMeansLastFired(run: seq<Happening>, rule: Rule)
    ensures AlwaysRight(run, rule) <==> SeenWhenEvaluated(run, rule)
  {
    hide OpenCount, EventsAfter, LastFired, IsVisible, UnevaluatedRules;
    if |run| == 0 {
      NothingIsRight(run, rule);
    } else {
      var n := |run| - 1;
      var before := run[..n];
      OpenMeansLastFired(before, rule);
      forall k | 0 <= k <= n ensures RightAfter(run, rule, k) <==> RightAfter(before, rule, k) {
        assert run[..k] == before[..k];
      }
      forall k | 0 <= k < n ensures SeenAt(run, rule, k) <==> SeenAt(before, rule, k) {
        assert run[..k] == before[..k];
      }
      if AlwaysRight(before, rule) {
        OneMoreHappening(run, rule);
      }
    }
  }

  lemma NothingIsRight(run: seq<Happening>, rule: Rule)
    requires |run| == 0
    ensures RightAfter(run, rule, 0)
  {
  }

  /** A run in which no tick finds more events open than the list holds always sees them. */
  lemma FittingRunsAreSeen(run: seq<Happening>, rule: Rule)
    requires FitsTheList(run)
    ensures SeenWhenEvaluated(run, rule)
  {
    forall k | 0 <= k < |run| ensures SeenAt(run, rule, k) {
      if run[k].TickOf? {
        FewEnoughAreVisible(EventsAfter(run[..k]), rule);
      }
    }
  }

  /** Beyond the list: once `LIST_LIMIT` plan warnings are newer, a global event is neither closed nor recognised. */
  lemma {:induction false} WarningsHideWhatIsOlder(events: seq<Event>, plans: seq<string>, limit: nat)
    requires |plans| >= limit
    ensures forall e :: e in ListOpen(events + Warnings(plans), limit) ==> e.plan.Some?
  {
    if |plans| > 0 && limit > 0 {
      var all := events + Warnings(plans);
      assert all[..|all| - 1] == events + Warnings(plans[..|plans| - 1]);
      WarningsHideWhatIsOlder(events, plans[..|plans| - 1], limit - 1);
    }
  }

  function Warnings(plans: seq<string>): seq<Event> {
    seq(|plans|, (k: nat) requires k < |plans| => Event(MultiplierChanged, Warn, Some(plans[k]), true))
  }

  /** So a calm tick leaves it open and blocking, and a firing one opens it a second time. */
  lemma HiddenEventsGoWrong(events: seq<Event>, plans: seq<string>, inputs: Inputs, rule: Rule)
    requires OpenCount(events, rule) == 1 && |plans| >= LIST_LIMIT && rule !in UnevaluatedRules(inputs)
    ensures OpenCount(Ticked(events + Warnings(plans), inputs), rule) == if Fires(EvaluateGuardian(inputs), rule) then 2 else 1
  {
    var all := events + Warnings(plans);
    WarningsHideWhatIsOlder(events, plans, LIST_LIMIT);
    assert rule !in SeenRules(all);
    NoGlobalWarnings(plans, rule);
    CountOfBoth(events, Warnings(plans), rule);
    CountAfterTick(all, inputs, rule);
  }

  lemma {:induction false} NoGlobalWarnings(plans: seq<string>, rule: Rule)
    ensures OpenCount(Warnings(plans), rule) == 0
  {
    if |plans| > 0 {
      assert Warnings(plans)[..|plans| - 1] == Warnings(plans[..|plans| - 1]);
      NoGlobalWarnings(plans[..|plans| - 1], rule);
    }
  }

  /******* What buying waits for *******/

  predicate Blocks(response: Response) {
    response.PauseBuys? || response.RedeemAll?
  }

  /** The verdict on a plan: the first open event, its own or a global one, that blocks buying. */
  function VerdictFor(events: seq<Event>, plan: string): Option<EventRule> {
    if |events| == 0 then None
    else
      var earlier, last := VerdictFor(events[..|events| - 1], plan), events[|events| - 1];
      if earlier.Some? then earlier
      else if last.isOpen && (last.plan.None? || last.plan == Some(plan)) && Blocks(last.response) then Some(last.rule)
      else None
  }

  /** It is the oldest open event, global or the plan's own, that pauses buying or redeems all. */
  lemma {:induction false} VerdictIsTheFirst(events: seq<Event>, plan: string)
    ensures VerdictFor(events, plan).None? <==> forall k :: 0 <= k < |events| ==> !HoldsUp(events[k], plan)
    ensures VerdictFor(events, plan).Some? ==>
              exists k :: 0 <= k < |events| && HoldsUp(events[k], plan) && VerdictFor(events, plan) == Some(events[k].rule)
                          && forall j :: 0 <= j < k ==> !HoldsUp(events[j], plan)
  {
    if |events| > 0 {
      VerdictIsTheFirst(events[..|events| - 1], plan);
    }
  }

  predicate HoldsUp(e: Event, plan: string) {
    e.isOpen && e.plan in {None, Some(plan)} && e.response in {PauseBuys, RedeemAll}
  }

  /** Every event's response blocks buying exactly when its rule is one that does. */
  predicate ResponseFits(e: Event) {
    match e.rule
    case OfRule(rule) => e.plan.None? && (Blocks(e.response) <==> rule != UtilizationHigh)
    case MultiplierChanged => e.plan.Some? && !Blocks(e.response)
  }

  predicate ResponsesFit(events: seq<Event>) {
    forall k :: 0 <= k < |events| ==> ResponseFits(events[k])
  }

  lemma {:induction false} OpenedFit(actions: seq<Action>, seen: set<Rule>)
    requires forall k :: 0 <= k < |actions| ==> (Blocks(actions[k].response) <==> actions[k].rule != UtilizationHigh)
    ensures ResponsesFit(Opened(actions, seen))
  {
    if |actions| > 0 {
      OpenedFit(actions[..|actions| - 1], seen);
    }
  }

  lemma ActionsFit(inputs: Inputs, k: nat)
    requires k < |EvaluateGuardian(inputs)|
    ensures Blocks(EvaluateGuardian(inputs)[k].response) <==> EvaluateGuardian(inputs)[k].rule != UtilizationHigh
  {
  }

  lemma TickFits(events: seq<Event>, inputs: Inputs)
    requires ResponsesFit(events)
    ensures ResponsesFit(Ticked(events, inputs))
  {
    hide EvaluateGuardian, SeenRules, UnevaluatedRules;
    forall k | 0 <= k < |EvaluateGuardian(inputs)|
      ensures Blocks(EvaluateGuardian(inputs)[k].response) <==> EvaluateGuardian(inputs)[k].rule != UtilizationHigh
    {
      ActionsFit(inputs, k);
    }
    OpenedFit(EvaluateGuardian(inputs), SeenRules(events));
  }

  lemma {:induction false} ResponsesAlwaysFit(run: seq<Happening>)
    ensures ResponsesFit(EventsAfter(run))
  {
    hide Ticked;
    if |run| > 0 {
      ResponsesAlwaysFit(run[..|run| - 1]);
      if run[|run| - 1].TickOf? {
        TickFits(EventsAfter(run[..|run| - 1]), run[|run| - 1].inputs);
      }
    }
  }

  lemma {:induction false} BlockedByAnOpenRule(events: seq<Event>, plan: string)
    requires ResponsesFit(events)
    ensures VerdictFor(events, plan).Some? <==>
            OpenCount(events, ProtocolPaused) > 0 || OpenCount(events, TvlDrop) > 0 || OpenCount(events, UsdtDepeg) > 0
  {
    if |events| > 0 {
      BlockedByAnOpenRule(events[..|events| - 1], plan);
      assert ResponseFits(events[|events| - 1]);
    }
  }

  /** Buying is blocked, for every plan alike, exactly when one of the three blocking rules fired when it was last evaluated. */
  lemma BlockedExactlyWhenLastFired(run: seq<Happening>, plan: string)
    requires forall rule :: rule in {ProtocolPaused, TvlDrop, UsdtDepeg} ==> SeenWhenEvaluated(run, rule)
    ensures VerdictFor(EventsAfter(run), plan).Some? <==>
            LastFired(run, ProtocolPaused) || LastFired(run, TvlDrop) || LastFired(run, UsdtDepeg)
  {
    hide SeenWhenEvaluated, OpenCount, EventsAfter, LastFired, VerdictFor;
    ResponsesAlwaysFit(run);
    BlockedByAnOpenRule(EventsAfter(run), plan);
    RightInTheEnd(run, ProtocolPaused);
    RightInTheEnd(run, TvlDrop);
    RightInTheEnd(run, UsdtDepeg);
  }

  lemma RightInTheEnd(run: seq<Happening>, rule: Rule)
    requires SeenWhenEvaluated(run, rule)
    ensures OpenCount(EventsAfter(run), rule) == if LastFired(run, rule) then 1 else 0
  {
    OpenMeansLastFired(run, rule);
    assert RightAfter(run, rule, |run|) && run[..|run|] == run;
  }
}
