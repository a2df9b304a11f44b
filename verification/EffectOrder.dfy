/**
 When the order of two bookings matters. What a receipt does to a plan's money commutes with most of
 what another does; said exactly, for every pair of effects, once with the subtractions cut at zero
 as the tables do them and once without.
 */
module EffectOrder {
  import opened Basics
  import opened Books

  /******* Pairs *******/

  ghost predicate Commute<S(!new)>(step: (S, Effect) -> S, e: Effect, f: Effect) {
    forall s: S :: CommuteAt(step, s, e, f)
  }

  predicate CommuteAt<S(==)>(step: (S, Effect) -> S, s: S, e: Effect, f: Effect) {
    step(step(s, e), f) == step(step(s, f), e)
  }

  /** A deposit against a withdrawal of the whole position, two such withdrawals, and what a cut at zero can hide. */
  predicate Clash(e: Effect, f: Effect) {
    match e
    case Deposited(usdt, vTokens) =>
      || (f.PositionRedeemed? && (usdt > 0 || (vTokens > 0 && f.burned > 0)))
      || (f.InterestRedeemed? && vTokens > 0 && f.burned > 0)
    case PositionRedeemed(usdt, _) => (f.PositionRedeemed? && f.usdt != usdt) || (usdt > 0 && TakesInterest(f))
    case InterestRedeemed(usdt, _) => usdt > 0 && TakesInterest(f)
    case _ => false
  }

  predicate TakesInterest(e: Effect) {
    e.Bought? && e.interest.Some? && e.interest.value > 0
  }

  lemma HoldingsAdd(h: map<string, Holding>, e: Effect, f: Effect)
    requires e.Bought? && f.Bought?
    ensures AddHolding(AddHolding(h, e.instrument, e.tokens, e.spent), f.instrument, f.tokens, f.spent)
            == AddHolding(AddHolding(h, f.instrument, f.tokens, f.spent), e.instrument, e.tokens, e.spent)
  {
  }

  /** A clash shows in a plan that has nothing, or, for two withdrawals, in one whose principal covers both. */
  lemma ClashShows(e: Effect, f: Effect)
    requires Clash(e, f)
    ensures var m := Money(if e.PositionRedeemed? && f.PositionRedeemed? then e.usdt + f.usdt else 0, 0, 0, map[]);
            !CommuteAt(ApplyEffect, m, e, f) && !CommuteAt(ApplyEffect, m, f, e)
  {
  }

  lemma NoClashCommutes(m: Money, e: Effect, f: Effect)
    requires !Clash(e, f) && !Clash(f, e)
    ensures CommuteAt(ApplyEffect, m, e, f)
  {
    if e.Bought? {
      BuyCommutes(m, e, f);
    } else if f.Bought? {
      BuyCommutes(m, f, e);
    }
  }

  lemma BuyCommutes(m: Money, e: Effect, f: Effect)
    requires !Clash(e, f) && !Clash(f, e) && e.Bought?
    ensures CommuteAt(ApplyEffect, m, e, f)
  {
    if f.Bought? {
      HoldingsAdd(m.holdings, e, f);
    }
  }

  /** Two effects can change places, whatever the plan's money is, exactly when they do not clash. */
  lemma CommuteExactly(e: Effect, f: Effect)
    ensures Commute(ApplyEffect, e, f) <==> !Clash(e, f) && !Clash(f, e)
  {
    hide Clash, ApplyEffect;
    if Clash(e, f) {
      ClashShows(e, f);
    } else if Clash(f, e) {
      ClashShows(f, e);
    } else {
      forall m: Money ensures CommuteAt(ApplyEffect, m, e, f) {
        NoClashCommutes(m, e, f);
      }
    }
  }

  /******* Without the cuts *******/

  /** A plan's money as plain sums, which may go below zero. */
  datatype Balance = Balance(principal: int, vTokens: int, harvested: int, holdings: map<string, Holding>)

  function BalanceOf(m: Money): Balance {
    Balance(m.principal, m.vTokens, m.harvested, m.holdings)
  }

  function ApplyUncut(b: Balance, e: Effect): Balance {
    match e
    case Nothing => b
    case Deposited(usdt, vTokens) => b.(principal := b.principal + usdt, vTokens := b.vTokens + vTokens)
    case PositionRedeemed(usdt, burned) =>
      b.(principal := 0, vTokens := b.vTokens - burned, harvested := b.harvested + AtLeastZero(usdt - b.principal))
    case InterestRedeemed(usdt, burned) => b.(harvested := b.harvested + usdt, vTokens := b.vTokens - burned)
    case Bought(instrument, tokens, spent, interest) =>
      b.(holdings := AddHolding(b.holdings, instrument, tokens, spent),
         harvested := b.harvested - if interest.Some? then interest.value else 0)
  }

  /** Booking takes no more than is there: no subtraction is cut at zero. */
  predicate Uncut(m: Money, e: Effect) {
    match e
    case PositionRedeemed(_, burned) => burned <= m.vTokens
    case InterestRedeemed(_, burned) => burned <= m.vTokens
    case Bought(_, _, _, interest) => interest.Some? ==> interest.value <= m.harvested
    case _ => true
  }

  /** A whole-position withdrawal with a deposit, or with another for a different amount. */
  predicate ClashUncut(e: Effect, f: Effect) {
    && f.PositionRedeemed?
    && ((e.Deposited? && e.usdt > 0) || (e.PositionRedeemed? && e.usdt != f.usdt))
  }

  lemma CommuteUncutExactly(e: Effect, f: Effect)
    ensures Commute(ApplyUncut, e, f) <==> !ClashUncut(e, f) && !ClashUncut(f, e)
  {
    if ClashUncut(e, f) || ClashUncut(f, e) {
      assert !CommuteAt(ApplyUncut, Balance(e.usdt + f.usdt, 0, 0, map[]), e, f);
    } else {
      forall b: Balance ensures CommuteAt(ApplyUncut, b, e, f) {
        if e.Bought? && f.Bought? {
          HoldingsAdd(b.holdings, e, f);
        }
      }
    }
  }

  /******* Overtaking *******/

  /** A deposit signed later was booked before a withdrawal of the whole position, which then takes its principal too. */
  predicate Overtakes(later: Effect, earlier: Effect) {
    later.Deposited? && later.usdt > 0 && earlier.PositionRedeemed?
  }

  /** The same, or one of the pairs that can differ by what is cut at zero. */
  predicate OvertakesOrCuts(later: Effect, earlier: Effect) {
    || Overtakes(later, earlier)
    || TakesVTokens(later, earlier) || (TakesVTokens(earlier, later) && !later.PositionRedeemed?)
    || MixesInterest(later, earlier) || MixesInterest(earlier, later)
  }

  predicate TakesVTokens(e: Effect, f: Effect) {
    e.Deposited? && e.vTokens > 0 && (f.PositionRedeemed? || f.InterestRedeemed?) && f.burned > 0
  }

  predicate MixesInterest(e: Effect, f: Effect) {
    (e.PositionRedeemed? || e.InterestRedeemed?) && e.usdt > 0 && TakesInterest(f)
  }

  /** A clash either overtakes, or a withdrawal booked first overtakes a deposit or another withdrawal. */
  lemma ClashesAreTold(later: Effect, earlier: Effect)
    ensures Clash(later, earlier) || Clash(earlier, later) ==>
              OvertakesOrCuts(later, earlier) || (later.PositionRedeemed? && (earlier.Deposited? || earlier.PositionRedeemed?))
    ensures ClashUncut(later, earlier) || ClashUncut(earlier, later) ==>
              Overtakes(later, earlier) || (later.PositionRedeemed? && (earlier.Deposited? || earlier.PositionRedeemed?))
  {
  }

  /******* Lists *******/

  /** What a transaction does; nothing when it was not mined. */
  function EffectOf(outbox: seq<Row>, i: nat): Effect {
    if i < |outbox| && outbox[i].fate.Mined? && (outbox[i].kind.Swap? ==> outbox[i].signedFor.Some?)
    then ChainEffect(outbox[i]) else Nothing
  }

  /** Transactions booked one after another. */
  function Fold<S>(step: (S, Effect) -> S, s: S, outbox: seq<Row>, rows: seq<nat>): S {
    if |rows| == 0 then s
    else step(Fold(step, s, outbox, rows[..|rows| - 1]), EffectOf(outbox, rows[|rows| - 1]))
  }

  /** Whatever was booked before something signed earlier commutes with it. */
  ghost predicate OutOfTurnCommute<S(!new)>(step: (S, Effect) -> S, outbox: seq<Row>, rows: seq<nat>) {
    forall i, j :: 0 <= i < j < |rows| && rows[j] < rows[i] ==>
      Commute(step, EffectOf(outbox, rows[i]), EffectOf(outbox, rows[j]))
  }

  function Insert(sorted: seq<nat>, x: nat): (r: seq<nat>)
    ensures forall i :: i in r <==> i == x || i in sorted
  {
    if |sorted| == 0 || sorted[|sorted| - 1] < x then sorted + [x]
    else Insert(sorted[..|sorted| - 1], x) + [sorted[|sorted| - 1]]
  }

  function Sorted(rows: seq<nat>): (r: seq<nat>)
    ensures forall i :: i in r <==> i in rows
  {
    if |rows| == 0 then []
    else Insert(Sorted(rows[..|rows| - 1]), rows[|rows| - 1])
  }

  lemma {:induction false} InsertAscends(sorted: seq<nat>, x: nat)
    requires Ascending(sorted) && x !in sorted
    ensures Ascending(Insert(sorted, x))
  {
    if |sorted| > 0 && x < sorted[|sorted| - 1] {
      var rest := sorted[..|sorted| - 1];
      InsertAscends(rest, x);
      var r := Insert(rest, x);
      forall i | 0 <= i < |r| ensures r[i] < sorted[|sorted| - 1] { assert r[i] in r; }
    }
  }

  lemma {:induction false} InsertFolds<S(!new)>(step: (S, Effect) -> S, s: S, outbox: seq<Row>, sorted: seq<nat>, x: nat)
    requires forall y :: y in sorted && x < y ==> Commute(step, EffectOf(outbox, y), EffectOf(outbox, x))
    requires Ascending(sorted) && x !in sorted
    ensures Fold(step, s, outbox, Insert(sorted, x)) == Fold(step, s, outbox, sorted + [x])
  {
    assert (sorted + [x])[..|sorted|] == sorted;
    if |sorted| > 0 && x < sorted[|sorted| - 1] {
      var rest, y := sorted[..|sorted| - 1], sorted[|sorted| - 1];
      InsertFolds(step, s, outbox, rest, x);
      assert (rest + [x])[..|rest|] == rest;
      assert CommuteAt(step, Fold(step, s, outbox, rest), EffectOf(outbox, y), EffectOf(outbox, x));
      assert (Insert(rest, x) + [y])[..|Insert(rest, x)|] == Insert(rest, x);
    }
  }

  /** If all that is out of turn commutes, booking in order would have come to the same. */
  lemma {:induction false} SortedFolds<S(!new)>(step: (S, Effect) -> S, s: S, outbox: seq<Row>, rows: seq<nat>)
    requires NoTwice(rows) && OutOfTurnCommute(step, outbox, rows)
    ensures Ascending(Sorted(rows)) && Fold(step, s, outbox, Sorted(rows)) == Fold(step, s, outbox, rows)
  {
    if |rows| > 0 {
      var rest, x := rows[..|rows| - 1], rows[|rows| - 1];
      SortedFolds(step, s, outbox, rest);
      InsertAscends(Sorted(rest), x);
      InsertFolds(step, s, outbox, Sorted(rest), x);
      assert (Sorted(rest) + [x])[..|Sorted(rest)|] == Sorted(rest);
    }
  }

  predicate NoTwice(s: seq<nat>) {
    forall i, j :: 0 <= i < j < |s| ==> s[i] != s[j]
  }

  lemma NothingIn(s: seq<nat>)
    ensures (forall i :: i !in s) ==> |s| == 0
  {
    assert |s| > 0 ==> s[0] in s;
  }

  /** Two ascending lists of the same numbers are one list. */
  lemma {:induction false} SameNumbersSameList(a: seq<nat>, b: seq<nat>)
    requires Ascending(a) && Ascending(b) && forall i :: i in a <==> i in b
    ensures a == b
  {
    if |a| == 0 || |b| == 0 {
      NothingIn(a);
      NothingIn(b);
    } else {
      var m, n := |a| - 1, |b| - 1;
      assert a[m] in b && b[n] in a;
      assert forall i :: i in a[..m] <==> i in a && i != a[m];
      assert forall i :: i in b[..n] <==> i in b && i != b[n];
      SameNumbersSameList(a[..m], b[..n]);
      assert a == a[..m] + [a[m]] && b == b[..n] + [b[n]];
    }
  }
}
