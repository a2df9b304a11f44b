/**
 A redeem of its own Venus position that a skill wallet reported (record.ts): what came back is
 first the interest, as the redeem's own rate prices the position, and then principal.
 */
module ReportedRedeem {
  import opened Arithmetic
  import opened Basics

  /** One cent, in units of 10^-18 USD. */
  const DUST_PRINCIPAL: nat := 10_000_000_000_000_000

  datatype Position = Position(principal: nat, vTokens: nat, harvested: nat)

  datatype Status = Active | Paused(reason: string) | Stopped

  /** The position's worth when the redeem came, if each of its vTokens had fetched what the burned ones did. */
  function WorthBefore(p: Position, received: nat, burned: nat): nat {
    if burned > 0 then (p.vTokens * received) / burned else p.principal + received
  }

  /** What counts as interest of the received amount. */
  function ToHarvested(p: Position, received: nat, burned: nat): nat {
    Min(received, AtLeastZero(WorthBefore(p, received, burned) - p.principal))
  }

  function PrincipalLeft(p: Position, received: nat, burned: nat): nat {
    AtLeastZero(p.principal - (received - ToHarvested(p, received, burned)))
  }

  /** Less than a cent of principal or at most one vToken left: the whole position is gone. */
  predicate IsExit(p: Position, received: nat, burned: nat) {
    PrincipalLeft(p, received, burned) < DUST_PRINCIPAL || p.vTokens - burned <= 1
  }

  function AfterRedeem(p: Position, received: nat, burned: nat): Position {
    Position(if IsExit(p, received, burned) then 0 else PrincipalLeft(p, received, burned),
             AtLeastZero(p.vTokens - burned),
             p.harvested + ToHarvested(p, received, burned))
  }

  class Plan {
    var position: Position
    var yieldMode: bool
    var status: Status

    constructor (position: Position, yieldMode: bool, status: Status)
      ensures this.position == position && this.yieldMode == yieldMode && this.status == status
    {
      this.position, this.yieldMode, this.status := position, yieldMode, status;
    }

    method ApplyReportedRedeem(received: nat, burned: nat)
      modifies this`position, this`status
      ensures position == AfterRedeem(old(position), received, burned)
      ensures status == if IsExit(old(position), received, burned) && yieldMode && old(status).Active?
                        then Paused("redeemed") else old(status)
    {
      var principal := position.principal;
      var before := if burned > 0 then (position.vTokens * received) / burned else principal + received;
      var interest := AtLeastZero(before - principal);
      var toHarvested := if received < interest then received else interest;
      var principalLeft := AtLeastZero(principal - (received - toHarvested));
      var vTokensLeft := AtLeastZero(position.vTokens - burned);
      var exit := principalLeft < DUST_PRINCIPAL || vTokensLeft <= 1;
      if exit && yieldMode && status.Active? {
        status := Paused("redeemed");
      }
      position := Position(if exit then 0 else principalLeft, vTokensLeft, position.harvested + toHarvested);
    }
  }

  /** Taking `b` of the vTokens out at their price takes exactly `r` off the position's worth. */
  lemma WorthAfter(v: nat, r: nat, b: nat)
    requires 0 < b <= v
    ensures ((v - b) * r) / b == (v * r) / b - r
    ensures r <= (v * r) / b
  {
    assert (v - b) * r == v * r - r * b;
    QuotientLess(v * r, b, r);
    MulKeepsOrder(0, v - b, r);
    QuotientKeepsOrder(0, (v - b) * r, b);
  }

  /******* What a reported redeem promises *******/

  /** No value is made or lost: harvested rises and principal falls by exactly what came back, up to the dust an exit drops. */
  lemma RedeemConservesValue(p: Position, received: nat, burned: nat)
    requires 0 < burned <= p.vTokens
    ensures var q := AfterRedeem(p, received, burned);
            && (q.harvested - p.harvested) + (p.principal - q.principal)
               == received + (if IsExit(p, received, burned) then PrincipalLeft(p, received, burned) else 0)
            && q.vTokens == p.vTokens - burned
  {
    WorthAfter(p.vTokens, received, burned);
  }

  /**
   Interest comes back first, and all of it does. At the redeem's own price the position was worth
   `vTokens * received / burned`: up to what that is above the principal, what came back is harvested, in
   whole units; the rest returns principal. Less than a cent of principal left, or at most one
   vToken, and there is none.
   */
  lemma InterestComesFirst(p: Position, received: nat, burned: nat)
    requires burned > 0
    ensures var q, worth := AfterRedeem(p, received, burned), p.vTokens * received;
            var harvested := q.harvested - p.harvested;
            && 0 <= harvested <= received
            && (harvested > 0 ==> (p.principal + harvested) * burned <= worth)
            && (harvested < received ==> worth < (p.principal + harvested + 1) * burned)
            && var left := if p.principal > received - harvested then p.principal - (received - harvested) else 0;
               && q.vTokens == (if p.vTokens > burned then p.vTokens - burned else 0)
               && q.principal == if left < 10_000_000_000_000_000 || p.vTokens - burned <= 1 then 0 else left
  {
    var worth, h := p.vTokens * received, ToHarvested(p, received, burned);
    WithinOneUnit(worth, burned, worth / burned);
    AtMost(p.principal + h, worth / burned, burned, worth);
    Above(p.principal + h + 1, worth / burned, burned, worth);
  }

  lemma WithinOneUnit(a: nat, b: nat, price: nat)
    requires b > 0 && price == a / b
    ensures price * b <= a < (price + 1) * b
  {
  }

  lemma AtMost(x: nat, price: nat, b: nat, a: nat)
    requires price * b <= a
    ensures x <= price ==> x * b <= a
  {
    if x <= price {
      MulKeepsOrder(x, price, b);
    }
  }

  lemma Above(x: nat, price: nat, b: nat, a: nat)
    requires a < (price + 1) * b
    ensures price + 1 <= x ==> a < x * b
  {
    if price + 1 <= x {
      MulKeepsOrder(price + 1, x, b);
    }
  }

  /**
   At the redeem's own rate: a position that covered its principal still covers what is left of it,
   and one that did not is short by the same amount.
   */
  lemma RedeemKeepsCover(p: Position, received: nat, burned: nat)
    requires 0 < burned <= p.vTokens && !IsExit(p, received, burned)
    ensures var q := AfterRedeem(p, received, burned);
            var before, after := WorthBefore(p, received, burned), WorthBefore(q, received, burned);
            && (p.principal <= before ==> q.principal <= after)
            && (before < p.principal ==> p.principal - before == q.principal - after)
            && (q.principal < p.principal ==> after <= q.principal)
  {
    WorthAfter(p.vTokens, received, burned);
  }

  /** Two redeems at one rate do what one redeem of both does, unless the first is an exit already. */
  lemma TwoRedeemsSplitLikeOne(p: Position, r: nat, b: nat, r': nat, b': nat)
    requires 0 < b && 0 < b' && b + b' <= p.vTokens && r * b' == r' * b
    requires !IsExit(p, r, b)
    ensures AfterRedeem(AfterRedeem(p, r, b), r', b') == AfterRedeem(p, r + r', b + b')
  {
    var q := AfterRedeem(p, r, b);
    assert r * (b + b') == r * b + r * b' && (r + r') * b == r * b + r' * b;
    SameRateSamePrice(p.vTokens, r, b, r + r', b + b');
    SameRateSamePrice(q.vTokens, r, b, r', b');
    WorthAfter(p.vTokens, r, b);
  }

  /** When the first redeem is an exit, two do not split like one: the dropped dust counts as interest of the second. */
  lemma AnExitFirstSplitsDifferently()
    ensures var p := Position(2 * DUST_PRINCIPAL, 4, 0);
            var r := DUST_PRINCIPAL / 2 + 1;
            && IsExit(p, 3 * r, 3) && !IsExit(p, r, 1)
            && AfterRedeem(AfterRedeem(p, 3 * r, 3), r, 1) != AfterRedeem(p, 4 * r, 4)
  {
  }

  /** A report that burned nothing is all interest. */
  lemma NothingBurnedIsInterest(p: Position, received: nat)
    ensures var q := AfterRedeem(p, received, 0);
            && q.harvested == p.harvested + received && q.vTokens == p.vTokens
            && (q.principal == p.principal || (q.principal == 0 && (p.principal < DUST_PRINCIPAL || p.vTokens <= 1)))
  {
  }
}
