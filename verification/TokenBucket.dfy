/**
 The token bucket of the rate limiter (rate-limit.ts), over exact rationals. Proved: the slots it
 grants never go back in time, and an interval of `L` ms holds at most `max(capacity, 1 + rate) + rate * (L - 1)`
 of them, with the rate in slots per millisecond; and when that is within the capacity plus the rate.
 */
module TokenBucket {
  import opened Basics
  import SlidingWindow

  datatype BucketSpec = BucketSpec(capacity: real, perSecond: real)

  predicate IsPositive(spec: BucketSpec) {
    spec.capacity > 0.0 && spec.perSecond > 0.0
  }

  /** Milliseconds in which one token comes back. */
  function Period(spec: BucketSpec): (p: real)
    requires IsPositive(spec)
    ensures p > 0.0 && p * spec.perSecond == 1000.0
  {
    1000.0 / spec.perSecond
  }

  function Ceil(x: real): (n: int)
    ensures x <= n as real < x + 1.0
  {
    if x == x.Floor as real then x.Floor else x.Floor + 1
  }

  /** A reservation: when it was made, the exact time its token is there, and the slot granted. */
  datatype Grant = Grant(now: int, ideal: real, slot: int)

  /******* What a history of grants satisfies *******/

  /** A slot is the first millisecond, from the call on, at which its token is there. */
  predicate GrantOk(spec: BucketSpec, g: Grant)
    requires IsPositive(spec)
  {
    && g.ideal >= FromFull(spec, g.now)
    && g.slot == if g.ideal <= g.now as real then g.now else Ceil(g.ideal)
  }

  predicate Follows(spec: BucketSpec, g: Grant, h: Grant)
    requires IsPositive(spec)
  {
    && g.now <= h.now
    && h.ideal == Later(g.ideal + Period(spec), FromFull(spec, h.now))
  }

  /** When the token of a call is there, had the bucket been full. */
  function FromFull(spec: BucketSpec, now: int): real
    requires IsPositive(spec)
  {
    now as real - (spec.capacity - 1.0) * Period(spec)
  }

  function Later(x: real, y: real): real {
    if x >= y then x else y
  }

  /** A fresh bucket is full; each token comes a period after the one before, or as soon as a full bucket lets it. */
  ghost predicate GrantsOk(spec: BucketSpec, grants: seq<Grant>)
    requires IsPositive(spec)
  {
    && (|grants| > 0 ==> grants[0].ideal == FromFull(spec, grants[0].now))
    && (forall i :: 0 <= i < |grants| ==> GrantOk(spec, grants[i]))
    && (forall i :: 0 <= i < |grants| - 1 ==> Follows(spec, grants[i], grants[i + 1]))
  }

  lemma {:induction false} TokensAreAPeriodApart(spec: BucketSpec, grants: seq<Grant>, i: nat, j: nat)
    requires IsPositive(spec) && GrantsOk(spec, grants) && i <= j < |grants|
    ensures grants[i].now <= grants[j].now
    ensures grants[i].ideal + (j - i) as real * Period(spec) <= grants[j].ideal
    decreases j
  {
    hide Period, GrantOk;
    var p := Period(spec);
    if i < j {
      TokensAreAPeriodApart(spec, grants, i, j - 1);
      NextFollows(spec, grants, j - 1);
      assert (j - i) as real == (j - 1 - i) as real + 1.0;
      OneMore((j - 1 - i) as real, p);
    }
  }

  lemma NextFollows(spec: BucketSpec, grants: seq<Grant>, i: nat)
    requires IsPositive(spec) && GrantsOk(spec, grants) && i + 1 < |grants|
    ensures grants[i].now <= grants[i + 1].now && grants[i].ideal + Period(spec) <= grants[i + 1].ideal
  {
  }

  /**
   No call waits for more than was taken: its token comes exactly as many periods after some earlier
   call found the bucket full as there were calls since then.
   */
  lemma {:induction false} NoLongerThanNeeded(spec: BucketSpec, grants: seq<Grant>, j: nat) returns (i: nat)
    requires IsPositive(spec) && GrantsOk(spec, grants) && j < |grants|
    ensures i <= j && grants[j].ideal == FromFull(spec, grants[i].now) + (j - i) as real * Period(spec)
  {
    hide Period, GrantOk, FromFull;
    if j == 0 || grants[j].ideal == FromFull(spec, grants[j].now) {
      i := j;
    } else {
      assert Follows(spec, grants[j - 1], grants[j]);
      i := NoLongerThanNeeded(spec, grants, j - 1);
      assert (j - i) as real == (j - 1 - i) as real + 1.0;
      OneMore((j - 1 - i) as real, Period(spec));
    }
  }

  /** A token comes back every period: a call that far behind the slot before it does not wait, if the bucket holds a token. */
  lemma RestedMeansNoWait(spec: BucketSpec, grants: seq<Grant>, j: nat)
    requires IsPositive(spec) && GrantsOk(spec, grants) && 0 < j < |grants| && spec.capacity >= 1.0
    requires grants[j - 1].slot as real + Period(spec) <= grants[j].now as real
    ensures grants[j].slot == grants[j].now
  {
    hide Period;
    assert Follows(spec, grants[j - 1], grants[j]) && GrantOk(spec, grants[j - 1]) && GrantOk(spec, grants[j]);
    RealMulKeepsOrder(0.0, spec.capacity - 1.0, Period(spec));
  }

  /** And a burst of calls no more than the capacity, on a fresh bucket, does not wait at all. */
  lemma ABurstDoesNotWait(spec: BucketSpec, grants: seq<Grant>, j: nat)
    requires IsPositive(spec) && GrantsOk(spec, grants) && j < |grants| && (j + 1) as real <= spec.capacity
    ensures grants[j].slot == grants[j].now
  {
    hide Period, FromFull, GrantsOk, GrantOk, Follows;
    var i := NoLongerThanNeeded(spec, grants, j);
    TokensAreAPeriodApart(spec, grants, i, j);
    InTime(spec, grants[i].now, (j - i) as real);
    NotLate(spec, grants, j);
  }

  lemma InTime(spec: BucketSpec, now: int, n: real)
    requires IsPositive(spec) && n <= spec.capacity - 1.0
    ensures FromFull(spec, now) + n * Period(spec) <= now as real
  {
    hide Period;
    RealMulKeepsOrder(n, spec.capacity - 1.0, Period(spec));
  }

  lemma NotLate(spec: BucketSpec, grants: seq<Grant>, j: nat)
    requires IsPositive(spec) && GrantsOk(spec, grants) && j < |grants|
    ensures grants[j].ideal <= grants[j].now as real ==> grants[j].slot == grants[j].now
  {
    hide Period, FromFull;
    assert GrantOk(spec, grants[j]);
  }

  lemma OneMore(n: real, p: real)
    ensures (n + 1.0) * p == n * p + p
  {
  }

  lemma Regroup(a: real, b: real, c: real)
    ensures (a * b) * c == a * (b * c)
  {
  }

  /** Granted slots never go back in time. */
  lemma SlotsNeverGoBack(spec: BucketSpec, grants: seq<Grant>, i: nat, j: nat)
    requires IsPositive(spec) && GrantsOk(spec, grants) && i <= j < |grants|
    ensures grants[i].slot <= grants[j].slot && grants[i].now <= grants[i].slot
  {
    hide Period;
    TokensAreAPeriodApart(spec, grants, i, j);
    assert GrantOk(spec, grants[i]) && GrantOk(spec, grants[j]);
    RealMulKeepsOrder(0.0, (j - i) as real, Period(spec));
  }

  /** From one slot to a later one, both counted: the burst, the rate, and a millisecond for rounding up. */
  lemma SlotsBetween(spec: BucketSpec, grants: seq<Grant>, i: nat, j: nat)
    requires IsPositive(spec) && GrantsOk(spec, grants) && i <= j < |grants|
    ensures ((j - i + 1) as real - Burst(spec)) * Period(spec) <= (grants[j].slot - grants[i].slot) as real
  {
    hide Period, Burst, GrantOk;
    TokensAreAPeriodApart(spec, grants, i, j);
    var g, h := grants[i], grants[j];
    assert GrantOk(spec, g) && GrantOk(spec, h);
    SlotIsNear(spec, g);
    SlotIsNear(spec, h);
    Spread((j - i) as real, Burst(spec), Period(spec));
    assert (j - i + 1) as real == (j - i) as real + 1.0;
  }

  /** A slot is no earlier than its token, and no later than a burst lets it be. */
  lemma SlotIsNear(spec: BucketSpec, g: Grant)
    requires IsPositive(spec) && GrantOk(spec, g)
    ensures g.ideal <= g.slot as real <= g.ideal + (Burst(spec) - 1.0) * Period(spec)
  {
    hide Period, Burst;
    BurstCovers(spec);
    var spread := (Burst(spec) - 1.0) * Period(spec);
    assert spread >= 1.0;
    if g.ideal <= g.now as real {
      FullIsNear(spec, g.now, spread);
    }
  }

  lemma FullIsNear(spec: BucketSpec, now: int, spread: real)
    requires IsPositive(spec) && spread >= (spec.capacity - 1.0) * Period(spec)
    ensures now as real <= FromFull(spec, now) + spread
  {
    hide Period;
  }

  lemma Spread(n: real, b: real, p: real)
    ensures (n + 1.0 - b) * p == n * p - (b - 1.0) * p
  {
  }

  /** The larger of the capacity and one token plus what comes back in a millisecond. */
  function Burst(spec: BucketSpec): (burst: real)
    requires IsPositive(spec)
    ensures burst > 1.0 && burst >= spec.capacity
  {
    var one := 1.0 + spec.perSecond / 1000.0;
    if spec.capacity >= one then spec.capacity else one
  }

  lemma BurstCovers(spec: BucketSpec)
    requires IsPositive(spec)
    ensures (Burst(spec) - 1.0) * Period(spec) >= (spec.capacity - 1.0) * Period(spec)
    ensures (Burst(spec) - 1.0) * Period(spec) >= 1.0
  {
  }

  lemma RealMulKeepsOrder(x: real, y: real, p: real)
    requires x <= y && p >= 0.0
    ensures x * p <= y * p
  {
  }

  function Slots(grants: seq<Grant>): (s: seq<int>)
    ensures |s| == |grants| && forall i :: 0 <= i < |s| ==> s[i] == grants[i].slot
  {
    seq(|grants|, (i: nat) requires i < |grants| => grants[i].slot)
  }

  /** From the first to the last millisecond of `[lo, hi)` at most `Burst` slots are granted plus those of the sustained rate. */
  lemma FewSlotsInAnyInterval(spec: BucketSpec, grants: seq<Grant>, lo: int, hi: int)
    requires IsPositive(spec) && GrantsOk(spec, grants) && lo < hi
    ensures SlidingWindow.CountIn(Slots(grants), lo, hi) as real
            <= Burst(spec) + (hi - lo - 1) as real * (spec.perSecond / 1000.0)
  {
    hide Period, Burst, GrantsOk, SlidingWindow.CountIn, SlidingWindow.Below;
    var s := Slots(grants);
    forall i, j | 0 <= i < j < |s| ensures s[i] <= s[j] {
      SlotsNeverGoBack(spec, grants, i, j);
    }
    SlidingWindow.CountIsADifference(s, lo, hi);
    SlidingWindow.BelowSplits(s, lo);
    SlidingWindow.BelowSplits(s, hi);
    var first, past := SlidingWindow.Below(s, lo), SlidingWindow.Below(s, hi);
    if past > first {
      FewSlotsFromTo(spec, grants, first, past - 1, hi - lo - 1);
    } else {
      RealMulKeepsOrder(0.0, (hi - lo - 1) as real, spec.perSecond / 1000.0);
    }
  }

  lemma FewSlotsFromTo(spec: BucketSpec, grants: seq<Grant>, i: nat, j: nat, length: int)
    requires IsPositive(spec) && GrantsOk(spec, grants) && i <= j < |grants|
    requires grants[j].slot - grants[i].slot <= length
    ensures (j - i + 1) as real <= Burst(spec) + length as real * (spec.perSecond / 1000.0)
  {
    hide Period, Burst, GrantsOk;
    SlotsBetween(spec, grants, i, j);
    var between := (grants[j].slot - grants[i].slot) as real;
    InRate(spec, (j - i + 1) as real - Burst(spec), between);
    RealMulKeepsOrder(between, length as real, spec.perSecond / 1000.0);
  }

  lemma InRate(spec: BucketSpec, n: real, length: real)
    requires IsPositive(spec) && n * Period(spec) <= length
    ensures n <= length * (spec.perSecond / 1000.0)
  {
  }

  /** The documented bound: the capacity plus the rate, one millisecond more. */
  ghost predicate WithinCapacityPlusRate(spec: BucketSpec, grants: seq<Grant>, lo: int, hi: int) {
    SlidingWindow.CountIn(Slots(grants), lo, hi) as real
    <= spec.capacity + ((hi - lo) as real + 1.0) * (spec.perSecond / 1000.0)
  }

  /** It holds of any history when the capacity and what comes back in a millisecond are a whole token. */
  lemma CapacityPlusRate(spec: BucketSpec, grants: seq<Grant>, lo: int, hi: int)
    requires IsPositive(spec) && GrantsOk(spec, grants) && lo < hi && spec.capacity + spec.perSecond / 1000.0 >= 1.0
    ensures WithinCapacityPlusRate(spec, grants, lo, hi)
  {
    hide Burst, GrantsOk, Slots;
    FewSlotsInAnyInterval(spec, grants, lo, hi);
    BurstFits(spec, (hi - lo - 1) as real);
    assert (hi - lo - 1) as real + 2.0 == (hi - lo) as real + 1.0;
  }

  lemma BurstFits(spec: BucketSpec, n: real)
    requires IsPositive(spec) && spec.capacity + spec.perSecond / 1000.0 >= 1.0
    ensures Burst(spec) + n * (spec.perSecond / 1000.0) <= spec.capacity + (n + 2.0) * (spec.perSecond / 1000.0)
  {
    var rate := spec.perSecond / 1000.0;
    OneMore(n, rate);
    OneMore(n + 1.0, rate);
    assert (n + 1.0) + 1.0 == n + 2.0;
  }

  /** A bucket that cannot hold a token still grants one: with a millisecond less, every grant breaks the bound at once. */
  lemma LessThanOneTokenStillGrants(spec: BucketSpec, grants: seq<Grant>, i: nat)
    requires IsPositive(spec) && spec.capacity + 2.0 * (spec.perSecond / 1000.0) < 1.0 && i < |grants|
    ensures !WithinCapacityPlusRate(spec, grants, grants[i].slot, grants[i].slot + 1)
  {
    SlidingWindow.CountsWhatIsThere(Slots(grants), i);
  }

  /******* The bucket *******/

  class Bucket {
    const spec: BucketSpec
    var tokens: real
    var updatedAt: int
    /** Every reservation so far. */
    ghost var grants: seq<Grant>

    constructor (spec: BucketSpec, now: int)
      requires IsPositive(spec)
      ensures Valid() && this.spec == spec && grants == [] && updatedAt == now && tokens == spec.capacity
    {
      this.spec, tokens, updatedAt, grants := spec, spec.capacity, now, [];
    }

    ghost predicate Valid()
      reads this
    {
      && IsPositive(spec) && tokens <= spec.capacity && GrantsOk(spec, grants)
      && (|grants| == 0 ==> tokens == spec.capacity)
      && (|grants| > 0 ==> var last := grants[|grants| - 1];
                           last.now == updatedAt && last.ideal == updatedAt as real - tokens * Period(spec))
    }

    /** Takes one token, in debt if need be, and answers how long to wait for it. */
    method Reserve(now: int) returns (wait: nat)
      requires Valid() && updatedAt <= now
      modifies this
      ensures Valid() && updatedAt == now && |grants| == |old(grants)| + 1 && old(grants) == grants[..|old(grants)|]
      ensures grants[|old(grants)|].now == now && grants[|old(grants)|].slot == now + wait
      ensures old(tokens) + (now - old(updatedAt)) as real / 1000.0 * spec.perSecond >= spec.capacity ==> tokens == spec.capacity - 1.0
      ensures old(tokens) + (now - old(updatedAt)) as real / 1000.0 * spec.perSecond < spec.capacity ==>
                tokens == old(tokens) + (now - old(updatedAt)) as real / 1000.0 * spec.perSecond - 1.0
    {
      hide Period, GrantsOk, GrantOk, Follows, FromFull, Later, WaitFor;
      ghost var before, since := tokens, updatedAt;
      var refilled := ((now - updatedAt) as real / 1000.0) * spec.perSecond;
      tokens := if spec.capacity < tokens + refilled then spec.capacity else tokens + refilled;
      updatedAt := now;
      tokens := tokens - 1.0;
      wait := if tokens >= 0.0 then 0 else WaitFor(spec, tokens);
      ghost var g := Grant(now, now as real - tokens * Period(spec), now + wait);
      GrantedNext(spec, grants, before, since, now, tokens, wait, g);
      grants := grants + [g];
    }
  }

  /** So a fresh bucket that small breaks it with its first grant. */
  method FirstGrantOfASmallBucket(spec: BucketSpec, now: int) returns (bucket: Bucket, wait: nat)
    requires IsPositive(spec) && spec.capacity + 2.0 * (spec.perSecond / 1000.0) < 1.0
    ensures fresh(bucket) && bucket.Valid() && bucket.spec == spec && |bucket.grants| == 1
    ensures !WithinCapacityPlusRate(spec, bucket.grants, now + wait, now + wait + 1)
  {
    bucket := new Bucket(spec, now);
    wait := bucket.Reserve(now);
    LessThanOneTokenStillGrants(spec, bucket.grants, 0);
  }

  lemma GrantedNext(spec: BucketSpec, grants: seq<Grant>, before: real, since: int, now: int, tokens: real, wait: nat, g: Grant)
    requires IsPositive(spec) && GrantsOk(spec, grants) && since <= now
    requires if |grants| == 0 then before == spec.capacity
             else grants[|grants| - 1].now == since && grants[|grants| - 1].ideal == since as real - before * Period(spec)
    requires var refilled := ((now - since) as real / 1000.0) * spec.perSecond;
             tokens == (if spec.capacity < before + refilled then spec.capacity else before + refilled) - 1.0
    requires wait == if tokens >= 0.0 then 0 else WaitFor(spec, tokens)
    requires g == Grant(now, now as real - tokens * Period(spec), now + wait)
    ensures GrantsOk(spec, grants + [g])
  {
    hide Period, GrantsOk, GrantOk, FromFull, Later, WaitFor;
    NextGrant(spec, before, since, now, tokens, wait, g);
    OneMoreGrant(spec, grants, g);
  }

  lemma OneMoreGrant(spec: BucketSpec, grants: seq<Grant>, g: Grant)
    requires IsPositive(spec) && GrantsOk(spec, grants) && GrantOk(spec, g)
    requires if |grants| > 0 then Follows(spec, grants[|grants| - 1], g) else g.ideal == FromFull(spec, g.now)
    ensures GrantsOk(spec, grants + [g])
  {
  }

  /** How long until a bucket in debt is even. */
  function WaitFor(spec: BucketSpec, tokens: real): (wait: nat)
    requires IsPositive(spec) && tokens < 0.0
    ensures wait == Ceil(-tokens * Period(spec))
  {
    Debt(spec, tokens);
    Ceil((-tokens / spec.perSecond) * 1000.0)
  }

  lemma Debt(spec: BucketSpec, tokens: real)
    requires IsPositive(spec)
    ensures (-tokens / spec.perSecond) * 1000.0 == -tokens * Period(spec)
    ensures tokens < 0.0 ==> -tokens * Period(spec) > 0.0
    ensures tokens >= 0.0 ==> tokens * Period(spec) >= 0.0
  {
  }

  /** What refilling, capping and taking a token make of the grant before. */
  lemma NextGrant(spec: BucketSpec, before: real, since: int, now: int, tokens: real, wait: nat, g: Grant)
    requires IsPositive(spec) && since <= now
    requires var refilled := ((now - since) as real / 1000.0) * spec.perSecond;
             tokens == (if spec.capacity < before + refilled then spec.capacity else before + refilled) - 1.0
    requires wait == if tokens >= 0.0 then 0 else WaitFor(spec, tokens)
    requires g == Grant(now, now as real - tokens * Period(spec), now + wait)
    ensures GrantOk(spec, g)
    ensures g.ideal == Later((since as real - before * Period(spec)) + Period(spec), FromFull(spec, now))
    ensures before == spec.capacity ==> g.ideal == FromFull(spec, now)
  {
    hide Period;
    var p, refilled := Period(spec), ((now - since) as real / 1000.0) * spec.perSecond;
    Refilling(spec, (now - since) as real);
    RealMulKeepsOrder(tokens + 1.0, before + refilled, p);
    RealMulKeepsOrder(tokens, spec.capacity - 1.0, p);
    OneMore(tokens, p);
    assert (before + refilled) * p == before * p + refilled * p;
    Debt(spec, tokens);
    CeilShifts(-tokens * p, now);
    assert -tokens * p == -(tokens * p);
  }

  lemma Refilling(spec: BucketSpec, elapsed: real)
    requires IsPositive(spec)
    ensures ((elapsed / 1000.0) * spec.perSecond) * Period(spec) == elapsed
  {
    hide Period;
    Regroup(elapsed / 1000.0, spec.perSecond, Period(spec));
    assert spec.perSecond * Period(spec) == 1000.0;
  }

  lemma CeilShifts(x: real, n: int)
    ensures Ceil(n as real + x) == n + Ceil(x)
  {
  }
}
