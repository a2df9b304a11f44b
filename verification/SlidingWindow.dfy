/**
 The sliding log of the rate limiter (rate-limit.ts): no window holds more than `max` of all the
 sends ever committed, although old ones are pruned, callers commit times in the future and
 commits arrive out of order.
 */
module SlidingWindow {
  import opened Basics

  /** How many elements are in `[lo, hi)`. */
  function CountIn(s: seq<int>, lo: int, hi: int): nat {
    if |s| == 0 then 0
    else CountIn(s[..|s| - 1], lo, hi) + if lo <= s[|s| - 1] < hi then 1 else 0
  }

  predicate Sorted(s: seq<int>) {
    forall i, j :: 0 <= i < j < |s| ==> s[i] <= s[j]
  }

  /** Any two sends with `max - 1` between them are a span apart. */
  predicate Spaced(s: seq<int>, max: nat, span: int) {
    forall i, j :: 0 <= i < j < |s| && j - i >= max ==> s[i] + span <= s[j]
  }

  /******* Counting *******/

  /** How many elements are below `x`. */
  function Below(s: seq<int>, x: int): (n: nat)
    ensures n <= |s|
  {
    if |s| == 0 then 0 else Below(s[..|s| - 1], x) + if s[|s| - 1] < x then 1 else 0
  }

  lemma {:induction false} CountIsADifference(s: seq<int>, lo: int, hi: int)
    requires lo <= hi
    ensures CountIn(s, lo, hi) == Below(s, hi) - Below(s, lo)
  {
    if |s| > 0 {
      CountIsADifference(s[..|s| - 1], lo, hi);
    }
  }

  lemma {:induction false} CountsWhatIsThere(s: seq<int>, i: nat)
    requires i < |s|
    ensures CountIn(s, s[i], s[i] + 1) >= 1
  {
    if i < |s| - 1 {
      CountsWhatIsThere(s[..|s| - 1], i);
    }
  }

  lemma {:induction false} BelowSplits(s: seq<int>, x: int)
    requires Sorted(s)
    ensures forall i :: 0 <= i < |s| ==> (s[i] < x <==> i < Below(s, x))
  {
    if |s| > 0 {
      var t := s[..|s| - 1];
      BelowSplits(t, x);
      assert forall i :: 0 <= i < |t| ==> s[i] == t[i];
    }
  }

  lemma AreSpaced(s: seq<int>, max: nat, span: int, i: nat, j: nat)
    requires Spaced(s, max, span) && i < j < |s| && j - i >= max
    ensures s[i] + span <= s[j]
  {
  }

  /** A spaced log has at most `max` sends in any half-open interval of one span. */
  lemma SpacedMeansFew(s: seq<int>, max: nat, span: int, lo: int)
    requires max > 0 && span > 0 && Sorted(s) && Spaced(s, max, span)
    ensures CountIn(s, lo, lo + span) <= max
  {
    CountIsADifference(s, lo, lo + span);
    BelowSplits(s, lo);
    BelowSplits(s, lo + span);
    var first, past := Below(s, lo), Below(s, lo + span);
    if past - first > max {
      AreSpaced(s, max, span, first, past - 1);
    }
  }

  lemma {:induction false} CountWithout(s: seq<int>, i: nat, lo: int, hi: int)
    requires i < |s|
    ensures CountIn(s, lo, hi) == CountIn(s[..i] + s[i + 1..], lo, hi) + if lo <= s[i] < hi then 1 else 0
  {
    var n := |s| - 1;
    if i == n {
      assert s[..i] + s[i + 1..] == s[..n];
    } else {
      CountWithout(s[..n], i, lo, hi);
      assert (s[..i] + s[i + 1..])[..n - 1] == s[..n][..i] + s[..n][i + 1..];
    }
  }

  /** The count does not depend on the order. */
  lemma {:induction false} CountOfSame(a: seq<int>, b: seq<int>, lo: int, hi: int)
    requires multiset(a) == multiset(b)
    ensures CountIn(a, lo, hi) == CountIn(b, lo, hi)
  {
    if |a| == 0 {
      assert |multiset(b)| == 0;
    } else {
      var n := |a| - 1;
      assert a == a[..n] + [a[n]];
      assert a[n] in multiset(b);
      var i :| 0 <= i < |b| && b[i] == a[n];
      assert b == b[..i] + [b[i]] + b[i + 1..];
      assert multiset(b) == multiset(b[..i] + b[i + 1..]) + multiset{b[i]};
      assert multiset(a) == multiset(a[..n]) + multiset{a[n]};
      assert multiset(a[..n]) == multiset(a) - multiset{a[n]};
      assert multiset(b[..i] + b[i + 1..]) == multiset(b) - multiset{b[i]};
      CountWithout(b, i, lo, hi);
      CountOfSame(a[..n], b[..i] + b[i + 1..], lo, hi);
    }
  }

  /******* Inserting in order *******/

  /** Pushed and sorted again: after everything not above it. */
  function Insert(s: seq<int>, x: int): seq<int> {
    if |s| == 0 || s[|s| - 1] <= x then s + [x] else Insert(s[..|s| - 1], x) + [s[|s| - 1]]
  }

  lemma {:induction false} InsertedAt(s: seq<int>, x: int) returns (p: nat)
    requires Sorted(s)
    ensures p <= |s| && Insert(s, x) == s[..p] + [x] + s[p..]
    ensures (forall i :: 0 <= i < p ==> s[i] <= x) && (forall i :: p <= i < |s| ==> x < s[i])
  {
    if |s| == 0 || s[|s| - 1] <= x {
      p := |s|;
    } else {
      var t, last := s[..|s| - 1], s[|s| - 1];
      p := InsertedAt(t, x);
      assert s == t + [last];
      assert s[..p] == t[..p];
      assert s[p..] == t[p..] + [last];
    }
  }

  /** The `max`-th send from the end, if there are that many, is what one more send has to stay clear of. */
  predicate Clear(sends: seq<int>, max: nat, span: int, at: int)
    requires max > 0
  {
    |sends| >= max ==> sends[|sends| - max] + span <= at
  }

  /** A send clear of the log, and of everything pruned from it, keeps the whole history spaced. */
  lemma InsertKeepsSpacing(pruned: seq<int>, sends: seq<int>, at: int, max: nat, span: int)
    requires max > 0 && span > 0 && Sorted(pruned + sends) && Spaced(pruned + sends, max, span)
    requires forall i :: 0 <= i < |pruned| ==> pruned[i] + span <= at
    requires Clear(sends, max, span, at)
    ensures Sorted(pruned + Insert(sends, at)) && Spaced(pruned + Insert(sends, at), max, span)
    ensures multiset(pruned + Insert(sends, at)) == multiset(pruned + sends) + multiset{at}
  {
    var was := pruned + sends;
    assert forall i :: 0 <= i < |sends| ==> was[|pruned| + i] == sends[i];
    assert Sorted(sends) by {
      forall i, j | 0 <= i < j < |sends| ensures sends[i] <= sends[j] {
        assert was[|pruned| + i] <= was[|pruned| + j];
      }
    }
    var p := InsertedAt(sends, at);
    var q := |pruned| + p;
    var now := pruned + Insert(sends, at);
    assert now == was[..q] + [at] + was[q..];
    assert was == was[..q] + was[q..];
    assert forall i :: 0 <= i < q ==> was[i] <= at;
    assert forall i :: q <= i < |was| ==> at < was[i];
    EarlierAreClear(pruned, sends, at, max, span);
    SpacedAfterInsert(was, q, at, max, span);
  }

  /** Everything at least `max` from the end of the history is a span before the new send. */
  lemma EarlierAreClear(pruned: seq<int>, sends: seq<int>, at: int, max: nat, span: int)
    requires max > 0 && Sorted(pruned + sends) && Clear(sends, max, span, at)
    requires forall i :: 0 <= i < |pruned| ==> pruned[i] + span <= at
    ensures var was := pruned + sends; forall i :: 0 <= i <= |was| - max ==> was[i] + span <= at
  {
    var was := pruned + sends;
    forall i | 0 <= i <= |was| - max ensures was[i] + span <= at {
      if i >= |pruned| {
        assert was[i] <= was[|was| - max] == sends[|sends| - max];
      }
    }
  }

  lemma SpacedAfterInsert(was: seq<int>, q: nat, at: int, max: nat, span: int)
    requires max > 0 && span > 0 && q <= |was| && Sorted(was) && Spaced(was, max, span)
    requires (forall i :: 0 <= i < q ==> was[i] <= at) && (forall i :: q <= i < |was| ==> at < was[i])
    requires forall i :: 0 <= i <= |was| - max ==> was[i] + span <= at
    ensures var now := was[..q] + [at] + was[q..]; Sorted(now) && Spaced(now, max, span)
  {
  }

  /******* The window *******/

  /** Requests allowed in any window, and the spacing that absorbs jitter. */
  datatype WindowSpec = WindowSpec(max: nat, windowMs: nat, marginMs: nat)

  predicate IsPositive(spec: WindowSpec) {
    spec.max > 0 && spec.windowMs > 0
  }

  class Window {
    const spec: WindowSpec
    var sends: seq<int>
    /** What was pruned, and the last clock reading seen. */
    ghost var pruned: seq<int>
    ghost var seen: int

    /** Refuses a spec that is not positive. */
    constructor (spec: WindowSpec, ghost now: int)
      requires IsPositive(spec)
      ensures Valid() && History() == [] && this.spec == spec && seen == now
    {
      this.spec, sends, pruned, seen := spec, [], [], now;
    }

    function Span(): (span: int)
      ensures IsPositive(spec) ==> span > 0
    {
      spec.windowMs + spec.marginMs
    }

    /** Every send ever committed. */
    ghost function History(): seq<int>
      reads this
    {
      pruned + sends
    }

    ghost predicate Valid()
      reads this
    {
      && IsPositive(spec)
      && Sorted(History()) && Spaced(History(), spec.max, Span())
      && forall i :: 0 <= i < |pruned| ==> pruned[i] + Span() <= seen
    }

    /** The earliest time no sooner than `now` that is clear of the log. */
    function EarliestFrom(now: int): (at: int)
      reads this
      requires IsPositive(spec)
      ensures at >= now && Clear(sends, spec.max, Span(), at)
      ensures at > now ==> |sends| >= spec.max && at == sends[|sends| - spec.max] + Span()
    {
      if |sends| >= spec.max then Max(now, sends[|sends| - spec.max] + Span()) else now
    }

    /** Forgets the sends that can no longer matter and answers the earliest time for one more. */
    method Earliest(now: int) returns (at: int)
      requires Valid() && seen <= now
      modifies this
      ensures Valid() && History() == old(History()) && seen == now
      ensures at == EarliestFrom(now) == old(EarliestFrom(now))
      ensures forall i :: 0 <= i < |sends| ==> now < sends[i] + Span()
    {
      seen := now;
      while |sends| > 0 && sends[0] <= now - Span()
        invariant Valid() && History() == old(History()) && seen == now
        invariant EarliestFrom(now) == old(EarliestFrom(now))
      {
        assert (pruned + [sends[0]]) + sends[1..] == pruned + sends;
        pruned, sends := pruned + [sends[0]], sends[1..];
      }
      assert forall i :: 0 <= i < |sends| ==> History()[|pruned| + i] == sends[i];
      at := if |sends| >= spec.max then Max(now, sends[|sends| - spec.max] + Span()) else now;
    }

    /** Records a send; callers may commit any time from the earliest on. */
    method Commit(at: int)
      requires Valid() && at >= EarliestFrom(seen)
      modifies this
      ensures Valid() && seen == old(seen)
      ensures multiset(History()) == multiset(old(History())) + multiset{at}
    {
      InsertKeepsSpacing(pruned, sends, at, spec.max, Span());
      sends := Insert(sends, at);
    }

    /** At most `max` sends in every half-open interval of one span, ever. */
    lemma NeverMoreThanMax(lo: int)
      requires Valid()
      ensures CountIn(History(), lo, lo + Span()) <= spec.max
    {
      SpacedMeansFew(History(), spec.max, Span(), lo);
    }
  }
}
