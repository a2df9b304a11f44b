/**
 The rate limiter (rate-limit.ts): one sliding window per endpoint and per group, one token bucket,
 and the pause after a 429. Every method keeps every window valid, so the windows' bound holds for
 every sequence of calls under a clock that does not run back.
 */
module RateLimiter {
  import opened Basics
  import opened SlidingWindow
  import opened TokenBucket

  /** The longest pause taken from a server, in ms. */
  const MAX_RETRY_AFTER_MS: int := 30_000

  datatype RateLimiterSpec = RateLimiterSpec(perEndpoint: WindowSpec, global: BucketSpec, groups: map<string, WindowSpec>)

  /** What has a window of its own. */
  datatype Key = Endpoint(name: string) | Group(name: string)

  datatype Acquired = Wait(ms: nat) | UnknownGroup

  predicate Knows(spec: RateLimiterSpec, key: Key) {
    key.Group? ==> key.name in spec.groups
  }

  function SpecOf(spec: RateLimiterSpec, key: Key): WindowSpec
    requires Knows(spec, key)
  {
    if key.Endpoint? then spec.perEndpoint else spec.groups[key.name]
  }

  /** An empty group name is no group. */
  predicate HasGroup(group: Option<string>) {
    group.Some? && group.value != ""
  }

  /** The keys a call counts for. */
  function KeysOf(endpoint: string, group: Option<string>): seq<Key> {
    [Endpoint(endpoint)] + if HasGroup(group) then [Group(group.value)] else []
  }

  /** A send that was let out at `at`. */
  datatype Call = Call(endpoint: string, group: Option<string>, at: int)

  /** When calls to an endpoint went out. */
  function EndpointTimes(calls: seq<Call>, endpoint: string): seq<int> {
    if |calls| == 0 then []
    else
      var last := calls[|calls| - 1];
      EndpointTimes(calls[..|calls| - 1], endpoint) + if last.endpoint == endpoint then [last.at] else []
  }

  /** When calls in a group went out. */
  function GroupTimes(calls: seq<Call>, group: string): seq<int> {
    if |calls| == 0 then []
    else
      var last := calls[|calls| - 1];
      GroupTimes(calls[..|calls| - 1], group) + if last.group == Some(group) && group != "" then [last.at] else []
  }

  function TimesOf(calls: seq<Call>, key: Key): seq<int> {
    match key
    case Endpoint(name) => EndpointTimes(calls, name)
    case Group(name) => GroupTimes(calls, name)
  }

  lemma OneMoreCall(calls: seq<Call>, call: Call, key: Key)
    ensures TimesOf(calls + [call], key) == TimesOf(calls, key) +
              if key == Endpoint(call.endpoint) || (HasGroup(call.group) && key == Group(call.group.value)) then [call.at] else []
  {
    assert (calls + [call])[..|calls|] == calls;
  }

  predicate Distinct(keys: seq<Key>) {
    forall i, j :: 0 <= i < j < |keys| ==> keys[i] != keys[j]
  }

  class Limiter {
    const spec: RateLimiterSpec
    const global: Bucket
    /** The program's two maps, endpoints and groups, as one. */
    var windows: map<Key, Window>
    var pausedUntil: int
    /** The last clock reading. */
    ghost var clock: int
    /** Every send let out so far. */
    ghost var calls: seq<Call>

    constructor (spec: RateLimiterSpec, now: int)
      requires TokenBucket.IsPositive(spec.global)
      requires forall key :: Knows(spec, key) ==> SlidingWindow.IsPositive(SpecOf(spec, key))
      ensures Valid() && Logged() && calls == []
      ensures fresh(global) && this.spec == spec && windows == map[] && clock == now && pausedUntil == 0
    {
      this.spec := spec;
      global := new Bucket(spec.global, now);
      windows, pausedUntil, clock, calls := map[], 0, now, [];
    }

    ghost predicate Valid()
      reads this`windows, this`clock, global, windows.Values
    {
      && global.Valid() && global.updatedAt <= clock
      && (forall key :: Knows(spec, key) ==> SlidingWindow.IsPositive(SpecOf(spec, key)))
      && (forall key :: key in windows ==> WindowOk(key, windows[key]))
      && (forall k, l :: k in windows && l in windows && k != l ==> windows[k] != windows[l])
    }

    ghost predicate WindowOk(key: Key, w: Window)
      reads this`clock, w
    {
      Knows(spec, key) && w.Valid() && w.spec == SpecOf(spec, key) && w.seen <= clock
    }

    /** Each window's history is what was let out for its endpoint or in its group, and nothing else. */
    ghost predicate Logged()
      reads this`windows, this`calls, windows.Values
    {
      forall key :: multiset(Sends(key)) == multiset(TimesOf(calls, key))
    }

    /** Every send ever committed for an endpoint or a group. */
    ghost function Sends(key: Key): seq<int>
      reads this`windows, windows.Values
    {
      if key in windows then windows[key].History() else []
    }

    /** The earliest time the key's window allows, from `now` on. */
    ghost function EarliestOf(key: Key, now: int): int
      reads this`windows, windows.Values
    {
      if key in windows && SlidingWindow.IsPositive(windows[key].spec) then windows[key].EarliestFrom(now) else now
    }

    /** Reads the clock. */
    method See(now: int)
      requires Valid() && clock <= now
      modifies this`clock
      ensures Valid() && clock == now
    {
      hide Window.Valid, Bucket.Valid;
      clock := now;
    }

    /** Makes the endpoint's window if it is not there: all a call in an unknown group does. */
    method Touch(endpoint: string, now: int)
      requires Valid() && Logged() && clock == now
      modifies this`windows, windows.Values
      ensures Valid() && Logged() && forall k :: Sends(k) == old(Sends(k))
      ensures fresh(windows.Values - old(windows.Values))
    {
      hide Limiter.Valid, Window.Valid, Window.EarliestFrom, Window.History, EarliestOf, Sends, TimesOf;
      var _ := Earliest(Endpoint(endpoint), now);
    }

    /** Asks the key's window, made when it is first used, for its earliest time. */
    method Earliest(key: Key, now: int) returns (at: int)
      requires Valid() && clock == now && Knows(spec, key)
      modifies this`windows, windows.Values
      ensures Valid() && key in windows && windows[key].seen == now && at == EarliestOf(key, now) >= now
      ensures at == old(EarliestOf(key, now))
      ensures forall k :: Sends(k) == old(Sends(k))
      ensures forall k :: k != key ==> EarliestOf(k, now) == old(EarliestOf(k, now))
      ensures forall k :: k in old(windows) && k != key ==> k in windows && windows[k].seen == old(windows[k].seen)
      ensures fresh(windows.Values - old(windows.Values))
    {
      hide Window.Valid, Bucket.Valid;
      if key !in windows {
        var made := new Window(SpecOf(spec, key), now);
        windows := windows[key := made];
      }
      at := windows[key].Earliest(now);
    }

    method Commit(key: Key, at: int)
      requires Valid() && key in windows && at >= EarliestOf(key, windows[key].seen)
      modifies windows[key]
      ensures Valid()
      ensures forall k :: k in windows ==> windows[k].seen == old(windows[k].seen)
      ensures forall k, x :: k != key ==> EarliestOf(k, x) == old(EarliestOf(k, x))
      ensures forall k :: multiset(Sends(k)) == multiset(old(Sends(k))) + (if k == key then multiset{at} else multiset{})
    {
      hide Window.Valid, Bucket.Valid;
      windows[key].Commit(at);
    }

    method ReserveGlobal(now: int) returns (wait: nat)
      requires Valid() && clock == now
      modifies global
      ensures Valid() && |global.grants| == |old(global.grants)| + 1
      ensures global.grants[|old(global.grants)|].slot == now + wait
    {
      hide Window.Valid, GrantsOk;
      wait := global.Reserve(now);
    }

    /** The key's window has seen the clock, and lets a send out at `at`. */
    ghost predicate Ready(key: Key, at: int, now: int)
      reads this`windows, windows.Values
    {
      key in windows && windows[key].seen == now && at >= EarliestOf(key, now)
    }

    /** The latest of the keys' earliest times. */
    ghost function EarliestOfKeys(keys: seq<Key>, now: int): int
      reads this`windows, windows.Values
    {
      if |keys| == 0 then now else Max(EarliestOfKeys(keys[..|keys| - 1], now), EarliestOf(keys[|keys| - 1], now))
    }

    method EarliestOfAll(keys: seq<Key>, now: int) returns (at: int)
      requires Valid() && clock == now && Distinct(keys) && forall j :: 0 <= j < |keys| ==> Knows(spec, keys[j])
      modifies this`windows, windows.Values
      ensures Valid() && at == old(EarliestOfKeys(keys, now)) >= now
      ensures forall j :: 0 <= j < |keys| ==> Ready(keys[j], at, now)
      ensures forall k :: Sends(k) == old(Sends(k))
      ensures fresh(windows.Values - old(windows.Values))
    {
      hide Limiter.Valid, Window.Valid, Window.EarliestFrom, Window.History;
      at := now;
      var j := 0;
      while j < |keys|
        invariant j <= |keys| && Valid() && clock == now
        invariant at == old(EarliestOfKeys(keys[..j], now)) >= now
        invariant forall i :: 0 <= i < j ==> Ready(keys[i], at, now)
        invariant forall i :: j <= i < |keys| ==> EarliestOf(keys[i], now) == old(EarliestOf(keys[i], now))
        invariant forall k :: Sends(k) == old(Sends(k))
        invariant fresh(windows.Values - old(windows.Values))
      {
        var earliest := Earliest(keys[j], now);
        at := Max(at, earliest);
        assert keys[..j + 1][..j] == keys[..j];
        j := j + 1;
      }
      assert keys[..j] == keys;
    }

    /** Records the send in the window of every key. */
    method CommitAll(keys: seq<Key>, at: int, now: int)
      requires Valid() && Distinct(keys) && forall j :: 0 <= j < |keys| ==> Ready(keys[j], at, now)
      modifies windows.Values
      ensures Valid()
      ensures forall k :: multiset(Sends(k)) == multiset(old(Sends(k))) + (if k in keys then multiset{at} else multiset{})
    {
      hide Limiter.Valid, Window.Valid, Window.EarliestFrom, Window.History;
      var j := 0;
      while j < |keys|
        invariant j <= |keys| && Valid()
        invariant forall i :: j <= i < |keys| ==> Ready(keys[i], at, now)
        invariant forall k :: multiset(Sends(k)) == multiset(old(Sends(k))) + (if k in keys[..j] then multiset{at} else multiset{})
      {
        Commit(keys[j], at);
        assert keys[..j + 1] == keys[..j] + [keys[j]];
        j := j + 1;
      }
      assert keys[..j] == keys;
    }

    /** A send at the earliest time for all its keys, no sooner than `from`. */
    method TakeSlot(keys: seq<Key>, from: int, now: int) returns (at: int)
      requires Valid() && clock == now && Distinct(keys) && forall j :: 0 <= j < |keys| ==> Knows(spec, keys[j])
      modifies this`windows, windows.Values
      ensures Valid() && at == Max(from, old(EarliestOfKeys(keys, now))) >= now
      ensures forall k :: multiset(Sends(k)) == multiset(old(Sends(k))) + (if k in keys then multiset{at} else multiset{})
      ensures fresh(windows.Values - old(windows.Values))
    {
      hide Limiter.Valid, Window.Valid, Window.EarliestFrom, Window.History, EarliestOf;
      at := EarliestOfAll(keys, now);
      at := Max(from, at);
      CommitAll(keys, at, now);
    }

    /** Reserves with the bucket, then finds the first time that pause and windows allow, and records the send for that time. */
    method Acquire(endpoint: string, group: Option<string>, now: int) returns (r: Acquired)
      requires Valid() && Logged() && clock <= now
      modifies this, global, windows.Values
      ensures Valid() && Logged() && clock == now && pausedUntil == old(pausedUntil)
      ensures r.UnknownGroup? <==> group.Some? && group.value != "" && group.value !in spec.groups
      ensures r.UnknownGroup? ==> calls == old(calls) && forall k :: Sends(k) == old(Sends(k))
      ensures r.Wait? ==> calls == old(calls) + [Call(endpoint, group, now + r.ms)]
      ensures r.Wait? ==> multiset(Sends(Endpoint(endpoint))) == multiset(old(Sends(Endpoint(endpoint)))) + multiset{now + r.ms}
      ensures r.Wait? && group.Some? && group.value != "" ==>
                multiset(Sends(Group(group.value))) == multiset(old(Sends(Group(group.value)))) + multiset{now + r.ms}
      ensures forall k :: k != Endpoint(endpoint) && (group.Some? ==> k != Group(group.value)) ==>
                multiset(Sends(k)) == multiset(old(Sends(k)))
      ensures r.Wait? ==>
                && |global.grants| == |old(global.grants)| + 1
                && now + r.ms == Max(Max(pausedUntil, global.grants[|old(global.grants)|].slot),
                                     Max(old(EarliestOf(Endpoint(endpoint), now)),
                                         if group.Some? && group.value != "" then old(EarliestOf(Group(group.value), now)) else now))
      ensures fresh(windows.Values - old(windows.Values))
    {
      hide Limiter.Valid, Window.Valid, Bucket.Valid, GrantsOk, Window.EarliestFrom, Window.History, EarliestOf, Sends, TimesOf, Logged;
      See(now);
      if HasGroup(group) && group.value !in spec.groups {
        // the endpoint's window is made before the group is looked up
        Touch(endpoint, now);
        return UnknownGroup;
      }
      var slot := ReserveGlobal(now);
      var at := LetOut(endpoint, group, Max(pausedUntil, now + slot), now);
      r := Wait(at - now);
    }

    /** Takes a slot for the endpoint and, if there is one, the group, and records the call. */
    method LetOut(endpoint: string, group: Option<string>, from: int, now: int) returns (at: int)
      requires Valid() && Logged() && clock == now && (HasGroup(group) ==> group.value in spec.groups)
      modifies this`windows, this`calls, windows.Values
      ensures Valid() && Logged() && calls == old(calls) + [Call(endpoint, group, at)]
      ensures at == Max(from, Max(old(EarliestOf(Endpoint(endpoint), now)),
                                  if HasGroup(group) then old(EarliestOf(Group(group.value), now)) else now)) >= now
      ensures forall k :: multiset(Sends(k)) == multiset(old(Sends(k))) + (if k in KeysOf(endpoint, group) then multiset{at} else multiset{})
      ensures fresh(windows.Values - old(windows.Values))
    {
      hide Limiter.Valid, Window.Valid, Window.EarliestFrom, Window.History, EarliestOf, EarliestOfKeys, Sends, TimesOf;
      EarliestIsAhead(Endpoint(endpoint), now);
      LatestOfKeys(endpoint, group, now);
      at := TakeSlot(KeysOf(endpoint, group), from, now);
      Record(Call(endpoint, group, at));
    }

    lemma EarliestIsAhead(key: Key, now: int)
      ensures EarliestOf(key, now) >= now
    {
    }

    lemma LatestOfKeys(endpoint: string, group: Option<string>, now: int)
      requires EarliestOf(Endpoint(endpoint), now) >= now
      ensures EarliestOfKeys(KeysOf(endpoint, group), now)
              == Max(EarliestOf(Endpoint(endpoint), now),
                     if group.Some? && group.value != "" then EarliestOf(Group(group.value), now) else now)
    {
      hide EarliestOf;
      var one := [Endpoint(endpoint)];
      assert EarliestOfKeys([], now) == now && one[..0] == [];
      assert EarliestOfKeys(one, now) == Max(now, EarliestOf(Endpoint(endpoint), now));
      if HasGroup(group) {
        assert (one + [Group(group.value)])[..1] == one;
      } else {
        assert KeysOf(endpoint, group) == one;
      }
    }

    ghost method Record(call: Call)
      requires forall k :: multiset(Sends(k)) == multiset(TimesOf(calls, k)) +
                 if k in KeysOf(call.endpoint, call.group) then multiset{call.at} else multiset{}
      modifies this`calls
      ensures calls == old(calls) + [call] && Logged()
    {
      hide Sends, TimesOf;
      forall k ensures multiset(TimesOf(calls + [call], k)) == multiset(TimesOf(calls, k)) +
                       if k in KeysOf(call.endpoint, call.group) then multiset{call.at} else multiset{}
      {
        OneMoreCall(calls, call, k);
      }
      calls := calls + [call];
    }

    /** Holds back all sends for `ms`, capped at `MAX_RETRY_AFTER_MS`; a pause already longer stays. */
    method Pause(ms: int, now: int)
      requires Valid() && Logged() && clock <= now
      modifies this`pausedUntil, this`clock
      ensures Valid() && Logged() && clock == now
      ensures pausedUntil == if ms > 0 then Max(old(pausedUntil), now + Min(ms, 30_000)) else old(pausedUntil)
    {
      See(now);
      if ms > 0 {
        pausedUntil := Max(pausedUntil, now + Min(ms, MAX_RETRY_AFTER_MS));
      }
    }

    /** Whatever was called before: no endpoint and no group ever sends more than its `max` in one span. */
    lemma NoWindowIsOverrun(key: Key, lo: int)
      requires Valid() && key in windows
      ensures Knows(spec, key)
      ensures CountIn(Sends(key), lo, lo + SpecOf(spec, key).windowMs + SpecOf(spec, key).marginMs) <= SpecOf(spec, key).max
    {
      hide Window.Valid, CountIn;
      windows[key].NeverMoreThanMax(lo);
    }

    lemma NoKeyIsOverrun(key: Key, lo: int)
      requires Valid() && Logged() && Knows(spec, key)
      ensures CountIn(TimesOf(calls, key), lo, lo + SpecOf(spec, key).windowMs + SpecOf(spec, key).marginMs) <= SpecOf(spec, key).max
    {
      hide Window.Valid, CountIn;
      var span := SpecOf(spec, key).windowMs + SpecOf(spec, key).marginMs;
      CountOfSame(Sends(key), TimesOf(calls, key), lo, lo + span);
      if key in windows {
        NoWindowIsOverrun(key, lo);
      } else {
        CountOfNothing(lo, lo + span);
      }
    }

    /** Of all calls ever let out, in any span of the endpoint window at most its `max` name one endpoint. */
    lemma FewCallsPerEndpoint(endpoint: string, lo: int)
      requires Valid() && Logged()
      ensures CountIn(EndpointTimes(calls, endpoint), lo, lo + spec.perEndpoint.windowMs + spec.perEndpoint.marginMs)
              <= spec.perEndpoint.max
    {
      NoKeyIsOverrun(Endpoint(endpoint), lo);
    }

    /** And in any span of a group's window at most its `max` name the group, whatever their endpoints. */
    lemma FewCallsPerGroup(group: string, lo: int)
      requires Valid() && Logged() && group in spec.groups
      ensures CountIn(GroupTimes(calls, group), lo, lo + spec.groups[group].windowMs + spec.groups[group].marginMs)
              <= spec.groups[group].max
    {
      NoKeyIsOverrun(Group(group), lo);
    }
  }

  lemma CountOfNothing(lo: int, hi: int)
    ensures CountIn([], lo, hi) == 0
  {
  }
}
