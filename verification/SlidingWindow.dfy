/**
 The request limiter: per-key queues of accepted hits, trimmed on use and swept now and
 then, against the plain rule over the full history of accepted hits. Calls are taken in
 time order.
 */
module SlidingWindow {
  datatype Call = Call(key: string, at: real)

  /** At most `limit` hits per key in any `span` of seconds. */
  datatype Policy = Policy(limit: int, span: real)

  type Hits = map<string, seq<real>>

  ghost predicate Ordered(calls: seq<Call>, i: int, j: int) {
    0 <= i < j < |calls| ==> calls[i].at <= calls[j].at
  }

  ghost predicate InTimeOrder(calls: seq<Call>) {
    forall i, j :: Ordered(calls, i, j)
  }

  // ------------------------------------------------------------- history rule

  predicate Fresh(hit: real, now: real, policy: Policy) {
    now - hit < policy.span
  }

  /** Accepted hits of a key in the window that ends now. */
  function Recent(accepted: seq<Call>, key: string, now: real, policy: Policy): nat
    decreases |accepted|
  {
    if |accepted| == 0 then 0
    else
      var last := accepted[|accepted| - 1];
      Recent(accepted[..|accepted| - 1], key, now, policy) + (if last.key == key && Fresh(last.at, now, policy) then 1 else 0)
  }

  predicate Permits(accepted: seq<Call>, call: Call, policy: Policy) {
    Recent(accepted, call.key, call.at, policy) < policy.limit
  }

  /** The calls that the rule accepts, in order. */
  function Accepted(calls: seq<Call>, policy: Policy): seq<Call>
    decreases |calls|
  {
    if |calls| == 0 then []
    else
      var before := Accepted(calls[..|calls| - 1], policy);
      if Permits(before, calls[|calls| - 1], policy) then before + [calls[|calls| - 1]] else before
  }

  // ------------------------------------------------------------------ limiter

  function Queue(hits: Hits, key: string): seq<real> {
    if key in hits then hits[key] else []
  }

  /** Drop hits from the front while they are out of the window. */
  function Trimmed(queue: seq<real>, now: real, policy: Policy): seq<real>
    decreases |queue|
  {
    if |queue| > 0 && now - queue[0] >= policy.span then Trimmed(queue[1..], now, policy) else queue
  }

  /** Drop the keys whose queue is empty. */
  function Swept(hits: Hits): Hits {
    map key | key in hits && |hits[key]| > 0 :: hits[key]
  }

  function Handle(hits: Hits, call: Call, sweep: bool, policy: Policy): (Hits, bool) {
    var kept := if sweep then Swept(hits) else hits;
    var queue := Trimmed(Queue(kept, call.key), call.at, policy);
    if |queue| >= policy.limit then (kept[call.key := queue], false)
    else (kept[call.key := queue + [call.at]], true)
  }

  /** The queues after a run that swept whenever the schedule says so. */
  function HitsAfter(calls: seq<Call>, sweeps: seq<bool>, policy: Policy): Hits
    requires |sweeps| == |calls|
    decreases |calls|
  {
    if |calls| == 0 then map[]
    else
      var n := |calls| - 1;
      Handle(HitsAfter(calls[..n], sweeps[..n], policy), calls[n], sweeps[n], policy).0
  }

  const SWEEP_EVERY := 1024

  /** The limiter object; `history` and `sweeps` say what it has been through. */
  class SlidingWindowRateLimiter {
    const policy: Policy
    var hits: Hits
    var calls: nat
    ghost var history: seq<Call>
    ghost var sweeps: seq<bool>

    ghost predicate Valid()
      reads this
    {
      && |sweeps| == |history| == calls && InTimeOrder(history)
      && hits == HitsAfter(history, sweeps, policy)
    }

    constructor (policy: Policy)
      ensures Valid() && this.policy == policy && history == []
    {
      this.policy, hits, calls := policy, map[], 0;
      history, sweeps := [], [];
    }

    method Sweep()
      modifies this`hits
      ensures hits == Swept(old(hits))
    {
      hits := map key | key in hits && |hits[key]| > 0 :: hits[key];
    }

    /** Drop the stale hits of a key, decide, and record an accepted hit. */
    method Decide(key: string, now: real, ghost swept: bool, ghost before: Hits) returns (allowed: bool)
      requires hits == if swept then Swept(before) else before
      modifies this`hits
      ensures (hits, allowed) == Handle(before, Call(key, now), swept, policy)
    {
      var window := Queue(hits, key);
      ghost var full := window;
      while |window| > 0 && now - window[0] >= policy.span
        invariant Trimmed(window, now, policy) == Trimmed(full, now, policy)
        decreases |window|
      {
        window := window[1..];
      }
      allowed := |window| < policy.limit;
      if allowed {
        window := window + [now];
      }
      hits := hits[key := window];
    }

    /** Calls come in time order. The answer is the one that the full history of accepted hits dictates. */
    method Allow(key: string, now: real) returns (allowed: bool)
      requires Valid() && (|history| > 0 ==> history[|history| - 1].at <= now)
      modifies this
      ensures Valid() && history == old(history) + [Call(key, now)]
      ensures allowed == Permits(Accepted(old(history), policy), Call(key, now), policy)
    {
      ghost var call, before := Call(key, now), hits;
      calls := calls + 1;
      var due := calls % SWEEP_EVERY == 0;
      if due {
        Sweep();
      }
      allowed := Decide(key, now, due, before);
      OrderExtends(history, call);
      DecisionsFollowHistory(history, sweeps, call, due, policy);
      HitsExtend(history, sweeps, call, due, policy);
      history, sweeps := history + [call], sweeps + [due];
    }
  }

  lemma OrderExtends(calls: seq<Call>, call: Call)
    requires InTimeOrder(calls) && (|calls| > 0 ==> calls[|calls| - 1].at <= call.at)
    ensures InTimeOrder(calls + [call])
  {
    forall i, j ensures Ordered(calls + [call], i, j) {
      assert Ordered(calls, i, j) && Ordered(calls, i, |calls| - 1);
    }
  }

  lemma HitsExtend(calls: seq<Call>, sweeps: seq<bool>, call: Call, sweep: bool, policy: Policy)
    requires |sweeps| == |calls|
    ensures HitsAfter(calls + [call], sweeps + [sweep], policy) == Handle(HitsAfter(calls, sweeps, policy), call, sweep, policy).0
  {
    assert (calls + [call])[..|calls|] == calls && (sweeps + [sweep])[..|calls|] == sweeps;
  }

  // ----------------------------------------------- the queues match the history

  /** Times of a key's accepted hits. */
  function TimesOf(accepted: seq<Call>, key: string): seq<real>
    decreases |accepted|
  {
    if |accepted| == 0 then []
    else
      var last := accepted[|accepted| - 1];
      TimesOf(accepted[..|accepted| - 1], key) + (if last.key == key then [last.at] else [])
  }

  function CountFresh(times: seq<real>, now: real, policy: Policy): nat
    decreases |times|
  {
    if |times| == 0 then 0
    else CountFresh(times[..|times| - 1], now, policy) + (if Fresh(times[|times| - 1], now, policy) then 1 else 0)
  }

  lemma {:induction false} RecentCountsTimes(accepted: seq<Call>, key: string, now: real, policy: Policy)
    ensures Recent(accepted, key, now, policy) == CountFresh(TimesOf(accepted, key), now, policy)
    decreases |accepted|
  {
    if |accepted| > 0 {
      var n := |accepted| - 1;
      RecentCountsTimes(accepted[..n], key, now, policy);
      var times := TimesOf(accepted[..n], key);
      assert (times + [accepted[n].at])[..|times|] == times && times + [] == times;
    }
  }

  ghost predicate AllStale(times: seq<real>, now: real, policy: Policy) {
    forall i :: 0 <= i < |times| ==> !Fresh(times[i], now, policy)
  }

  ghost predicate AllFresh(times: seq<real>, now: real, policy: Policy) {
    forall i :: 0 <= i < |times| ==> Fresh(times[i], now, policy)
  }

  ghost predicate Ascending(times: seq<real>, i: int, j: int) {
    0 <= i < j < |times| ==> times[i] <= times[j]
  }

  ghost predicate UpTo(times: seq<real>, now: real) {
    && (forall i, j :: Ascending(times, i, j))
    && (forall i :: 0 <= i < |times| ==> times[i] <= now)
  }

  /** `queue` is what is left of `times` after a front part that is out of the window. */
  ghost predicate Remains(queue: seq<real>, times: seq<real>, now: real, policy: Policy) {
    && |queue| <= |times| && queue == times[|times| - |queue|..]
    && AllStale(times[..|times| - |queue|], now, policy)
  }

  lemma {:induction false} CountOfStaleThenFresh(times: seq<real>, k: nat, now: real, policy: Policy)
    requires k <= |times| && AllStale(times[..k], now, policy) && AllFresh(times[k..], now, policy)
    ensures CountFresh(times, now, policy) == |times| - k
    decreases |times|
  {
    if |times| > 0 {
      var n := |times| - 1;
      if k == |times| {
        assert !Fresh(times[..k][n], now, policy);
        assert times[..n][..n] == times[..k][..n];
        assert AllStale(times[..n], now, policy) by { assert forall i :: 0 <= i < n ==> times[..n][i] == times[..k][i]; }
        CountOfStaleThenFresh(times[..n], n, now, policy);
      } else {
        assert Fresh(times[k..][n - k], now, policy);
        assert times[..n][..k] == times[..k];
        assert forall i :: 0 <= i < n - k ==> times[..n][k..][i] == times[k..][i];
        CountOfStaleThenFresh(times[..n], k, now, policy);
      }
    }
  }

  /** Trimming drops stale hits only, and all of them when the queue is in time order. */
  lemma {:induction false} TrimmedRemains(queue: seq<real>, times: seq<real>, now: real, policy: Policy)
    requires UpTo(times, now) && Remains(queue, times, now, policy)
    ensures Remains(Trimmed(queue, now, policy), times, now, policy)
    ensures AllFresh(Trimmed(queue, now, policy), now, policy)
    decreases |queue|
  {
    var k := |times| - |queue|;
    if |queue| > 0 && now - queue[0] >= policy.span {
      assert queue[1..] == times[k + 1..];
      assert AllStale(times[..k + 1], now, policy) by {
        var front := times[..k + 1];
        forall i | 0 <= i < |front| ensures !Fresh(front[i], now, policy) {
          if i < k { assert front[i] == times[..k][i]; }
        }
      }
      TrimmedRemains(queue[1..], times, now, policy);
    } else if |queue| > 0 {
      forall i | 0 <= i < |queue| ensures Fresh(queue[i], now, policy) {
        assert queue[i] == times[k + i] && queue[0] == times[k] && Ascending(times, k, k + i);
      }
    }
  }

  lemma SweepKeepsQueues(hits: Hits, key: string)
    ensures Queue(Swept(hits), key) == Queue(hits, key)
  {}

  lemma {:induction false} TimesAreUpTo(calls: seq<Call>, key: string, now: real, policy: Policy)
    requires InTimeOrder(calls) && (|calls| > 0 ==> calls[|calls| - 1].at <= now)
    ensures UpTo(TimesOf(Accepted(calls, policy), key), now)
    decreases |calls|
  {
    if |calls| > 0 {
      var n := |calls| - 1;
      var earlier, last := calls[..n], calls[n];
      PrefixInOrder(calls, n);
      TimesAreUpTo(earlier, key, last.at, policy);
      var before := Accepted(earlier, policy);
      var times := TimesOf(before, key);
      TimesAppend(before, last, key);
      assert times + [] == times;
      if Permits(before, last, policy) && last.key == key {
        forall i, j ensures Ascending(times + [last.at], i, j) { assert Ascending(times, i, j); }
      }
    }
  }

  lemma PrefixInOrder(calls: seq<Call>, n: nat)
    requires InTimeOrder(calls) && n <= |calls|
    ensures InTimeOrder(calls[..n])
    ensures 0 < n < |calls| ==> calls[..n][n - 1].at <= calls[n].at
  {
    forall i, j ensures Ordered(calls[..n], i, j) { assert Ordered(calls, i, j); }
    assert Ordered(calls, n - 1, n);
  }

  lemma TimesAppend(accepted: seq<Call>, call: Call, key: string)
    ensures TimesOf(accepted + [call], key) == TimesOf(accepted, key) + (if call.key == key then [call.at] else [])
  {
    assert (accepted + [call])[..|accepted|] == accepted;
  }

  /** The queue of a key holds its accepted hits, less some that are out of every later window. */
  ghost predicate Matches(hits: Hits, accepted: seq<Call>, now: real, policy: Policy, key: string) {
    Remains(Queue(hits, key), TimesOf(accepted, key), now, policy)
  }

  lemma StaleStaysStale(queue: seq<real>, times: seq<real>, now: real, later: real, policy: Policy)
    requires Remains(queue, times, now, policy) && now <= later
    ensures Remains(queue, times, later, policy)
  {
    var front := times[..|times| - |queue|];
    forall i | 0 <= i < |front| ensures !Fresh(front[i], later, policy) { assert !Fresh(front[i], now, policy); }
  }

  lemma HitJoins(queue: seq<real>, times: seq<real>, now: real, policy: Policy)
    requires Remains(queue, times, now, policy)
    ensures Remains(queue + [now], times + [now], now, policy)
  {
    var k := |times| - |queue|;
    assert (times + [now])[..k] == times[..k];
  }

  /** One call: the limiter decides as the history does, and the queues go on matching it. */
  lemma CallMatches(hits: Hits, accepted: seq<Call>, call: Call, sweep: bool, policy: Policy, key: string)
    requires Matches(hits, accepted, call.at, policy, key) && Matches(hits, accepted, call.at, policy, call.key)
    requires UpTo(TimesOf(accepted, call.key), call.at)
    ensures var (after, allowed) := Handle(hits, call, sweep, policy);
            && allowed == Permits(accepted, call, policy)
            && Matches(after, if allowed then accepted + [call] else accepted, call.at, policy, key)
  {
    SweepKeepsQueues(hits, key);
    SweepKeepsQueues(hits, call.key);
    var times := TimesOf(accepted, call.key);
    var queue := Trimmed(Queue(hits, call.key), call.at, policy);
    TrimmedRemains(Queue(hits, call.key), times, call.at, policy);
    CountOfStaleThenFresh(times, |times| - |queue|, call.at, policy);
    RecentCountsTimes(accepted, call.key, call.at, policy);
    HitJoins(queue, times, call.at, policy);
    TimesAppend(accepted, call, key);
    assert TimesOf(accepted, key) + [] == TimesOf(accepted, key);
  }

  lemma {:induction false} RunMatches(calls: seq<Call>, sweeps: seq<bool>, policy: Policy, key: string, now: real)
    requires InTimeOrder(calls) && |sweeps| == |calls| && (|calls| > 0 ==> calls[|calls| - 1].at <= now)
    ensures Matches(HitsAfter(calls, sweeps, policy), Accepted(calls, policy), now, policy, key)
    decreases |calls|
  {
    if |calls| > 0 {
      var n := |calls| - 1;
      var call := calls[n];
      PrefixInOrder(calls, n);
      RunMatches(calls[..n], sweeps[..n], policy, key, call.at);
      RunMatches(calls[..n], sweeps[..n], policy, call.key, call.at);
      TimesAreUpTo(calls[..n], call.key, call.at, policy);
      CallMatches(HitsAfter(calls[..n], sweeps[..n], policy), Accepted(calls[..n], policy), call, sweeps[n], policy, key);
      StaleStaysStale(Queue(HitsAfter(calls, sweeps, policy), key), TimesOf(Accepted(calls, policy), key), call.at, now, policy);
    }
  }

  // ---------------------------------------------------------------- theorems

  /** Every decision is the one the full history dictates, whatever the sweeping schedule. */
  lemma DecisionsFollowHistory(calls: seq<Call>, sweeps: seq<bool>, call: Call, sweep: bool, policy: Policy)
    requires InTimeOrder(calls + [call]) && |sweeps| == |calls|
    ensures Handle(HitsAfter(calls, sweeps, policy), call, sweep, policy).1 == Permits(Accepted(calls, policy), call, policy)
  {
    var all, n := calls + [call], |calls|;
    PrefixInOrder(all, n);
    assert all[..n] == calls;
    RunMatches(calls, sweeps, policy, call.key, call.at);
    TimesAreUpTo(calls, call.key, call.at, policy);
    CallMatches(HitsAfter(calls, sweeps, policy), Accepted(calls, policy), call, sweep, policy, call.key);
  }

  /** Two schedules, two histories of the queues, one answer. */
  lemma SweepingIsTransparent(calls: seq<Call>, some: seq<bool>, other: seq<bool>, call: Call, a: bool, b: bool, policy: Policy)
    requires InTimeOrder(calls + [call]) && |some| == |other| == |calls|
    ensures Handle(HitsAfter(calls, some, policy), call, a, policy).1 == Handle(HitsAfter(calls, other, policy), call, b, policy).1
  {
    DecisionsFollowHistory(calls, some, call, a, policy);
    DecisionsFollowHistory(calls, other, call, b, policy);
  }

  /** Accepted hits of a key in the half-open interval of one window length that begins at `from`. */
  function Within(accepted: seq<Call>, key: string, from: real, policy: Policy): nat
    decreases |accepted|
  {
    if |accepted| == 0 then 0
    else
      var last := accepted[|accepted| - 1];
      Within(accepted[..|accepted| - 1], key, from, policy)
      + (if last.key == key && from <= last.at < from + policy.span then 1 else 0)
  }

  lemma {:induction false} WithinIsRecent(accepted: seq<Call>, key: string, from: real, now: real, policy: Policy)
    requires now < from + policy.span
    ensures Within(accepted, key, from, policy) <= Recent(accepted, key, now, policy)
    decreases |accepted|
  {
    if |accepted| > 0 { WithinIsRecent(accepted[..|accepted| - 1], key, from, now, policy); }
  }

  /** Over every run, no interval of one window length holds more than `limit` accepted hits of a key. */
  lemma {:induction false} WindowsAreBounded(calls: seq<Call>, key: string, from: real, policy: Policy)
    ensures Within(Accepted(calls, policy), key, from, policy) <= if policy.limit > 0 then policy.limit else 0
    decreases |calls|
  {
    if |calls| > 0 {
      var n := |calls| - 1;
      var before, call := Accepted(calls[..n], policy), calls[n];
      WindowsAreBounded(calls[..n], key, from, policy);
      if Permits(before, call, policy) {
        assert (before + [call])[..|before|] == before;
        if call.key == key && from <= call.at < from + policy.span { WithinIsRecent(before, key, from, call.at, policy); }
      }
    }
  }
}
