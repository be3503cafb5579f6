/**
 The token bucket that throttles broker calls, over exact reals and a clock that does not
 run backwards, against the rule it approximates: a call is granted when every window
 that ends with it has room for one more.
 */
module TokenBucket {
  import opened Arithmetic

  /** A burst below one is raised to one. */
  datatype Policy = Policy(rate: NonNegative, burst: int)

  function Burst(policy: Policy): (b: real)
    ensures b >= 1.0
  {
    if policy.burst >= 1 then policy.burst as real else 1.0
  }

  datatype Bucket = Bucket(tokens: real, last: real)

  function Full(policy: Policy, now: real): Bucket {
    Bucket(Burst(policy), now)
  }

  function Refilled(b: Bucket, now: real, policy: Policy): real {
    Min(Burst(policy), b.tokens + Scale(policy.rate, now - b.last))
  }

  predicate Grants(b: Bucket, now: real, policy: Policy) {
    Refilled(b, now, policy) >= 1.0
  }

  function Acquired(b: Bucket, now: real, policy: Policy): Bucket {
    Bucket(Refilled(b, now, policy) - (if Grants(b, now, policy) then 1.0 else 0.0), now)
  }

  // -------------------------------------------------------------------- runs

  ghost predicate Ordered(times: seq<real>, i: int, j: int) {
    0 <= i < j < |times| ==> times[i] <= times[j]
  }

  /** Call times after the bucket was made at `start`. */
  ghost predicate InTimeOrder(start: real, times: seq<real>) {
    && (forall i, j :: Ordered(times, i, j))
    && (|times| > 0 ==> start <= times[0])
  }

  /** The bucket after the first `n` calls. */
  function After(start: real, times: seq<real>, policy: Policy, n: nat): Bucket
    requires n <= |times|
  {
    if n == 0 then Full(policy, start) else Acquired(After(start, times, policy, n - 1), times[n - 1], policy)
  }

  predicate Granted(start: real, times: seq<real>, policy: Policy, n: nat)
    requires n < |times|
  {
    Grants(After(start, times, policy, n), times[n], policy)
  }

  /** Calls granted among those numbered from `i` up to but not including `j`. */
  function GrantCount(start: real, times: seq<real>, policy: Policy, i: nat, j: nat): nat
    requires i <= j <= |times|
    decreases j
  {
    if i == j then 0
    else GrantCount(start, times, policy, i, j - 1) + (if Granted(start, times, policy, j - 1) then 1 else 0)
  }

  /** What the window from call `j` to call `n` still allows before call `n` is decided. */
  function Room(start: real, times: seq<real>, policy: Policy, j: nat, n: nat): real
    requires j <= n < |times|
  {
    Burst(policy) + Scale(policy.rate, times[n] - times[j]) - GrantCount(start, times, policy, j, n) as real
  }

  lemma {:induction false} TokensInRange(start: real, times: seq<real>, policy: Policy, n: nat)
    requires InTimeOrder(start, times) && n <= |times|
    ensures var b := After(start, times, policy, n);
            && 0.0 <= b.tokens <= Burst(policy)
            && b.last == (if n == 0 then start else times[n - 1])
    decreases n
  {
    if n > 0 {
      TokensInRange(start, times, policy, n - 1);
      var before, now := After(start, times, policy, n - 1), times[n - 1];
      assert Ordered(times, n - 2, n - 1);
      ScaleNonNegative(policy.rate, now - before.last);
    }
  }

  lemma ScaleNonNegative(rate: NonNegative, elapsed: real)
    requires elapsed >= 0.0
    ensures Scale(rate, elapsed) >= 0.0
  {}

  /** Moving the end of a window by one call costs the grant and earns the refill. */
  lemma RoomSteps(start: real, times: seq<real>, policy: Policy, j: nat, n: nat)
    requires j <= n && n + 1 < |times|
    ensures Room(start, times, policy, j, n + 1)
            == Room(start, times, policy, j, n) - (if Granted(start, times, policy, n) then 1.0 else 0.0)
               + Scale(policy.rate, times[n + 1] - times[n])
  {
    ScaleSplits(policy.rate, times[n] - times[j], times[n + 1] - times[n]);
  }

  lemma RoomOfSelf(start: real, times: seq<real>, policy: Policy, n: nat)
    requires n < |times|
    ensures Room(start, times, policy, n, n) == Burst(policy)
  {
    assert Scale(policy.rate, 0.0) == 0.0;
  }

  /** Tokens just before call `n` is decided. */
  function Before(start: real, times: seq<real>, policy: Policy, n: nat): real
    requires n < |times|
  {
    Refilled(After(start, times, policy, n), times[n], policy)
  }

  /** From one decision to the next, tokens change as every room does, up to the burst. */
  lemma TokensStep(start: real, times: seq<real>, policy: Policy, n: nat)
    requires InTimeOrder(start, times) && n + 1 < |times|
    ensures Before(start, times, policy, n + 1)
            == Min(Burst(policy), Before(start, times, policy, n) - (if Granted(start, times, policy, n) then 1.0 else 0.0)
                                  + Scale(policy.rate, times[n + 1] - times[n]))
  {
    TokensInRange(start, times, policy, n + 1);
  }

  lemma FirstTokens(start: real, times: seq<real>, policy: Policy)
    requires InTimeOrder(start, times) && |times| > 0
    ensures Before(start, times, policy, 0) == Burst(policy)
  {
    ScaleNonNegative(policy.rate, times[0] - start);
  }

  lemma RoomFollows(start: real, times: seq<real>, policy: Policy, j: nat, n: nat)
    requires InTimeOrder(start, times) && j <= n && n + 1 < |times|
    ensures Before(start, times, policy, n) <= Room(start, times, policy, j, n)
            ==> Before(start, times, policy, n + 1) <= Room(start, times, policy, j, n + 1)
    ensures Before(start, times, policy, n) == Room(start, times, policy, j, n)
            ==> Before(start, times, policy, n + 1) in {Room(start, times, policy, j, n + 1), Burst(policy)}
  {
    RoomSteps(start, times, policy, j, n);
    TokensStep(start, times, policy, n);
  }

  /** No window that ends at a call has less room than there are tokens. */
  lemma {:induction false} TokensFitEveryWindow(start: real, times: seq<real>, policy: Policy, j: nat, n: nat)
    requires InTimeOrder(start, times) && j <= n < |times|
    ensures Before(start, times, policy, n) <= Room(start, times, policy, j, n)
    decreases n
  {
    if j == n {
      RoomOfSelf(start, times, policy, n);
    } else {
      TokensFitEveryWindow(start, times, policy, j, n - 1);
      RoomFollows(start, times, policy, j, n - 1);
    }
  }

  /** Some window that ends at the call has exactly as much room as there are tokens. */
  lemma {:induction false} SomeWindowIsTight(start: real, times: seq<real>, policy: Policy, n: nat) returns (j: nat)
    requires InTimeOrder(start, times) && n < |times|
    ensures j <= n && Before(start, times, policy, n) == Room(start, times, policy, j, n)
    decreases n
  {
    RoomOfSelf(start, times, policy, n);
    if n == 0 {
      FirstTokens(start, times, policy);
      return 0;
    }
    j := SomeWindowIsTight(start, times, policy, n - 1);
    RoomFollows(start, times, policy, j, n - 1);
    if Before(start, times, policy, n) == Burst(policy) { j := n; }
  }

  // ---------------------------------------------------------------- theorems

  /** Every window of calls that ends with call `n` has room for one more grant. */
  ghost predicate AllHaveRoom(start: real, times: seq<real>, policy: Policy, n: nat)
    requires n < |times|
  {
    forall j :: 0 <= j <= n ==> Room(start, times, policy, j, n) >= 1.0
  }

  /** A call is granted exactly when every window that ends with it has room for one more grant. */
  lemma GrantedExactlyWhenAllWindowsHaveRoom(start: real, times: seq<real>, policy: Policy, n: nat)
    requires InTimeOrder(start, times) && n < |times|
    ensures Granted(start, times, policy, n) <==> AllHaveRoom(start, times, policy, n)
  {
    var k := SomeWindowIsTight(start, times, policy, n);
    if Granted(start, times, policy, n) {
      forall j | 0 <= j <= n ensures Room(start, times, policy, j, n) >= 1.0 { TokensFitEveryWindow(start, times, policy, j, n); }
    } else {
      assert Room(start, times, policy, k, n) < 1.0;
    }
  }

  /** Tokens before call `k` cover the grant they give. */
  lemma GrantIsCovered(start: real, times: seq<real>, policy: Policy, k: nat)
    requires InTimeOrder(start, times) && k < |times|
    ensures Before(start, times, policy, k) >= if Granted(start, times, policy, k) then 1.0 else 0.0
  {
    TokensInRange(start, times, policy, k + 1);
  }

  /** Between any two calls, both counted, at most burst + rate * elapsed calls are granted. */
  lemma GrantsAreBounded(start: real, times: seq<real>, policy: Policy, i: nat, k: nat)
    requires InTimeOrder(start, times) && i <= k < |times|
    ensures GrantCount(start, times, policy, i, k + 1) as real
            <= (if policy.burst >= 1 then policy.burst as real else 1.0) + Scale(policy.rate, times[k] - times[i])
  {
    TokensFitEveryWindow(start, times, policy, i, k);
    GrantIsCovered(start, times, policy, k);
    CountStep(start, times, policy, i, k);
  }

  lemma CountStep(start: real, times: seq<real>, policy: Policy, i: nat, k: nat)
    requires i <= k < |times|
    ensures GrantCount(start, times, policy, i, k + 1) as real
            == GrantCount(start, times, policy, i, k) as real + if Granted(start, times, policy, k) then 1.0 else 0.0
  {}

  lemma {:induction false} CountIsAtMostCalls(start: real, times: seq<real>, policy: Policy, i: nat, j: nat)
    requires i <= j <= |times|
    ensures GrantCount(start, times, policy, i, j) <= j - i
    decreases j
  {
    if i < j { CountIsAtMostCalls(start, times, policy, i, j - 1); }
  }

  /** A fresh bucket grants its whole burst, however fast the calls come. */
  lemma BurstIsGranted(start: real, times: seq<real>, policy: Policy, n: nat)
    requires InTimeOrder(start, times) && n < |times| && (n == 0 || n < policy.burst)
    ensures Granted(start, times, policy, n)
  {
    forall j | 0 <= j <= n ensures Room(start, times, policy, j, n) >= 1.0 {
      CountIsAtMostCalls(start, times, policy, j, n);
      assert Ordered(times, j, n);
      ScaleNonNegative(policy.rate, times[n] - times[j]);
    }
    GrantedExactlyWhenAllWindowsHaveRoom(start, times, policy, n);
  }

  /** And no call more at once. */
  lemma {:induction false} NoMoreThanBurstAtOnce(start: real, times: seq<real>, policy: Policy, n: nat)
    requires n < |times| && n >= policy.burst && n >= 1 && forall i :: 0 <= i <= n ==> times[i] == start
    ensures !Granted(start, times, policy, n)
  {
    TokensAtOnce(start, times, policy, n);
    assert Scale(policy.rate, 0.0) == 0.0;
  }

  lemma {:induction false} TokensAtOnce(start: real, times: seq<real>, policy: Policy, n: nat)
    requires n <= |times| && forall i :: 0 <= i < n ==> times[i] == start
    ensures var burst := if policy.burst >= 1 then policy.burst else 1;
            After(start, times, policy, n) == Bucket((if n <= burst then burst - n else 0) as real, start)
  {
    if n > 0 {
      TokensAtOnce(start, times, policy, n - 1);
      assert Scale(policy.rate, 0.0) == 0.0;
    }
  }

  // ------------------------------------------------------------------- object

  /** The bucket object; `start` and `times` say when it was made and called. */
  class TokenBucketLimiter {
    const policy: Policy
    var tokens: real
    var last: real
    ghost const start: real
    ghost var times: seq<real>

    ghost predicate Valid()
      reads this
    {
      InTimeOrder(start, times) && Bucket(tokens, last) == After(start, times, policy, |times|)
    }

    constructor (policy: Policy, now: real)
      ensures Valid() && this.policy == policy && times == [] && start == now
    {
      this.policy, tokens, last := policy, if policy.burst >= 1 then policy.burst as real else 1.0, now;
      start, times := now, [];
    }

    /** Granted exactly when every window of calls that ends here has room for one more grant. */
    method Acquire(now: real) returns (granted: bool)
      requires Valid() && last <= now
      modifies this
      ensures Valid() && times == old(times) + [now]
      ensures granted <==> AllHaveRoom(start, times, policy, |old(times)|)
      ensures 0.0 <= tokens <= Burst(policy)
    {
      CallExtends(start, times, now, policy);
      tokens := Min(Burst(policy), tokens + Scale(policy.rate, now - last));
      last := now;
      granted := tokens >= 1.0;
      if granted {
        tokens := tokens - 1.0;
      }
      times := times + [now];
    }
  }

  lemma {:induction false} AfterOfPrefix(start: real, times: seq<real>, now: real, policy: Policy, n: nat)
    requires n <= |times|
    ensures After(start, times + [now], policy, n) == After(start, times, policy, n)
    decreases n
  {
    if n > 0 { AfterOfPrefix(start, times, now, policy, n - 1); }
  }

  lemma TimesExtend(start: real, times: seq<real>, now: real, policy: Policy)
    requires InTimeOrder(start, times) && After(start, times, policy, |times|).last <= now
    ensures InTimeOrder(start, times + [now])
  {
    TokensInRange(start, times, policy, |times|);
    forall i, j ensures Ordered(times + [now], i, j) { assert Ordered(times, i, j) && Ordered(times, i, |times| - 1); }
  }

  /** What one more call does to the run. */
  lemma CallExtends(start: real, times: seq<real>, now: real, policy: Policy)
    requires InTimeOrder(start, times) && After(start, times, policy, |times|).last <= now
    ensures var b, longer := After(start, times, policy, |times|), times + [now];
            && InTimeOrder(start, longer)
            && After(start, longer, policy, |longer|) == Acquired(b, now, policy)
            && (Grants(b, now, policy) <==> AllHaveRoom(start, longer, policy, |times|))
            && 0.0 <= Acquired(b, now, policy).tokens <= Burst(policy)
  {
    var longer := times + [now];
    TimesExtend(start, times, now, policy);
    AfterOfPrefix(start, times, now, policy, |times|);
    GrantedExactlyWhenAllWindowsHaveRoom(start, longer, policy, |times|);
    TokensInRange(start, longer, policy, |longer|);
  }
}
