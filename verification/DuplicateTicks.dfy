/** The duplicate tick detector: a bounded memory of keys against the full history of their use. */
module DuplicateTicks {
  import opened Sequences
  import opened Wrappers

  /** Source broker and source sequence of a tick. */
  type Key = (string, string)

  /** Without a bound the memory grows for ever; construction rejects a bound below one. */
  type Bound = b: Option<nat> | b.Some? ==> b.value >= 1 witness None

  // ---------------------------------------------------------------- detector

  function Without(keys: seq<Key>, key: Key): seq<Key>
    decreases |keys|
  {
    if |keys| == 0 then []
    else
      var last := keys[|keys| - 1];
      Without(keys[..|keys| - 1], key) + (if last == key then [] else [last])
  }

  /** The memory after one tick: oldest first, the key that was just used last. */
  function Seen(memory: seq<Key>, key: Key, bound: Bound): seq<Key> {
    if key in memory then Without(memory, key) + [key]
    else
      var grown := memory + [key];
      if bound.Some? && |grown| > bound.value then grown[1..] else grown
  }

  /** The ordered dictionary of seen keys; `memory` lists its keys in order, `uses` all keys ever asked for. */
  class DuplicateTickDetector {
    const bound: Bound
    var memory: seq<Key>
    ghost var uses: seq<Key>

    ghost predicate Valid()
      reads this
    {
      memory == Memory(uses, bound)
    }

    constructor (bound: Bound)
      ensures Valid() && this.bound == bound && uses == []
    {
      this.bound, memory, uses := bound, [], [];
    }

    method MoveToEnd(key: Key)
      modifies this`memory
      ensures memory == Without(old(memory), key) + [key]
    {
      var kept: seq<Key> := [];
      for i := 0 to |memory|
        invariant kept == Without(memory[..i], key)
      {
        assert memory[..i + 1][..i] == memory[..i];
        if memory[i] != key {
          kept := kept + [memory[i]];
        }
      }
      assert memory[..|memory|] == memory;
      memory := kept + [key];
    }

    /** A duplicate was used before, with fewer than `bound` other keys since. */
    method IsDuplicate(key: Key) returns (duplicate: bool)
      requires Valid()
      modifies this
      ensures Valid() && uses == old(uses) + [key]
      ensures duplicate <==> key in old(uses) && (bound.Some? ==> |UsedSince(old(uses), key)| < bound.value)
    {
      DuplicateExactlyWhen(uses, key, bound);
      assert (uses + [key])[..|uses|] == uses;
      uses := uses + [key];
      if key in memory {
        MoveToEnd(key);
        return true;
      }
      memory := memory + [key];
      if bound.Some? && |memory| > bound.value {
        memory := memory[1..];
      }
      return false;
    }
  }

  function Memory(uses: seq<Key>, bound: Bound): seq<Key>
    decreases |uses|
  {
    if |uses| == 0 then [] else Seen(Memory(uses[..|uses| - 1], bound), uses[|uses| - 1], bound)
  }

  // ----------------------------------------------------------------- history

  /** All keys ever used, by their last use. */
  function Recency(uses: seq<Key>): seq<Key>
    decreases |uses|
  {
    if |uses| == 0 then [] else Without(Recency(uses[..|uses| - 1]), uses[|uses| - 1]) + [uses[|uses| - 1]]
  }

  function Newest(keys: seq<Key>, bound: Bound): seq<Key> {
    if bound.Some? && |keys| > bound.value then keys[|keys| - bound.value..] else keys
  }

  lemma {:induction false} WithoutAbsent(keys: seq<Key>, key: Key)
    requires key !in keys
    ensures Without(keys, key) == keys
    decreases |keys|
  {
    if |keys| > 0 {
      WithoutAbsent(keys[..|keys| - 1], key);
      assert keys == keys[..|keys| - 1] + [keys[|keys| - 1]];
    }
  }

  lemma {:induction false} WithoutSplits(a: seq<Key>, b: seq<Key>, key: Key)
    ensures Without(a + b, key) == Without(a, key) + Without(b, key)
    decreases |b|
  {
    if |b| == 0 {
      assert a + b == a;
    } else {
      var n := |b| - 1;
      WithoutSplits(a, b[..n], key);
      assert (a + b)[..|a + b| - 1] == a + b[..n];
    }
  }

  lemma WithoutMiddle(a: seq<Key>, key: Key, b: seq<Key>)
    requires key !in a && key !in b
    ensures Without(a + [key] + b, key) == a + b
  {
    WithoutSplits(a + [key], b, key);
    WithoutSplits(a, [key], key);
    WithoutAbsent(a, key);
    WithoutAbsent(b, key);
    assert Without([key], key) == [] by { assert [key][..0] == []; }
    assert a + [] == a;
  }

  /** A list without repetition, taken apart at one of its keys. */
  lemma Parts(keys: seq<Key>, key: Key) returns (a: seq<Key>, b: seq<Key>)
    requires Distinct(keys) && key in keys
    ensures keys == a + [key] + b && key !in a && key !in b
  {
    var p :| 0 <= p < |keys| && keys[p] == key;
    a, b := keys[..p], keys[p + 1..];
    forall i | 0 <= i < p ensures a[i] != key { assert Differ(keys, i, p); }
    forall i | 0 <= i < |b| ensures b[i] != key { assert Differ(keys, p, p + 1 + i); }
  }

  lemma DistinctParts(a: seq<Key>, key: Key, b: seq<Key>)
    requires Distinct(a + [key] + b)
    ensures Distinct(a + b + [key])
  {
    var keys, next, p := a + [key] + b, a + b + [key], |a|;
    forall i, j ensures Differ(next, i, j) {
      if 0 <= i < j < |next| {
        var x := if i < p then i else i + 1;
        var y := if j == |next| - 1 then p else if j < p then j else j + 1;
        assert next[i] == keys[x] && next[j] == keys[y];
        assert Differ(keys, x, y) && Differ(keys, y, x);
      }
    }
  }

  lemma UseKeepsDistinct(keys: seq<Key>, key: Key)
    requires Distinct(keys)
    ensures Distinct(Without(keys, key) + [key])
  {
    if key in keys {
      var a, b := Parts(keys, key);
      WithoutMiddle(a, key, b);
      DistinctParts(a, key, b);
    } else {
      WithoutAbsent(keys, key);
      forall i, j ensures Differ(keys + [key], i, j) { assert Differ(keys, i, j); }
    }
  }

  lemma {:induction false} RecencyIsDistinct(uses: seq<Key>)
    ensures Distinct(Recency(uses))
    decreases |uses|
  {
    if |uses| > 0 {
      RecencyIsDistinct(uses[..|uses| - 1]);
      UseKeepsDistinct(Recency(uses[..|uses| - 1]), uses[|uses| - 1]);
    }
  }

  lemma KnownUseCommutes(a: seq<Key>, key: Key, b: seq<Key>, bound: Bound)
    requires key !in a && key !in b
    ensures Seen(Newest(a + [key] + b, bound), key, bound) == Newest(a + b + [key], bound)
  {
    var keys, next := a + [key] + b, a + b + [key];
    var memory := Newest(keys, bound);
    var cut := |keys| - |memory|;
    if cut <= |a| {
      assert memory == a[cut..] + [key] + b;
      WithoutMiddle(a[cut..], key, b);
      assert next[cut..] == a[cut..] + b + [key];
    } else {
      var lost := cut - |a| - 1;
      assert memory == b[lost..];
      assert next[cut..] == b[lost + 1..] + [key];
    }
  }

  lemma NewUseCommutes(keys: seq<Key>, key: Key, bound: Bound)
    requires key !in keys
    ensures Seen(Newest(keys, bound), key, bound) == Newest(keys + [key], bound)
  {
    var memory := Newest(keys, bound);
    assert memory == keys[|keys| - |memory|..];
  }

  /** One use: forgetting the oldest keys before or after it makes no difference. */
  lemma UseCommutes(keys: seq<Key>, key: Key, bound: Bound)
    requires Distinct(keys)
    ensures Seen(Newest(keys, bound), key, bound) == Newest(Without(keys, key) + [key], bound)
  {
    if key in keys {
      var a, b := Parts(keys, key);
      WithoutMiddle(a, key, b);
      KnownUseCommutes(a, key, b, bound);
    } else {
      WithoutAbsent(keys, key);
      NewUseCommutes(keys, key, bound);
    }
  }

  /** After every run, the memory is exactly the most recently used keys, in the order of their last use. */
  lemma {:induction false} MemoryIsNewest(uses: seq<Key>, bound: Bound)
    ensures Memory(uses, bound) == Newest(Recency(uses), bound)
    decreases |uses|
  {
    if |uses| > 0 {
      var n := |uses| - 1;
      MemoryIsNewest(uses[..n], bound);
      RecencyIsDistinct(uses[..n]);
      UseCommutes(Recency(uses[..n]), uses[n], bound);
    }
  }

  // ------------------------------------------------ duplicates, from the uses

  /** The last use of a key, or -1. */
  function LastUse(uses: seq<Key>, key: Key): int
    decreases |uses|
  {
    if |uses| == 0 then -1
    else if uses[|uses| - 1] == key then |uses| - 1 else LastUse(uses[..|uses| - 1], key)
  }

  /** The different keys used after that. */
  function UsedSince(uses: seq<Key>, key: Key): set<Key> {
    set i | LastUse(uses, key) < i < |uses| && 0 <= i :: uses[i]
  }

  lemma {:induction false} LastUseMeaning(uses: seq<Key>, key: Key)
    ensures var last := LastUse(uses, key);
            && -1 <= last < |uses| && (last >= 0 ==> uses[last] == key)
            && (forall i :: last < i < |uses| && 0 <= i ==> uses[i] != key)
    decreases |uses|
  {
    if |uses| > 0 { LastUseMeaning(uses[..|uses| - 1], key); }
  }

  function Keys(list: seq<Key>): set<Key> {
    set key | key in list
  }

  lemma KeysSplit(a: seq<Key>, b: seq<Key>)
    ensures Keys(a + b) == Keys(a) + Keys(b)
  {
    forall key ensures key in Keys(a + b) <==> key in Keys(a) + Keys(b) { assert key in a + b <==> key in a || key in b; }
  }

  lemma KeysAppend(list: seq<Key>, key: Key)
    ensures Keys(list + [key]) == Keys(list) + {key}
  {
    KeysSplit(list, [key]);
    assert Keys([key]) == {key};
  }

  /** The part of the recency list behind a key holds exactly the keys used since. */
  lemma {:induction false} BehindAKey(uses: seq<Key>, key: Key) returns (a: seq<Key>, b: seq<Key>)
    requires key in uses
    ensures Recency(uses) == a + [key] + b && key !in a && key !in b && Keys(b) == UsedSince(uses, key)
    decreases |uses|
  {
    var n := |uses| - 1;
    var earlier, last := uses[..n], uses[n];
    if last == key {
      a, b := Without(Recency(earlier), key), [];
      WithoutKeys(Recency(earlier), key);
      assert key !in Keys(a);
      assert a + [key] + [] == Recency(uses);
    } else {
      var c, d := BehindAKey(earlier, key);
      UsedSinceGrows(uses, key);
      a, b := BehindAfterUse(c, key, d, last);
    }
  }

  lemma UsedSinceGrows(uses: seq<Key>, key: Key)
    requires |uses| > 0 && uses[|uses| - 1] != key
    ensures UsedSince(uses, key) == UsedSince(uses[..|uses| - 1], key) + {uses[|uses| - 1]}
  {
    var n := |uses| - 1;
    var earlier := uses[..n];
    LastUseMeaning(earlier, key);
    var k := LastUse(earlier, key);
    assert uses[n] in UsedSince(uses, key);
    forall other | other in UsedSince(uses, key) && other != uses[n] ensures other in UsedSince(earlier, key) {
      var i :| k < i < |uses| && 0 <= i && uses[i] == other;
      assert earlier[i] == other;
    }
    forall other | other in UsedSince(earlier, key) ensures other in UsedSince(uses, key) {
      var i :| k < i < n && 0 <= i && earlier[i] == other;
      assert uses[i] == other;
    }
  }

  /** A use of another key joins what is behind this one. */
  lemma BehindAfterUse(c: seq<Key>, key: Key, d: seq<Key>, last: Key) returns (a: seq<Key>, b: seq<Key>)
    requires key !in c && key !in d && last != key
    ensures Without(c + [key] + d, last) + [last] == a + [key] + b
    ensures key !in a && key !in b && Keys(b) == Keys(d) + {last}
  {
    a, b := Without(c, last), Without(d, last) + [last];
    WithoutAround(c, key, d, last);
    assert a + [key] + Without(d, last) + [last] == a + [key] + b;
    WithoutKeys(c, last);
    WithoutKeys(d, last);
    KeysAppend(Without(d, last), last);
    assert key !in Keys(c) && key !in Keys(d);
    assert key !in Keys(a) && key !in Keys(b);
  }

  lemma WithoutAround(c: seq<Key>, key: Key, d: seq<Key>, last: Key)
    requires last != key
    ensures Without(c + [key] + d, last) == Without(c, last) + [key] + Without(d, last)
  {
    WithoutSplits(c + [key], d, last);
    WithoutSplits(c, [key], last);
    WithoutAbsent([key], last);
  }

  lemma {:induction false} WithoutKeys(keys: seq<Key>, key: Key)
    ensures Keys(Without(keys, key)) == Keys(keys) - {key}
    decreases |keys|
  {
    if |keys| > 0 {
      var n := |keys| - 1;
      WithoutKeys(keys[..n], key);
      assert keys == keys[..n] + [keys[n]];
      KeysAppend(keys[..n], keys[n]);
      var rest := Without(keys[..n], key);
      KeysAppend(rest, keys[n]);
      assert rest + [] == rest;
    }
  }

  lemma {:induction false} DistinctCount(keys: seq<Key>)
    requires Distinct(keys)
    ensures |Keys(keys)| == |keys|
    decreases |keys|
  {
    if |keys| > 0 {
      var n := |keys| - 1;
      forall i, j ensures Differ(keys[..n], i, j) { assert Differ(keys, i, j); }
      DistinctCount(keys[..n]);
      assert keys == keys[..n] + [keys[n]];
      forall i | 0 <= i < n ensures keys[..n][i] != keys[n] { assert Differ(keys, i, n); }
      KeysAppend(keys[..n], keys[n]);
      assert keys[n] !in Keys(keys[..n]);
    } else {
      assert Keys(keys) == {};
    }
  }

  lemma {:induction false} RecencyHoldsAllUses(uses: seq<Key>)
    ensures Keys(Recency(uses)) == Keys(uses)
    decreases |uses|
  {
    if |uses| > 0 {
      var n := |uses| - 1;
      RecencyHoldsAllUses(uses[..n]);
      WithoutKeys(Recency(uses[..n]), uses[n]);
      KeysAppend(Without(Recency(uses[..n]), uses[n]), uses[n]);
      KeysAppend(uses[..n], uses[n]);
      assert uses == uses[..n] + [uses[n]];
    }
  }

  lemma InNewest(a: seq<Key>, key: Key, b: seq<Key>, bound: Bound)
    requires key !in a && key !in b
    ensures key in Newest(a + [key] + b, bound) <==> (bound.Some? ==> |b| < bound.value)
  {
    var keys := a + [key] + b;
    var memory := Newest(keys, bound);
    var cut := |keys| - |memory|;
    if cut <= |a| {
      assert memory[|a| - cut] == key;
    } else {
      assert memory == b[cut - |a| - 1..];
    }
  }

  /**
   A tick is reported as a duplicate exactly when its key was used before and fewer than
   `bound` other keys have been used since; without a bound, when it was ever used.
   */
  lemma DuplicateExactlyWhen(uses: seq<Key>, key: Key, bound: Bound)
    ensures key in Memory(uses, bound)
            <==> key in uses && (bound.Some? ==> |UsedSince(uses, key)| < bound.value)
  {
    MemoryIsNewest(uses, bound);
    if key in uses {
      var a, b := BehindAKey(uses, key);
      RecencyIsDistinct(uses);
      TailIsDistinct(a + [key], b);
      DistinctCount(b);
      InNewest(a, key, b, bound);
    } else {
      RecencyHoldsAllUses(uses);
      assert key !in Keys(Recency(uses));
    }
  }

  lemma TailIsDistinct(a: seq<Key>, b: seq<Key>)
    requires Distinct(a + b)
    ensures Distinct(b)
  {
    forall i, j ensures Differ(b, i, j) { assert Differ(a + b, |a| + i, |a| + j); }
  }

  /** The memory never holds more keys than its bound, and never one twice. */
  lemma MemoryIsBounded(uses: seq<Key>, bound: Bound)
    ensures Distinct(Memory(uses, bound)) && (bound.Some? ==> |Memory(uses, bound)| <= bound.value)
  {
    MemoryIsNewest(uses, bound);
    RecencyIsDistinct(uses);
    var keys, memory := Recency(uses), Memory(uses, bound);
    assert keys == keys[..|keys| - |memory|] + memory;
    TailIsDistinct(keys[..|keys| - |memory|], memory);
  }
}
