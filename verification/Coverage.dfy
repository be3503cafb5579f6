/** How many records a walk-forward schedule covers: the bitmap the program fills, and the closed form. */
module Coverage {
  import opened Wrappers
  import opened Fills
  import opened WalkForward

  // ------------------------------------------------------------------- bitmap

  function Mark(bits: seq<bool>, from: int, to: int): (marked: seq<bool>)
    ensures |marked| == |bits|
  {
    seq(|bits|, x requires 0 <= x < |bits| => bits[x] || from <= x < to)
  }

  function MarkWindow(bits: seq<bool>, w: Window): (marked: seq<bool>)
    ensures |marked| == |bits|
  {
    Mark(Mark(Mark(bits, w.train.start, w.train.end), w.validation.start, w.validation.end), w.test.start, w.test.end)
  }

  function MarkWindows(bits: seq<bool>, windows: seq<Window>): (marked: seq<bool>)
    ensures |marked| == |bits|
    decreases |windows|
  {
    if |windows| == 0 then bits else MarkWindow(MarkWindows(bits, windows[..|windows| - 1]), windows[|windows| - 1])
  }

  function Blank(n: nat): seq<bool> {
    seq(n, _ => false)
  }

  function Ones(n: nat): seq<bool> {
    seq(n, _ => true)
  }

  function Count(bits: seq<bool>): nat
    decreases |bits|
  {
    if |bits| == 0 then 0 else Count(bits[..|bits| - 1]) + if bits[|bits| - 1] then 1 else 0
  }

  predicate Within(s: Slice, n: nat) {
    0 <= s.start <= s.end <= n
  }

  method MarkSlice(bits: array<bool>, s: Slice)
    requires Within(s, bits.Length)
    modifies bits
    ensures bits[..] == Mark(old(bits[..]), s.start, s.end)
  {
    for x := s.start to s.end
      invariant forall y :: 0 <= y < bits.Length ==> bits[y] == (old(bits[y]) || s.start <= y < x)
    {
      bits[x] := true;
    }
  }

  method CountBits(bits: array<bool>) returns (n: nat)
    ensures n == Count(bits[..])
  {
    n := 0;
    for x := 0 to bits.Length
      invariant n == Count(bits[..x])
    {
      assert bits[..x + 1][..x] == bits[..x];
      n := n + if bits[x] then 1 else 0;
    }
    assert bits[..bits.Length] == bits[..];
  }

  /** Mark every slice of every window, then count the marks. */
  method CoveredRecords(windows: seq<Window>, count: nat) returns (covered: nat)
    requires forall i :: 0 <= i < |windows| ==>
               Within(windows[i].train, count) && Within(windows[i].validation, count) && Within(windows[i].test, count)
    ensures covered == Count(MarkWindows(Blank(count), windows))
  {
    var bits := new bool[count](_ => false);
    assert bits[..] == Blank(count);
    for i := 0 to |windows|
      invariant bits[..] == MarkWindows(Blank(count), windows[..i])
    {
      assert windows[..i + 1][..i] == windows[..i];
      MarkSlice(bits, windows[i].train);
      MarkSlice(bits, windows[i].validation);
      MarkSlice(bits, windows[i].test);
    }
    assert windows[..|windows|] == windows;
    covered := CountBits(bits);
  }

  // -------------------------------------------------------------- closed form

  lemma {:induction false} CountSplits(a: seq<bool>, b: seq<bool>)
    ensures Count(a + b) == Count(a) + Count(b)
    decreases |b|
  {
    if |b| == 0 {
      assert a + b == a;
    } else {
      var n := |b| - 1;
      CountSplits(a, b[..n]);
      assert (a + b)[..|a + b| - 1] == a + b[..n];
    }
  }

  lemma {:induction false} CountUniform(bits: seq<bool>, value: bool)
    requires forall x :: 0 <= x < |bits| ==> bits[x] == value
    ensures Count(bits) == if value then |bits| else 0
    decreases |bits|
  {
    if |bits| > 0 { CountUniform(bits[..|bits| - 1], value); }
  }

  ghost predicate AllAre(bits: seq<bool>, from: int, to: int, value: bool) {
    forall x :: 0 <= x < |bits| && from <= x < to ==> bits[x] == value
  }

  /** Marking a range whose first part is marked and whose rest is not adds the rest. */
  lemma MarkAdds(bits: seq<bool>, from: nat, middle: nat, to: nat)
    requires from <= middle <= to <= |bits|
    requires AllAre(bits, from, middle, true) && AllAre(bits, middle, to, false)
    ensures Count(Mark(bits, from, to)) == Count(bits) + (to - middle)
  {
    MarkedParts(bits, from, middle, to);
    CountParts(bits[..middle], Ones(to - middle), bits[to..]);
    CountOfParts(bits, middle, to);
    CountUnmarked(bits, middle, to);
    CountOnes(to - middle);
  }

  lemma CountOfParts(bits: seq<bool>, middle: nat, to: nat)
    requires middle <= to <= |bits|
    ensures Count(bits) == Count(bits[..middle]) + Count(bits[middle..to]) + Count(bits[to..])
  {
    CountAt(bits, to);
    CountAt(bits[..to], middle);
    assert bits[..to][..middle] == bits[..middle] && bits[..to][middle..] == bits[middle..to];
  }

  lemma CountAt(bits: seq<bool>, at: nat)
    requires at <= |bits|
    ensures Count(bits) == Count(bits[..at]) + Count(bits[at..])
  {
    CountSplits(bits[..at], bits[at..]);
    assert bits[..at] + bits[at..] == bits;
  }

  lemma CountUnmarked(bits: seq<bool>, from: nat, to: nat)
    requires from <= to <= |bits| && AllAre(bits, from, to, false)
    ensures Count(bits[from..to]) == 0
  {
    var body := bits[from..to];
    forall x | 0 <= x < |body| ensures !body[x] { assert body[x] == bits[from + x]; }
    CountUniform(body, false);
  }

  lemma CountOnes(n: nat)
    ensures Count(Ones(n)) == n
  {
    CountUniform(Ones(n), true);
  }

  lemma MarkedParts(bits: seq<bool>, from: nat, middle: nat, to: nat)
    requires from <= middle <= to <= |bits| && AllAre(bits, from, middle, true)
    ensures Mark(bits, from, to) == bits[..middle] + Ones(to - middle) + bits[to..]
  {
    var marked, parts := Mark(bits, from, to), bits[..middle] + Ones(to - middle) + bits[to..];
    forall x | 0 <= x < |bits| ensures marked[x] == parts[x] {}
  }

  lemma CountParts(a: seq<bool>, b: seq<bool>, c: seq<bool>)
    ensures Count(a + b + c) == Count(a) + Count(b) + Count(c)
  {
    CountSplits(a + b, c);
    CountSplits(a, b);
  }

  /** The three slices of a window lie end to end. */
  lemma WindowIsOneRange(bits: seq<bool>, records: seq<Record>, config: Config, index: nat, start: nat)
    requires start + Span(config) <= |records|
    ensures MarkWindow(bits, WindowFrom(records, config, index, start)) == Mark(bits, start, start + Span(config))
  {}

  /** Each further window adds its step, or its whole span when windows do not overlap. */
  function Advance(config: Config): nat {
    if config.step <= Span(config) then config.step else Span(config)
  }

  /** Records covered by the first `k` windows. */
  function CoveredBy(config: Config, k: nat): nat {
    if k == 0 then 0 else if k == 1 then Span(config) else CoveredBy(config, k - 1) + Advance(config)
  }

  lemma {:induction false} CoveredClosedForm(config: Config, k: nat)
    requires k > 0
    ensures CoveredBy(config, k) == (k - 1) * Advance(config) + Span(config)
  {
    if k > 1 {
      CoveredClosedForm(config, k - 1);
      Distributes(k - 2, Advance(config));
    }
  }

  lemma Distributes(k: nat, a: nat)
    ensures (k + 1) * a == k * a + a
  {}

  /** The last of the first `k` windows is marked through, and nothing is marked behind it. */
  ghost predicate MarkedUpTo(bits: seq<bool>, config: Config, k: nat) {
    && Count(bits) == CoveredBy(config, k)
    && (k > 0 ==> AllAre(bits, Start(config, k - 1), Start(config, k - 1) + Span(config), true))
    && AllAre(bits, if k == 0 then 0 else Start(config, k - 1) + Span(config), |bits|, false)
  }

  lemma OneMoreWindow(bits: seq<bool>, config: Config, k: nat)
    requires MarkedUpTo(bits, config, k) && Start(config, k) + Span(config) <= |bits|
    ensures MarkedUpTo(Mark(bits, Start(config, k), Start(config, k) + Span(config)), config, k + 1)
  {
    var start, end := Start(config, k), Start(config, k) + Span(config);
    var middle := start;
    if k > 0 {
      StartSteps(config, k - 1);
      var reached := Start(config, k - 1) + Span(config);
      if reached > start { middle := reached; }
    }
    MarkAdds(bits, start, middle, end);
  }

  /** The bitmap after the first `k` windows, each taken as one range. */
  function Marks(n: nat, config: Config, k: nat): (bits: seq<bool>)
    ensures |bits| == n
  {
    if k == 0 then Blank(n) else Mark(Marks(n, config, k - 1), Start(config, k - 1), Start(config, k - 1) + Span(config))
  }

  lemma NothingMarked(n: nat, config: Config)
    ensures MarkedUpTo(Blank(n), config, 0)
  {
    CountUniform(Blank(n), false);
  }

  lemma {:induction false} MarksMeaning(n: nat, config: Config, k: nat)
    requires n >= Span(config) && k <= Periods(n, config)
    ensures MarkedUpTo(Marks(n, config, k), config, k)
  {
    if k == 0 {
      NothingMarked(n, config);
    } else {
      MarksMeaning(n, config, k - 1);
      ScheduleIsMaximal(n, config, k - 1);
      OneMoreWindow(Marks(n, config, k - 1), config, k - 1);
    }
  }

  lemma {:induction false} ScheduleMarks(records: seq<Record>, config: Config, k: nat)
    requires |records| >= Span(config) && k <= Periods(|records|, config)
    ensures MarkWindows(Blank(|records|), Schedule(records, config)[..k]) == Marks(|records|, config, k)
    decreases k
  {
    if k > 0 {
      var shorter, longer := Schedule(records, config)[..k - 1], Schedule(records, config)[..k];
      ScheduleMarks(records, config, k - 1);
      ScheduleIsMaximal(|records|, config, k - 1);
      assert longer[..k - 1] == shorter;
      WindowIsOneRange(Marks(|records|, config, k - 1), records, config, k - 1, Start(config, k - 1));
    }
  }

  /** The bitmap's count is (periods - 1) * min(step, span) + span, and less than one step of records is left over. */
  lemma CoverageIsClosedForm(records: seq<Record>, config: Config)
    requires |records| >= Span(config)
    ensures var n := Periods(|records|, config);
            && Count(MarkWindows(Blank(|records|), Schedule(records, config)))
               == (n - 1) * (if config.step <= Span(config) then config.step else Span(config)) + Span(config)
            && 0 <= |records| - (Start(config, n - 1) + Span(config)) < config.step
  {
    var n, schedule := Periods(|records|, config), Schedule(records, config);
    ScheduleMarks(records, config, n);
    MarksMeaning(|records|, config, n);
    assert schedule[..n] == schedule;
    CoveredClosedForm(config, n);
    PeriodsMeaning(|records|, config);
    StartSteps(config, n - 1);
  }

  lemma WindowsAreWithin(records: seq<Record>, config: Config, i: nat)
    requires |records| >= Span(config) && i < Periods(|records|, config)
    ensures var w := Schedule(records, config)[i];
            Within(w.train, |records|) && Within(w.validation, |records|) && Within(w.test, |records|)
  {
    ScheduleIsMaximal(|records|, config, i);
  }

  /** The run's coverage metadata, computed by way of the bitmap. */
  method MeasureCoverage(records: seq<Record>, config: Config) returns (r: Result<(nat, nat), ScheduleError>)
    requires ValidRecords(records)
    ensures |records| < Span(config) ==> r == Err(TooFewRecords)
    ensures |records| >= Span(config) ==>
              r.Ok? && r.value.0 + r.value.1 == |records|
              && r.value.0 == (Periods(|records|, config) - 1) * (if config.step <= Span(config) then config.step else Span(config)) + Span(config)
  {
    var built := BuildWindows(records, config);
    if built.Err? {
      return Err(built.error);
    }
    var windows := built.value;
    forall i | 0 <= i < |windows|
      ensures Within(windows[i].train, |records|) && Within(windows[i].validation, |records|) && Within(windows[i].test, |records|)
    {
      WindowsAreWithin(records, config, i);
    }
    var covered := CoveredRecords(windows, |records|);
    CoverageIsClosedForm(records, config);
    CountAtMost(MarkWindows(Blank(|records|), windows));
    return Ok((covered, |records| - covered));
  }

  lemma {:induction false} CountAtMost(bits: seq<bool>)
    ensures Count(bits) <= |bits|
    decreases |bits|
  {
    if |bits| > 0 { CountAtMost(bits[..|bits| - 1]); }
  }
}
