/** The walk-forward schedule: rolling train, validation and test slices, and the coverage count. */
module WalkForward {
  import opened Wrappers
  import opened Fills

  /** Window geometry in records; construction enforces the bounds. */
  datatype Geometry = Geometry(training: int, validation: int, test: int, step: int)

  type Config = c: Geometry | c.training >= 1 && c.validation >= 1 && c.test >= 1 && c.step >= c.test
    witness Geometry(1, 1, 1, 1)

  function Span(config: Config): nat {
    config.training + config.validation + config.test
  }

  // ------------------------------------------------------------------ windows

  /** Records `start` up to but not including `end`, with the times of the first and the last. */
  datatype Slice = Slice(start: int, end: int, first: Time, last: Time)

  datatype Window = Window(
    index: nat, train: Slice, validation: Slice, test: Slice,
    trainInput: seq<Record>, validationInput: seq<Record>, testInput: seq<Record>)

  datatype ScheduleError =
    | TooFewRecords
    | NegativeStart | EmptySlice | TimesReversed
    | GapInWindow | SlicesOutOfOrder | BoundariesNotIncreasing
    | WrongRecordCount | WrongFirstTime | WrongLastTime

  /** The checks a slice is constructed under. */
  function SliceFault(s: Slice): Option<ScheduleError> {
    if s.start < 0 then Some(NegativeStart)
    else if s.end <= s.start then Some(EmptySlice)
    else if s.first > s.last then Some(TimesReversed)
    else None
  }

  function InputFault(input: seq<Record>, s: Slice): Option<ScheduleError> {
    if |input| != s.end - s.start then Some(WrongRecordCount)
    else if |input| == 0 || Timestamp(input[0]) != s.first then Some(WrongFirstTime)
    else if Timestamp(input[|input| - 1]) != s.last then Some(WrongLastTime)
    else None
  }

  function Either(a: Option<ScheduleError>, b: Option<ScheduleError>): Option<ScheduleError> {
    if a.Some? then a else b
  }

  /** The checks a window is constructed under, its slices' own included. */
  function WindowFault(w: Window): Option<ScheduleError> {
    Either(SliceFault(w.train), Either(SliceFault(w.validation), Either(SliceFault(w.test),
      if w.train.end != w.validation.start then Some(GapInWindow)
      else if w.validation.end != w.test.start then Some(GapInWindow)
      else if !(w.train.start < w.test.end) then Some(SlicesOutOfOrder)
      else if !(w.train.first < w.validation.last < w.test.last) then Some(BoundariesNotIncreasing)
      else Either(InputFault(w.trainInput, w.train),
                  Either(InputFault(w.validationInput, w.validation), InputFault(w.testInput, w.test))))))
  }

  /** A slice is not empty and its times do not run backwards; its input has its records' number and times. */
  ghost predicate SliceSound(s: Slice, input: seq<Record>) {
    && 0 <= s.start < s.end && s.first <= s.last
    && |input| == s.end - s.start && Timestamp(input[0]) == s.first && Timestamp(input[|input| - 1]) == s.last
  }

  /** A window passes its checks exactly when its slices are sound, follow each other without a gap and end at increasing times. */
  lemma WindowPassesExactlyWhen(w: Window)
    ensures WindowFault(w).None? <==>
            && SliceSound(w.train, w.trainInput) && SliceSound(w.validation, w.validationInput) && SliceSound(w.test, w.testInput)
            && w.train.end == w.validation.start && w.validation.end == w.test.start
            && w.train.first < w.validation.last < w.test.last
  {}

  function SliceOf(records: seq<Record>, begin: nat, end: nat): Slice
    requires begin < end <= |records|
  {
    Slice(begin, end, Timestamp(records[begin]), Timestamp(records[end - 1]))
  }

  function WindowFrom(records: seq<Record>, config: Config, index: nat, start: nat): Window
    requires start + Span(config) <= |records|
  {
    var trainEnd := start + config.training;
    var validationEnd := trainEnd + config.validation;
    var testEnd := validationEnd + config.test;
    Window(index, SliceOf(records, start, trainEnd), SliceOf(records, trainEnd, validationEnd), SliceOf(records, validationEnd, testEnd),
           records[start..trainEnd], records[trainEnd..validationEnd], records[validationEnd..testEnd])
  }

  /** No construction check of a scheduled window can fail, whatever the records and the geometry. */
  lemma ScheduledWindowsAreSound(records: seq<Record>, config: Config, index: nat, start: nat)
    requires ValidRecords(records) && start + Span(config) <= |records|
    ensures WindowFault(WindowFrom(records, config, index, start)).None?
  {
    var w := WindowFrom(records, config, index, start);
    SliceIsSound(records, w.train.start, w.train.end);
    SliceIsSound(records, w.validation.start, w.validation.end);
    SliceIsSound(records, w.test.start, w.test.end);
    assert RecordsInOrder(records, w.train.start, w.validation.end - 1);
    assert RecordsInOrder(records, w.validation.end - 1, w.test.end - 1);
  }

  lemma SliceIsSound(records: seq<Record>, begin: nat, end: nat)
    requires ValidRecords(records) && begin < end <= |records|
    ensures SliceFault(SliceOf(records, begin, end)).None?
    ensures InputFault(records[begin..end], SliceOf(records, begin, end)).None?
    ensures ValidRecords(records[begin..end])
  {
    assert RecordsInOrder(records, begin, end - 1);
    forall i, j ensures RecordsInOrder(records[begin..end], i, j) { assert RecordsInOrder(records, begin + i, begin + j); }
  }

  // ----------------------------------------------------------------- schedule

  function Periods(count: nat, config: Config): nat
    requires count >= Span(config)
  {
    (count - Span(config)) / config.step + 1
  }

  function Start(config: Config, index: nat): nat {
    index * config.step
  }

  lemma StartSteps(config: Config, index: nat)
    ensures Start(config, index + 1) == Start(config, index) + config.step
  {}

  lemma {:induction false} StartAscends(config: Config, i: nat, j: nat)
    requires i < j
    ensures Start(config, i) + config.step <= Start(config, j)
    decreases j
  {
    StartSteps(config, j - 1);
    if i < j - 1 { StartAscends(config, i, j - 1); }
  }

  lemma PeriodsMeaning(count: nat, config: Config)
    requires count >= Span(config)
    ensures var n := Periods(count, config);
            n >= 1 && Start(config, n - 1) + Span(config) <= count < Start(config, n) + Span(config)
  {
    var room, n := count - Span(config), Periods(count, config);
    assert room == (n - 1) * config.step + room % config.step;
    StartSteps(config, n - 1);
  }

  /** All scheduled windows fit; one more would not. */
  lemma ScheduleIsMaximal(count: nat, config: Config, index: nat)
    requires count >= Span(config)
    ensures index < Periods(count, config) <==> Start(config, index) + Span(config) <= count
  {
    var n := Periods(count, config);
    PeriodsMeaning(count, config);
    if index < n - 1 { StartAscends(config, index, n - 1); }
    if index > n { StartAscends(config, n, index); }
  }

  function Schedule(records: seq<Record>, config: Config): (windows: seq<Window>)
    requires |records| >= Span(config)
  {
    seq(Periods(|records|, config), index requires 0 <= index < Periods(|records|, config) =>
      ScheduleIsMaximal(|records|, config, index);
      WindowFrom(records, config, index, Start(config, index)))
  }

  /** Construct one window; the construction fails on a fault. */
  method BuildWindow(records: seq<Record>, config: Config, index: nat, start: nat) returns (r: Result<Window, ScheduleError>)
    requires start + Span(config) <= |records|
    ensures var w := WindowFrom(records, config, index, start);
            r == if WindowFault(w).Some? then Err(WindowFault(w).value) else Ok(w)
  {
    var trainEnd := start + config.training;
    var validationEnd := trainEnd + config.validation;
    var testEnd := validationEnd + config.test;
    var window := Window(index, SliceOf(records, start, trainEnd), SliceOf(records, trainEnd, validationEnd), SliceOf(records, validationEnd, testEnd),
                         records[start..trainEnd], records[trainEnd..validationEnd], records[validationEnd..testEnd]);
    var fault := WindowFault(window);
    if fault.Some? {
      return Err(fault.value);
    }
    return Ok(window);
  }

  /** Build every window in turn. Too few records is the only error: no construction fails. */
  method BuildWindows(records: seq<Record>, config: Config) returns (r: Result<seq<Window>, ScheduleError>)
    requires ValidRecords(records)
    ensures |records| < Span(config) ==> r == Err(TooFewRecords)
    ensures |records| >= Span(config) ==> r == Ok(Schedule(records, config))
  {
    var count, span := |records|, config.training + config.validation + config.test;
    if count < span {
      return Err(TooFewRecords);
    }
    var periods := (count - span) / config.step + 1;
    ghost var schedule := Schedule(records, config);
    var windows: seq<Window> := [];
    for index := 0 to periods
      invariant windows == schedule[..index]
    {
      ScheduleIsMaximal(count, config, index);
      ScheduledWindowsAreSound(records, config, index, index * config.step);
      var built := BuildWindow(records, config, index, index * config.step);
      assert built.Ok?;
      windows := windows + [built.value];
    }
    assert schedule[..periods] == schedule;
    return Ok(windows);
  }

  /** Within every window the slices follow each other without a gap, each as long as the geometry says. */
  lemma SlicesFollowEachOther(records: seq<Record>, config: Config, i: nat)
    requires |records| >= Span(config) && i < Periods(|records|, config)
    ensures var w := Schedule(records, config)[i];
            && w.index == i && w.train.start == Start(config, i)
            && w.train.end == w.validation.start == w.train.start + config.training
            && w.validation.end == w.test.start == w.validation.start + config.validation
            && w.test.end == w.test.start + config.test <= |records|
  {
    ScheduleIsMaximal(|records|, config, i);
  }

  /** Test slices of different windows never overlap. */
  lemma TestSlicesAreDisjoint(records: seq<Record>, config: Config, i: nat, j: nat)
    requires |records| >= Span(config) && i < j < Periods(|records|, config)
    ensures Schedule(records, config)[i].test.end <= Schedule(records, config)[j].test.start
  {
    StartAscends(config, i, j);
    ScheduleIsMaximal(|records|, config, i);
    ScheduleIsMaximal(|records|, config, j);
  }
}
