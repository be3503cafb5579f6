/** The backtest engine as it runs: an anchoring sweep with one monotone cursor, then a loop over records and their intents. */
module BacktestEngine {
  import opened Wrappers
  import opened Arithmetic
  import opened Fills
  import opened Ledger
  import opened Backtest
  import opened BacktestTheorems

  datatype EngineError = CapitalNotPositive | IntentsNotAscending

  // ---------------------------------------------------------- anchoring sweep

  /** Indices below `n` of the intents anchored at record `r`, in intent order. */
  function IndicesAt(records: seq<Record>, intents: seq<Intent>, n: nat, r: nat): seq<nat>
    requires n <= |intents|
  {
    if n == 0 then []
    else
      var earlier := IndicesAt(records, intents, n - 1, r);
      if Anchor(records, intents[n - 1].decidedAt) == r then earlier + [n - 1] else earlier
  }

  /** Outcome known before the simulation: only intents that no record follows have one. */
  function Prefilled(records: seq<Record>, intents: seq<Intent>, i: nat): Option<Outcome>
    requires i < |intents|
  {
    if Anchor(records, intents[i].decidedAt) == |records| then Some(Unfilled(i, NoRecordAfterDecision)) else None
  }

  lemma {:induction false} AnchorResumes(records: seq<Record>, t: Time, from: nat, cursor: nat)
    requires from <= cursor <= |records|
    requires forall i :: from <= i < cursor ==> Timestamp(records[i]) <= t
    ensures AnchorFrom(records, t, from) == AnchorFrom(records, t, cursor)
    decreases cursor - from
  {
    if from < cursor { AnchorResumes(records, t, from + 1, cursor); }
  }

  /** One monotone cursor places every intent at the least record strictly after its decision. */
  method AnchorIntents(records: seq<Record>, intents: seq<Intent>)
    returns (anchored: seq<seq<nat>>, outcomes: seq<Option<Outcome>>)
    requires Ascending(intents)
    ensures |anchored| == |records| && |outcomes| == |intents|
    ensures forall r :: 0 <= r < |records| ==> anchored[r] == IndicesAt(records, intents, |intents|, r)
    ensures forall i :: 0 <= i < |intents| ==> outcomes[i] == Prefilled(records, intents, i)
  {
    var cursor := 0;
    anchored := seq(|records|, _ => []);
    outcomes := seq(|intents|, _ => None);
    for index := 0 to |intents|
      invariant |anchored| == |records| && |outcomes| == |intents| && cursor <= |records|
      invariant forall i :: 0 <= i < cursor ==> index > 0 && Timestamp(records[i]) <= intents[index - 1].decidedAt
      invariant forall r :: 0 <= r < |records| ==> anchored[r] == IndicesAt(records, intents, index, r)
      invariant forall i :: 0 <= i < index ==> outcomes[i] == Prefilled(records, intents, i)
      invariant forall i :: index <= i < |intents| ==> outcomes[i] == None
    {
      var decidedAt := intents[index].decidedAt;
      assert DecidedInOrder(intents, index - 1, index);
      AnchorResumes(records, decidedAt, 0, cursor);
      while cursor < |records| && Timestamp(records[cursor]) <= decidedAt
        invariant cursor <= |records|
        invariant AnchorFrom(records, decidedAt, cursor) == Anchor(records, decidedAt)
        invariant forall i :: 0 <= i < cursor ==> Timestamp(records[i]) <= decidedAt
      {
        cursor := cursor + 1;
      }
      if cursor < |records| {
        anchored := anchored[cursor := anchored[cursor] + [index]];
      } else {
        outcomes := outcomes[index := Some(Unfilled(index, NoRecordAfterDecision))];
      }
    }
  }

  // ------------------------------------------------------- which intents when

  /** How many leading intents are anchored before record `r`. */
  function Processed(s: Setup, r: nat): (k: nat)
    requires r <= |s.records|
    ensures k <= |s.intents|
  {
    if r == 0 then 0 else DecidedBefore(s.intents, Timestamp(s.records[r - 1]))
  }

  ghost predicate ValidSetup(s: Setup) {
    ValidRecords(s.records) && Ascending(s.intents)
  }

  lemma AnchoredBefore(s: Setup, r: nat, i: nat)
    requires ValidSetup(s) && r <= |s.records| && i < |s.intents|
    ensures i < Processed(s, r) <==> Anchor(s.records, s.intents[i].decidedAt) < r
  {
    var k, a := Processed(s, r), Anchor(s.records, s.intents[i].decidedAt);
    if r > 0 {
      AnchorIsLeast(s.records, s.intents[i].decidedAt);
      DecidedBeforeIsPrefix(s.intents, Timestamp(s.records[r - 1]));
      assert DecidedInOrder(s.intents, k, i) && DecidedInOrder(s.intents, i, k);
      assert RecordsInOrder(s.records, a, r - 1);
    }
  }

  function Range(lo: nat, hi: nat): seq<nat>
    requires lo <= hi
    decreases hi
  {
    if lo == hi then [] else Range(lo, hi - 1) + [hi - 1]
  }

  lemma {:induction false} RangeAt(lo: nat, hi: nat, j: nat)
    requires lo <= hi
    ensures |Range(lo, hi)| == hi - lo
    ensures j < hi - lo ==> Range(lo, hi)[j] == lo + j
    decreases hi
  {
    if lo < hi { RangeAt(lo, hi - 1, j); }
  }

  function Least(a: nat, b: nat): nat {
    if a <= b then a else b
  }

  lemma {:induction false} IndicesAreRange(s: Setup, r: nat, n: nat)
    requires ValidSetup(s) && r < |s.records| && n <= |s.intents|
    ensures Processed(s, r) <= Processed(s, r + 1)
    ensures IndicesAt(s.records, s.intents, n, r) == Range(Least(n, Processed(s, r)), Least(n, Processed(s, r + 1)))
    decreases n
  {
    ProcessedGrows(s, r);
    if n > 0 {
      IndicesAreRange(s, r, n - 1);
      AnchoredBefore(s, r, n - 1);
      AnchoredBefore(s, r + 1, n - 1);
    }
  }

  lemma ProcessedGrows(s: Setup, r: nat)
    requires ValidSetup(s) && r < |s.records|
    ensures Processed(s, r) <= Processed(s, r + 1)
  {
    if r > 0 {
      var k := Processed(s, r + 1);
      assert RecordsInOrder(s.records, r - 1, r);
      DecidedBeforeIsPrefix(s.intents, Timestamp(s.records[r - 1]));
      DecidedBeforeIsPrefix(s.intents, Timestamp(s.records[r]));
      assert k < |s.intents| ==> s.intents[k].decidedAt >= Timestamp(s.records[r]);
    }
  }

  lemma IntentsOfRecord(s: Setup, r: nat)
    requires ValidSetup(s) && r < |s.records|
    ensures var lo, hi := Processed(s, r), Processed(s, r + 1);
            lo <= hi && IndicesAt(s.records, s.intents, |s.intents|, r) == Range(lo, hi)
  {
    IndicesAreRange(s, r, |s.intents|);
  }

  lemma AnchoredHere(s: Setup, r: nat, i: nat)
    requires ValidSetup(s) && r < |s.records| && Processed(s, r) <= i < Processed(s, r + 1)
    ensures Anchor(s.records, s.intents[i].decidedAt) == r
  {
    AnchoredBefore(s, r, i);
    AnchoredBefore(s, r + 1, i);
  }

  // ----------------------------------------------------------------- the run

  /** The entry of intent `i` while `k` intents have been processed. */
  ghost predicate OutcomeIs(s: Setup, outcome: Option<Outcome>, k: nat, i: nat) {
    i < |s.intents| && outcome == if i < k then Some(OutcomeOf(s, i)) else Prefilled(s.records, s.intents, i)
  }

  ghost predicate OutcomesUpTo(s: Setup, outcomes: seq<Option<Outcome>>, k: nat) {
    && |outcomes| == |s.intents| && k <= |s.intents|
    && forall i :: 0 <= i < |s.intents| ==> OutcomeIs(s, outcomes[i], k, i)
  }

  lemma OutcomeRecorded(s: Setup, outcomes: seq<Option<Outcome>>, k: nat)
    requires OutcomesUpTo(s, outcomes, k) && k < |s.intents|
    ensures OutcomesUpTo(s, outcomes[k := Some(OutcomeOf(s, k))], k + 1)
  {
    var more := outcomes[k := Some(OutcomeOf(s, k))];
    forall i | 0 <= i < |s.intents| ensures OutcomeIs(s, more[i], k + 1, i) {
      assert OutcomeIs(s, outcomes[i], k, i);
    }
  }

  /** The variables of the run loop, besides the ledger. */
  datatype Progress = Progress(
    cash: real, position: NonNegative, sequence: nat, trades: seq<Trade>, outcomes: seq<Option<Outcome>>)

  predicate Holds(account: Account, p: Progress, ledger: Ledger) {
    && p.cash == account.cash && p.position == account.position && p.sequence == |account.fills|
    && p.trades == account.trades && ledger == account.ledger
  }

  /** The engine's variables hold the account after `k` intents. */
  ghost predicate Mirrors(s: Setup, k: nat, p: Progress, ledger: FifoLedger)
    reads ledger
  {
    OutcomesUpTo(s, p.outcomes, k) && Holds(AccountAfter(s, k), p, ledger.Value())
  }

  lemma ClosingIsCovered(s: Setup, account: Account, i: nat)
    requires i < |s.intents| && Agrees(account, s.capital) && Lawful(s.rule)
    requires var outcome := Step(s, account, i).1; outcome.Filled? && outcome.fill.side.Sell?
    ensures Step(s, account, i).1.fill.quantity <= Remaining(account.ledger.lots)
  {}

  /** Posts one fill; the sell can never exceed the open position. */
  method PostFill(fill: Fill, ledger: FifoLedger, ghost s: Setup, ghost i: nat) returns (completed: seq<Trade>)
    requires i < |s.intents| && s.capital >= 0.0 && Lawful(s.rule)
    requires ledger.Value() == AccountAfter(s, i).ledger && OutcomeOf(s, i).Filled? && fill == OutcomeOf(s, i).fill
    modifies ledger
    ensures ledger.Value() == AccountAfter(s, i + 1).ledger
    ensures AccountAfter(s, i).trades + completed == AccountAfter(s, i + 1).trades
  {
    ThreeBooksAgree(s, i);
    if fill.side == Buy {
      var _ := ledger.OpenLot(fill);
      return [];
    } else {
      ClosingIsCovered(s, AccountAfter(s, i), i);
      var closed := ledger.CloseLots(fill);
      return closed.value;
    }
  }

  method ApplyIntent(s: Setup, r: nat, i: nat, p: Progress, ledger: FifoLedger) returns (q: Progress)
    requires i < |s.intents| && r < |s.records| && s.capital >= 0.0 && Lawful(s.rule)
    requires Anchor(s.records, s.intents[i].decidedAt) == r && Mirrors(s, i, p, ledger)
    modifies ledger
    ensures Mirrors(s, i + 1, q, ledger)
  {
    var e := s.rule(Query(s.intents[i], s.records[r], r, p.cash, p.position, p.sequence, i));
    assert e.outcome == OutcomeOf(s, i);
    OutcomeRecorded(s, p.outcomes, i);
    q := p.(outcomes := p.outcomes[i := Some(e.outcome)]);
    if e.outcome.Filled? {
      var completed := PostFill(e.outcome.fill, ledger, s, i);
      q := q.(sequence := p.sequence + 1, trades := p.trades + completed);
    }
    q := q.(cash := e.cash, position := e.position);
  }

  ghost predicate AnchoredAre(s: Setup, indices: seq<nat>, r: nat) {
    indices == IndicesAt(s.records, s.intents, |s.intents|, r)
  }

  /** Applies the intents anchored at record `r` in order. */
  method ApplyRecord(s: Setup, r: nat, indices: seq<nat>, p: Progress, ledger: FifoLedger) returns (q: Progress)
    requires ValidSetup(s) && r < |s.records| && s.capital >= 0.0 && Lawful(s.rule)
    requires AnchoredAre(s, indices, r)
    requires Mirrors(s, Processed(s, r), p, ledger)
    modifies ledger
    ensures Mirrors(s, Processed(s, r + 1), q, ledger)
  {
    ghost var lo, hi := Processed(s, r), Processed(s, r + 1);
    IntentsOfRecord(s, r);
    RangeAt(lo, hi, 0);
    q := p;
    for j := 0 to |indices|
      invariant Mirrors(s, lo + j, q, ledger)
    {
      RangeAt(lo, hi, j);
      AnchoredHere(s, r, indices[j]);
      q := ApplyIntent(s, r, indices[j], q, ledger);
    }
  }

  method AreAscending(intents: seq<Intent>) returns (ascending: bool)
    ensures ascending <==> Ascending(intents)
  {
    if |intents| == 0 {
      return true;
    }
    for index := 1 to |intents|
      invariant forall i, j :: j < index ==> DecidedInOrder(intents, i, j)
    {
      if intents[index].decidedAt <= intents[index - 1].decidedAt {
        assert !DecidedInOrder(intents, index - 1, index);
        return false;
      }
      forall i, j | j < index + 1 ensures DecidedInOrder(intents, i, j) {
        if 0 <= i < index == j { assert DecidedInOrder(intents, i, index - 1); }
      }
    }
    assert forall i, j :: j >= |intents| ==> DecidedInOrder(intents, i, j);
    return true;
  }

  /** No outcome is missing at the end of the run, so none is dropped from the result. */
  method CollectOutcomes(s: Setup, outcomes: seq<Option<Outcome>>) returns (all: seq<Outcome>)
    requires ValidSetup(s) && OutcomesUpTo(s, outcomes, Processed(s, |s.records|))
    ensures all == Simulate(s).outcomes
  {
    all := [];
    for i := 0 to |outcomes|
      invariant |all| == i && forall q :: 0 <= q < i ==> all[q] == OutcomeOf(s, q)
    {
      AnchoredBefore(s, |s.records|, i);
      assert OutcomeIs(s, outcomes[i], Processed(s, |s.records|), i);
      all := all + [outcomes[i].value];
    }
  }

  /** The engine computes the simple form, and fails exactly on bad capital or unordered intents. */
  method RunBacktest(records: seq<Record>, intents: seq<Intent>, costs: CostModel, capital: real)
    returns (result: Result<BacktestRun, EngineError>)
    requires ValidRecords(records)
    ensures result.Ok? <==> capital > 0.0 && Ascending(intents)
    ensures result.Ok? ==> result.value == Simulate(Setup(records, intents, FillRule(costs), capital))
  {
    if capital <= 0.0 {
      return Err(CapitalNotPositive);
    }
    var ascending := AreAscending(intents);
    if !ascending {
      return Err(IntentsNotAscending);
    }
    var anchored, outcomes := AnchorIntents(records, intents);
    FillRuleIsLawful(costs);
    ghost var s := Setup(records, intents, FillRule(costs), capital);
    assert forall i :: 0 <= i < |intents| ==> OutcomeIs(s, outcomes[i], 0, i);
    assert forall r :: 0 <= r < |records| ==> AnchoredAre(s, anchored[r], r);
    var run := RunRecords(Setup(records, intents, FillRule(costs), capital), anchored, outcomes);
    return Ok(run);
  }

  method RunRecords(s: Setup, anchored: seq<seq<nat>>, outcomes: seq<Option<Outcome>>) returns (run: BacktestRun)
    requires ValidSetup(s) && s.capital >= 0.0 && Lawful(s.rule)
    requires |anchored| == |s.records| && OutcomesUpTo(s, outcomes, 0)
    requires forall r :: 0 <= r < |s.records| ==> AnchoredAre(s, anchored[r], r)
    ensures run == Simulate(s)
  {
    var ledger := new FifoLedger();
    var p, equity := Progress(s.capital, 0.0, 0, [], outcomes), [];
    for r := 0 to |s.records|
      invariant Mirrors(s, Processed(s, r), p, ledger)
      invariant MarkedUpTo(s, equity, r)
    {
      p := ApplyRecord(s, r, anchored[r], p, ledger);
      RecordMarked(s, equity, r, p, ledger.Value());
      equity := equity + [EquityPoint(Timestamp(s.records[r]), p.cash + p.position * MarkPrice(s.records[r]))];
    }
    var all := CollectOutcomes(s, p.outcomes);
    EndOfRun(s, p, ledger.Value(), equity);
    run := BacktestRun(all, p.trades, equity);
  }

  ghost predicate EquityIs(s: Setup, point: EquityPoint, r: nat) {
    r < |s.records| && point == EquityAt(s, r)
  }

  ghost predicate MarkedUpTo(s: Setup, equity: seq<EquityPoint>, n: nat) {
    |equity| == n <= |s.records| && forall r :: 0 <= r < n ==> EquityIs(s, equity[r], r)
  }

  lemma RecordMarked(s: Setup, equity: seq<EquityPoint>, r: nat, p: Progress, ledger: Ledger)
    requires r < |s.records| && MarkedUpTo(s, equity, r) && Holds(AccountAfter(s, Processed(s, r + 1)), p, ledger)
    ensures MarkedUpTo(s, equity + [EquityPoint(Timestamp(s.records[r]), p.cash + p.position * MarkPrice(s.records[r]))], r + 1)
  {}

  lemma EndOfRun(s: Setup, p: Progress, ledger: Ledger, equity: seq<EquityPoint>)
    requires ValidSetup(s) && MarkedUpTo(s, equity, |s.records|)
    requires Holds(AccountAfter(s, Processed(s, |s.records|)), p, ledger)
    ensures p.trades == Simulate(s).trades && equity == Simulate(s).equity
  {
    FinalAccount(s);
    forall r | 0 <= r < |s.records| ensures equity[r] == EquityAt(s, r) { assert EquityIs(s, equity[r], r); }
  }
}
