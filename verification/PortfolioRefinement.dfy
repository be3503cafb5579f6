/** On one symbol, without reserve or budget, the portfolio engine is the backtest engine. */
module PortfolioRefinement {
  import opened Wrappers
  import opened Arithmetic
  import opened Fills
  import opened Ledger
  import opened Backtest
  import opened BacktestTheorems
  import opened BacktestEngine
  import opened Sorting
  import opened Portfolio
  import opened PortfolioPlanning

  function Tagging(symbol: Symbol, intents: seq<Intent>): seq<PortfolioIntent> {
    seq(|intents|, i requires 0 <= i < |intents| => PortfolioIntent(symbol, intents[i]))
  }

  /** The same run put to the portfolio engine. */
  function SinglePlan(symbol: Symbol, records: seq<Record>, intents: seq<Intent>, costs: CostModel, capital: Positive): Plan {
    PlanOf([Input(symbol, records)], Tagging(symbol, intents), costs, Allocation(capital, 0.0, map[]))
  }

  // ---------------------------------------------------- the plan of one symbol

  function Numbered(intents: seq<Intent>): seq<Tagged> {
    seq(|intents|, i requires 0 <= i < |intents| => Tagged(i, intents[i]))
  }

  lemma {:induction false} GroupOfOne(symbol: Symbol, intents: seq<Intent>)
    ensures Group(Tagging(symbol, intents), symbol) == Numbered(intents)
    decreases |intents|
  {
    if |intents| > 0 {
      var n := |intents| - 1;
      GroupOfOne(symbol, intents[..n]);
      assert Tagging(symbol, intents)[..n] == Tagging(symbol, intents[..n]);
      assert Numbered(intents) == Numbered(intents[..n]) + [Tagged(n, intents[n])];
    }
  }

  lemma NumberedIsSorted(intents: seq<Intent>)
    requires Ascending(intents)
    ensures Sort(Numbered(intents), DecidedLess) == Numbered(intents)
  {
    forall i, j ensures InOrder(Numbered(intents), DecidedLess, i, j) { assert DecidedInOrder(intents, i, j); }
    DecidedOrder();
    SortOfSorted(Numbered(intents), DecidedLess);
  }

  lemma {:induction false} SameIndices(records: seq<Record>, intents: seq<Intent>, n: nat, r: nat)
    requires n <= |intents|
    ensures IndicesIn(records, Numbered(intents), n, r) == IndicesAt(records, intents, n, r)
  {
    if n > 0 { SameIndices(records, intents, n - 1, r); }
  }

  lemma OneSymbol(symbol: Symbol, records: seq<Record>)
    ensures SymbolsOf([Input(symbol, records)]) == [symbol]
    ensures RecordsOf([Input(symbol, records)]) == map[symbol := records]
  {
    var inputs := [Input(symbol, records)];
    assert Names(inputs) == [symbol];
    SymbolOrder();
    forall i, j ensures InOrder([symbol], SymbolLess, i, j) {}
    SortOfSorted([symbol], SymbolLess);
    assert inputs[..0] == [];
  }

  lemma OneTimeline(symbol: Symbol, records: seq<Record>)
    requires ValidRecords(records)
    ensures Timeline([symbol], map[symbol := records]) == EntriesOf(symbol, records)
  {
    var entries := EntriesOf(symbol, records);
    assert [symbol][..0] == [];
    assert AllEntries([symbol], map[symbol := records]) == [] + entries == entries;
    forall i, j ensures InOrder(entries, EntryLess, i, j) { assert RecordsInOrder(records, i, j); }
    EntryOrder();
    SortOfSorted(entries, EntryLess);
  }

  /** The plan's timeline is the records in order, and its anchored lists are those of the backtest. */
  ghost predicate PlanMatches(plan: Plan, symbol: Symbol, s: Setup, costs: CostModel, capital: Positive) {
    && plan.symbols == [symbol]
    && plan.timeline == EntriesOf(symbol, s.records)
    && plan.intents == Tagging(symbol, s.intents)
    && plan.costs == costs && plan.allocation == Allocation(capital, 0.0, map[])
    && s.rule == FillRule(costs) && s.capital == capital
    && (forall r :: 0 <= r < |s.records| ==> AnchoredAre(s, AnchoredAt(plan, plan.timeline[r]), r))
  }

  lemma SinglePlanMatches(symbol: Symbol, records: seq<Record>, intents: seq<Intent>, costs: CostModel, capital: Positive)
    requires ValidRecords(records) && Ascending(intents)
    ensures PlanMatches(SinglePlan(symbol, records, intents, costs, capital), symbol,
                        Setup(records, intents, FillRule(costs), capital), costs, capital)
  {
    var plan, s := SinglePlan(symbol, records, intents, costs, capital), Setup(records, intents, FillRule(costs), capital);
    OneSymbol(symbol, records);
    OneTimeline(symbol, records);
    GroupOfOne(symbol, intents);
    NumberedIsSorted(intents);
    forall r | 0 <= r < |records| ensures AnchoredAre(s, AnchoredAt(plan, plan.timeline[r]), r) {
      SameIndices(records, intents, |intents|, r);
    }
  }

  // -------------------------------------------------------------- simulation

  /** The portfolio state is the account after `k` intents, with their outcomes. */
  ghost predicate Same(st: State, symbol: Symbol, s: Setup, k: nat) {
    && k <= |s.intents|
    && SameAccount(st, symbol, AccountAfter(s, k))
    && (forall i: nat :: i in st.outcomes ==> i < k)
    && (forall i: nat :: i < k ==> i in st.outcomes && OutcomeIs(s, Some(st.outcomes[i]), k, i))
  }

  predicate SameAccount(st: State, symbol: Symbol, account: Account) {
    && st.cash == account.cash && st.sequence == |account.fills|
    && Held(st, symbol) == Holding(account.position, account.ledger)
    && st.trades == Tag(symbol, account.trades)
  }

  lemma NoFloorNoBudget(q: Query, costs: CostModel, capital: Positive, symbol: Symbol)
    ensures Allocate(q, costs, Allocation(capital, 0.0, map[]), symbol) == EvaluateFill(q, costs)
  {
    FillRuleIsLawful(costs);
    assert Proper(q, FillRule(costs)(q));
  }

  lemma TagAppend(symbol: Symbol, a: seq<Trade>, b: seq<Trade>)
    ensures Tag(symbol, a) + Tag(symbol, b) == Tag(symbol, a + b)
  {}

  lemma PostSame(st: State, symbol: Symbol, account: Account, e: Evaluation)
    requires SameAccount(st, symbol, account)
    ensures SameAccount(PostTo(st, symbol, e), symbol, Post(account, e))
  {
    if e.outcome.Filled? && e.outcome.fill.side.Sell? {
      TagAppend(symbol, account.trades, Closed(account.ledger, e.outcome.fill).1);
    }
  }

  lemma StepSame(plan: Plan, symbol: Symbol, s: Setup, costs: CostModel, capital: Positive, st: State, g: nat, i: nat)
    requires PlanMatches(plan, symbol, s, costs, capital) && i < |s.intents| && g < |s.records|
    requires Anchor(s.records, s.intents[i].decidedAt) == g && Same(st, symbol, s, i)
    ensures Same(ApplyOne(plan, st, g, i), symbol, s, i + 1)
  {
    var account := AccountAfter(s, i);
    var q := Ask(account, s.intents[i], s.records[g], g, i);
    assert plan.timeline[g] == EntryOf(symbol, s.records, g);
    assert AskFor(plan, st, g, i) == q;
    NoFloorNoBudget(q, costs, capital, symbol);
    var e := s.rule(q);
    assert e == EvaluateFill(q, costs);
    PostSame(st, symbol, account, e);
    var after := ApplyOne(plan, st, g, i);
    assert after == PostTo(st, symbol, e) && OutcomeOf(s, i) == e.outcome;
    OutcomeIndex(q, costs);
    assert after.outcomes == st.outcomes[i := e.outcome];
    forall j: nat | j < i + 1 ensures j in after.outcomes && OutcomeIs(s, Some(after.outcomes[j]), i + 1, j) {
      if j < i { assert OutcomeIs(s, Some(st.outcomes[j]), i, j); }
    }
  }

  lemma OutcomeIndex(q: Query, costs: CostModel)
    ensures EvaluateFill(q, costs).outcome.intentIndex == q.intentIndex
  {
    FillRuleIsLawful(costs);
    assert Proper(q, FillRule(costs)(q));
  }

  lemma NothingApplied(plan: Plan, st: State, g: nat, lo: nat)
    requires g < |plan.timeline|
    ensures ApplyAll(plan, st, g, Range(lo, lo)) == st
  {}

  lemma ApplyRange(plan: Plan, st: State, g: nat, lo: nat, i: nat)
    requires g < |plan.timeline| && lo <= i
    ensures ApplyAll(plan, st, g, Range(lo, i + 1)) == ApplyOne(plan, ApplyAll(plan, st, g, Range(lo, i)), g, i)
  {
    var indices := Range(lo, i + 1);
    RangeAt(lo, i + 1, 0);
    assert indices[..|indices| - 1] == Range(lo, i) && indices[|indices| - 1] == i;
  }

  lemma OneMoreSame(plan: Plan, symbol: Symbol, s: Setup, costs: CostModel, capital: Positive, st: State, g: nat, lo: nat, i: nat)
    requires PlanMatches(plan, symbol, s, costs, capital) && ValidSetup(s) && g < |s.records|
    requires Processed(s, g) == lo <= i < Processed(s, g + 1) && Same(ApplyAll(plan, st, g, Range(lo, i)), symbol, s, i)
    ensures Same(ApplyAll(plan, st, g, Range(lo, i + 1)), symbol, s, i + 1)
  {
    AnchoredHere(s, g, i);
    ApplyRange(plan, st, g, lo, i);
    StepSame(plan, symbol, s, costs, capital, ApplyAll(plan, st, g, Range(lo, i)), g, i);
  }

  lemma RangeSame(plan: Plan, symbol: Symbol, s: Setup, costs: CostModel, capital: Positive, st: State, g: nat, lo: nat, hi: nat)
    requires PlanMatches(plan, symbol, s, costs, capital) && ValidSetup(s) && g < |s.records|
    requires Processed(s, g) == lo <= hi <= Processed(s, g + 1) && Same(st, symbol, s, lo)
    ensures Same(ApplyAll(plan, st, g, Range(lo, hi)), symbol, s, hi)
  {
    NothingApplied(plan, st, g, lo);
    var i := lo;
    while i < hi
      invariant lo <= i <= hi && Same(ApplyAll(plan, st, g, Range(lo, i)), symbol, s, i)
    {
      OneMoreSame(plan, symbol, s, costs, capital, st, g, lo, i);
      i := i + 1;
    }
  }

  lemma {:induction false} StatesSame(plan: Plan, symbol: Symbol, s: Setup, costs: CostModel, capital: Positive, g: nat)
    requires PlanMatches(plan, symbol, s, costs, capital) && ValidSetup(s) && g <= |s.records|
    ensures Same(StateAfter(plan, g), symbol, s, Processed(s, g))
    ensures g > 0 ==> symbol in StateAfter(plan, g).marks && StateAfter(plan, g).marks[symbol] == MarkPrice(s.records[g - 1])
    decreases g
  {
    if g == 0 {
      assert Tag(symbol, []) == [];
    } else {
      var r := g - 1;
      StatesSame(plan, symbol, s, costs, capital, r);
      var entry, st := plan.timeline[r], StateAfter(plan, r);
      assert entry == EntryOf(symbol, s.records, r);
      IntentsOfRecord(s, r);
      assert AnchoredAre(s, AnchoredAt(plan, entry), r);
      MarkingSame(st, symbol, s, Processed(s, r), entry);
      RangeSame(plan, symbol, s, costs, capital, Marks(st, entry), r, Processed(s, r), Processed(s, g));
      MarksKept(plan, Marks(st, entry), r, AnchoredAt(plan, entry));
    }
  }

  lemma MarkingSame(st: State, symbol: Symbol, s: Setup, k: nat, entry: Entry)
    requires Same(st, symbol, s, k)
    ensures Same(Marks(st, entry), symbol, s, k)
  {}

  lemma EquitySame(plan: Plan, symbol: Symbol, s: Setup, costs: CostModel, capital: Positive, g: nat)
    requires PlanMatches(plan, symbol, s, costs, capital) && ValidSetup(s) && g < |s.records|
    ensures PortfolioEquityAt(plan, g) == EquityAt(s, g)
  {
    StatesSame(plan, symbol, s, costs, capital, g + 1);
    assert plan.timeline[g] == EntryOf(symbol, s.records, g);
    PointsSame(plan, g, StateAfter(plan, g + 1), symbol, AccountAt(s, g), s.records[g]);
  }

  /** Equal accounts marked at the same price make equal points. */
  lemma PointsSame(plan: Plan, g: nat, st: State, symbol: Symbol, account: Account, record: Record)
    requires g < |plan.timeline| && st == StateAfter(plan, g + 1) && plan.symbols == [symbol]
    requires plan.timeline[g].timestamp == Timestamp(record)
    requires SameAccount(st, symbol, account) && symbol in st.marks && st.marks[symbol] == MarkPrice(record)
    ensures PortfolioEquityAt(plan, g) == Marked(account, record)
  {
    OneSymbolValue(st, symbol, account);
  }

  lemma OneSymbolValue(st: State, symbol: Symbol, account: Account)
    requires SameAccount(st, symbol, account) && symbol in st.marks
    ensures st.cash + MarketValue(st, [symbol]) == account.cash + account.position * st.marks[symbol]
  {
    assert [symbol][..0] == [] && MarketValue(st, []) == 0.0;
    assert MarketValue(st, [symbol]) == ValueOf(st, symbol);
    assert Scale(st.marks[symbol], 0.0) == 0.0;
  }

  lemma OutcomeSame(plan: Plan, symbol: Symbol, s: Setup, costs: CostModel, capital: Positive, i: nat)
    requires PlanMatches(plan, symbol, s, costs, capital) && ValidSetup(s) && i < |s.intents|
    ensures FinalOutcome(StateAfter(plan, |s.records|), i) == OutcomeOf(s, i)
  {
    var n := |s.records|;
    StatesSame(plan, symbol, s, costs, capital, n);
    var st, k := StateAfter(plan, n), Processed(s, n);
    AnchoredBefore(s, n, i);
    if i < k { assert OutcomeIs(s, Some(st.outcomes[i]), k, i); }
  }

  /** Same outcomes, trades and equity values as the single-symbol engine. */
  lemma PortfolioRefinesBacktest(symbol: Symbol, records: seq<Record>, intents: seq<Intent>, costs: CostModel, capital: Positive)
    requires ValidRecords(records) && Ascending(intents)
    ensures var single := Simulate(Setup(records, intents, FillRule(costs), capital));
            var result := RunPlan(SinglePlan(symbol, records, intents, costs, capital));
            && result.outcomes == single.outcomes
            && result.trades == Tag(symbol, single.trades)
            && result.equity == single.equity
  {
    var s, plan := Setup(records, intents, FillRule(costs), capital), SinglePlan(symbol, records, intents, costs, capital);
    SinglePlanMatches(symbol, records, intents, costs, capital);
    forall i | 0 <= i < |intents| ensures FinalOutcome(StateAfter(plan, |records|), i) == OutcomeOf(s, i) {
      OutcomeSame(plan, symbol, s, costs, capital, i);
    }
    forall g | 0 <= g < |records| ensures PortfolioEquityAt(plan, g) == EquityAt(s, g) {
      EquitySame(plan, symbol, s, costs, capital, g);
    }
    StatesSame(plan, symbol, s, costs, capital, |records|);
    FinalAccount(s);
  }
}
