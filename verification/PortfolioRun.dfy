/** The run loop of the portfolio engine, over dictionaries of positions, marks and ledgers. */
module PortfolioRun {
  import opened Wrappers
  import opened Arithmetic
  import opened Fills
  import opened Ledger
  import opened Backtest
  import opened Portfolio
  import opened PortfolioPlanning
  import opened PortfolioEngine

  /** The variables of the run loop, besides the ledgers. */
  datatype Vars = Vars(
    cash: real, position: map<Symbol, NonNegative>, marks: map<Symbol, Positive>,
    sequence: nat, trades: seq<PortfolioTrade>, outcomes: seq<Option<Outcome>>)

  ghost predicate OutcomeHeld(st: State, outcome: Option<Outcome>, start: Option<Outcome>, i: nat) {
    outcome == if i in st.outcomes then Some(st.outcomes[i]) else start
  }

  /** The variables hold the state `st`; intents not yet processed have their starting entry. */
  ghost predicate Mirrors(st: State, symbols: seq<Symbol>, v: Vars, start: seq<Option<Outcome>>) {
    && v.cash == st.cash && v.marks == st.marks && v.sequence == st.sequence && v.trades == st.trades
    && (forall symbol :: symbol in symbols ==> symbol in v.position && v.position[symbol] == Held(st, symbol).position)
    && |v.outcomes| == |start| && (forall i :: 0 <= i < |start| ==> OutcomeHeld(st, v.outcomes[i], start[i], i))
  }

  ghost predicate Apart(ledgers: map<Symbol, FifoLedger>, a: Symbol, b: Symbol) {
    a in ledgers && b in ledgers && a != b ==> ledgers[a] != ledgers[b]
  }

  /** Every symbol has a ledger object of its own, holding the ledger of the state. */
  ghost predicate LedgersHold(st: State, symbols: seq<Symbol>, ledgers: map<Symbol, FifoLedger>)
    reads ledgers.Values
  {
    && (forall symbol :: symbol in symbols ==> symbol in ledgers && ledgers[symbol].Value() == Held(st, symbol).ledger)
    && (forall a, b :: Apart(ledgers, a, b))
  }

  method PostFillTo(ghost st: State, symbol: Symbol, ghost q: Query, e: Evaluation, ledger: FifoLedger) returns (completed: seq<Trade>)
    requires HoldingAgrees(st, symbol) && Proper(q, e) && q.position == Held(st, symbol).position
    requires e.outcome.Filled? && ledger.Value() == Held(st, symbol).ledger
    modifies ledger
    ensures ledger.Value() == Held(PostTo(st, symbol, e), symbol).ledger
    ensures PostTo(st, symbol, e).trades == st.trades + Tag(symbol, completed)
  {
    var fill := e.outcome.fill;
    if fill.side == Buy {
      var _ := ledger.OpenLot(fill);
      completed := [];
      assert st.trades + Tag(symbol, []) == st.trades;
    } else {
      assert fill.quantity <= Remaining(ledger.lots);
      var closed := ledger.CloseLots(fill);
      completed := closed.value;
    }
  }

  method ApplyIntent(plan: Plan, ghost st: State, g: nat, i: nat, v: Vars, ghost start: seq<Option<Outcome>>,
                     ledgers: map<Symbol, FifoLedger>) returns (w: Vars)
    requires g < |plan.timeline| && i < |plan.intents| == |start| && plan.timeline[g].symbol in plan.symbols
    requires forall symbol :: HoldingAgrees(st, symbol)
    requires Mirrors(st, plan.symbols, v, start) && LedgersHold(st, plan.symbols, ledgers)
    modifies ledgers.Values
    ensures Mirrors(ApplyOne(plan, st, g, i), plan.symbols, w, start)
    ensures LedgersHold(ApplyOne(plan, st, g, i), plan.symbols, ledgers)
  {
    var entry := plan.timeline[g];
    var symbol := entry.symbol;
    var q := Query(plan.intents[i].intent, entry.record, g, v.cash, v.position[symbol], v.sequence, i);
    var e := Allocate(q, plan.costs, plan.allocation, symbol);
    AllocateIsProper(q, plan.costs, plan.allocation, symbol);
    assert q == AskFor(plan, st, g, i);
    assert HoldingAgrees(st, symbol);
    w := v.(outcomes := v.outcomes[i := Some(e.outcome)]);
    if e.outcome.Filled? {
      ghost var after := PostTo(st, symbol, e);
      var completed := PostFillTo(st, symbol, q, e, ledgers[symbol]);
      w := w.(cash := e.cash, position := v.position[symbol := e.position], sequence := v.sequence + 1,
              trades := v.trades + Tag(symbol, completed));
      forall other | other in plan.symbols ensures other in ledgers && ledgers[other].Value() == Held(after, other).ledger {
        assert Apart(ledgers, other, symbol);
      }
    }
    OutcomesFollow(st, PostTo(st, symbol, e), v, w, start, i, e);
  }

  lemma OutcomesFollow(st: State, after: State, v: Vars, w: Vars, start: seq<Option<Outcome>>, i: nat, e: Evaluation)
    requires i < |start| == |v.outcomes| && forall k :: 0 <= k < |start| ==> OutcomeHeld(st, v.outcomes[k], start[k], k)
    requires w.outcomes == v.outcomes[i := Some(e.outcome)] && after.outcomes == st.outcomes[i := e.outcome]
    ensures forall k :: 0 <= k < |start| ==> OutcomeHeld(after, w.outcomes[k], start[k], k)
  {
    forall k | 0 <= k < |start| ensures OutcomeHeld(after, w.outcomes[k], start[k], k) {
      assert OutcomeHeld(st, v.outcomes[k], start[k], k);
    }
  }

  // ----------------------------------------------------------- one timeline record

  ghost predicate ApplyingTo(plan: Plan, g: nat) {
    && g < |plan.timeline| && plan.timeline[g].symbol in plan.symbols
    && forall i :: i in AnchoredAt(plan, plan.timeline[g]) ==> i < |plan.intents|
  }

  /** Every record belongs to a symbol of the plan and every anchored index is an intent. */
  ghost predicate Runnable(plan: Plan) {
    ValidAllocation(plan.allocation) && forall g :: 0 <= g < |plan.timeline| ==> ApplyingTo(plan, g)
  }

  method ApplyEntry(plan: Plan, g: nat, v: Vars, ghost start: seq<Option<Outcome>>, ledgers: map<Symbol, FifoLedger>)
    returns (w: Vars)
    requires Runnable(plan) && g < |plan.timeline| && |start| == |plan.intents|
    requires Mirrors(StateAfter(plan, g), plan.symbols, v, start) && LedgersHold(StateAfter(plan, g), plan.symbols, ledgers)
    modifies ledgers.Values
    ensures Mirrors(StateAfter(plan, g + 1), plan.symbols, w, start)
    ensures LedgersHold(StateAfter(plan, g + 1), plan.symbols, ledgers)
  {
    assert ApplyingTo(plan, g);
    var entry := plan.timeline[g];
    var indices := AnchoredAt(plan, entry);
    ghost var marked := Marks(StateAfter(plan, g), entry);
    PortfolioIsSafe(plan, g);
    MarkingIsSafe(StateAfter(plan, g), plan.allocation.reserved, entry);
    w := v.(marks := v.marks[entry.symbol := MarkPrice(entry.record)]);
    MarkingMirrors(StateAfter(plan, g), plan.symbols, v, start, entry);
    for j := 0 to |indices|
      invariant Mirrors(ApplyAll(plan, marked, g, indices[..j]), plan.symbols, w, start)
      invariant LedgersHold(ApplyAll(plan, marked, g, indices[..j]), plan.symbols, ledgers)
    {
      ghost var st := ApplyAll(plan, marked, g, indices[..j]);
      ApplyAllIsSafe(plan, marked, g, indices[..j]);
      assert indices[j] in indices;
      w := ApplyIntent(plan, st, g, indices[j], w, start, ledgers);
      assert indices[..j + 1][..j] == indices[..j];
    }
    assert indices[..|indices|] == indices;
  }

  lemma MarkingMirrors(st: State, symbols: seq<Symbol>, v: Vars, start: seq<Option<Outcome>>, entry: Entry)
    requires Mirrors(st, symbols, v, start)
    ensures Mirrors(Marks(st, entry), symbols, v.(marks := v.marks[entry.symbol := MarkPrice(entry.record)]), start)
  {
    forall i | 0 <= i < |start| ensures OutcomeHeld(Marks(st, entry), v.outcomes[i], start[i], i) {
      assert OutcomeHeld(st, v.outcomes[i], start[i], i);
    }
  }

  /** The value of all positions at their last marks; a held symbol is never without one. */
  method MarkToMarket(ghost st: State, symbols: seq<Symbol>, v: Vars, ghost start: seq<Option<Outcome>>) returns (value: real)
    requires Mirrors(st, symbols, v, start) && forall symbol :: HoldingAgrees(st, symbol)
    ensures value == MarketValue(st, symbols)
  {
    value := 0.0;
    for n := 0 to |symbols|
      invariant value == MarketValue(st, symbols[..n])
    {
      var symbol := symbols[n];
      assert HoldingAgrees(st, symbol);
      if v.position[symbol] != 0.0 {
        value := value + Scale(v.marks[symbol], v.position[symbol]);
      }
      assert symbols[..n + 1][..n] == symbols[..n];
    }
    assert symbols[..|symbols|] == symbols;
  }

  // ----------------------------------------------------------------- the run loop

  ghost predicate EquityIs(plan: Plan, point: EquityPoint, g: nat) {
    g < |plan.timeline| && point == PortfolioEquityAt(plan, g)
  }

  method NewLedgers(symbols: seq<Symbol>) returns (ledgers: map<Symbol, FifoLedger>)
    ensures forall symbol :: symbol in symbols ==> symbol in ledgers && ledgers[symbol].Value() == EMPTY_LEDGER
    ensures forall a, b :: Apart(ledgers, a, b)
    ensures fresh(ledgers.Values)
  {
    ledgers := map[];
    for n := 0 to |symbols|
      invariant forall k :: 0 <= k < n ==> symbols[k] in ledgers
      invariant forall symbol :: symbol in ledgers ==> ledgers[symbol].Value() == EMPTY_LEDGER && ledgers[symbol] in ledgers.Values
      invariant forall a, b :: Apart(ledgers, a, b)
      invariant fresh(ledgers.Values)
    {
      var ledger := new FifoLedger();
      ghost var before := ledgers;
      ledgers := ledgers[symbols[n] := ledger];
      forall a, b ensures Apart(ledgers, a, b) { assert Apart(before, a, b); }
    }
  }

  method RunTimeline(plan: Plan, start: seq<Option<Outcome>>) returns (v: Vars, equity: seq<EquityPoint>)
    requires Runnable(plan) && |start| == |plan.intents|
    ensures Mirrors(StateAfter(plan, |plan.timeline|), plan.symbols, v, start)
    ensures |equity| == |plan.timeline| && forall g :: 0 <= g < |equity| ==> EquityIs(plan, equity[g], g)
  {
    var ledgers := NewLedgers(plan.symbols);
    v := Vars(plan.allocation.capital, map symbol | symbol in plan.symbols :: 0.0, map[], 0, [], start);
    equity := [];
    assert forall i :: 0 <= i < |start| ==> OutcomeHeld(InitialState(plan.allocation), v.outcomes[i], start[i], i);
    for g := 0 to |plan.timeline|
      invariant Mirrors(StateAfter(plan, g), plan.symbols, v, start)
      invariant LedgersHold(StateAfter(plan, g), plan.symbols, ledgers) && fresh(ledgers.Values)
      invariant |equity| == g && forall k :: 0 <= k < g ==> EquityIs(plan, equity[k], k)
    {
      v := ApplyEntry(plan, g, v, start, ledgers);
      PortfolioIsSafe(plan, g + 1);
      var value := MarkToMarket(StateAfter(plan, g + 1), plan.symbols, v, start);
      equity := equity + [EquityPoint(plan.timeline[g].timestamp, v.cash + value)];
      assert EquityIs(plan, equity[g], g);
    }
  }

  // ------------------------------------------------------ every intent gets an outcome

  lemma {:induction false} AppliedHaveOutcomes(plan: Plan, st: State, g: nat, indices: seq<nat>, i: nat)
    requires g < |plan.timeline| && i < |plan.intents|
    requires forall k :: k in indices ==> k < |plan.intents|
    ensures i in st.outcomes || i in indices ==> i in ApplyAll(plan, st, g, indices).outcomes
    decreases |indices|
  {
    if |indices| > 0 {
      var n := |indices| - 1;
      assert indices == indices[..n] + [indices[n]];
      forall k | k in indices[..n] ensures k < |plan.intents| { assert k in indices; }
      AppliedHaveOutcomes(plan, st, g, indices[..n], i);
      var before, k := ApplyAll(plan, st, g, indices[..n]), indices[n];
      assert k in indices;
      AllocateIsProper(AskFor(plan, before, g, k), plan.costs, plan.allocation, plan.timeline[g].symbol);
    }
  }

  lemma {:induction false} AnchoredHaveOutcomes(plan: Plan, h: nat, g: nat, i: nat)
    requires Runnable(plan) && h < g <= |plan.timeline| && i < |plan.intents| && i in AnchoredAt(plan, plan.timeline[h])
    ensures i in StateAfter(plan, g).outcomes
    decreases g
  {
    var st, entry := StateAfter(plan, g - 1), plan.timeline[g - 1];
    assert ApplyingTo(plan, g - 1);
    if h < g - 1 { AnchoredHaveOutcomes(plan, h, g - 1, i); }
    AppliedHaveOutcomes(plan, Marks(st, entry), g - 1, AnchoredAt(plan, entry), i);
  }

  lemma {:induction false} IndicesInGroup(records: seq<Record>, group: seq<Tagged>, n: nat, r: nat, i: nat)
    requires n <= |group|
    ensures i in IndicesIn(records, group, n, r)
            <==> exists k :: 0 <= k < n && group[k].index == i && Anchor(records, group[k].intent.decidedAt) == r
  {
    if n > 0 { IndicesInGroup(records, group, n - 1, r, i); }
  }

  lemma PlanIsRunnable(inputs: seq<Input>, intents: seq<PortfolioIntent>, costs: CostModel, allocation: Allocation)
    requires ValidInputs(inputs) && ValidAllocation(allocation)
    ensures Runnable(PlanOf(inputs, intents, costs, allocation))
  {
    var plan, symbols, records := PlanOf(inputs, intents, costs, allocation), SymbolsOf(inputs), RecordsOf(inputs);
    UniverseIsValid(inputs);
    TimelineIsSorted(symbols, records);
    forall g | 0 <= g < |plan.timeline| ensures ApplyingTo(plan, g) {
      var entry := plan.timeline[g];
      assert entry in plan.timeline && IsEntry(symbols, records, entry);
      forall i | i in AnchoredAt(plan, entry) ensures i < |intents| {
        var group := Sequenced(intents, entry.symbol);
        IndicesInGroup(records[entry.symbol], group, |group|, entry.local, i);
        var k :| 0 <= k < |group| && group[k].index == i;
        SequencedMembers(intents, entry.symbol, group[k]);
      }
    }
  }

  /** An intent that some record follows is processed during the run. */
  lemma FollowedIntentsAreProcessed(inputs: seq<Input>, intents: seq<PortfolioIntent>, costs: CostModel, allocation: Allocation, i: nat)
    requires ValidInputs(inputs) && ValidAllocation(allocation) && i < |intents| && intents[i].symbol in RecordsOf(inputs)
    requires PrefilledAt(RecordsOf(inputs), intents, i).None?
    ensures var plan := PlanOf(inputs, intents, costs, allocation);
            i in StateAfter(plan, |plan.timeline|).outcomes
  {
    var plan, symbols, records := PlanOf(inputs, intents, costs, allocation), SymbolsOf(inputs), RecordsOf(inputs);
    var symbol, t := intents[i].symbol, Tagged(i, intents[i].intent);
    var a, group := Anchor(records[symbol], intents[i].intent.decidedAt), Sequenced(intents, symbol);
    UniverseIsValid(inputs);
    SymbolsAreKeys(inputs);
    TimelineIsSorted(symbols, records);
    var entry := EntryOf(symbol, records[symbol], a);
    assert IsEntry(symbols, records, entry);
    var h :| 0 <= h < |plan.timeline| && plan.timeline[h] == entry;
    SequencedMembers(intents, symbol, t);
    var k :| 0 <= k < |group| && group[k] == t;
    IndicesInGroup(records[symbol], group, |group|, a, i);
    assert i in AnchoredAt(plan, entry);
    PlanIsRunnable(inputs, intents, costs, allocation);
    AnchoredHaveOutcomes(plan, h, |plan.timeline|, i);
  }

  /** The portfolio engine runs the plan of its inputs, and fails exactly on unknown symbols or ties. */
  method RunPortfolioBacktest(inputs: seq<Input>, intents: seq<PortfolioIntent>, costs: CostModel, allocation: Allocation)
    returns (result: Result<PortfolioResult, PortfolioError>)
    requires ValidInputs(inputs) && ValidAllocation(allocation)
    ensures result.Ok? <==> KnownSymbols(inputs, intents) && NoTies(intents)
    ensures result.Ok? ==> result.value == RunPlan(PlanOf(inputs, intents, costs, allocation))
  {
    var prepared := Prepare(inputs, intents, costs, allocation);
    if prepared.Err? {
      return Err(prepared.error);
    }
    var (plan, start) := prepared.value;
    PlanIsRunnable(inputs, intents, costs, allocation);
    var v, equity := RunTimeline(plan, start);
    ghost var st := StateAfter(plan, |plan.timeline|);
    var outcomes: seq<Outcome> := [];
    for i := 0 to |intents|
      invariant |outcomes| == i && forall k :: 0 <= k < i ==> outcomes[k] == FinalOutcome(st, k)
    {
      assert Prepared(start[i], RecordsOf(inputs), intents, i) && OutcomeHeld(st, v.outcomes[i], start[i], i);
      if PrefilledAt(RecordsOf(inputs), intents, i).None? {
        FollowedIntentsAreProcessed(inputs, intents, costs, allocation, i);
      }
      outcomes := outcomes + [v.outcomes[i].value];
    }
    forall g | 0 <= g < |equity| ensures equity[g] == PortfolioEquityAt(plan, g) { assert EquityIs(plan, equity[g], g); }
    return Ok(PortfolioResult(outcomes, v.trades, equity));
  }
}
