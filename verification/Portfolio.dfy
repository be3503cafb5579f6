/**
 The multi-symbol portfolio engine over a prepared plan: one merged timeline of
 records, the intents anchored at each of them, one shared pool of cash and one
 FIFO ledger per symbol.
 */
module Portfolio {
  import opened Arithmetic
  import opened Fills
  import opened Ledger
  import opened Backtest

  type Symbol = string

  datatype PortfolioIntent = PortfolioIntent(symbol: Symbol, intent: Intent)

  datatype PortfolioTrade = PortfolioTrade(symbol: Symbol, trade: Trade)

  /** Shared capital with a reserved floor and optional caps on the gross value of one buy. */
  datatype Allocation = Allocation(capital: Positive, reserved: NonNegative, budgets: map<Symbol, Positive>)

  /** Allocation construction rejects a reserve above the capital. */
  predicate ValidAllocation(allocation: Allocation) {
    allocation.reserved <= allocation.capital
  }

  /** One record of the merged timeline: the `local`-th record of its symbol. */
  datatype Entry = Entry(timestamp: Time, symbol: Symbol, local: nat, record: Record)

  datatype Plan = Plan(
    symbols: seq<Symbol>, timeline: seq<Entry>, anchored: map<Symbol, seq<seq<nat>>>,
    intents: seq<PortfolioIntent>, costs: CostModel, allocation: Allocation)

  // ------------------------------------------------------------ one evaluation

  function Refused(q: Query): Evaluation {
    Evaluation(Unfilled(q.intentIndex, InsufficientCash), q.cash, q.position)
  }

  /** The single-symbol rule, then the reserved floor, then the budget of the symbol. */
  function Allocate(q: Query, costs: CostModel, allocation: Allocation, symbol: Symbol): Evaluation {
    var e := EvaluateFill(q, costs);
    if e.outcome.Filled? && e.cash < allocation.reserved then Refused(q)
    else if e.outcome.Filled? && e.outcome.fill.side.Buy?
            && symbol in allocation.budgets && e.outcome.fill.grossValue > allocation.budgets[symbol]
    then Refused(q)
    else e
  }

  lemma AllocateIsProper(q: Query, costs: CostModel, allocation: Allocation, symbol: Symbol)
    ensures Proper(q, Allocate(q, costs, allocation, symbol))
    ensures Allocate(q, costs, allocation, symbol).outcome.Filled? ==>
              Allocate(q, costs, allocation, symbol).cash >= allocation.reserved
  {
    FillRuleIsLawful(costs);
    assert Proper(q, FillRule(costs)(q));
  }

  /** A buy of the symbol that costs more than its budget. */
  predicate OverBudget(q: Query, price: Positive, allocation: Allocation, symbol: Symbol) {
    q.intent.side.Buy? && symbol in allocation.budgets && Scale(price, q.intent.quantity) > allocation.budgets[symbol]
  }

  /**
   The floor and the budget only refuse: what the portfolio fills is what the single-symbol rule fills,
   and it fills exactly what that rule fills above the floor and within the budget.
   */
  lemma AllocateOnlyRefuses(q: Query, costs: CostModel, allocation: Allocation, symbol: Symbol)
    ensures var e, single := Allocate(q, costs, allocation, symbol), EvaluateFill(q, costs);
            && (e.outcome.Filled? ==> e == single)
            && (single.outcome.Unfilled? ==> e == single)
            && (e.outcome.Filled? <==> single.outcome.Filled? && single.cash >= allocation.reserved
                                       && !OverBudget(q, TradePrice(q.intent, q.record, costs), allocation, symbol))
  {
    FilledExactlyWhen(q, costs);
  }

  // ------------------------------------------------------------------ the run

  datatype Holding = Holding(position: NonNegative, ledger: Ledger)

  datatype State = State(
    cash: real, holdings: map<Symbol, Holding>, marks: map<Symbol, Positive>,
    sequence: nat, trades: seq<PortfolioTrade>, outcomes: map<nat, Outcome>)

  function Held(st: State, symbol: Symbol): Holding {
    if symbol in st.holdings then st.holdings[symbol] else Holding(0.0, EMPTY_LEDGER)
  }

  function Tag(symbol: Symbol, trades: seq<Trade>): seq<PortfolioTrade> {
    seq(|trades|, i requires 0 <= i < |trades| => PortfolioTrade(symbol, trades[i]))
  }

  function PostTo(st: State, symbol: Symbol, e: Evaluation): State {
    match e.outcome
    case Unfilled(i, _) => st.(outcomes := st.outcomes[i := e.outcome])
    case Filled(i, fill) =>
      if fill.side.Buy? then
        st.(cash := e.cash,
            holdings := st.holdings[symbol := Holding(e.position, Opened(Held(st, symbol).ledger, fill))],
            sequence := st.sequence + 1,
            outcomes := st.outcomes[i := e.outcome])
      else
        var (ledger, completed) := Closed(Held(st, symbol).ledger, fill);
        st.(cash := e.cash,
            holdings := st.holdings[symbol := Holding(e.position, ledger)],
            sequence := st.sequence + 1,
            trades := st.trades + Tag(symbol, completed),
            outcomes := st.outcomes[i := e.outcome])
  }

  /** Intent `i` put to timeline record `g` on behalf of the portfolio. */
  function AskFor(plan: Plan, st: State, g: nat, i: nat): Query
    requires g < |plan.timeline| && i < |plan.intents|
  {
    var entry := plan.timeline[g];
    Query(plan.intents[i].intent, entry.record, g, st.cash, Held(st, entry.symbol).position, st.sequence, i)
  }

  function ApplyOne(plan: Plan, st: State, g: nat, i: nat): State
    requires g < |plan.timeline|
  {
    if i < |plan.intents| then
      var symbol := plan.timeline[g].symbol;
      PostTo(st, symbol, Allocate(AskFor(plan, st, g, i), plan.costs, plan.allocation, symbol))
    else st
  }

  function ApplyAll(plan: Plan, st: State, g: nat, indices: seq<nat>): State
    requires g < |plan.timeline|
    decreases |indices|
  {
    if |indices| == 0 then st
    else
      var n := |indices| - 1;
      ApplyOne(plan, ApplyAll(plan, st, g, indices[..n]), g, indices[n])
  }

  /** The intents anchored at a record of the timeline, in decision order. */
  function AnchoredAt(plan: Plan, entry: Entry): seq<nat> {
    if entry.symbol in plan.anchored && entry.local < |plan.anchored[entry.symbol]|
    then plan.anchored[entry.symbol][entry.local] else []
  }

  function Marks(st: State, entry: Entry): State {
    st.(marks := st.marks[entry.symbol := MarkPrice(entry.record)])
  }

  function InitialState(allocation: Allocation): State {
    State(allocation.capital, map[], map[], 0, [], map[])
  }

  /** The state after the first `g` records of the timeline. */
  function StateAfter(plan: Plan, g: nat): State
    requires g <= |plan.timeline|
  {
    if g == 0 then InitialState(plan.allocation)
    else
      var entry := plan.timeline[g - 1];
      ApplyAll(plan, Marks(StateAfter(plan, g - 1), entry), g - 1, AnchoredAt(plan, entry))
  }

  function ValueOf(st: State, symbol: Symbol): real {
    if Held(st, symbol).position != 0.0 && symbol in st.marks
    then Scale(st.marks[symbol], Held(st, symbol).position) else 0.0
  }

  function MarketValue(st: State, symbols: seq<Symbol>): real
    decreases |symbols|
  {
    if |symbols| == 0 then 0.0
    else MarketValue(st, symbols[..|symbols| - 1]) + ValueOf(st, symbols[|symbols| - 1])
  }

  function PortfolioEquityAt(plan: Plan, g: nat): EquityPoint
    requires g < |plan.timeline|
  {
    var st := StateAfter(plan, g + 1);
    EquityPoint(plan.timeline[g].timestamp, st.cash + MarketValue(st, plan.symbols))
  }

  datatype PortfolioResult = PortfolioResult(
    outcomes: seq<Outcome>, trades: seq<PortfolioTrade>, equity: seq<EquityPoint>)

  function FinalOutcome(st: State, i: nat): Outcome {
    if i in st.outcomes then st.outcomes[i] else Unfilled(i, NoRecordAfterDecision)
  }

  function RunPlan(plan: Plan): PortfolioResult {
    var st := StateAfter(plan, |plan.timeline|);
    PortfolioResult(
      seq(|plan.intents|, i requires 0 <= i < |plan.intents| => FinalOutcome(st, i)),
      st.trades,
      seq(|plan.timeline|, g requires 0 <= g < |plan.timeline| => PortfolioEquityAt(plan, g)))
  }

  lemma {:induction false} MarksKept(plan: Plan, st: State, g: nat, indices: seq<nat>)
    requires g < |plan.timeline|
    ensures ApplyAll(plan, st, g, indices).marks == st.marks
    decreases |indices|
  {
    if |indices| > 0 { MarksKept(plan, st, g, indices[..|indices| - 1]); }
  }

  // ------------------------------------------------------------------- safety

  ghost predicate HoldingAgrees(st: State, symbol: Symbol) {
    && AllOpen(Held(st, symbol).ledger.lots)
    && Held(st, symbol).position == Remaining(Held(st, symbol).ledger.lots)
    && (Held(st, symbol).position != 0.0 ==> symbol in st.marks)
  }

  /** Cash respects the floor, and each symbol's position, lots and mark agree. */
  ghost predicate Safe(st: State, reserved: real) {
    st.cash >= reserved && forall symbol :: HoldingAgrees(st, symbol)
  }

  lemma PostIsSafe(st: State, reserved: real, symbol: Symbol, q: Query, e: Evaluation)
    requires Safe(st, reserved) && symbol in st.marks
    requires Proper(q, e) && q.cash == st.cash && q.position == Held(st, symbol).position
    requires e.outcome.Filled? ==> e.cash >= reserved
    ensures Safe(PostTo(st, symbol, e), reserved)
  {
    var after := PostTo(st, symbol, e);
    assert HoldingAgrees(st, symbol);
    if e.outcome.Filled? {
      if e.outcome.fill.side.Buy? {
        OpenBooks(Held(st, symbol).ledger, e.outcome.fill);
      } else {
        CloseBooks(Held(st, symbol).ledger, e.outcome.fill);
      }
    }
    forall other ensures HoldingAgrees(after, other) {
      assert HoldingAgrees(st, other);
      if other != symbol { assert Held(after, other) == Held(st, other); }
    }
  }

  lemma {:induction false} ApplyAllIsSafe(plan: Plan, st: State, g: nat, indices: seq<nat>)
    requires g < |plan.timeline| && Safe(st, plan.allocation.reserved) && plan.timeline[g].symbol in st.marks
    ensures Safe(ApplyAll(plan, st, g, indices), plan.allocation.reserved)
    ensures ApplyAll(plan, st, g, indices).marks == st.marks
    decreases |indices|
  {
    if |indices| > 0 {
      var n, symbol := |indices| - 1, plan.timeline[g].symbol;
      ApplyAllIsSafe(plan, st, g, indices[..n]);
      var before := ApplyAll(plan, st, g, indices[..n]);
      if indices[n] < |plan.intents| {
        var q := AskFor(plan, before, g, indices[n]);
        AllocateIsProper(q, plan.costs, plan.allocation, symbol);
        PostIsSafe(before, plan.allocation.reserved, symbol, q, Allocate(q, plan.costs, plan.allocation, symbol));
      }
    }
  }

  /** Over every run, cash never falls below the reserve and no held symbol lacks a mark. */
  lemma {:induction false} PortfolioIsSafe(plan: Plan, g: nat)
    requires g <= |plan.timeline| && ValidAllocation(plan.allocation)
    ensures Safe(StateAfter(plan, g), plan.allocation.reserved)
    decreases g
  {
    if g == 0 {
      var st := InitialState(plan.allocation);
      forall symbol ensures HoldingAgrees(st, symbol) {}
    } else {
      PortfolioIsSafe(plan, g - 1);
      var st, entry := StateAfter(plan, g - 1), plan.timeline[g - 1];
      MarkingIsSafe(st, plan.allocation.reserved, entry);
      ApplyAllIsSafe(plan, Marks(st, entry), g - 1, AnchoredAt(plan, entry));
    }
  }

  lemma MarkingIsSafe(st: State, reserved: real, entry: Entry)
    requires Safe(st, reserved)
    ensures Safe(Marks(st, entry), reserved)
  {
    forall symbol ensures HoldingAgrees(Marks(st, entry), symbol) { assert HoldingAgrees(st, symbol); }
  }
}
