/** What the portfolio engine conserves across symbols: the shared cash pool and portfolio equity. */
module PortfolioTheorems {
  import opened Arithmetic
  import opened Fills
  import opened Ledger
  import opened BacktestTheorems
  import opened Sorting
  import opened Portfolio
  import opened Sequences
  import opened PortfolioPlanning

  // ------------------------------------------------- accounting over symbols

  function SymbolBooked(st: State, symbol: Symbol): real {
    LotsTotal(Held(st, symbol).ledger.lots, Booked)
  }

  function TotalSymbols(value: Symbol -> real, symbols: seq<Symbol>): real
    decreases |symbols|
  {
    if |symbols| == 0 then 0.0
    else TotalSymbols(value, symbols[..|symbols| - 1]) + value(symbols[|symbols| - 1])
  }

  function TotalRealized(trades: seq<PortfolioTrade>): real
    decreases |trades|
  {
    if |trades| == 0 then 0.0 else TotalRealized(trades[..|trades| - 1]) + trades[|trades| - 1].trade.pnl
  }

  /** Changing the value of one symbol changes the total by the same amount. */
  lemma {:induction false} TotalChanges(before: Symbol -> real, after: Symbol -> real, symbols: seq<Symbol>, symbol: Symbol)
    requires Distinct(symbols) && forall other :: other != symbol ==> after(other) == before(other)
    ensures TotalSymbols(after, symbols)
            == TotalSymbols(before, symbols) + (if symbol in symbols then after(symbol) - before(symbol) else 0.0)
    decreases |symbols|
  {
    if |symbols| > 0 {
      var n := |symbols| - 1;
      forall i, j ensures Differ(symbols[..n], i, j) { assert Differ(symbols, i, j); }
      TotalChanges(before, after, symbols[..n], symbol);
      assert symbols == symbols[..n] + [symbols[n]];
      assert symbols[n] !in symbols[..n] by {
        forall k | 0 <= k < n ensures symbols[k] != symbols[n] { assert Differ(symbols, k, n); }
      }
    }
  }

  /** All cash that left the pool sits in open lots or in realized trades. */
  ghost predicate PoolBalances(st: State, plan: Plan) {
    st.cash == plan.allocation.capital + TotalSymbols(symbol => SymbolBooked(st, symbol), plan.symbols)
               + TotalRealized(st.trades)
  }

  lemma {:induction false} RealizedAppend(trades: seq<PortfolioTrade>, symbol: Symbol, more: seq<Trade>)
    ensures TotalRealized(trades + Tag(symbol, more)) == TotalRealized(trades) + TradesTotal(more, Pnl)
    decreases |more|
  {
    if |more| == 0 {
      assert trades + Tag(symbol, more) == trades;
    } else {
      var n := |more| - 1;
      RealizedAppend(trades, symbol, more[..n]);
      var all := trades + Tag(symbol, more);
      assert all[..|all| - 1] == trades + Tag(symbol, more[..n]);
      TradesTotalAppend(more[..n], [more[n]], Pnl);
      assert more[..n] + [more[n]] == more && [more[n]][1..] == [];
    }
  }

  lemma PostBalances(plan: Plan, st: State, symbol: Symbol, q: Query, e: Evaluation)
    requires PoolBalances(st, plan) && Distinct(plan.symbols) && symbol in plan.symbols
    requires HoldingAgrees(st, symbol)
    requires Proper(q, e) && q.cash == st.cash && q.position == Held(st, symbol).position
    ensures PoolBalances(PostTo(st, symbol, e), plan)
  {
    var after, ledger := PostTo(st, symbol, e), Held(st, symbol).ledger;
    var was, is_ := other => SymbolBooked(st, other), other => SymbolBooked(after, other);
    forall other | other != symbol ensures is_(other) == was(other) {
      assert Held(after, other) == Held(st, other);
    }
    TotalChanges(was, is_, plan.symbols, symbol);
    if e.outcome.Filled? {
      var fill := e.outcome.fill;
      if fill.side.Buy? {
        OpenBooks(ledger, fill);
      } else {
        CloseBooks(ledger, fill);
        RealizedAppend(st.trades, symbol, Closed(ledger, fill).1);
      }
    }
  }

  lemma {:induction false} ApplyAllBalances(plan: Plan, st: State, g: nat, indices: seq<nat>)
    requires g < |plan.timeline| && plan.timeline[g].symbol in plan.symbols && Distinct(plan.symbols)
    requires Safe(st, plan.allocation.reserved) && plan.timeline[g].symbol in st.marks && PoolBalances(st, plan)
    ensures PoolBalances(ApplyAll(plan, st, g, indices), plan)
    decreases |indices|
  {
    if |indices| > 0 {
      var n, symbol := |indices| - 1, plan.timeline[g].symbol;
      ApplyAllBalances(plan, st, g, indices[..n]);
      ApplyAllIsSafe(plan, st, g, indices[..n]);
      var before := ApplyAll(plan, st, g, indices[..n]);
      if indices[n] < |plan.intents| {
        var q := AskFor(plan, before, g, indices[n]);
        AllocateIsProper(q, plan.costs, plan.allocation, symbol);
        assert HoldingAgrees(before, symbol);
        PostBalances(plan, before, symbol, q, Allocate(q, plan.costs, plan.allocation, symbol));
      }
    }
  }

  /** The symbols are different, and every record of the timeline belongs to one of them. */
  ghost predicate Covers(plan: Plan) {
    Distinct(plan.symbols) && forall g :: 0 <= g < |plan.timeline| ==> plan.timeline[g].symbol in plan.symbols
  }

  /** The engine's own plans do. */
  lemma PlansCover(inputs: seq<Input>, intents: seq<PortfolioIntent>, costs: CostModel, allocation: Allocation)
    requires ValidInputs(inputs)
    ensures Covers(PlanOf(inputs, intents, costs, allocation))
  {
    var plan, symbols, records := PlanOf(inputs, intents, costs, allocation), SymbolsOf(inputs), RecordsOf(inputs);
    UniverseIsValid(inputs);
    TimelineIsSorted(symbols, records);
    forall g | 0 <= g < |plan.timeline| ensures plan.timeline[g].symbol in plan.symbols {
      assert plan.timeline[g] in plan.timeline && IsEntry(symbols, records, plan.timeline[g]);
    }
    forall i, j ensures Differ(symbols, i, j) {
      if 0 <= i < j < |symbols| {
        assert InOrder(symbols, SymbolLess, i, j);
        SymbolIrreflexive(symbols[i]);
      }
    }
  }

  lemma {:induction false} PoolBalancesOn(plan: Plan, g: nat)
    requires g <= |plan.timeline| && ValidAllocation(plan.allocation) && Covers(plan)
    ensures PoolBalances(StateAfter(plan, g), plan)
    decreases g
  {
    if g == 0 {
      NothingBooked(plan.symbols, InitialState(plan.allocation));
    } else {
      PoolBalancesOn(plan, g - 1);
      PortfolioIsSafe(plan, g - 1);
      var st, entry := StateAfter(plan, g - 1), plan.timeline[g - 1];
      MarkingIsSafe(st, plan.allocation.reserved, entry);
      SameBooked(plan.symbols, st, Marks(st, entry));
      ApplyAllBalances(plan, Marks(st, entry), g - 1, AnchoredAt(plan, entry));
    }
  }

  lemma {:induction false} NothingBooked(symbols: seq<Symbol>, st: State)
    requires st.holdings == map[]
    ensures TotalSymbols(symbol => SymbolBooked(st, symbol), symbols) == 0.0
    decreases |symbols|
  {
    if |symbols| > 0 { NothingBooked(symbols[..|symbols| - 1], st); }
  }

  lemma {:induction false} SameBooked(symbols: seq<Symbol>, a: State, b: State)
    requires a.holdings == b.holdings
    ensures TotalSymbols(symbol => SymbolBooked(a, symbol), symbols) == TotalSymbols(symbol => SymbolBooked(b, symbol), symbols)
    decreases |symbols|
  {
    if |symbols| > 0 { SameBooked(symbols[..|symbols| - 1], a, b); }
  }

  /** Profit of the open lots of one symbol at its last mark. */
  function SymbolProfit(st: State, symbol: Symbol): real {
    if symbol in st.marks then TotalOpenProfit(Held(st, symbol).ledger.lots, st.marks[symbol]) else 0.0
  }

  lemma {:induction false} ProfitIsBookedPlusValue(st: State, symbols: seq<Symbol>)
    requires forall symbol :: HoldingAgrees(st, symbol)
    ensures TotalSymbols(symbol => SymbolProfit(st, symbol), symbols)
            == TotalSymbols(symbol => SymbolBooked(st, symbol), symbols) + MarketValue(st, symbols)
    decreases |symbols|
  {
    if |symbols| > 0 {
      var n := |symbols| - 1;
      ProfitIsBookedPlusValue(st, symbols[..n]);
      OneSymbolProfit(st, symbols[n]);
    }
  }

  lemma OneSymbolProfit(st: State, symbol: Symbol)
    requires HoldingAgrees(st, symbol)
    ensures SymbolProfit(st, symbol) == SymbolBooked(st, symbol) + ValueOf(st, symbol)
  {
    var lots := Held(st, symbol).ledger.lots;
    if symbol in st.marks {
      OpenProfitIsBookedPlusShares(lots, st.marks[symbol]);
      assert Scale(st.marks[symbol], 0.0) == 0.0;
    } else {
      RemainingNonNegative(lots);
    }
  }

  lemma EquityOn(plan: Plan, g: nat)
    requires g < |plan.timeline| && ValidAllocation(plan.allocation) && Covers(plan)
    ensures var st := StateAfter(plan, g + 1);
            PortfolioEquityAt(plan, g).equity
            == plan.allocation.capital + TotalRealized(st.trades) + TotalSymbols(symbol => SymbolProfit(st, symbol), plan.symbols)
  {
    PoolBalancesOn(plan, g + 1);
    PortfolioIsSafe(plan, g + 1);
    ProfitIsBookedPlusValue(StateAfter(plan, g + 1), plan.symbols);
  }

  /** In every run of the engine, at every record, shared cash is the capital plus everything booked per symbol. */
  lemma PoolAlwaysBalances(inputs: seq<Input>, intents: seq<PortfolioIntent>, costs: CostModel, allocation: Allocation, g: nat)
    requires ValidInputs(inputs) && ValidAllocation(allocation) && g <= |PlanOf(inputs, intents, costs, allocation).timeline|
    ensures var plan := PlanOf(inputs, intents, costs, allocation); PoolBalances(StateAfter(plan, g), plan)
  {
    PlansCover(inputs, intents, costs, allocation);
    PoolBalancesOn(PlanOf(inputs, intents, costs, allocation), g);
  }

  /** Every point of the engine's equity curve is capital plus realized profit plus the open profit of every symbol. */
  lemma PortfolioAccountingIdentity(inputs: seq<Input>, intents: seq<PortfolioIntent>, costs: CostModel, allocation: Allocation, g: nat)
    requires ValidInputs(inputs) && ValidAllocation(allocation) && g < |PlanOf(inputs, intents, costs, allocation).timeline|
    ensures var plan := PlanOf(inputs, intents, costs, allocation);
            var st := StateAfter(plan, g + 1);
            && g < |RunPlan(plan).equity|
            && RunPlan(plan).equity[g].equity
               == allocation.capital + TotalRealized(st.trades) + TotalSymbols(symbol => SymbolProfit(st, symbol), SymbolsOf(inputs))
  {
    PlansCover(inputs, intents, costs, allocation);
    EquityOn(PlanOf(inputs, intents, costs, allocation), g);
  }

  /** After any number of records a symbol is marked at the closing price of its last record so far. */
  lemma {:induction false} MarkedAtLastClose(plan: Plan, g: nat, h: nat)
    requires h < g <= |plan.timeline| && forall k :: h < k < g ==> plan.timeline[k].symbol != plan.timeline[h].symbol
    ensures var entry := plan.timeline[h];
            entry.symbol in StateAfter(plan, g).marks && StateAfter(plan, g).marks[entry.symbol] == ClosingPrice(entry.record)
    decreases g
  {
    var last := plan.timeline[g - 1];
    MarksKept(plan, Marks(StateAfter(plan, g - 1), last), g - 1, AnchoredAt(plan, last));
    if h < g - 1 { MarkedAtLastClose(plan, g - 1, h); }
  }
}
