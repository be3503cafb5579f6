/** The portfolio engine does not look ahead: what it has done after a record depends on the records so far. */
module PortfolioLookAhead {
  import opened Fills
  import opened Backtest
  import opened BacktestTheorems
  import opened Sorting
  import opened Portfolio
  import opened PortfolioPlanning
  import opened PortfolioEngine
  import opened PortfolioRun

  /** The merged timeline of some inputs. */
  function TimelineOf(inputs: seq<Input>): seq<Entry> {
    Timeline(SymbolsOf(inputs), RecordsOf(inputs))
  }

  /** Two universes whose merged timelines begin with the same `g` records; their symbols may differ. */
  ghost predicate SharePast(a: seq<Input>, b: seq<Input>, g: nat) {
    && ValidInputs(a) && ValidInputs(b)
    && g <= |TimelineOf(a)| && g <= |TimelineOf(b)| && TimelineOf(a)[..g] == TimelineOf(b)[..g]
  }

  lemma SharedEntry(a: seq<Input>, b: seq<Input>, g: nat, h: nat)
    requires SharePast(a, b, g) && h < g
    ensures TimelineOf(a)[h] == TimelineOf(b)[h]
  {
    assert TimelineOf(a)[h] == TimelineOf(a)[..g][h] == TimelineOf(b)[..g][h];
  }

  /** Record `local` of a symbol of the universe. */
  ghost predicate Holds(inputs: seq<Input>, symbol: Symbol, local: nat) {
    symbol in SymbolsOf(inputs) && symbol in RecordsOf(inputs) && local < |RecordsOf(inputs)[symbol]|
  }

  lemma EntryIsRecord(inputs: seq<Input>, h: nat)
    requires ValidInputs(inputs) && h < |TimelineOf(inputs)|
    ensures var e := TimelineOf(inputs)[h];
            Holds(inputs, e.symbol, e.local) && e == EntryOf(e.symbol, RecordsOf(inputs)[e.symbol], e.local)
  {
    UniverseIsValid(inputs);
    TimelineIsSorted(SymbolsOf(inputs), RecordsOf(inputs));
    assert TimelineOf(inputs)[h] in TimelineOf(inputs);
  }

  /** A record of the same symbol that is not later stands at or before the same place. */
  lemma EarlierStandsBefore(inputs: seq<Input>, h: nat, l: nat) returns (m: nat)
    requires ValidInputs(inputs) && h < |TimelineOf(inputs)| && l <= TimelineOf(inputs)[h].local
    ensures var symbol := TimelineOf(inputs)[h].symbol;
            m <= h && Holds(inputs, symbol, l) && TimelineOf(inputs)[m] == EntryOf(symbol, RecordsOf(inputs)[symbol], l)
  {
    var timeline, symbols, records := TimelineOf(inputs), SymbolsOf(inputs), RecordsOf(inputs);
    EntryIsRecord(inputs, h);
    UniverseIsValid(inputs);
    TimelineIsSorted(symbols, records);
    var symbol := timeline[h].symbol;
    var e := EntryOf(symbol, records[symbol], l);
    assert IsEntry(symbols, records, e);
    m :| 0 <= m < |timeline| && timeline[m] == e;
    if h < m {
      assert InOrder(timeline, EntryLess, h, m);
      assert RecordsInOrder(records[symbol], l, timeline[h].local);
      SymbolIrreflexive(symbol);
    }
  }

  // -------------------------------------------------------- shared anchoring

  /** Up to a shared entry, its symbol has the same records. */
  lemma SharedRecords(a: seq<Input>, b: seq<Input>, g: nat, h: nat)
    requires SharePast(a, b, g) && h < g
    ensures var e := TimelineOf(a)[h];
            && Holds(a, e.symbol, e.local) && Holds(b, e.symbol, e.local)
            && RecordsOf(a)[e.symbol][..e.local + 1] == RecordsOf(b)[e.symbol][..e.local + 1]
  {
    var e := TimelineOf(a)[h];
    SharedEntry(a, b, g, h);
    EntryIsRecord(a, h);
    EntryIsRecord(b, h);
    forall l | 0 <= l <= e.local ensures RecordsOf(a)[e.symbol][l] == RecordsOf(b)[e.symbol][l] {
      var m := EarlierStandsBefore(a, h, l);
      SharedEntry(a, b, g, m);
      EntryIsRecord(b, m);
    }
  }

  lemma {:induction false} SharedIndices(p: seq<Record>, q: seq<Record>, group: seq<Tagged>, n: nat, r: nat)
    requires n <= |group| && r < |p| && r < |q| && p[..r + 1] == q[..r + 1]
    ensures IndicesIn(p, group, n, r) == IndicesIn(q, group, n, r)
  {
    if n > 0 {
      SharedIndices(p, q, group, n - 1, r);
      AnchorDependsOnThePast(p, q, group[n - 1].intent.decidedAt, 0, r + 1);
    }
  }

  lemma SharedAnchors(a: seq<Input>, b: seq<Input>, intents: seq<PortfolioIntent>, costs: CostModel, allocation: Allocation, g: nat, h: nat)
    requires SharePast(a, b, g) && h < g
    ensures AnchoredAt(PlanOf(a, intents, costs, allocation), TimelineOf(a)[h])
            == AnchoredAt(PlanOf(b, intents, costs, allocation), TimelineOf(b)[h])
  {
    var e := TimelineOf(a)[h];
    SharedEntry(a, b, g, h);
    SharedRecords(a, b, g, h);
    var group := Sequenced(intents, e.symbol);
    SharedIndices(RecordsOf(a)[e.symbol], RecordsOf(b)[e.symbol], group, |group|, e.local);
  }

  // ------------------------------------------------------------ shared states

  lemma {:induction false} SameApplication(p: Plan, q: Plan, st: State, h: nat, indices: seq<nat>)
    requires h < |p.timeline| && h < |q.timeline| && p.timeline[h] == q.timeline[h]
    requires p.intents == q.intents && p.costs == q.costs && p.allocation == q.allocation
    ensures ApplyAll(p, st, h, indices) == ApplyAll(q, st, h, indices)
    decreases |indices|
  {
    if |indices| > 0 { SameApplication(p, q, st, h, indices[..|indices| - 1]); }
  }

  /** The plans apply the same intents to the same record at `h`. */
  ghost predicate SameAt(p: Plan, q: Plan, h: nat) {
    && p.intents == q.intents && p.costs == q.costs && p.allocation == q.allocation
    && h < |p.timeline| && h < |q.timeline| && p.timeline[h] == q.timeline[h]
    && AnchoredAt(p, p.timeline[h]) == AnchoredAt(q, q.timeline[h])
  }

  lemma SameStep(p: Plan, q: Plan, h: nat)
    requires SameAt(p, q, h) && StateAfter(p, h) == StateAfter(q, h)
    ensures StateAfter(p, h + 1) == StateAfter(q, h + 1)
  {
    SameApplication(p, q, Marks(StateAfter(p, h), p.timeline[h]), h, AnchoredAt(p, p.timeline[h]));
  }

  lemma {:induction false} SameStates(p: Plan, q: Plan, g: nat)
    requires p.allocation == q.allocation && g <= |p.timeline| && g <= |q.timeline| && forall h :: 0 <= h < g ==> SameAt(p, q, h)
    ensures StateAfter(p, g) == StateAfter(q, g)
    decreases g
  {
    if g > 0 {
      SameStates(p, q, g - 1);
      SameStep(p, q, g - 1);
    }
  }

  /** After a shared record both runs are in the same state: cash, holdings, marks, trades and outcomes. */
  lemma SharedStates(a: seq<Input>, b: seq<Input>, intents: seq<PortfolioIntent>, costs: CostModel, allocation: Allocation, g: nat)
    requires SharePast(a, b, g)
    ensures StateAfter(PlanOf(a, intents, costs, allocation), g) == StateAfter(PlanOf(b, intents, costs, allocation), g)
  {
    var p, q := PlanOf(a, intents, costs, allocation), PlanOf(b, intents, costs, allocation);
    forall h | 0 <= h < g ensures SameAt(p, q, h) {
      SharedEntry(a, b, g, h);
      SharedAnchors(a, b, intents, costs, allocation, g, h);
    }
    SameStates(p, q, g);
  }

  // -------------------------------------------------------------- shared equity

  /** The symbols of a list that are held. */
  function HeldOf(st: State, symbols: seq<Symbol>): seq<Symbol>
    decreases |symbols|
  {
    if |symbols| == 0 then []
    else
      var n := |symbols| - 1;
      HeldOf(st, symbols[..n]) + (if Held(st, symbols[n]).position != 0.0 then [symbols[n]] else [])
  }

  lemma MarketValueAppend(st: State, symbols: seq<Symbol>, symbol: Symbol)
    ensures MarketValue(st, symbols + [symbol]) == MarketValue(st, symbols) + ValueOf(st, symbol)
  {
    assert (symbols + [symbol])[..|symbols|] == symbols;
  }

  lemma {:induction false} HeldIsWorthAll(st: State, symbols: seq<Symbol>)
    ensures MarketValue(st, HeldOf(st, symbols)) == MarketValue(st, symbols)
    decreases |symbols|
  {
    if |symbols| > 0 {
      var n := |symbols| - 1;
      HeldIsWorthAll(st, symbols[..n]);
      MarketValueAppend(st, HeldOf(st, symbols[..n]), symbols[n]);
      assert HeldOf(st, symbols[..n]) + [] == HeldOf(st, symbols[..n]);
    }
  }

  lemma {:induction false} HeldElements(st: State, symbols: seq<Symbol>, x: Symbol)
    ensures x in HeldOf(st, symbols) <==> x in symbols && Held(st, x).position != 0.0
    decreases |symbols|
  {
    if |symbols| > 0 {
      var n := |symbols| - 1;
      HeldElements(st, symbols[..n], x);
      assert symbols == symbols[..n] + [symbols[n]];
    }
  }

  lemma SortedPrefix(symbols: seq<Symbol>, n: nat)
    requires Sorted(symbols, SymbolLess) && n <= |symbols|
    ensures Sorted(symbols[..n], SymbolLess)
  {
    forall i, j ensures InOrder(symbols[..n], SymbolLess, i, j) { assert InOrder(symbols, SymbolLess, i, j); }
  }

  lemma {:induction false} HeldIsSorted(st: State, symbols: seq<Symbol>)
    requires Sorted(symbols, SymbolLess)
    ensures Sorted(HeldOf(st, symbols), SymbolLess)
    decreases |symbols|
  {
    var held := HeldOf(st, symbols);
    if |symbols| == 0 {
      forall i, j ensures InOrder(held, SymbolLess, i, j) {}
    } else {
      var n := |symbols| - 1;
      var earlier := HeldOf(st, symbols[..n]);
      SortedPrefix(symbols, n);
      HeldIsSorted(st, symbols[..n]);
      forall i, j ensures InOrder(held, SymbolLess, i, j) {
        assert InOrder(earlier, SymbolLess, i, j);
        if 0 <= i < j == |earlier| && j < |held| { EarlierIsLess(st, symbols, earlier[i]); }
      }
    }
  }

  lemma EarlierIsLess(st: State, symbols: seq<Symbol>, x: Symbol)
    requires |symbols| > 0 && Sorted(symbols, SymbolLess) && x in HeldOf(st, symbols[..|symbols| - 1])
    ensures SymbolLess(x, symbols[|symbols| - 1])
  {
    var n := |symbols| - 1;
    HeldElements(st, symbols[..n], x);
    var k :| 0 <= k < n && symbols[k] == x;
    assert InOrder(symbols, SymbolLess, k, n);
  }

  /** Marks are those of symbols with a record so far. */
  lemma {:induction false} MarkedWasSeen(plan: Plan, g: nat, symbol: Symbol) returns (h: nat)
    requires g <= |plan.timeline| && symbol in StateAfter(plan, g).marks
    ensures h < g && plan.timeline[h].symbol == symbol
    decreases g
  {
    var st, entry := StateAfter(plan, g - 1), plan.timeline[g - 1];
    MarksKept(plan, Marks(st, entry), g - 1, AnchoredAt(plan, entry));
    if entry.symbol == symbol { h := g - 1; } else { h := MarkedWasSeen(plan, g - 1, symbol); }
  }

  /** What is held after a shared record belongs to both universes. */
  lemma HeldIsShared(a: seq<Input>, b: seq<Input>, intents: seq<PortfolioIntent>, costs: CostModel, allocation: Allocation, g: nat, x: Symbol)
    requires SharePast(a, b, g) && ValidAllocation(allocation)
    requires Held(StateAfter(PlanOf(a, intents, costs, allocation), g), x).position != 0.0
    ensures x in SymbolsOf(a) && x in SymbolsOf(b)
  {
    var plan := PlanOf(a, intents, costs, allocation);
    PortfolioIsSafe(plan, g);
    assert HoldingAgrees(StateAfter(plan, g), x);
    var h := MarkedWasSeen(plan, g, x);
    SharedRecords(a, b, g, h);
  }

  lemma SharedValue(a: seq<Input>, b: seq<Input>, intents: seq<PortfolioIntent>, costs: CostModel, allocation: Allocation, g: nat)
    requires SharePast(a, b, g) && ValidAllocation(allocation)
    ensures var st := StateAfter(PlanOf(a, intents, costs, allocation), g);
            MarketValue(st, SymbolsOf(a)) == MarketValue(st, SymbolsOf(b))
  {
    var st := StateAfter(PlanOf(a, intents, costs, allocation), g);
    SymbolsAreKeys(a);
    SymbolsAreKeys(b);
    HeldIsSorted(st, SymbolsOf(a));
    HeldIsSorted(st, SymbolsOf(b));
    forall x ensures x in HeldOf(st, SymbolsOf(a)) <==> x in HeldOf(st, SymbolsOf(b)) {
      HeldElements(st, SymbolsOf(a), x);
      HeldElements(st, SymbolsOf(b), x);
      if Held(st, x).position != 0.0 { HeldIsShared(a, b, intents, costs, allocation, g, x); }
    }
    SymbolOrder();
    SortedUnique(HeldOf(st, SymbolsOf(a)), HeldOf(st, SymbolsOf(b)), SymbolLess);
    HeldIsWorthAll(st, SymbolsOf(a));
    HeldIsWorthAll(st, SymbolsOf(b));
  }

  lemma SharePastPrefix(a: seq<Input>, b: seq<Input>, g: nat, h: nat)
    requires SharePast(a, b, g) && h <= g
    ensures SharePast(a, b, h)
  {
    assert TimelineOf(a)[..h] == TimelineOf(a)[..g][..h] && TimelineOf(b)[..h] == TimelineOf(b)[..g][..h];
  }

  lemma SamePoint(p: Plan, q: Plan, h: nat, st: State)
    requires h < |p.timeline| && h < |q.timeline| && p.timeline[h] == q.timeline[h]
    requires st == StateAfter(p, h + 1) == StateAfter(q, h + 1) && MarketValue(st, p.symbols) == MarketValue(st, q.symbols)
    ensures PortfolioEquityAt(p, h) == PortfolioEquityAt(q, h)
  {}

  lemma SharedPoint(a: seq<Input>, b: seq<Input>, intents: seq<PortfolioIntent>, costs: CostModel, allocation: Allocation, h: nat)
    requires SharePast(a, b, h + 1) && ValidAllocation(allocation)
    ensures PortfolioEquityAt(PlanOf(a, intents, costs, allocation), h) == PortfolioEquityAt(PlanOf(b, intents, costs, allocation), h)
  {
    var p, q := PlanOf(a, intents, costs, allocation), PlanOf(b, intents, costs, allocation);
    SharedEntry(a, b, h + 1, h);
    SharedStates(a, b, intents, costs, allocation, h + 1);
    SharedValue(a, b, intents, costs, allocation, h + 1);
    SamePoint(p, q, h, StateAfter(p, h + 1));
  }

  // ------------------------------------------------------------- shared outcomes

  /** Some of the first `g` records of the intent's symbol follows its decision. */
  ghost predicate FollowedBy(timeline: seq<Entry>, g: nat, intent: PortfolioIntent) {
    exists h :: 0 <= h < g && h < |timeline| && timeline[h].symbol == intent.symbol && timeline[h].timestamp > intent.intent.decidedAt
  }

  /** An intent is anchored at an entry exactly when that is the first record of its symbol after its decision. */
  lemma AnchoredExactlyAt(inputs: seq<Input>, intents: seq<PortfolioIntent>, costs: CostModel, allocation: Allocation, h: nat, i: nat)
    requires ValidInputs(inputs) && h < |TimelineOf(inputs)| && i < |intents|
    ensures var e := TimelineOf(inputs)[h];
            && e.symbol in RecordsOf(inputs)
            && (i in AnchoredAt(PlanOf(inputs, intents, costs, allocation), e)
                <==> intents[i].symbol == e.symbol && Anchor(RecordsOf(inputs)[e.symbol], intents[i].intent.decidedAt) == e.local)
  {
    EntryIsRecord(inputs, h);
    var e, t := TimelineOf(inputs)[h], Tagged(i, intents[i].intent);
    var group, records := Sequenced(intents, e.symbol), RecordsOf(inputs)[e.symbol];
    IndicesInGroup(records, group, |group|, e.local, i);
    SequencedMembers(intents, e.symbol, t);
    if t in group {
      var k :| 0 <= k < |group| && group[k] == t;
    }
    forall k | 0 <= k < |group| && group[k].index == i ensures group[k] == t && intents[i].symbol == e.symbol {
      SequencedMembers(intents, e.symbol, group[k]);
    }
  }

  /** A followed intent is anchored among the records that follow it. */
  lemma FollowedIsAnchored(inputs: seq<Input>, intents: seq<PortfolioIntent>, costs: CostModel, allocation: Allocation, g: nat, i: nat)
    returns (m: nat)
    requires ValidInputs(inputs) && g <= |TimelineOf(inputs)| && i < |intents| && FollowedBy(TimelineOf(inputs), g, intents[i])
    ensures m < g && i in AnchoredAt(PlanOf(inputs, intents, costs, allocation), TimelineOf(inputs)[m])
  {
    var h :| 0 <= h < g && TimelineOf(inputs)[h].symbol == intents[i].symbol && TimelineOf(inputs)[h].timestamp > intents[i].intent.decidedAt;
    var e, decidedAt := TimelineOf(inputs)[h], intents[i].intent.decidedAt;
    EntryIsRecord(inputs, h);
    var records := RecordsOf(inputs)[e.symbol];
    AnchorIsLeast(records, decidedAt);
    m := EarlierStandsBefore(inputs, h, Anchor(records, decidedAt));
    AnchoredExactlyAt(inputs, intents, costs, allocation, m, i);
  }

  /** An intent is anchored at one place of the timeline only. */
  lemma AnchoredOnce(inputs: seq<Input>, intents: seq<PortfolioIntent>, costs: CostModel, allocation: Allocation, m: nat, k: nat, i: nat)
    requires ValidInputs(inputs) && m < k < |TimelineOf(inputs)| && i < |intents|
    requires i in AnchoredAt(PlanOf(inputs, intents, costs, allocation), TimelineOf(inputs)[m])
    ensures i !in AnchoredAt(PlanOf(inputs, intents, costs, allocation), TimelineOf(inputs)[k])
  {
    AnchoredExactlyAt(inputs, intents, costs, allocation, m, i);
    AnchoredExactlyAt(inputs, intents, costs, allocation, k, i);
    EntryIsRecord(inputs, m);
    EntryIsRecord(inputs, k);
    UniverseIsValid(inputs);
    TimelineIsSorted(SymbolsOf(inputs), RecordsOf(inputs));
    assert InOrder(TimelineOf(inputs), EntryLess, m, k);
    SymbolIrreflexive(TimelineOf(inputs)[m].symbol);
  }

  lemma {:induction false} OthersKeepOutcome(plan: Plan, st: State, g: nat, indices: seq<nat>, i: nat)
    requires g < |plan.timeline| && i !in indices && i in st.outcomes
    ensures i in ApplyAll(plan, st, g, indices).outcomes && ApplyAll(plan, st, g, indices).outcomes[i] == st.outcomes[i]
    decreases |indices|
  {
    if |indices| > 0 {
      var n := |indices| - 1;
      OthersKeepOutcome(plan, st, g, indices[..n], i);
      if indices[n] < |plan.intents| {
        AllocateIsProper(AskFor(plan, ApplyAll(plan, st, g, indices[..n]), g, indices[n]), plan.costs, plan.allocation, plan.timeline[g].symbol);
      }
    }
  }

  lemma OutcomeStep(plan: Plan, k: nat, i: nat)
    requires k < |plan.timeline| && i in StateAfter(plan, k).outcomes && i !in AnchoredAt(plan, plan.timeline[k])
    ensures i in StateAfter(plan, k + 1).outcomes && StateAfter(plan, k + 1).outcomes[i] == StateAfter(plan, k).outcomes[i]
  {
    OthersKeepOutcome(plan, Marks(StateAfter(plan, k), plan.timeline[k]), k, AnchoredAt(plan, plan.timeline[k]), i);
  }

  /** An outcome stays while its intent is not anchored again. */
  lemma {:induction false} OutcomeStaysOn(plan: Plan, g: nat, k: nat, i: nat)
    requires g <= k <= |plan.timeline| && i in StateAfter(plan, g).outcomes
    requires forall h :: g <= h < k ==> i !in AnchoredAt(plan, plan.timeline[h])
    ensures i in StateAfter(plan, k).outcomes && StateAfter(plan, k).outcomes[i] == StateAfter(plan, g).outcomes[i]
    decreases k
  {
    if g < k {
      OutcomeStaysOn(plan, g, k - 1, i);
      OutcomeStep(plan, k - 1, i);
    }
  }

  /** Once processed, an intent keeps its outcome to the end of the run. */
  lemma OutcomeStays(inputs: seq<Input>, intents: seq<PortfolioIntent>, costs: CostModel, allocation: Allocation, m: nat, g: nat, i: nat)
    requires ValidInputs(inputs) && ValidAllocation(allocation) && m < g <= |TimelineOf(inputs)| && i < |intents|
    requires i in AnchoredAt(PlanOf(inputs, intents, costs, allocation), TimelineOf(inputs)[m])
    ensures var plan := PlanOf(inputs, intents, costs, allocation);
            i in StateAfter(plan, g).outcomes && RunPlan(plan).outcomes[i] == StateAfter(plan, g).outcomes[i]
  {
    var plan := PlanOf(inputs, intents, costs, allocation);
    PlanIsRunnable(inputs, intents, costs, allocation);
    AnchoredHaveOutcomes(plan, m, g, i);
    forall h | g <= h < |plan.timeline| ensures i !in AnchoredAt(plan, plan.timeline[h]) {
      AnchoredOnce(inputs, intents, costs, allocation, m, h, i);
    }
    OutcomeStaysOn(plan, g, |plan.timeline|, i);
  }

  lemma SharedOutcome(a: seq<Input>, b: seq<Input>, intents: seq<PortfolioIntent>, costs: CostModel, allocation: Allocation, g: nat, i: nat)
    requires SharePast(a, b, g) && ValidAllocation(allocation) && i < |intents| && FollowedBy(TimelineOf(a), g, intents[i])
    ensures RunPlan(PlanOf(a, intents, costs, allocation)).outcomes[i] == RunPlan(PlanOf(b, intents, costs, allocation)).outcomes[i]
  {
    var m := FollowedIsAnchored(a, intents, costs, allocation, g, i);
    SharedAnchors(a, b, intents, costs, allocation, g, m);
    SharedStates(a, b, intents, costs, allocation, g);
    OutcomeStays(a, intents, costs, allocation, m, g, i);
    OutcomeStays(b, intents, costs, allocation, m, g, i);
  }

  /**
   No look-ahead in a portfolio: if the merged timelines begin with the same `g` records, the first `g` equity
   points agree, and so does the outcome of every intent that one of these records follows. The universes may
   otherwise differ, in later records and in symbols that begin later.
   */
  lemma PortfolioDoesNotLookAhead(a: seq<Input>, b: seq<Input>, intents: seq<PortfolioIntent>, costs: CostModel, allocation: Allocation, g: nat)
    requires SharePast(a, b, g) && ValidAllocation(allocation)
    ensures RunPlan(PlanOf(a, intents, costs, allocation)).equity[..g] == RunPlan(PlanOf(b, intents, costs, allocation)).equity[..g]
    ensures forall i :: 0 <= i < |intents| && FollowedBy(TimelineOf(a), g, intents[i]) ==>
              RunPlan(PlanOf(a, intents, costs, allocation)).outcomes[i] == RunPlan(PlanOf(b, intents, costs, allocation)).outcomes[i]
  {
    forall h | 0 <= h < g
      ensures PortfolioEquityAt(PlanOf(a, intents, costs, allocation), h) == PortfolioEquityAt(PlanOf(b, intents, costs, allocation), h)
    {
      SharePastPrefix(a, b, g, h + 1);
      SharedPoint(a, b, intents, costs, allocation, h);
    }
    forall i | 0 <= i < |intents| && FollowedBy(TimelineOf(a), g, intents[i])
      ensures RunPlan(PlanOf(a, intents, costs, allocation)).outcomes[i] == RunPlan(PlanOf(b, intents, costs, allocation)).outcomes[i]
    {
      SharedOutcome(a, b, intents, costs, allocation, g, i);
    }
  }
}
