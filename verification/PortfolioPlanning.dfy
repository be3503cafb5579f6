/** How the portfolio engine prepares a run: sorted symbols, grouped and anchored intents, merged timeline. */
module PortfolioPlanning {
  import opened Fills
  import opened Backtest
  import opened Sorting
  import opened Portfolio

  /** One single-instrument input; its symbol is the symbol of its records. */
  datatype Input = Input(symbol: Symbol, records: seq<Record>)

  ghost predicate DistinctSymbols(inputs: seq<Input>, i: int, j: int) {
    0 <= i < j < |inputs| ==> inputs[i].symbol != inputs[j].symbol
  }

  /** Portfolio construction rejects an empty universe and repeated symbols. */
  ghost predicate ValidInputs(inputs: seq<Input>) {
    && |inputs| > 0
    && (forall i, j :: DistinctSymbols(inputs, i, j))
    && (forall i :: 0 <= i < |inputs| ==> ValidRecords(inputs[i].records))
  }

  // ------------------------------------------------------------ symbol order

  /** Symbols are compared character by character. */
  predicate SymbolLess(a: Symbol, b: Symbol) {
    |b| > 0 && (|a| == 0 || a[0] < b[0] || (a[0] == b[0] && SymbolLess(a[1..], b[1..])))
  }

  lemma {:induction false} SymbolTransits(a: Symbol, b: Symbol, c: Symbol)
    ensures Transits(SymbolLess, a, b, c)
  {
    SymbolIrreflexive(a);
    if |a| > 0 && |b| > 0 && |c| > 0 { SymbolTransits(a[1..], b[1..], c[1..]); }
  }

  lemma {:induction false} SymbolIrreflexive(a: Symbol)
    ensures !SymbolLess(a, a)
  {
    if |a| > 0 { SymbolIrreflexive(a[1..]); }
  }

  lemma {:induction false} SymbolTotal(a: Symbol, b: Symbol)
    ensures a == b || SymbolLess(a, b) || SymbolLess(b, a)
  {
    if |a| > 0 && |b| > 0 {
      SymbolTotal(a[1..], b[1..]);
      if a[1..] == b[1..] && a[0] == b[0] { assert a == [a[0]] + a[1..] && b == [b[0]] + b[1..]; }
    }
  }

  lemma SymbolOrder()
    ensures StrictOrder(SymbolLess)
  {
    forall a, b, c ensures Transits(SymbolLess, a, b, c) { SymbolTransits(a, b, c); }
  }

  // ---------------------------------------------------------------- universe

  function Names(inputs: seq<Input>): seq<Symbol> {
    seq(|inputs|, i requires 0 <= i < |inputs| => inputs[i].symbol)
  }

  function SymbolsOf(inputs: seq<Input>): seq<Symbol> {
    Sort(Names(inputs), SymbolLess)
  }

  /** The inputs by symbol; a later input replaces an earlier one of the same symbol. */
  function RecordsOf(inputs: seq<Input>): map<Symbol, seq<Record>>
    decreases |inputs|
  {
    if |inputs| == 0 then map[]
    else
      var last := inputs[|inputs| - 1];
      RecordsOf(inputs[..|inputs| - 1])[last.symbol := last.records]
  }

  // ---------------------------------------------------------------- timeline

  /** Timeline order: timestamp first, then symbol. */
  predicate EntryLess(a: Entry, b: Entry) {
    a.timestamp < b.timestamp || (a.timestamp == b.timestamp && SymbolLess(a.symbol, b.symbol))
  }

  lemma EntryOrder()
    ensures StrictOrder(EntryLess)
  {
    forall a, b, c ensures Transits(EntryLess, a, b, c) {
      SymbolTransits(a.symbol, b.symbol, c.symbol);
    }
  }

  function EntryOf(symbol: Symbol, records: seq<Record>, i: nat): Entry
    requires i < |records|
  {
    Entry(Timestamp(records[i]), symbol, i, records[i])
  }

  function EntriesOf(symbol: Symbol, records: seq<Record>): seq<Entry> {
    seq(|records|, i requires 0 <= i < |records| => EntryOf(symbol, records, i))
  }

  function AllEntries(symbols: seq<Symbol>, records: map<Symbol, seq<Record>>): seq<Entry>
    decreases |symbols|
  {
    if |symbols| == 0 then []
    else
      var last := symbols[|symbols| - 1];
      AllEntries(symbols[..|symbols| - 1], records) + (if last in records then EntriesOf(last, records[last]) else [])
  }

  function Timeline(symbols: seq<Symbol>, records: map<Symbol, seq<Record>>): seq<Entry> {
    Sort(AllEntries(symbols, records), EntryLess)
  }

  // ------------------------------------------------------------------ groups

  datatype Tagged = Tagged(index: nat, intent: Intent)

  /** The intents of one symbol with their global indices, in caller order. */
  function Group(intents: seq<PortfolioIntent>, symbol: Symbol): seq<Tagged>
    decreases |intents|
  {
    if |intents| == 0 then []
    else
      var n := |intents| - 1;
      var earlier := Group(intents[..n], symbol);
      if intents[n].symbol == symbol then earlier + [Tagged(n, intents[n].intent)] else earlier
  }

  predicate DecidedLess(a: Tagged, b: Tagged) {
    a.intent.decidedAt < b.intent.decidedAt
  }

  lemma DecidedOrder()
    ensures StrictOrder(DecidedLess)
  {
    forall a, b, c ensures Transits(DecidedLess, a, b, c) {}
  }

  function Sequenced(intents: seq<PortfolioIntent>, symbol: Symbol): seq<Tagged> {
    Sort(Group(intents, symbol), DecidedLess)
  }

  /** Global indices of the first `n` grouped intents anchored at the symbol's record `r`, in decision order. */
  function IndicesIn(records: seq<Record>, group: seq<Tagged>, n: nat, r: nat): seq<nat>
    requires n <= |group|
  {
    if n == 0 then []
    else
      var earlier := IndicesIn(records, group, n - 1, r);
      if Anchor(records, group[n - 1].intent.decidedAt) == r then earlier + [group[n - 1].index] else earlier
  }

  function AnchoredList(records: seq<Record>, group: seq<Tagged>): seq<seq<nat>> {
    seq(|records|, r requires 0 <= r < |records| => IndicesIn(records, group, |group|, r))
  }

  function AnchoredMap(symbols: seq<Symbol>, records: map<Symbol, seq<Record>>, intents: seq<PortfolioIntent>)
    : map<Symbol, seq<seq<nat>>>
  {
    map symbol | symbol in symbols && symbol in records :: AnchoredList(records[symbol], Sequenced(intents, symbol))
  }

  function PlanOf(inputs: seq<Input>, intents: seq<PortfolioIntent>, costs: CostModel, allocation: Allocation): Plan {
    var symbols, records := SymbolsOf(inputs), RecordsOf(inputs);
    Plan(symbols, Timeline(symbols, records), AnchoredMap(symbols, records, intents), intents, costs, allocation)
  }

  /** Every intent names a symbol of the universe. */
  ghost predicate KnownSymbols(inputs: seq<Input>, intents: seq<PortfolioIntent>) {
    forall i :: 0 <= i < |intents| ==> intents[i].symbol in RecordsOf(inputs)
  }

  ghost predicate DecidedApart(intents: seq<PortfolioIntent>, i: int, j: int) {
    0 <= i < j < |intents| && intents[i].symbol == intents[j].symbol ==>
      intents[i].intent.decidedAt != intents[j].intent.decidedAt
  }

  /** No two intents of one symbol were decided at the same time. */
  ghost predicate NoTies(intents: seq<PortfolioIntent>) {
    forall i, j :: DecidedApart(intents, i, j)
  }

  // ------------------------------------------------- facts about the universe

  lemma {:induction false} RecordsOfInput(inputs: seq<Input>, i: nat)
    requires i < |inputs| && forall a, b :: DistinctSymbols(inputs, a, b)
    ensures inputs[i].symbol in RecordsOf(inputs) && RecordsOf(inputs)[inputs[i].symbol] == inputs[i].records
    decreases |inputs|
  {
    var n := |inputs| - 1;
    if i < n {
      forall a, b ensures DistinctSymbols(inputs[..n], a, b) { assert DistinctSymbols(inputs, a, b); }
      RecordsOfInput(inputs[..n], i);
      assert DistinctSymbols(inputs, i, n);
    }
  }

  lemma {:induction false} RecordsOfKeys(inputs: seq<Input>, symbol: Symbol)
    ensures symbol in RecordsOf(inputs) <==> exists i :: 0 <= i < |inputs| && inputs[i].symbol == symbol
    decreases |inputs|
  {
    if |inputs| > 0 {
      var n := |inputs| - 1;
      RecordsOfKeys(inputs[..n], symbol);
      assert forall i :: 0 <= i < n ==> inputs[..n][i] == inputs[i];
    }
  }

  lemma NamesAreComparable(inputs: seq<Input>)
    requires forall i, j :: DistinctSymbols(inputs, i, j)
    ensures Comparable(Names(inputs), SymbolLess)
  {
    forall i, j ensures Compares(Names(inputs), SymbolLess, i, j) {
      if 0 <= i < |inputs| && 0 <= j < |inputs| {
        SymbolTotal(inputs[i].symbol, inputs[j].symbol);
        assert DistinctSymbols(inputs, i, j) && DistinctSymbols(inputs, j, i);
      }
    }
  }

  /** The symbols are the sorted keys of the universe. */
  lemma SymbolsAreKeys(inputs: seq<Input>)
    requires ValidInputs(inputs)
    ensures Sorted(SymbolsOf(inputs), SymbolLess)
    ensures forall symbol :: symbol in SymbolsOf(inputs) <==> symbol in RecordsOf(inputs)
  {
    SymbolOrder();
    NamesAreComparable(inputs);
    SortSorts(Names(inputs), SymbolLess);
    forall symbol ensures symbol in SymbolsOf(inputs) <==> symbol in RecordsOf(inputs) {
      SortElements(Names(inputs), SymbolLess, symbol);
      RecordsOfKeys(inputs, symbol);
      if i :| 0 <= i < |inputs| && inputs[i].symbol == symbol { assert Names(inputs)[i] == symbol; }
    }
  }

  lemma UniverseIsValid(inputs: seq<Input>)
    requires ValidInputs(inputs)
    ensures Sorted(SymbolsOf(inputs), SymbolLess)
    ensures forall symbol :: symbol in RecordsOf(inputs) ==> ValidRecords(RecordsOf(inputs)[symbol])
  {
    SymbolsAreKeys(inputs);
    forall symbol | symbol in RecordsOf(inputs) ensures ValidRecords(RecordsOf(inputs)[symbol]) {
      RecordsOfKeys(inputs, symbol);
      var i :| 0 <= i < |inputs| && inputs[i].symbol == symbol;
      RecordsOfInput(inputs, i);
    }
  }

  lemma SortElements<T(!new)>(s: seq<T>, less: (T, T) -> bool, x: T)
    ensures x in Sort(s, less) <==> x in s
  {
    SortKeepsElements(s, less);
    assert x in Sort(s, less) <==> x in multiset(Sort(s, less));
    assert x in s <==> x in multiset(s);
  }

  // ------------------------------------------------- facts about the timeline

  /** `e` is some record of the universe. */
  ghost predicate IsEntry(symbols: seq<Symbol>, records: map<Symbol, seq<Record>>, e: Entry) {
    && e.symbol in symbols && e.symbol in records && e.local < |records[e.symbol]|
    && e == EntryOf(e.symbol, records[e.symbol], e.local)
  }

  lemma {:induction false} EntriesAreRecords(symbols: seq<Symbol>, records: map<Symbol, seq<Record>>, e: Entry)
    ensures e in AllEntries(symbols, records) <==> IsEntry(symbols, records, e)
    decreases |symbols|
  {
    if |symbols| > 0 {
      var n := |symbols| - 1;
      EntriesAreRecords(symbols[..n], records, e);
      assert symbols == symbols[..n] + [symbols[n]];
      if symbols[n] in records && e.symbol == symbols[n] && e.local < |records[e.symbol]| {
        assert EntriesOf(e.symbol, records[e.symbol])[e.local] == EntryOf(e.symbol, records[e.symbol], e.local);
      }
    }
  }

  lemma EntriesCompare(symbols: seq<Symbol>, records: map<Symbol, seq<Record>>, a: Entry, b: Entry)
    requires IsEntry(symbols, records, a) && IsEntry(symbols, records, b) && a != b
    requires forall symbol :: symbol in records ==> ValidRecords(records[symbol])
    ensures EntryLess(a, b) || EntryLess(b, a)
  {
    if a.symbol == b.symbol {
      assert RecordsInOrder(records[a.symbol], a.local, b.local) && RecordsInOrder(records[a.symbol], b.local, a.local);
    } else {
      SymbolTotal(a.symbol, b.symbol);
    }
  }

  ghost predicate Repeats(entries: seq<Entry>, i: int, j: int) {
    0 <= i < j < |entries| && entries[i] == entries[j]
  }

  lemma {:induction false} EntriesAreDistinct(symbols: seq<Symbol>, records: map<Symbol, seq<Record>>, i: int, j: int)
    requires Sorted(symbols, SymbolLess)
    ensures !Repeats(AllEntries(symbols, records), i, j)
    decreases |symbols|
  {
    if |symbols| > 0 && Repeats(AllEntries(symbols, records), i, j) {
      var n := |symbols| - 1;
      var earlier, last := AllEntries(symbols[..n], records), symbols[n];
      forall a, b ensures InOrder(symbols[..n], SymbolLess, a, b) { assert InOrder(symbols, SymbolLess, a, b); }
      EntriesAreDistinct(symbols[..n], records, i, j);
      EntriesAreRecords(symbols[..n], records, AllEntries(symbols, records)[i]);
      LastIsNew(symbols);
    }
  }

  lemma LastIsNew(symbols: seq<Symbol>)
    requires Sorted(symbols, SymbolLess) && |symbols| > 0
    ensures symbols[|symbols| - 1] !in symbols[..|symbols| - 1]
  {
    var n := |symbols| - 1;
    forall k | 0 <= k < n ensures symbols[k] != symbols[n] {
      assert InOrder(symbols, SymbolLess, k, n);
      SymbolIrreflexive(symbols[n]);
    }
  }

  /** The merged timeline is strictly sorted and holds every record of the universe exactly once. */
  lemma TimelineIsSorted(symbols: seq<Symbol>, records: map<Symbol, seq<Record>>)
    requires Sorted(symbols, SymbolLess)
    requires forall symbol :: symbol in records ==> ValidRecords(records[symbol])
    ensures Sorted(Timeline(symbols, records), EntryLess)
    ensures forall e :: e in Timeline(symbols, records) <==> IsEntry(symbols, records, e)
  {
    var entries := AllEntries(symbols, records);
    forall i, j ensures Compares(entries, EntryLess, i, j) {
      if 0 <= i < |entries| && 0 <= j < |entries| && i != j {
        EntriesAreRecords(symbols, records, entries[i]);
        EntriesAreRecords(symbols, records, entries[j]);
        EntriesAreDistinct(symbols, records, i, j);
        EntriesAreDistinct(symbols, records, j, i);
        EntriesCompare(symbols, records, entries[i], entries[j]);
      }
    }
    EntryOrder();
    SortSorts(entries, EntryLess);
    forall e ensures e in Timeline(symbols, records) <==> IsEntry(symbols, records, e) {
      SortElements(entries, EntryLess, e);
      EntriesAreRecords(symbols, records, e);
    }
  }

  /** (timestamp, symbol) leaves no choice: any strictly ordered arrangement of the records is the timeline. */
  lemma TimelineIsUnique(symbols: seq<Symbol>, records: map<Symbol, seq<Record>>, other: seq<Entry>)
    requires Sorted(symbols, SymbolLess)
    requires forall symbol :: symbol in records ==> ValidRecords(records[symbol])
    requires Sorted(other, EntryLess) && forall e :: e in other <==> IsEntry(symbols, records, e)
    ensures other == Timeline(symbols, records)
  {
    TimelineIsSorted(symbols, records);
    EntryOrder();
    SortedUnique(other, Timeline(symbols, records), EntryLess);
  }

  // -------------------------------------------------------------- time order

  /** The strings first differ at `n`: `a` ends there, or has the smaller character. */
  ghost predicate FirstDiffersAt(a: Symbol, b: Symbol, n: nat) {
    n <= |a| && n < |b| && a[..n] == b[..n] && (n == |a| || a[n] < b[n])
  }

  /** `a` is a proper prefix of `b`, or smaller at the first character in which they differ. */
  ghost predicate ComesBefore(a: Symbol, b: Symbol) {
    exists n: nat :: FirstDiffersAt(a, b, n)
  }

  lemma {:induction false} LessComesBefore(a: Symbol, b: Symbol)
    requires SymbolLess(a, b)
    ensures ComesBefore(a, b)
  {
    if |a| == 0 || a[0] < b[0] {
      assert a[..0] == b[..0] == [];
      assert FirstDiffersAt(a, b, 0);
    } else {
      LessComesBefore(a[1..], b[1..]);
      var n: nat :| FirstDiffersAt(a[1..], b[1..], n);
      assert a[..n + 1] == [a[0]] + a[1..][..n] && b[..n + 1] == [b[0]] + b[1..][..n];
      assert FirstDiffersAt(a, b, n + 1);
    }
  }

  /** The records of the timeline stand in time order, and those of one time in the order of their symbols. */
  lemma TimelineRunsInTime(inputs: seq<Input>, intents: seq<PortfolioIntent>, costs: CostModel, allocation: Allocation, h: nat, k: nat)
    requires ValidInputs(inputs) && h < k < |PlanOf(inputs, intents, costs, allocation).timeline|
    ensures var a, b := PlanOf(inputs, intents, costs, allocation).timeline[h], PlanOf(inputs, intents, costs, allocation).timeline[k];
            && Timestamp(a.record) <= Timestamp(b.record)
            && (Timestamp(a.record) == Timestamp(b.record) ==> ComesBefore(a.symbol, b.symbol))
  {
    var timeline := PlanOf(inputs, intents, costs, allocation).timeline;
    UniverseIsValid(inputs);
    TimelineIsSorted(SymbolsOf(inputs), RecordsOf(inputs));
    assert timeline[h] in timeline && timeline[k] in timeline;
    assert InOrder(timeline, EntryLess, h, k);
    if timeline[h].timestamp == timeline[k].timestamp { LessComesBefore(timeline[h].symbol, timeline[k].symbol); }
  }

  /** An entry of the timeline is a record of the input of its symbol. */
  lemma EntriesCarryTheirRecords(inputs: seq<Input>, intents: seq<PortfolioIntent>, costs: CostModel, allocation: Allocation, h: nat)
    requires ValidInputs(inputs) && h < |PlanOf(inputs, intents, costs, allocation).timeline|
    ensures var e := PlanOf(inputs, intents, costs, allocation).timeline[h];
            && e.timestamp == Timestamp(e.record)
            && exists i :: 0 <= i < |inputs| && inputs[i].symbol == e.symbol && e.local < |inputs[i].records| && inputs[i].records[e.local] == e.record
  {
    var timeline := PlanOf(inputs, intents, costs, allocation).timeline;
    UniverseIsValid(inputs);
    TimelineIsSorted(SymbolsOf(inputs), RecordsOf(inputs));
    assert timeline[h] in timeline;
    var symbol := timeline[h].symbol;
    RecordsOfKeys(inputs, symbol);
    var i :| 0 <= i < |inputs| && inputs[i].symbol == symbol;
    RecordsOfInput(inputs, i);
  }

  /** The equity curve of a run has a point for every record and never goes back in time. */
  lemma EquityRunsInTime(inputs: seq<Input>, intents: seq<PortfolioIntent>, costs: CostModel, allocation: Allocation, h: nat, k: nat)
    requires ValidInputs(inputs) && h <= k < |RunPlan(PlanOf(inputs, intents, costs, allocation)).equity|
    ensures var plan := PlanOf(inputs, intents, costs, allocation);
            var equity := RunPlan(plan).equity;
            && |equity| == |plan.timeline| && equity[h].timestamp == Timestamp(plan.timeline[h].record)
            && equity[h].timestamp <= equity[k].timestamp
  {
    EntriesCarryTheirRecords(inputs, intents, costs, allocation, h);
    EntriesCarryTheirRecords(inputs, intents, costs, allocation, k);
    if h < k { TimelineRunsInTime(inputs, intents, costs, allocation, h, k); }
  }

  // ------------------------------------------------------------- determinism

  /** Permuting the caller's inputs changes neither the plan nor anything computed from it. */
  lemma PlanIgnoresInputOrder(a: seq<Input>, b: seq<Input>, intents: seq<PortfolioIntent>, costs: CostModel, allocation: Allocation)
    requires ValidInputs(a) && ValidInputs(b) && multiset(a) == multiset(b)
    ensures PlanOf(a, intents, costs, allocation) == PlanOf(b, intents, costs, allocation)
    ensures RunPlan(PlanOf(a, intents, costs, allocation)) == RunPlan(PlanOf(b, intents, costs, allocation))
  {
    forall symbol ensures symbol in RecordsOf(a) <==> symbol in RecordsOf(b) {
      SameRecords(a, b, symbol);
      SameRecords(b, a, symbol);
    }
    forall symbol | symbol in RecordsOf(a) ensures RecordsOf(a)[symbol] == RecordsOf(b)[symbol] {
      SameRecords(a, b, symbol);
    }
    assert RecordsOf(a) == RecordsOf(b);
    SymbolsAreKeys(a);
    SymbolsAreKeys(b);
    SymbolOrder();
    SortedUnique(SymbolsOf(a), SymbolsOf(b), SymbolLess);
  }

  lemma SameRecords(a: seq<Input>, b: seq<Input>, symbol: Symbol)
    requires ValidInputs(a) && ValidInputs(b) && multiset(a) == multiset(b)
    ensures symbol in RecordsOf(a) ==> symbol in RecordsOf(b) && RecordsOf(a)[symbol] == RecordsOf(b)[symbol]
  {
    RecordsOfKeys(a, symbol);
    if i :| 0 <= i < |a| && a[i].symbol == symbol {
      RecordsOfInput(a, i);
      assert a[i] in multiset(a) && a[i] in multiset(b);
      var j :| 0 <= j < |b| && b[j] == a[i];
      RecordsOfInput(b, j);
    }
  }
}
