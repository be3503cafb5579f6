/** The portfolio engine as it runs: grouping, anchoring and one loop over the merged timeline. */
module PortfolioEngine {
  import opened Wrappers
  import opened Fills
  import opened Backtest
  import opened BacktestEngine
  import opened Sorting
  import opened Portfolio
  import opened PortfolioPlanning

  datatype PortfolioError = UnknownSymbol(symbol: Symbol) | TiedIntents(symbol: Symbol)

  // -------------------------------------------------------------- preparation

  method CheckSymbols(intents: seq<PortfolioIntent>, records: map<Symbol, seq<Record>>) returns (unknown: Option<Symbol>)
    ensures unknown.None? <==> forall i :: 0 <= i < |intents| ==> intents[i].symbol in records
  {
    for i := 0 to |intents|
      invariant forall j :: 0 <= j < i ==> intents[j].symbol in records
    {
      if intents[i].symbol !in records {
        return Some(intents[i].symbol);
      }
    }
    return None;
  }

  /** One pass distributes the intents to the groups of their symbols, keeping caller order. */
  method GroupIntents(intents: seq<PortfolioIntent>, symbols: seq<Symbol>) returns (groups: map<Symbol, seq<Tagged>>)
    requires forall i :: 0 <= i < |intents| ==> intents[i].symbol in symbols
    ensures forall symbol :: symbol in symbols ==> symbol in groups && groups[symbol] == Group(intents, symbol)
  {
    groups := map symbol | symbol in symbols :: [];
    for n := 0 to |intents|
      invariant forall symbol :: symbol in symbols ==> symbol in groups && groups[symbol] == Group(intents[..n], symbol)
    {
      var item := intents[n];
      assert intents[..n + 1][..n] == intents[..n];
      groups := groups[item.symbol := groups[item.symbol] + [Tagged(n, item.intent)]];
    }
    assert intents[..|intents|] == intents;
  }

  /** Adjacent comparison decides whether a sorted group has ties. */
  method HasTies(group: seq<Tagged>) returns (tied: bool)
    ensures !tied <==> Sorted(group, DecidedLess)
  {
    if |group| == 0 {
      forall i, j ensures InOrder(group, DecidedLess, i, j) {}
      return false;
    }
    for n := 1 to |group|
      invariant forall i, j :: j < n ==> InOrder(group, DecidedLess, i, j)
    {
      if group[n].intent.decidedAt <= group[n - 1].intent.decidedAt {
        assert !InOrder(group, DecidedLess, n - 1, n);
        return true;
      }
      forall i, j | j < n + 1 ensures InOrder(group, DecidedLess, i, j) {
        if 0 <= i < n == j { assert InOrder(group, DecidedLess, i, n - 1); }
      }
    }
    forall i, j ensures InOrder(group, DecidedLess, i, j) {
      if j < |group| { assert InOrder(group, DecidedLess, i, j); }
    }
    return false;
  }

  /** The entry an intent has before the run starts. */
  function PrefilledAt(records: map<Symbol, seq<Record>>, intents: seq<PortfolioIntent>, i: nat): Option<Outcome>
    requires i < |intents|
  {
    var item := intents[i];
    if item.symbol in records && Anchor(records[item.symbol], item.intent.decidedAt) == |records[item.symbol]|
    then Some(Unfilled(i, NoRecordAfterDecision)) else None
  }

  /** One monotone cursor anchors the group of one symbol. */
  method AnchorGroup(records: seq<Record>, group: seq<Tagged>, before: seq<Option<Outcome>>)
    returns (anchored: seq<seq<nat>>, outcomes: seq<Option<Outcome>>)
    requires Sorted(group, DecidedLess)
    requires forall k :: 0 <= k < |group| ==> group[k].index < |before|
    ensures anchored == AnchoredList(records, group)
    ensures |outcomes| == |before|
    ensures forall i :: 0 <= i < |before| ==> outcomes[i] == before[i] || outcomes[i] == Some(Unfilled(i, NoRecordAfterDecision))
    ensures forall k :: 0 <= k < |group| && Anchor(records, group[k].intent.decidedAt) == |records| ==>
              outcomes[group[k].index] == Some(Unfilled(group[k].index, NoRecordAfterDecision))
  {
    var cursor := 0;
    anchored, outcomes := seq(|records|, _ => []), before;
    for n := 0 to |group|
      invariant |anchored| == |records| && |outcomes| == |before| && cursor <= |records|
      invariant forall i :: 0 <= i < cursor ==> n > 0 && Timestamp(records[i]) <= group[n - 1].intent.decidedAt
      invariant forall r :: 0 <= r < |records| ==> anchored[r] == IndicesIn(records, group, n, r)
      invariant forall i :: 0 <= i < |before| ==> outcomes[i] == before[i] || outcomes[i] == Some(Unfilled(i, NoRecordAfterDecision))
      invariant forall k :: 0 <= k < n && Anchor(records, group[k].intent.decidedAt) == |records| ==>
                  outcomes[group[k].index] == Some(Unfilled(group[k].index, NoRecordAfterDecision))
    {
      var decidedAt := group[n].intent.decidedAt;
      assert InOrder(group, DecidedLess, n - 1, n);
      AnchorResumes(records, decidedAt, 0, cursor);
      while cursor < |records| && Timestamp(records[cursor]) <= decidedAt
        invariant cursor <= |records|
        invariant AnchorFrom(records, decidedAt, cursor) == Anchor(records, decidedAt)
        invariant forall i :: 0 <= i < cursor ==> Timestamp(records[i]) <= decidedAt
      {
        cursor := cursor + 1;
      }
      if cursor < |records| {
        anchored := anchored[cursor := anchored[cursor] + [group[n].index]];
      } else {
        outcomes := outcomes[group[n].index := Some(Unfilled(group[n].index, NoRecordAfterDecision))];
      }
    }
  }

  // ------------------------------------------------------------ facts on groups

  lemma {:induction false} GroupMembers(intents: seq<PortfolioIntent>, symbol: Symbol, t: Tagged)
    ensures t in Group(intents, symbol)
            <==> t.index < |intents| && intents[t.index].symbol == symbol && t.intent == intents[t.index].intent
    decreases |intents|
  {
    if |intents| > 0 {
      var n := |intents| - 1;
      GroupMembers(intents[..n], symbol, t);
    }
  }

  lemma SequencedMembers(intents: seq<PortfolioIntent>, symbol: Symbol, t: Tagged)
    ensures t in Sequenced(intents, symbol)
            <==> t.index < |intents| && intents[t.index].symbol == symbol && t.intent == intents[t.index].intent
  {
    SortElements(Group(intents, symbol), DecidedLess, t);
    GroupMembers(intents, symbol, t);
  }

  ghost predicate Grows(group: seq<Tagged>, i: int, j: int) {
    0 <= i < j < |group| ==> group[i].index < group[j].index
  }

  lemma {:induction false} GroupGrows(intents: seq<PortfolioIntent>, symbol: Symbol, i: int, j: int)
    ensures Grows(Group(intents, symbol), i, j)
    decreases |intents|
  {
    if |intents| > 0 {
      var n := |intents| - 1;
      GroupGrows(intents[..n], symbol, i, j);
      var earlier := Group(intents[..n], symbol);
      if 0 <= i < |earlier| { GroupMembers(intents[..n], symbol, earlier[i]); }
    }
  }

  /** Without ties every group sorts strictly. */
  lemma NoTiesSorts(intents: seq<PortfolioIntent>, symbol: Symbol)
    requires NoTies(intents)
    ensures Sorted(Sequenced(intents, symbol), DecidedLess)
  {
    var group := Group(intents, symbol);
    forall i, j ensures Compares(group, DecidedLess, i, j) {
      if 0 <= i < |group| && 0 <= j < |group| && i != j {
        GroupMembers(intents, symbol, group[i]);
        GroupMembers(intents, symbol, group[j]);
        GroupGrows(intents, symbol, i, j);
        GroupGrows(intents, symbol, j, i);
        assert DecidedApart(intents, group[i].index, group[j].index) && DecidedApart(intents, group[j].index, group[i].index);
      }
    }
    DecidedOrder();
    SortSorts(group, DecidedLess);
  }

  /** Groups that sort strictly have no ties. */
  lemma SortsNoTies(intents: seq<PortfolioIntent>, symbols: seq<Symbol>)
    requires forall i :: 0 <= i < |intents| ==> intents[i].symbol in symbols
    requires forall symbol :: symbol in symbols ==> Sorted(Sequenced(intents, symbol), DecidedLess)
    ensures NoTies(intents)
  {
    forall i, j ensures DecidedApart(intents, i, j) {
      if 0 <= i < j < |intents| && intents[i].symbol == intents[j].symbol {
        var group := Sequenced(intents, intents[i].symbol);
        var a, b := Tagged(i, intents[i].intent), Tagged(j, intents[j].intent);
        SequencedMembers(intents, intents[i].symbol, a);
        SequencedMembers(intents, intents[i].symbol, b);
        var p :| 0 <= p < |group| && group[p] == a;
        var q :| 0 <= q < |group| && group[q] == b;
        assert InOrder(group, DecidedLess, p, q) && InOrder(group, DecidedLess, q, p);
      }
    }
  }

  // ------------------------------------------------------------------ the plan

  method BuildTimeline(symbols: seq<Symbol>, records: map<Symbol, seq<Record>>) returns (timeline: seq<Entry>)
    requires forall symbol :: symbol in symbols ==> symbol in records
    ensures timeline == Timeline(symbols, records)
  {
    var entries: seq<Entry> := [];
    for n := 0 to |symbols|
      invariant entries == AllEntries(symbols[..n], records)
    {
      var symbol := symbols[n];
      ghost var earlier := entries;
      for local := 0 to |records[symbol]|
        invariant entries == earlier + EntriesOf(symbol, records[symbol])[..local]
      {
        entries := entries + [EntryOf(symbol, records[symbol], local)];
      }
      assert symbols[..n + 1][..n] == symbols[..n];
      assert EntriesOf(symbol, records[symbol])[..|records[symbol]|] == EntriesOf(symbol, records[symbol]);
    }
    assert symbols[..|symbols|] == symbols;
    timeline := Sort(entries, EntryLess);
  }

  /** Before the run an intent has an outcome only if no record follows its decision, and then it does. */
  ghost predicate Prepared(outcome: Option<Outcome>, records: map<Symbol, seq<Record>>, intents: seq<PortfolioIntent>, i: nat) {
    && i < |intents|
    && (outcome == None || outcome == Some(Unfilled(i, NoRecordAfterDecision)))
    && (PrefilledAt(records, intents, i).Some? ==> outcome.Some?)
  }

  method SortGroups(intents: seq<PortfolioIntent>, symbols: seq<Symbol>, groups: map<Symbol, seq<Tagged>>)
    returns (sorted: map<Symbol, seq<Tagged>>, tied: Option<Symbol>)
    requires forall symbol :: symbol in symbols ==> symbol in groups && groups[symbol] == Group(intents, symbol)
    ensures tied.None? <==> forall symbol :: symbol in symbols ==> Sorted(Sequenced(intents, symbol), DecidedLess)
    ensures tied.None? ==> forall symbol :: symbol in symbols ==> symbol in sorted && sorted[symbol] == Sequenced(intents, symbol)
  {
    sorted, tied := groups, None;
    for n := 0 to |symbols|
      invariant forall k :: 0 <= k < n ==> Sorted(Sequenced(intents, symbols[k]), DecidedLess)
      invariant forall k :: 0 <= k < n ==> symbols[k] in sorted && sorted[symbols[k]] == Sequenced(intents, symbols[k])
    {
      var group := Sort(groups[symbols[n]], DecidedLess);
      var ties := HasTies(group);
      if ties {
        return sorted, Some(symbols[n]);
      }
      sorted := sorted[symbols[n] := group];
    }
  }

  method AnchorGroups(intents: seq<PortfolioIntent>, symbols: seq<Symbol>, records: map<Symbol, seq<Record>>,
                      sorted: map<Symbol, seq<Tagged>>)
    returns (anchored: map<Symbol, seq<seq<nat>>>, outcomes: seq<Option<Outcome>>)
    requires forall symbol :: symbol in symbols <==> symbol in records
    requires forall i :: 0 <= i < |intents| ==> intents[i].symbol in symbols
    requires forall symbol :: symbol in symbols ==>
               symbol in sorted && sorted[symbol] == Sequenced(intents, symbol) && Sorted(sorted[symbol], DecidedLess)
    ensures anchored == AnchoredMap(symbols, records, intents)
    ensures |outcomes| == |intents| && forall i :: 0 <= i < |intents| ==> Prepared(outcomes[i], records, intents, i)
  {
    anchored, outcomes := map[], seq(|intents|, _ => None);
    for n := 0 to |symbols|
      invariant anchored.Keys == set k | 0 <= k < n :: symbols[k]
      invariant forall symbol :: symbol in anchored ==> symbol in records && anchored[symbol] == AnchoredList(records[symbol], Sequenced(intents, symbol))
      invariant |outcomes| == |intents|
      invariant forall i :: 0 <= i < |intents| ==> outcomes[i] == None || outcomes[i] == Some(Unfilled(i, NoRecordAfterDecision))
      invariant forall i :: 0 <= i < |intents| && intents[i].symbol in anchored && PrefilledAt(records, intents, i).Some? ==> outcomes[i].Some?
    {
      var symbol := symbols[n];
      var group := sorted[symbol];
      forall k | 0 <= k < |group| ensures group[k].index < |intents| { SequencedMembers(intents, symbol, group[k]); }
      var list, after := AnchorGroup(records[symbol], group, outcomes);
      forall i | 0 <= i < |intents| && intents[i].symbol == symbol && PrefilledAt(records, intents, i).Some?
        ensures after[i].Some?
      {
        var t := Tagged(i, intents[i].intent);
        SequencedMembers(intents, symbol, t);
        var k :| 0 <= k < |group| && group[k] == t;
      }
      anchored, outcomes := anchored[symbol := list], after;
    }
    forall symbol | symbol in symbols ensures symbol in anchored {
      var k :| 0 <= k < |symbols| && symbols[k] == symbol;
    }
    forall i | 0 <= i < |intents| ensures Prepared(outcomes[i], records, intents, i) {
      assert intents[i].symbol in anchored;
    }
  }

  /** Preparation yields the plan, and fails exactly on unknown symbols or tied decisions. */
  method Prepare(inputs: seq<Input>, intents: seq<PortfolioIntent>, costs: CostModel, allocation: Allocation)
    returns (r: Result<(Plan, seq<Option<Outcome>>), PortfolioError>)
    requires ValidInputs(inputs)
    ensures r.Ok? <==> KnownSymbols(inputs, intents) && NoTies(intents)
    ensures r.Ok? ==>
              && r.value.0 == PlanOf(inputs, intents, costs, allocation)
              && |r.value.1| == |intents|
              && forall i :: 0 <= i < |intents| ==> Prepared(r.value.1[i], RecordsOf(inputs), intents, i)
  {
    var symbols, records := SymbolsOf(inputs), RecordsOf(inputs);
    SymbolsAreKeys(inputs);
    var unknown := CheckSymbols(intents, records);
    if unknown.Some? {
      return Err(UnknownSymbol(unknown.value));
    }
    var groups := GroupIntents(intents, symbols);
    var sorted, tied := SortGroups(intents, symbols, groups);
    if tied.Some? {
      if NoTies(intents) {
        forall symbol | symbol in symbols ensures Sorted(Sequenced(intents, symbol), DecidedLess) { NoTiesSorts(intents, symbol); }
      }
      return Err(TiedIntents(tied.value));
    }
    SortsNoTies(intents, symbols);
    var anchored, outcomes := AnchorGroups(intents, symbols, records, sorted);
    var timeline := BuildTimeline(symbols, records);
    return Ok((Plan(symbols, timeline, anchored, intents, costs, allocation), outcomes));
  }
}
