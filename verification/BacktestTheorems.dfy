/** What every backtest run guarantees: exact accounting, cost conservation and no look-ahead. */
module BacktestTheorems {
  import opened Arithmetic
  import opened Fills
  import opened Ledger
  import opened FifoMatching
  import opened Backtest

  // ------------------------------------------------------ accounting identity

  /** Profit of an open lot at a mark: realized so far, unrealized, less the unused entry commission. */
  function OpenProfit(lot: Lot, mark: real): real {
    lot.realized + Scale(mark - lot.entryPrice, lot.remaining) - Share(lot.entryCost, lot.remaining, lot.total)
  }

  function TotalOpenProfit(lots: seq<Lot>, mark: real): real {
    if |lots| == 0 then 0.0 else OpenProfit(lots[0], mark) + TotalOpenProfit(lots[1..], mark)
  }

  lemma {:induction false} OpenProfitIsBookedPlusShares(lots: seq<Lot>, mark: real)
    ensures TotalOpenProfit(lots, mark) == LotsTotal(lots, Booked) + Scale(mark, Remaining(lots))
  {
    if |lots| == 0 {
      assert Scale(mark, 0.0) == 0.0;
    } else {
      PriceDifference(mark, lots[0].entryPrice, lots[0].remaining);
      ScaleSplits(mark, lots[0].remaining, Remaining(lots[1..]));
      OpenProfitIsBookedPlusShares(lots[1..], mark);
    }
  }

  /** A candle's close, a tick's last price. */
  function ClosingPrice(record: Record): Positive {
    if record.Candle? then record.close else record.ltp
  }

  lemma MarkedEquity(account: Account, capital: real, record: Record)
    requires BooksAgree(account, capital)
    ensures Marked(account, record).equity
            == capital + TradesTotal(account.trades, Pnl) + TotalOpenProfit(account.ledger.lots, ClosingPrice(record))
  {
    OpenProfitIsBookedPlusShares(account.ledger.lots, ClosingPrice(record));
  }

  /** After every record, equity is capital plus realized profit plus the profit of every open lot. */
  lemma AccountingIdentity(s: Setup, r: nat)
    requires r < |s.records| && s.capital >= 0.0 && Lawful(s.rule)
    ensures var account := AccountAt(s, r);
            EquityAt(s, r).equity == s.capital + TradesTotal(account.trades, Pnl)
                                     + TotalOpenProfit(account.ledger.lots, ClosingPrice(s.records[r]))
  {
    var k := DecidedBefore(s.intents, Timestamp(s.records[r]));
    ThreeBooksAgree(s, k);
    MarkedEquity(AccountAfter(s, k), s.capital, s.records[r]);
  }

  /** Intents that no record follows leave the account alone. */
  lemma {:induction false} IdleTail(s: Setup, k: nat, n: nat)
    requires ValidRecords(s.records)
    requires k <= n <= |s.intents|
    requires forall i :: k <= i < n ==> s.intents[i].decidedAt >= Timestamp(s.records[|s.records| - 1])
    ensures AccountAfter(s, n) == AccountAfter(s, k)
    decreases n
  {
    if k < n {
      IdleTail(s, k, n - 1);
      AnchorPastEnd(s.records, s.intents[n - 1].decidedAt);
    }
  }

  lemma AnchorPastEnd(records: seq<Record>, decidedAt: Time)
    requires ValidRecords(records) && decidedAt >= Timestamp(records[|records| - 1])
    ensures Anchor(records, decidedAt) == |records|
  {
    var last := |records| - 1;
    AnchorIsLeast(records, decidedAt);
    forall i | 0 <= i < last ensures Timestamp(records[i]) < Timestamp(records[last]) {
      assert RecordsInOrder(records, i, last);
    }
  }

  lemma FinalAccount(s: Setup)
    requires ValidRecords(s.records) && Ascending(s.intents)
    ensures AccountAt(s, |s.records| - 1) == AccountAfter(s, |s.intents|)
  {
    var last := Timestamp(s.records[|s.records| - 1]);
    var k := DecidedBefore(s.intents, last);
    DecidedBeforeIsPrefix(s.intents, last);
    forall i | k <= i < |s.intents| ensures s.intents[i].decidedAt >= last {
      assert DecidedInOrder(s.intents, k, i);
    }
    IdleTail(s, k, |s.intents|);
  }

  /** A run that ends flat gains exactly the sum of its trades' profits. */
  lemma FlatRunGainsItsTrades(s: Setup)
    requires ValidRecords(s.records) && Ascending(s.intents) && s.capital >= 0.0 && Lawful(s.rule)
    requires AccountAfter(s, |s.intents|).position == 0.0
    ensures var run := Simulate(s);
            run.equity[|run.equity| - 1].equity - s.capital == TradesTotal(run.trades, Pnl)
  {
    var account := AccountAfter(s, |s.intents|);
    FinalAccount(s);
    ThreeBooksAgree(s, |s.intents|);
    RemainingNonNegative(account.ledger.lots);
    MarkedEquity(account, s.capital, s.records[|s.records| - 1]);
  }

  // -------------------------------------------------------- cost attribution

  function CommissionOf(outcome: Outcome): real {
    if outcome.Filled? then outcome.fill.commission else 0.0
  }

  /** Sum of the commissions of all filled outcomes. */
  function TotalCommission(outcomes: seq<Outcome>): real
    decreases |outcomes|
  {
    if |outcomes| == 0 then 0.0
    else TotalCommission(outcomes[..|outcomes| - 1]) + CommissionOf(outcomes[|outcomes| - 1])
  }

  lemma {:induction false} CommissionOfOutcomes(s: Setup, outcomes: seq<Outcome>)
    requires |outcomes| <= |s.intents|
    requires forall i :: 0 <= i < |outcomes| ==> outcomes[i] == OutcomeOf(s, i)
    ensures TotalCommission(outcomes) == Commission(AccountAfter(s, |outcomes|).fills)
    decreases |outcomes|
  {
    if |outcomes| > 0 {
      var i := |outcomes| - 1;
      CommissionOfOutcomes(s, outcomes[..i]);
      StepCommission(s, AccountAfter(s, i), i);
      assert outcomes[i] == OutcomeOf(s, i);
    }
  }

  lemma StepCommission(s: Setup, account: Account, i: nat)
    requires i < |s.intents|
    ensures var (after, outcome) := Step(s, account, i);
            Commission(after.fills) == Commission(account.fills) + CommissionOf(outcome)
  {
    var a := Anchor(s.records, s.intents[i].decidedAt);
    if a < |s.records| {
      var e := s.rule(Ask(account, s.intents[i], s.records[a], a, i));
      if e.outcome.Filled? { CommissionAppend(account.fills, e.outcome.fill); }
    }
  }

  /** The k-th trade of every run is the round trip of its k-th buy: prices, costs, exits and profit. */
  lemma TradesAreRoundTrips(s: Setup, k: nat)
    requires s.capital >= 0.0 && Lawful(s.rule) && k < |Simulate(s).trades|
    ensures var fills := AccountAfter(s, |s.intents|).fills;
            var buys, sells, trade := OfSide(fills, Buy), OfSide(fills, Sell), Simulate(s).trades[k];
            k < |buys| && trade.sequence == k && RoundTrip(trade, buys[k], Quantity(buys[..k]), sells)
  {
    ThreeBooksAgree(s, |s.intents|);
    TradesInEntryOrder(AccountAfter(s, |s.intents|).fills, k);
  }

  /** Every trade balances and carries its buy's full commission; a flat run conserves commission. */
  lemma CostsAreConserved(s: Setup)
    requires s.capital >= 0.0 && Lawful(s.rule)
    ensures forall t :: t in Simulate(s).trades ==> Balanced(t)
    ensures var buys := OfSide(AccountAfter(s, |s.intents|).fills, Buy);
            |Simulate(s).trades| <= |buys|
            && forall k :: 0 <= k < |Simulate(s).trades| ==> Simulate(s).trades[k].entryCost == buys[k].commission
    ensures AccountAfter(s, |s.intents|).position == 0.0 ==>
              TotalCommission(Simulate(s).outcomes) == TradesTotal(Simulate(s).trades, Costs)
  {
    var n, account := |s.intents|, AccountAfter(s, |s.intents|);
    ThreeBooksAgree(s, n);
    CommissionOfOutcomes(s, Simulate(s).outcomes);
    RemainingNonNegative(account.ledger.lots);
    var trades := Simulate(s).trades;
    if |trades| > 0 { TradesAreRoundTrips(s, |trades| - 1); }
    forall k | 0 <= k < |trades|
      ensures k < |OfSide(account.fills, Buy)| && trades[k].entryCost == OfSide(account.fills, Buy)[k].commission
    {
      TradesAreRoundTrips(s, k);
    }
  }

  // ------------------------------------------------------------ no look-ahead

  /** Two runs that differ only in the records from `n` on. */
  ghost predicate SamePast(s: Setup, t: Setup, n: nat) {
    && n <= |s.records| && n <= |t.records| && s.records[..n] == t.records[..n]
    && s.intents == t.intents && s.rule == t.rule && s.capital == t.capital
  }

  lemma {:induction false} AnchorDependsOnThePast(a: seq<Record>, b: seq<Record>, decidedAt: Time, from: nat, n: nat)
    requires from <= n <= |a| && n <= |b| && a[..n] == b[..n]
    ensures AnchorFrom(a, decidedAt, from) < n || AnchorFrom(b, decidedAt, from) < n ==>
              AnchorFrom(a, decidedAt, from) == AnchorFrom(b, decidedAt, from)
    decreases n - from
  {
    if from < n {
      assert a[from] == a[..n][from] == b[from];
      if Timestamp(a[from]) <= decidedAt { AnchorDependsOnThePast(a, b, decidedAt, from + 1, n); }
    }
  }

  lemma StepDependsOnThePast(s: Setup, t: Setup, n: nat, account: Account, i: nat)
    requires SamePast(s, t, n) && i < |s.intents| && Anchor(s.records, s.intents[i].decidedAt) < n
    ensures Step(s, account, i) == Step(t, account, i)
  {
    var a := Anchor(s.records, s.intents[i].decidedAt);
    AnchorDependsOnThePast(s.records, t.records, s.intents[i].decidedAt, 0, n);
    assert s.records[a] == s.records[..n][a] == t.records[a];
  }

  lemma {:induction false} AccountDependsOnThePast(s: Setup, t: Setup, n: nat, k: nat)
    requires SamePast(s, t, n) && k <= |s.intents|
    requires forall i :: 0 <= i < k ==> Anchor(s.records, s.intents[i].decidedAt) < n
    ensures AccountAfter(s, k) == AccountAfter(t, k)
  {
    if k > 0 {
      AccountDependsOnThePast(s, t, n, k - 1);
      StepDependsOnThePast(s, t, n, AccountAfter(s, k - 1), k - 1);
    }
  }

  lemma AnchorIsMonotone(records: seq<Record>, t1: Time, t2: Time)
    requires t1 <= t2
    ensures Anchor(records, t1) <= Anchor(records, t2)
  {
    AnchorIsLeast(records, t1);
    AnchorIsLeast(records, t2);
  }

  /** No look-ahead: outcomes of intents anchored before record `n`, and the first `n` equity points, are fixed. */
  lemma NoLookAhead(s: Setup, t: Setup, n: nat)
    requires SamePast(s, t, n) && Ascending(s.intents)
    ensures forall i :: 0 <= i < |s.intents| && Anchor(s.records, s.intents[i].decidedAt) < n ==>
              Simulate(s).outcomes[i] == Simulate(t).outcomes[i]
    ensures Simulate(s).equity[..n] == Simulate(t).equity[..n]
  {
    forall i | 0 <= i < |s.intents| && Anchor(s.records, s.intents[i].decidedAt) < n
      ensures OutcomeOf(s, i) == OutcomeOf(t, i)
    {
      OutcomeDependsOnThePast(s, t, n, i);
    }
    forall r | 0 <= r < n ensures EquityAt(s, r) == EquityAt(t, r) {
      EquityDependsOnThePast(s, t, n, r);
    }
  }

  lemma OutcomeDependsOnThePast(s: Setup, t: Setup, n: nat, i: nat)
    requires SamePast(s, t, n) && Ascending(s.intents) && i < |s.intents|
    requires Anchor(s.records, s.intents[i].decidedAt) < n
    ensures OutcomeOf(s, i) == OutcomeOf(t, i)
  {
    forall j | 0 <= j < i ensures Anchor(s.records, s.intents[j].decidedAt) < n {
      assert DecidedInOrder(s.intents, j, i);
      AnchorIsMonotone(s.records, s.intents[j].decidedAt, s.intents[i].decidedAt);
    }
    AccountDependsOnThePast(s, t, n, i);
    StepDependsOnThePast(s, t, n, AccountAfter(s, i), i);
  }

  lemma EquityDependsOnThePast(s: Setup, t: Setup, n: nat, r: nat)
    requires SamePast(s, t, n) && r < n
    ensures EquityAt(s, r) == EquityAt(t, r)
  {
    assert s.records[r] == s.records[..n][r] == t.records[r];
    var k := DecidedBefore(s.intents, Timestamp(s.records[r]));
    DecidedBeforeIsPrefix(s.intents, Timestamp(s.records[r]));
    forall i | 0 <= i < k ensures Anchor(s.records, s.intents[i].decidedAt) < n {
      AnchorIsLeast(s.records, s.intents[i].decidedAt);
    }
    AccountDependsOnThePast(s, t, n, k);
  }

  /** Appending records can only change outcomes that were "no record after decision". */
  lemma AppendingRecords(s: Setup, more: seq<Record>, i: nat)
    requires Ascending(s.intents) && i < |s.intents| && Lawful(s.rule)
    requires Simulate(s).outcomes[i] != Unfilled(i, NoRecordAfterDecision)
    ensures Simulate(s.(records := s.records + more)).outcomes[i] == Simulate(s).outcomes[i]
  {
    var n, t := |s.records|, s.(records := s.records + more);
    assert s.records[..n] == s.records == t.records[..n];
    assert Anchor(s.records, s.intents[i].decidedAt) < n;
    OutcomeDependsOnThePast(s, t, n, i);
  }
}
