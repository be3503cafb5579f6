/**
 The single-instrument backtest in its simple form: a fold over the intents in
 order, each evaluated at the first record strictly after its decision.
 */
module Backtest {
  import opened Arithmetic
  import opened Fills
  import opened Ledger
  import opened FifoMatching

  /** Explicit inputs of one run; `rule` decides the fills. */
  datatype Setup = Setup(records: seq<Record>, intents: seq<Intent>, rule: Rule, capital: real)

  datatype Account = Account(cash: real, position: NonNegative, fills: seq<Fill>, ledger: Ledger, trades: seq<Trade>)

  datatype EquityPoint = EquityPoint(timestamp: Time, equity: real)

  datatype BacktestRun = BacktestRun(outcomes: seq<Outcome>, trades: seq<Trade>, equity: seq<EquityPoint>)

  predicate DecidedInOrder(intents: seq<Intent>, i: int, j: int) {
    0 <= i < j < |intents| ==> intents[i].decidedAt < intents[j].decidedAt
  }

  ghost predicate Ascending(intents: seq<Intent>) {
    forall i, j :: DecidedInOrder(intents, i, j)
  }

  // -------------------------------------------------------------- anchoring

  function AnchorFrom(records: seq<Record>, decidedAt: Time, from: nat): (a: nat)
    requires from <= |records|
    ensures from <= a <= |records|
    decreases |records| - from
  {
    if from < |records| && Timestamp(records[from]) <= decidedAt then AnchorFrom(records, decidedAt, from + 1) else from
  }

  function Anchor(records: seq<Record>, decidedAt: Time): (a: nat)
    ensures a <= |records|
  {
    AnchorFrom(records, decidedAt, 0)
  }

  lemma {:induction false} AnchorFromIsLeast(records: seq<Record>, decidedAt: Time, from: nat)
    requires from <= |records|
    ensures var a := AnchorFrom(records, decidedAt, from);
            && (a < |records| ==> Timestamp(records[a]) > decidedAt)
            && forall i :: from <= i < a ==> Timestamp(records[i]) <= decidedAt
    decreases |records| - from
  {
    if from < |records| && Timestamp(records[from]) <= decidedAt { AnchorFromIsLeast(records, decidedAt, from + 1); }
  }

  /** The anchor is the first record strictly after the decision, or past the end if there is none. */
  lemma AnchorIsLeast(records: seq<Record>, decidedAt: Time)
    ensures var a := Anchor(records, decidedAt);
            && (a < |records| ==> Timestamp(records[a]) > decidedAt)
            && forall i :: 0 <= i < a ==> Timestamp(records[i]) <= decidedAt
  {
    AnchorFromIsLeast(records, decidedAt, 0);
  }

  /** How many leading intents were decided strictly before `t`. */
  function DecidedBefore(intents: seq<Intent>, t: Time): (n: nat)
    ensures n <= |intents|
  {
    if |intents| > 0 && intents[0].decidedAt < t then 1 + DecidedBefore(intents[1..], t) else 0
  }

  lemma {:induction false} DecidedBeforeIsPrefix(intents: seq<Intent>, t: Time)
    ensures var n := DecidedBefore(intents, t);
            && (n < |intents| ==> intents[n].decidedAt >= t)
            && forall i :: 0 <= i < n ==> intents[i].decidedAt < t
  {
    if |intents| > 0 && intents[0].decidedAt < t { DecidedBeforeIsPrefix(intents[1..], t); }
  }

  // ---------------------------------------------------------------- the fold

  function Post(account: Account, e: Evaluation): Account {
    match e.outcome
    case Unfilled(_, _) => account
    case Filled(_, fill) =>
      if fill.side.Buy? then
        Account(e.cash, e.position, account.fills + [fill], Opened(account.ledger, fill), account.trades)
      else
        var (ledger, completed) := Closed(account.ledger, fill);
        Account(e.cash, e.position, account.fills + [fill], ledger, account.trades + completed)
  }

  /** Intent `i` put to record `r` on behalf of the account. */
  function Ask(account: Account, intent: Intent, record: Record, r: nat, i: nat): Query {
    Query(intent, record, r, account.cash, account.position, |account.fills|, i)
  }

  function Step(s: Setup, account: Account, i: nat): (Account, Outcome)
    requires i < |s.intents|
  {
    var a := Anchor(s.records, s.intents[i].decidedAt);
    if a == |s.records| then (account, Unfilled(i, NoRecordAfterDecision))
    else
      var e := s.rule(Ask(account, s.intents[i], s.records[a], a, i));
      (Post(account, e), e.outcome)
  }

  function InitialAccount(capital: real): Account {
    Account(capital, 0.0, [], EMPTY_LEDGER, [])
  }

  /** The account after the first `k` intents. */
  function AccountAfter(s: Setup, k: nat): Account
    requires k <= |s.intents|
  {
    if k == 0 then InitialAccount(s.capital) else Step(s, AccountAfter(s, k - 1), k - 1).0
  }

  function OutcomeOf(s: Setup, i: nat): Outcome
    requires i < |s.intents|
  {
    Step(s, AccountAfter(s, i), i).1
  }

  /** The account that marks record `r`: every intent decided strictly before it has been processed. */
  function AccountAt(s: Setup, r: nat): Account
    requires r < |s.records|
  {
    AccountAfter(s, DecidedBefore(s.intents, Timestamp(s.records[r])))
  }

  function Marked(account: Account, record: Record): EquityPoint {
    EquityPoint(Timestamp(record), account.cash + account.position * MarkPrice(record))
  }

  function EquityAt(s: Setup, r: nat): EquityPoint
    requires r < |s.records|
  {
    Marked(AccountAt(s, r), s.records[r])
  }

  function Simulate(s: Setup): BacktestRun {
    BacktestRun(seq(|s.intents|, i requires 0 <= i < |s.intents| => OutcomeOf(s, i)),
                AccountAfter(s, |s.intents|).trades,
                seq(|s.records|, r requires 0 <= r < |s.records| => EquityAt(s, r)))
  }

  // -------------------------------------------------- the three books agree

  function Commission(fills: seq<Fill>): real
    decreases |fills|
  {
    if |fills| == 0 then 0.0 else Commission(fills[..|fills| - 1]) + fills[|fills| - 1].commission
  }

  /** Cash, position and lots describe the same history of fills. */
  ghost predicate BooksAgree(account: Account, capital: real) {
    && account.cash >= 0.0
    && AllOpen(account.ledger.lots)
    && account.position == Remaining(account.ledger.lots)
    && account.cash == capital + LotsTotal(account.ledger.lots, Booked) + TradesTotal(account.trades, Pnl)
    && Commission(account.fills) == LotsTotal(account.ledger.lots, Charged) + TradesTotal(account.trades, Costs)
    && (forall t :: t in account.trades ==> Balanced(t))
  }

  /** The ledger is the FIFO matching of the fills so far. */
  ghost predicate HistoryAgrees(account: Account) {
    && (account.ledger, account.trades) == LedgerAfter(account.fills)
    && NeverOversold(account.fills)
    && account.position == Quantity(OfSide(account.fills, Buy)) - Quantity(OfSide(account.fills, Sell))
    && (forall n :: 0 <= n < |account.fills| ==> account.fills[n].sequence == n)
  }

  /** `e` answers a query of `account`. */
  ghost predicate Answers(account: Account, e: Evaluation) {
    exists intent, record, r, i :: Proper(Ask(account, intent, record, r, i), e)
  }

  lemma PostKeepsBooks(account: Account, capital: real, e: Evaluation)
    requires BooksAgree(account, capital) && Answers(account, e)
    ensures BooksAgree(Post(account, e), capital)
  {
    if e.outcome.Filled? {
      CommissionAppend(account.fills, e.outcome.fill);
      if e.outcome.fill.side.Buy? {
        OpenBooks(account.ledger, e.outcome.fill);
      } else {
        SellKeepsBooks(account, capital, e);
      }
    }
  }

  lemma SellKeepsBooks(account: Account, capital: real, e: Evaluation)
    requires BooksAgree(account, capital) && Answers(account, e)
    requires e.outcome.Filled? && e.outcome.fill.side.Sell?
    ensures BooksAgree(Post(account, e), capital)
  {
    var fill := e.outcome.fill;
    CommissionAppend(account.fills, fill);
    CloseBooks(account.ledger, fill);
    var (ledger, completed) := Closed(account.ledger, fill);
    TradesTotalAppend(account.trades, completed, Pnl);
    TradesTotalAppend(account.trades, completed, Costs);
  }

  lemma CommissionAppend(fills: seq<Fill>, fill: Fill)
    ensures Commission(fills + [fill]) == Commission(fills) + fill.commission
  {
    assert (fills + [fill])[..|fills|] == fills;
  }

  lemma PostKeepsHistory(account: Account, e: Evaluation)
    requires HistoryAgrees(account) && Answers(account, e)
    ensures HistoryAgrees(Post(account, e))
  {
    if e.outcome.Filled? {
      var fill := e.outcome.fill;
      LedgerAppend(account, e);
      QuantityOfSides(account.fills, fill);
      assert Covered(account.fills + [fill]);
      NeverOversoldAppend(account.fills, fill);
    }
  }

  lemma LedgerAppend(account: Account, e: Evaluation)
    requires (account.ledger, account.trades) == LedgerAfter(account.fills) && e.outcome.Filled?
    ensures var after := Post(account, e);
            after.fills == account.fills + [e.outcome.fill] && (after.ledger, after.trades) == LedgerAfter(after.fills)
  {
    assert (account.fills + [e.outcome.fill])[..|account.fills|] == account.fills;
  }

  lemma NeverOversoldAppend(fills: seq<Fill>, fill: Fill)
    requires NeverOversold(fills) && Covered(fills + [fill])
    ensures NeverOversold(fills + [fill])
  {
    var more := fills + [fill];
    forall n | 0 <= n <= |more| ensures Covered(more[..n]) {
      if n < |more| {
        assert more[..n] == fills[..n];
      } else {
        assert more[..n] == more;
      }
    }
  }

  lemma QuantityOfSides(fills: seq<Fill>, fill: Fill)
    ensures var more := fills + [fill];
            && Quantity(OfSide(more, Buy))
               == Quantity(OfSide(fills, Buy)) + (if fill.side.Buy? then fill.quantity as real else 0.0)
            && Quantity(OfSide(more, Sell))
               == Quantity(OfSide(fills, Sell)) + (if fill.side.Sell? then fill.quantity as real else 0.0)
  {
    assert (fills + [fill])[..|fills|] == fills;
    var side := fill.side;
    assert (OfSide(fills, side) + [fill])[..|OfSide(fills, side)|] == OfSide(fills, side);
  }

  ghost predicate Agrees(account: Account, capital: real) {
    BooksAgree(account, capital) && HistoryAgrees(account)
  }

  lemma PostKeepsAgreement(account: Account, capital: real, e: Evaluation)
    requires Agrees(account, capital) && Answers(account, e)
    ensures Agrees(Post(account, e), capital)
  {
    PostKeepsBooks(account, capital, e);
    PostKeepsHistory(account, e);
  }

  lemma InitiallyAgrees(capital: real)
    requires capital >= 0.0
    ensures Agrees(InitialAccount(capital), capital)
  {
    assert NeverOversold([]) by { assert Covered([]); }
  }

  lemma StepKeepsAgreement(s: Setup, account: Account, i: nat)
    requires i < |s.intents| && Agrees(account, s.capital) && Lawful(s.rule)
    ensures Agrees(Step(s, account, i).0, s.capital)
  {
    var a := Anchor(s.records, s.intents[i].decidedAt);
    if a < |s.records| {
      var q := Ask(account, s.intents[i], s.records[a], a, i);
      assert Proper(q, s.rule(q));
      PostKeepsAgreement(account, s.capital, s.rule(q));
    }
  }

  /** At every step of every run, cash, position and lots agree and cash is never negative. */
  lemma {:induction false} ThreeBooksAgree(s: Setup, k: nat)
    requires k <= |s.intents| && s.capital >= 0.0 && Lawful(s.rule)
    ensures Agrees(AccountAfter(s, k), s.capital)
  {
    if k == 0 {
      InitiallyAgrees(s.capital);
    } else {
      ThreeBooksAgree(s, k - 1);
      StepKeepsAgreement(s, AccountAfter(s, k - 1), k - 1);
    }
  }
}
