/**
 Market records, order intents, costs and the fill resolver of the backtest engine.

 Amounts are exact reals. The program works with 28-digit decimals, so every
 accounting equality proved about this model is a statement about exact arithmetic.
 */
module Fills {
  import opened Wrappers
  import opened Arithmetic

  type Time = int

  // ---------------------------------------------------------------- records

  /**
   A candle carries interval aggregates; a tick a last price and optional quote legs.
   Record construction rejects every price that is not positive.
   */
  datatype Record =
    | Candle(start: Time, open: Positive, close: Positive)
    | Tick(at: Time, ltp: Positive, bid: Option<Positive>, ask: Option<Positive>)

  function Timestamp(record: Record): Time {
    match record
    case Candle(start, _, _) => start
    case Tick(at, _, _, _) => at
  }

  /** Price at which a record marks the equity curve. */
  function MarkPrice(record: Record): Positive {
    match record
    case Candle(_, _, close) => close
    case Tick(_, ltp, _, _) => ltp
  }

  predicate RecordsInOrder(records: seq<Record>, i: int, j: int) {
    0 <= i < j < |records| ==> Timestamp(records[i]) < Timestamp(records[j])
  }

  /** A backtest input is non-empty and its timestamps strictly ascend. */
  ghost predicate ValidRecords(records: seq<Record>) {
    |records| > 0 && forall i, j :: RecordsInOrder(records, i, j)
  }

  // ---------------------------------------------------------------- intents

  datatype Side = Buy | Sell

  datatype Pricing = MarketOrder | LimitOrder(limit: Positive)

  /** A decided order; construction rejects quantities and limits that are not positive. */
  datatype Intent = Intent(side: Side, pricing: Pricing, quantity: Positive, decidedAt: Time)

  // ------------------------------------------------------------------ costs

  type BasisPoints = b: real | 0.0 <= b < 10000.0

  datatype CostModel = CostModel(commissionPerFill: NonNegative, slippageBps: BasisPoints)

  /** Slippage is adverse on both sides and never turns a price non-positive. */
  function ApplySlippage(anchor: Positive, side: Side, bps: BasisPoints): (price: Positive)
    ensures side.Buy? ==> price >= anchor
    ensures side.Sell? ==> price <= anchor
    ensures price == anchor <==> bps == 0.0
  {
    if bps == 0.0 then anchor
    else if side.Buy? then
      ScaleUp(anchor, 1.0 + bps / 10000.0);
      Scale(anchor, 1.0 + bps / 10000.0)
    else
      ScaleDown(anchor, 1.0 - bps / 10000.0);
      Scale(anchor, 1.0 - bps / 10000.0)
  }

  // ------------------------------------------------------------------ fills

  datatype Reason =
    | NoRecordAfterDecision
    | InsufficientCash
    | InsufficientPosition
    | LimitNotExecutable
    | NoExecutableAsk
    | NoExecutableBid

  datatype Fill = Fill(
    sequence: nat, intentIndex: nat, side: Side, quantity: Positive,
    anchorPrice: Positive, slippagePerShare: real, price: Positive, commission: NonNegative,
    grossValue: real, cashFlow: real, recordIndex: nat, filledAt: Time)

  /** One outcome per intent; a filled one carries the fill, an unfilled one the reason. */
  datatype Outcome =
    | Filled(intentIndex: nat, fill: Fill)
    | Unfilled(intentIndex: nat, reason: Reason)

  /** One intent put to one record, with the account it would trade against. */
  datatype Query = Query(
    intent: Intent, record: Record, recordIndex: nat, cash: real, position: NonNegative, sequence: nat, intentIndex: nat)

  datatype Evaluation = Evaluation(outcome: Outcome, cash: real, position: NonNegative)

  /** A rule decides every query; the engines differ only in the rule they apply. */
  type Rule = Query -> Evaluation

  /** The quoted price an intent executes against, or why there is none. */
  function Executable(intent: Intent, record: Record): (anchor: Result<Positive, Reason>)
    ensures anchor.Ok? && intent.pricing.LimitOrder? && intent.side.Buy? ==> anchor.value <= intent.pricing.limit
    ensures anchor.Ok? && intent.pricing.LimitOrder? && intent.side.Sell? ==> anchor.value >= intent.pricing.limit
    ensures intent.pricing.MarketOrder? ==> anchor.Ok?
  {
    match record
    case Candle(_, open, _) =>
      if intent.pricing.LimitOrder?
         && ((intent.side.Buy? && intent.pricing.limit < open) || (intent.side.Sell? && intent.pricing.limit > open))
      then Err(LimitNotExecutable)
      else Ok(open)
    case Tick(_, ltp, bid, ask) =>
      match intent.pricing
      case LimitOrder(limit) =>
        if intent.side.Buy? then
          if ask.None? then Err(NoExecutableAsk)
          else if limit < ask.value then Err(LimitNotExecutable)
          else Ok(ask.value)
        else
          if bid.None? then Err(NoExecutableBid)
          else if limit > bid.value then Err(LimitNotExecutable)
          else Ok(bid.value)
      case MarketOrder =>
        if intent.side.Buy?
        then Ok(if ask.Some? then ask.value else ltp)
        else Ok(if bid.Some? then bid.value else ltp)
  }

  function FillPrice(intent: Intent, anchor: Positive, costs: CostModel): Positive {
    if intent.pricing.MarketOrder? then ApplySlippage(anchor, intent.side, costs.slippageBps) else anchor
  }

  function Abs(x: real): (r: real)
  {
    if x < 0.0 then -x else x
  }

  /** Evaluates one intent against its anchor record: executability, then position, then cash. */
  function EvaluateFill(q: Query, costs: CostModel): Evaluation {
    var intent, anchor := q.intent, Executable(q.intent, q.record);
    if anchor.Err? then Evaluation(Unfilled(q.intentIndex, anchor.error), q.cash, q.position)
    else
      var price := FillPrice(intent, anchor.value, costs);
      var commission := costs.commissionPerFill;
      var gross := Scale(price, intent.quantity);
      if intent.side.Sell? && q.position < intent.quantity then
        Evaluation(Unfilled(q.intentIndex, InsufficientPosition), q.cash, q.position)
      else
        var cashFlow := if intent.side.Sell? then gross - commission else 0.0 - (gross + commission);
        if q.cash + cashFlow < 0.0 then Evaluation(Unfilled(q.intentIndex, InsufficientCash), q.cash, q.position)
        else
          var fill := Fill(q.sequence, q.intentIndex, intent.side, intent.quantity, anchor.value,
                           Abs(price - anchor.value), price, commission, gross, cashFlow,
                           q.recordIndex, Timestamp(q.record));
          Evaluation(
            Filled(q.intentIndex, fill),
            q.cash + cashFlow,
            if intent.side.Sell? then q.position - intent.quantity else q.position + intent.quantity)
  }

  function FillRule(costs: CostModel): Rule {
    q => EvaluateFill(q, costs)
  }

  // ------------------------------------------------------------- lawful rules

  /** A fill exchanges shares for cash at its price and pays its commission; a refusal changes nothing. */
  ghost predicate Proper(q: Query, e: Evaluation) {
    && e.outcome.intentIndex == q.intentIndex
    && (e.outcome.Unfilled? ==>
          (e.cash, e.position) == (q.cash, q.position) && e.outcome.reason != NoRecordAfterDecision)
    && (e.outcome.Filled? ==>
          var fill := e.outcome.fill;
          var gross := Scale(fill.price, fill.quantity);
          && fill.sequence == q.sequence && fill.side == q.intent.side && fill.quantity == q.intent.quantity
          && e.cash >= 0.0
          && (fill.side.Buy? ==>
                e.cash == q.cash - gross - fill.commission && e.position == q.position + fill.quantity)
          && (fill.side.Sell? ==>
                e.cash == q.cash + gross - fill.commission && e.position == q.position - fill.quantity))
  }

  ghost predicate Lawful(rule: Rule) {
    forall q :: Proper(q, rule(q))
  }

  lemma FillRuleIsLawful(costs: CostModel)
    ensures Lawful(FillRule(costs))
  {
    forall q ensures Proper(q, FillRule(costs)(q)) {}
  }

  // -------------------------------------------------- when and at what price

  /** The price quoted to one side: a candle's open, a tick's own quote leg. */
  function Quote(record: Record, side: Side): Option<Positive> {
    match record
    case Candle(_, open, _) => Some(open)
    case Tick(_, _, bid, ask) => if side.Buy? then ask else bid
  }

  /** Market orders fall back to the last price; limit orders need a quote at the limit or better. */
  predicate Reaches(intent: Intent, record: Record) {
    intent.pricing.LimitOrder? ==>
      var quote := Quote(record, intent.side);
      quote.Some? && if intent.side.Buy? then quote.value <= intent.pricing.limit else quote.value >= intent.pricing.limit
  }

  /** The price a market order starts from: a candle's open, its own side of a tick's quote, or else the last price. */
  function StartingPrice(record: Record, side: Side): Positive {
    match record
    case Candle(_, open, _) => open
    case Tick(_, ltp, bid, ask) => if side.Buy? && ask.Some? then ask.value else if side.Sell? && bid.Some? then bid.value else ltp
  }

  function TradePrice(intent: Intent, record: Record, costs: CostModel): Positive {
    FillPrice(intent, StartingPrice(record, intent.side), costs)
  }

  /** The account can pay for the buy, or holds the shares to sell and can pay the commission. */
  predicate Affords(q: Query, price: Positive, commission: NonNegative) {
    var gross := Scale(price, q.intent.quantity);
    if q.intent.side.Buy? then gross + commission <= q.cash
    else q.intent.quantity <= q.position && commission <= q.cash + gross
  }

  /** An intent fills if and only if its price is reached and the account affords it, and then at that price. */
  lemma FilledExactlyWhen(q: Query, costs: CostModel)
    ensures var price, outcome := TradePrice(q.intent, q.record, costs), EvaluateFill(q, costs).outcome;
            && (outcome.Filled? <==> Reaches(q.intent, q.record) && Affords(q, price, costs.commissionPerFill))
            && (outcome.Filled? ==>
                  && outcome.fill.price == price && outcome.fill.commission == costs.commissionPerFill
                  && outcome.fill.recordIndex == q.recordIndex && outcome.fill.filledAt == Timestamp(q.record))
  {}

  /** A refusal names the first obstacle: no quote, a limit out of reach, missing shares, missing cash. */
  lemma RefusalNamesTheObstacle(q: Query, costs: CostModel)
    requires EvaluateFill(q, costs).outcome.Unfilled?
    ensures EvaluateFill(q, costs).outcome.reason ==
            if !Reaches(q.intent, q.record) then
              if Quote(q.record, q.intent.side).Some? then LimitNotExecutable
              else if q.intent.side.Buy? then NoExecutableAsk else NoExecutableBid
            else if q.intent.side.Sell? && q.position < q.intent.quantity then InsufficientPosition
            else InsufficientCash
  {}

  /** A limit order never trades through its limit; a market order never trades better than quoted. */
  lemma PricesAreFair(q: Query, costs: CostModel)
    requires EvaluateFill(q, costs).outcome.Filled?
    ensures var fill, intent := EvaluateFill(q, costs).outcome.fill, q.intent;
            && (intent.pricing.LimitOrder? && intent.side.Buy? ==> fill.price <= intent.pricing.limit)
            && (intent.pricing.LimitOrder? && intent.side.Sell? ==> fill.price >= intent.pricing.limit)
            && (intent.side.Buy? ==> fill.price >= fill.anchorPrice)
            && (intent.side.Sell? ==> fill.price <= fill.anchorPrice)
  {}

  lemma SlippageIsProportional(anchor: Positive, side: Side, bps: BasisPoints)
    ensures ApplySlippage(anchor, side, bps) == if side.Buy? then anchor + anchor * bps / 10000.0 else anchor - anchor * bps / 10000.0
  {
    var part := bps / 10000.0;
    assert anchor * part == anchor * bps / 10000.0;
    if side.Buy? { Distributes(anchor, part); } else { Distributes(anchor, -part); }
  }

  lemma Distributes(x: real, part: real)
    ensures Scale(x, 1.0 + part) == x + x * part
  {}

  /**
   What a fill says, in numbers: a market order trades at the quoted price plus or minus its basis points, a
   limit order at the quoted price; gross value and cash flow follow.
   */
  lemma FillIsPricedAsQuoted(q: Query, costs: CostModel)
    requires EvaluateFill(q, costs).outcome.Filled?
    ensures var fill, intent := EvaluateFill(q, costs).outcome.fill, q.intent;
            && fill.anchorPrice == StartingPrice(q.record, intent.side)
            && fill.slippagePerShare * 10000.0 == (if intent.pricing.MarketOrder? then fill.anchorPrice * costs.slippageBps else 0.0)
            && fill.price == (if intent.side.Buy? then fill.anchorPrice + fill.slippagePerShare else fill.anchorPrice - fill.slippagePerShare)
            && fill.grossValue == fill.price * intent.quantity
            && fill.cashFlow == (if intent.side.Buy? then -fill.grossValue else fill.grossValue) - costs.commissionPerFill
            && EvaluateFill(q, costs).cash == q.cash + fill.cashFlow
            && fill.intentIndex == q.intentIndex && fill.sequence == q.sequence
  {
    SlippageIsProportional(StartingPrice(q.record, q.intent.side), q.intent.side, costs.slippageBps);
    var slip := StartingPrice(q.record, q.intent.side) * costs.slippageBps / 10000.0;
    assert slip * 10000.0 == StartingPrice(q.record, q.intent.side) * costs.slippageBps;
    assert slip >= 0.0;
  }
}
