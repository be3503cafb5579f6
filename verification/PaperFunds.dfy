/** The cash ledger of a paper account and the deterministic cost model. */
module PaperFunds {
  import opened Wrappers
  import opened Arithmetic
  import opened PaperBook

  // -------------------------------------------------------------------- funds

  /** Construction rejects negative cash. */
  datatype Funds = Funds(available: NonNegative, reserved: NonNegative)

  datatype FundsError = AmountNotPositive | InsufficientAvailable | ExceedsReserved

  function Total(funds: Funds): real {
    funds.available + funds.reserved
  }

  /** Available cash is set aside. */
  function Reserve(funds: Funds, amount: real): (r: Result<Funds, FundsError>)
    ensures r.Ok? <==> 0.0 < amount <= funds.available
    ensures r.Ok? ==> Total(r.value) == Total(funds)
  {
    if amount <= 0.0 then Err(AmountNotPositive)
    else if amount > funds.available then Err(InsufficientAvailable)
    else Ok(Funds(funds.available - amount, funds.reserved + amount))
  }

  /** Reserved cash is given back. */
  function Release(funds: Funds, amount: real): (r: Result<Funds, FundsError>)
    ensures r.Ok? <==> 0.0 < amount <= funds.reserved
    ensures r.Ok? ==> Total(r.value) == Total(funds)
  {
    if amount <= 0.0 then Err(AmountNotPositive)
    else if amount > funds.reserved then Err(ExceedsReserved)
    else Ok(Funds(funds.available + amount, funds.reserved - amount))
  }

  /** Reserved cash leaves the account. */
  function SettleBuy(funds: Funds, amount: real): (r: Result<Funds, FundsError>)
    ensures r.Ok? <==> 0.0 < amount <= funds.reserved
    ensures r.Ok? ==> Total(r.value) == Total(funds) - amount
  {
    if amount <= 0.0 then Err(AmountNotPositive)
    else if amount > funds.reserved then Err(ExceedsReserved)
    else Ok(Funds(funds.available, funds.reserved - amount))
  }

  function CreditSell(funds: Funds, amount: real): (r: Result<Funds, FundsError>)
    ensures r.Ok? <==> amount > 0.0
    ensures r.Ok? ==> Total(r.value) == Total(funds) + amount
  {
    if amount <= 0.0 then Err(AmountNotPositive) else Ok(Funds(funds.available + amount, funds.reserved))
  }

  /** Releasing what was reserved gives the ledger back. */
  lemma ReleaseUndoesReserve(funds: Funds, amount: real)
    requires Reserve(funds, amount).Ok?
    ensures Release(Reserve(funds, amount).value, amount) == Ok(funds)
  {}

  // -------------------------------------------------------------------- costs

  datatype Slippage = NoSlippage | FixedBps(bps: NonNegative)
  datatype Commission = NoCommission | FixedPerTrade(fee: NonNegative)
  datatype Costs = Costs(slippage: Slippage, commission: Commission)

  const PRICE_QUANTUM := 0.0001
  const MONEY_QUANTUM := 0.01

  /** The nearest integer, the even one of two equally near. */
  function RoundHalfEven(x: real): (n: int)
    ensures -0.5 <= n as real - x <= 0.5
    ensures n as real - x == 0.5 || x - n as real == 0.5 ==> n % 2 == 0
  {
    var low := x.Floor;
    var rest := x - low as real;
    if rest < 0.5 then low
    else if rest > 0.5 then low + 1
    else if low % 2 == 0 then low else low + 1
  }

  function Quantize(x: real, quantum: Positive): real {
    RoundHalfEven(x / quantum) as real * quantum
  }

  function ApplySlippage(price: Positive, side: Side, slippage: Slippage): real {
    match slippage
    case NoSlippage => price
    case FixedBps(bps) =>
      Quantize(Scale(price, if side.Sell? then 1.0 - bps / 10000.0 else 1.0 + bps / 10000.0), PRICE_QUANTUM)
  }

  function CommissionAmount(commission: Commission): real {
    match commission
    case NoCommission => 0.0
    case FixedPerTrade(fee) => Quantize(fee, MONEY_QUANTUM)
  }

  lemma RoundKeepsSign(x: real)
    requires x >= 0.0
    ensures RoundHalfEven(x) >= 0
    ensures RoundHalfEven(x) == 0 <==> x <= 0.5
  {}

  lemma QuantizeKeepsSign(x: real, quantum: Positive)
    requires x >= 0.0
    ensures Quantize(x, quantum) >= 0.0
    ensures Quantize(x, quantum) == 0.0 <==> x <= 0.5 * quantum
  {
    var units := x / quantum;
    assert units * quantum == x;
    RoundKeepsSign(units);
    var n := RoundHalfEven(units) as real;
    assert n >= 0.0 ==> n * quantum >= 0.0;
    assert n > 0.0 ==> n * quantum > 0.0;
    if units <= 0.5 { HalfUnit(units, quantum); } else { HalfUnit(0.5, quantum); OverHalf(units, quantum); }
  }

  lemma HalfUnit(units: real, quantum: Positive)
    requires units <= 0.5
    ensures units * quantum <= 0.5 * quantum
  {
    assert (0.5 - units) * quantum >= 0.0;
  }

  lemma OverHalf(units: real, quantum: Positive)
    requires units > 0.5
    ensures units * quantum > 0.5 * quantum
  {
    assert (units - 0.5) * quantum > 0.0;
  }

  lemma CommissionIsNonNegative(commission: Commission)
    ensures CommissionAmount(commission) >= 0.0
  {
    if commission.FixedPerTrade? { QuantizeKeepsSign(commission.fee, MONEY_QUANTUM); }
  }

  /** A slipped buy price is never negative, and vanishes exactly when it is at most half a price quantum. */
  lemma SlippedBuyPrice(price: Positive, slippage: Slippage)
    ensures ApplySlippage(price, Buy, slippage) >= 0.0
    ensures ApplySlippage(price, Buy, slippage) == 0.0
            <==> slippage.FixedBps? && Scale(price, 1.0 + slippage.bps / 10000.0) <= 0.5 * PRICE_QUANTUM
  {
    if slippage.FixedBps? {
      ScalePositive(price, 1.0 + slippage.bps / 10000.0);
      QuantizeKeepsSign(Scale(price, 1.0 + slippage.bps / 10000.0), PRICE_QUANTUM);
    }
  }

  // ------------------------------------------------------- what is charged

  ghost predicate Units(x: real, quantum: real, n: int) {
    x == n as real * quantum
  }

  /** `x` is a whole number of quanta, and none is nearer to `exact`. */
  ghost predicate Nearest(x: real, exact: real, quantum: real) {
    (exists n :: Units(x, quantum, n)) && exact - 0.5 * quantum <= x <= exact + 0.5 * quantum
  }

  lemma QuantizeIsNearest(x: real, quantum: Positive)
    ensures Nearest(Quantize(x, quantum), x, quantum)
  {
    var units, rounded := x / quantum, Quantize(x, quantum);
    var n := RoundHalfEven(units);
    assert Units(rounded, quantum, n);
    assert Scale(quantum, units) == x;
    assert Scale(quantum, n as real) == rounded;
    Combined(n as real, units, quantum, x, rounded);
  }

  lemma Combined(n: real, units: real, quantum: Positive, x: real, rounded: real)
    requires -0.5 <= n - units <= 0.5 && Scale(quantum, units) == x && Scale(quantum, n) == rounded
    ensures x - 0.5 * quantum <= rounded <= x + 0.5 * quantum
  {
    ScaleSplits(quantum, n - units, units);
    assert n - units + units == n;
    HalfAway(n - units, quantum);
  }

  lemma HalfAway(distance: real, quantum: Positive)
    requires -0.5 <= distance <= 0.5
    ensures -0.5 * quantum <= Scale(quantum, distance) <= 0.5 * quantum
  {
    AtMostHalf(distance, quantum);
    AtMostHalf(-distance, quantum);
    ScaleSplits(quantum, distance, -distance);
    assert Scale(quantum, 0.0) == 0.0;
  }

  lemma AtMostHalf(distance: real, quantum: Positive)
    requires distance <= 0.5
    ensures Scale(quantum, distance) <= 0.5 * quantum
  {
    HalfUnit(distance, quantum);
  }

  /** The quoted price with its basis points, before any rounding. */
  function ExactPrice(price: Positive, side: Side, slippage: Slippage): real {
    match slippage
    case NoSlippage => price
    case FixedBps(bps) => if side.Buy? then price + price * bps / 10000.0 else price - price * bps / 10000.0
  }

  lemma PriceWithBps(price: Positive, bps: NonNegative)
    ensures Scale(price, 1.0 + bps / 10000.0) == price + price * bps / 10000.0
    ensures Scale(price, 1.0 - bps / 10000.0) == price - price * bps / 10000.0
    ensures price * bps / 10000.0 >= 0.0
  {
    var part := bps / 10000.0;
    assert price * part == price * bps / 10000.0;
    assert price * (1.0 + part) == price + price * part && price * (1.0 - part) == price - price * part;
  }

  lemma SlippedPrice(price: Positive, side: Side, slippage: Slippage)
    requires slippage.FixedBps?
    ensures ApplySlippage(price, side, slippage) == Quantize(ExactPrice(price, side, slippage), 0.0001)
    ensures side.Buy? ==> ExactPrice(price, side, slippage) >= price
    ensures side.Sell? ==> ExactPrice(price, side, slippage) <= price
  {
    PriceWithBps(price, slippage.bps);
    var factor := if side.Sell? then 1.0 - slippage.bps / 10000.0 else 1.0 + slippage.bps / 10000.0;
    assert ApplySlippage(price, side, slippage) == Quantize(Scale(price, factor), PRICE_QUANTUM);
    assert Scale(price, factor) == ExactPrice(price, side, slippage);
  }

  /**
   What a fill is charged at is the quoted price with its basis points, adverse to the side, to the nearest
   ten-thousandth; so up to half of that a buy pays at least, and a sell gets at most, the quoted price.
   */
  lemma EffectivePriceIsNearest(price: Positive, side: Side, slippage: Slippage)
    ensures var effective, exact := ApplySlippage(price, side, slippage), ExactPrice(price, side, slippage);
            && (slippage.NoSlippage? ==> effective == price)
            && (slippage.FixedBps? ==> Nearest(effective, exact, 0.0001))
            && (side.Buy? ==> effective >= price - 0.00005) && (side.Sell? ==> effective <= price + 0.00005)
  {
    if slippage.FixedBps? {
      SlippedPrice(price, side, slippage);
      QuantizeIsNearest(ExactPrice(price, side, slippage), 0.0001);
    }
  }

  /** The fee is the configured one to the nearest hundredth. */
  lemma FeeIsNearest(commission: Commission)
    ensures commission.NoCommission? ==> CommissionAmount(commission) == 0.0
    ensures commission.FixedPerTrade? ==> Nearest(CommissionAmount(commission), commission.fee, 0.01)
  {
    if commission.FixedPerTrade? { QuantizeIsNearest(commission.fee, 0.01); }
  }

  // --------------------------------------------------------------- settlement

  /** Funds after one filled order, and its signed cash flow. */
  datatype Settlement = Settlement(funds: Funds, netCash: real)

  function Settle(funds: Funds, side: Side, notional: real, fee: real): Result<Settlement, FundsError> {
    if side.Buy? then
      var reserved := Reserve(funds, notional + fee);
      if reserved.Err? then Err(reserved.error)
      else
        var settled := SettleBuy(reserved.value, notional + fee);
        if settled.Err? then Err(settled.error) else Ok(Settlement(settled.value, -(notional + fee)))
    else
      var credited := CreditSell(funds, notional - fee);
      if credited.Err? then Err(credited.error) else Ok(Settlement(credited.value, notional - fee))
  }

  /** A settlement moves exactly its net cash, out of or into the available part. */
  lemma SettlementMovesNetCash(funds: Funds, side: Side, notional: real, fee: real)
    ensures var s := Settle(funds, side, notional, fee);
            && (s.Ok? ==> s.value.funds.reserved == funds.reserved && Total(s.value.funds) == Total(funds) + s.value.netCash)
            && (side.Buy? ==> (s.Ok? <==> 0.0 < notional + fee <= funds.available))
            && (side.Buy? && s.Err? ==> s.error == if notional + fee <= 0.0 then AmountNotPositive else InsufficientAvailable)
            && (side.Sell? ==> (s.Ok? <==> notional > fee))
  {}
}
