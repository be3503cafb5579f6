/** The FIFO lot ledger: open lots, completed trades and the attribution of costs to them. */
module Ledger {
  import opened Wrappers
  import opened Arithmetic
  import opened Fills

  datatype Lot = Lot(
    entrySequence: nat, entryPrice: real, total: Positive, remaining: real, entryCost: real,
    exitSequences: seq<nat>, weightedExit: real, entryCostUsed: real, exitCostUsed: real, realized: real)

  /** A completed lot: one round trip from its entry fill to its exit fills. */
  datatype Trade = Trade(
    sequence: nat, entrySequence: nat, exitSequences: seq<nat>, quantity: Positive,
    entryPrice: real, exitPrice: real, entryCost: real, exitCost: real, pnl: real)

  datatype Ledger = Ledger(lots: seq<Lot>, nextTrade: nat)

  const EMPTY_LEDGER := Ledger([], 0)

  datatype LedgerError = OnlyBuysOpenLots | OnlySellsCloseLots | ExceededOpenPosition

  // --------------------------------------------------------------- one lot

  function NewLot(fill: Fill): Lot {
    Lot(fill.sequence, fill.price, fill.quantity, fill.quantity, fill.commission, [], 0.0, 0.0, 0.0, 0.0)
  }

  /** Sells `matched` shares of `lot` to `fill`, with proportional shares of both commissions. */
  function Match(lot: Lot, fill: Fill, matched: real): Lot {
    var entryShare := Share(lot.entryCost, matched, lot.total);
    var exitShare := Share(fill.commission, matched, fill.quantity);
    lot.(remaining := lot.remaining - matched,
         exitSequences := lot.exitSequences + [fill.sequence],
         weightedExit := lot.weightedExit + Scale(fill.price, matched),
         entryCostUsed := lot.entryCostUsed + entryShare,
         exitCostUsed := lot.exitCostUsed + exitShare,
         realized := lot.realized + (Scale(fill.price - lot.entryPrice, matched) - entryShare - exitShare))
  }

  function Completed(lot: Lot, sequence: nat): Trade {
    Trade(sequence, lot.entrySequence, lot.exitSequences, lot.total, lot.entryPrice,
          lot.weightedExit / lot.total, lot.entryCostUsed, lot.exitCostUsed, lot.realized)
  }

  /** What a lot has accumulated agrees with the shares it has sold so far. */
  predicate Coherent(lot: Lot) {
    && 0.0 <= lot.remaining <= lot.total
    && lot.entryCostUsed == Share(lot.entryCost, lot.total - lot.remaining, lot.total)
    && lot.realized == lot.weightedExit - Scale(lot.entryPrice, lot.total - lot.remaining)
                       - lot.entryCostUsed - lot.exitCostUsed
  }

  predicate Open(lot: Lot) {
    Coherent(lot) && lot.remaining > 0.0
  }

  predicate AllOpen(lots: seq<Lot>) {
    forall i :: 0 <= i < |lots| ==> Open(lots[i])
  }

  /** Profit is the price difference on the whole quantity less the two attributed costs. */
  predicate Balanced(trade: Trade) {
    trade.pnl == Scale(trade.exitPrice - trade.entryPrice, trade.quantity) - trade.entryCost - trade.exitCost
  }

  lemma NewLotCoherent(fill: Fill)
    ensures Open(NewLot(fill))
  {
    ShareOfWhole(fill.commission, fill.quantity);
    assert Scale(fill.price, 0.0) == 0.0;
  }

  lemma MatchCoherent(lot: Lot, fill: Fill, matched: real)
    requires Coherent(lot) && 0.0 <= matched <= lot.remaining
    ensures Coherent(Match(lot, fill, matched))
  {
    var sold := lot.total - lot.remaining;
    assert lot.total - (lot.remaining - matched) == sold + matched;
    ShareSplits(lot.entryCost, sold, matched, lot.total);
    ScaleSplits(lot.entryPrice, sold, matched);
    PriceDifference(fill.price, lot.entryPrice, matched);
  }

  lemma PriceDifference(exit: real, entry: real, quantity: real)
    ensures Scale(exit - entry, quantity) == Scale(exit, quantity) - Scale(entry, quantity)
  {}

  lemma CompletedBalanced(lot: Lot, sequence: nat)
    requires Coherent(lot) && lot.remaining == 0.0
    ensures Balanced(Completed(lot, sequence))
    ensures Completed(lot, sequence).entryCost == lot.entryCost
  {
    ShareOfWhole(lot.entryCost, lot.total);
    var exit := lot.weightedExit / lot.total;
    PriceDifference(exit, lot.entryPrice, lot.total);
    assert Scale(exit, lot.total) == lot.weightedExit;
  }

  // ------------------------------------------------------------ close lots

  function Remaining(lots: seq<Lot>): real {
    if |lots| == 0 then 0.0 else lots[0].remaining + Remaining(lots[1..])
  }

  function Survivors(lots: seq<Lot>): (open: seq<Lot>) {
    if |lots| == 0 then []
    else if lots[0].remaining > 0.0 then [lots[0]] + Survivors(lots[1..])
    else Survivors(lots[1..])
  }

  function DoneTrades(lot: Lot, sequence: nat): seq<Trade> {
    if lot.remaining == 0.0 then [Completed(lot, sequence)] else []
  }

  /** The lots after a sell fill offered `need` shares to them, oldest first. */
  function Matched(lots: seq<Lot>, fill: Fill, need: real): seq<Lot> {
    if |lots| == 0 || need <= 0.0 then lots
    else if lots[0].remaining <= 0.0 then [lots[0]] + Matched(lots[1..], fill, need)
    else
      var matched := Min(need, lots[0].remaining);
      [Match(lots[0], fill, matched)] + Matched(lots[1..], fill, need - matched)
  }

  /** The trades that the same walk completes. */
  function Finished(lots: seq<Lot>, fill: Fill, need: real, nextTrade: nat): seq<Trade> {
    if |lots| == 0 || need <= 0.0 then []
    else if lots[0].remaining <= 0.0 then Finished(lots[1..], fill, need, nextTrade)
    else
      var matched := Min(need, lots[0].remaining);
      var done := DoneTrades(Match(lots[0], fill, matched), nextTrade);
      done + Finished(lots[1..], fill, need - matched, nextTrade + |done|)
  }

  /** The shares for which the walk finds no open lot. */
  function Unmatched(lots: seq<Lot>, need: real): real {
    if |lots| == 0 || need <= 0.0 then need
    else if lots[0].remaining <= 0.0 then Unmatched(lots[1..], need)
    else Unmatched(lots[1..], need - Min(need, lots[0].remaining))
  }

  lemma MatchUnfolds(head: Lot, tail: seq<Lot>, fill: Fill, need: real, nextTrade: nat)
    requires head.remaining > 0.0 && need > 0.0
    ensures var matched := Min(need, head.remaining);
            var lot := Match(head, fill, matched);
            var done := DoneTrades(lot, nextTrade);
            && Matched([head] + tail, fill, need) == [lot] + Matched(tail, fill, need - matched)
            && Finished([head] + tail, fill, need, nextTrade)
               == done + Finished(tail, fill, need - matched, nextTrade + |done|)
            && Unmatched([head] + tail, need) == Unmatched(tail, need - matched)
  {
    assert ([head] + tail)[1..] == tail;
  }

  function Opened(ledger: Ledger, fill: Fill): Ledger {
    ledger.(lots := ledger.lots + [NewLot(fill)])
  }

  function Closed(ledger: Ledger, fill: Fill): (r: (Ledger, seq<Trade>)) {
    var trades := Finished(ledger.lots, fill, fill.quantity, ledger.nextTrade);
    (Ledger(Survivors(Matched(ledger.lots, fill, fill.quantity)), ledger.nextTrade + |trades|), trades)
  }

  lemma {:induction false} SurvivorsOfOpen(lots: seq<Lot>)
    requires forall i :: 0 <= i < |lots| ==> lots[i].remaining > 0.0
    ensures Survivors(lots) == lots
  {
    if lots != [] { SurvivorsOfOpen(lots[1..]); }
  }

  lemma {:induction false} RemainingNonNegative(lots: seq<Lot>)
    requires AllOpen(lots)
    ensures Remaining(lots) >= 0.0
    ensures Remaining(lots) == 0.0 ==> lots == []
  {
    if lots != [] { RemainingNonNegative(lots[1..]); }
  }

  lemma {:induction false} MatchedStayCoherent(lots: seq<Lot>, fill: Fill, need: real)
    requires AllOpen(lots)
    ensures AllOpen(Survivors(Matched(lots, fill, need)))
  {
    if |lots| == 0 || need <= 0.0 {
      SurvivorsOfOpen(lots);
    } else {
      var matched := Min(need, lots[0].remaining);
      var lot := Match(lots[0], fill, matched);
      MatchCoherent(lots[0], fill, matched);
      MatchedStayCoherent(lots[1..], fill, need - matched);
      assert ([lot] + Matched(lots[1..], fill, need - matched))[1..] == Matched(lots[1..], fill, need - matched);
    }
  }

  lemma {:induction false} FinishedAreBalanced(lots: seq<Lot>, fill: Fill, need: real, nextTrade: nat)
    requires AllOpen(lots)
    ensures forall t :: t in Finished(lots, fill, need, nextTrade) ==> Balanced(t)
  {
    if |lots| > 0 && need > 0.0 {
      var matched := Min(need, lots[0].remaining);
      var lot := Match(lots[0], fill, matched);
      MatchCoherent(lots[0], fill, matched);
      if lot.remaining == 0.0 { CompletedBalanced(lot, nextTrade); }
      FinishedAreBalanced(lots[1..], fill, need - matched, nextTrade + |DoneTrades(lot, nextTrade)|);
    }
  }

  /** A sell is absorbed exactly when the open lots hold enough shares. */
  lemma {:induction false} UnmatchedShares(lots: seq<Lot>, need: real)
    requires forall i :: 0 <= i < |lots| ==> lots[i].remaining > 0.0
    requires need >= 0.0
    ensures Unmatched(lots, need) == Max(0.0, need - Remaining(lots))
  {
    RemainingPositive(lots);
    if |lots| > 0 && need > 0.0 {
      RemainingPositive(lots[1..]);
      UnmatchedShares(lots[1..], need - Min(need, lots[0].remaining));
    }
  }

  lemma {:induction false} RemainingPositive(lots: seq<Lot>)
    requires forall i :: 0 <= i < |lots| ==> lots[i].remaining > 0.0
    ensures Remaining(lots) >= 0.0
  {
    if lots != [] { RemainingPositive(lots[1..]); }
  }

  // ------------------------------------------------------------------ books

  function LotsTotal(lots: seq<Lot>, value: Lot -> real): real {
    if |lots| == 0 then 0.0 else value(lots[0]) + LotsTotal(lots[1..], value)
  }

  function TradesTotal(trades: seq<Trade>, value: Trade -> real): real {
    if |trades| == 0 then 0.0 else value(trades[0]) + TradesTotal(trades[1..], value)
  }

  lemma {:induction false} LotsTotalAppend(lots: seq<Lot>, lot: Lot, value: Lot -> real)
    ensures LotsTotal(lots + [lot], value) == LotsTotal(lots, value) + value(lot)
  {
    if |lots| == 0 {
      assert (lots + [lot])[1..] == [];
    } else {
      assert (lots + [lot])[1..] == lots[1..] + [lot];
      LotsTotalAppend(lots[1..], lot, value);
    }
  }

  lemma {:induction false} TradesTotalAppend(a: seq<Trade>, b: seq<Trade>, value: Trade -> real)
    ensures TradesTotal(a + b, value) == TradesTotal(a, value) + TradesTotal(b, value)
  {
    if |a| == 0 {
      assert a + b == b;
    } else {
      assert (a + b)[1..] == a[1..] + b;
      TradesTotalAppend(a[1..], b, value);
    }
  }

  /** How one matched lot enters the totals: as an open lot, or as the trade it completes. */
  lemma MatchedTotal(lot: Lot, done: seq<Trade>, lots: seq<Lot>, trades: seq<Trade>,
                     lotValue: Lot -> real, tradeValue: Trade -> real)
    requires lot.remaining >= 0.0
    requires lot.remaining > 0.0 ==> done == []
    requires lot.remaining == 0.0 ==> |done| == 1 && tradeValue(done[0]) == lotValue(lot)
    ensures LotsTotal(Survivors([lot] + lots), lotValue) + TradesTotal(done + trades, tradeValue)
            == lotValue(lot) + LotsTotal(Survivors(lots), lotValue) + TradesTotal(trades, tradeValue)
  {
    assert ([lot] + lots)[1..] == lots;
    if lot.remaining == 0.0 {
      assert Survivors([lot] + lots) == Survivors(lots);
      assert (done + trades)[1..] == trades;
    } else {
      assert Survivors([lot] + lots) == [lot] + Survivors(lots);
      assert ([lot] + Survivors(lots))[1..] == Survivors(lots);
      assert done + trades == trades;
    }
  }

  ghost predicate Splits(moved: real -> real, a: real, b: real) {
    moved(a) + moved(b) == moved(a + b)
  }

  ghost predicate Moves(value: Lot -> real, moved: real -> real, fill: Fill, lot: Lot, matched: real) {
    value(Match(lot, fill, matched)) == value(lot) + moved(matched)
  }

  ghost predicate Settles(lotValue: Lot -> real, tradeValue: Trade -> real, lot: Lot, sequence: nat) {
    Coherent(lot) && lot.remaining == 0.0 ==> tradeValue(Completed(lot, sequence)) == lotValue(lot)
  }

  /** `moved` says what one matched share moves; matches and completed lots respect it. */
  ghost predicate Additive(fill: Fill, lotValue: Lot -> real, tradeValue: Trade -> real, moved: real -> real) {
    && moved(0.0) == 0.0
    && (forall a, b :: Splits(moved, a, b))
    && (forall lot, matched :: Moves(lotValue, moved, fill, lot, matched))
    && (forall lot, sequence :: Settles(lotValue, tradeValue, lot, sequence))
  }

  /** Between `lots` and the lots and trades left of them, exactly `moved` went onto the books. */
  ghost predicate Preserved(lots: seq<Lot>, after: seq<Lot>, trades: seq<Trade>, moved: real,
                            lotValue: Lot -> real, tradeValue: Trade -> real) {
    LotsTotal(Survivors(after), lotValue) + TradesTotal(trades, tradeValue) == LotsTotal(lots, lotValue) + moved
  }

  /**
   Whatever every match moves additively is conserved by a whole sell: the lots and
   trades it leaves differ from the lots it found by exactly what `need` shares move.
   */
  lemma {:induction false} SellConserves(lots: seq<Lot>, fill: Fill, need: real, nextTrade: nat,
                                         lotValue: Lot -> real, tradeValue: Trade -> real, moved: real -> real)
    requires AllOpen(lots) && 0.0 <= need <= Remaining(lots)
    requires Additive(fill, lotValue, tradeValue, moved)
    ensures Preserved(lots, Matched(lots, fill, need), Finished(lots, fill, need, nextTrade), moved(need),
                      lotValue, tradeValue)
  {
    if |lots| == 0 || need <= 0.0 {
      SurvivorsOfOpen(lots);
    } else {
      var matched := Min(need, lots[0].remaining);
      var lot := Match(lots[0], fill, matched);
      var done := DoneTrades(lot, nextTrade);
      RemainingNonNegative(lots[1..]);
      SellConserves(lots[1..], fill, need - matched, nextTrade + |done|, lotValue, tradeValue, moved);
      MatchCoherent(lots[0], fill, matched);
      assert Settles(lotValue, tradeValue, lot, nextTrade);
      assert Moves(lotValue, moved, fill, lots[0], matched);
      assert Splits(moved, matched, need - matched);
      HeadConserves(lots, lot, done, Matched(lots[1..], fill, need - matched),
                    Finished(lots[1..], fill, need - matched, nextTrade + |done|),
                    moved(matched), moved(need - matched), lotValue, tradeValue);
    }
  }

  lemma HeadConserves(lots: seq<Lot>, lot: Lot, done: seq<Trade>, after: seq<Lot>, trades: seq<Trade>,
                      movedHead: real, movedTail: real, lotValue: Lot -> real, tradeValue: Trade -> real)
    requires |lots| > 0 && lot.remaining >= 0.0
    requires lot.remaining > 0.0 ==> done == []
    requires lot.remaining == 0.0 ==> |done| == 1 && tradeValue(done[0]) == lotValue(lot)
    requires lotValue(lot) == lotValue(lots[0]) + movedHead
    requires Preserved(lots[1..], after, trades, movedTail, lotValue, tradeValue)
    ensures Preserved(lots, [lot] + after, done + trades, movedHead + movedTail, lotValue, tradeValue)
  {
    MatchedTotal(lot, done, after, trades, lotValue, tradeValue);
  }

  // ------------------------------------------------------ what a sell moves

  /** Cash effect of a lot so far: realized profit less the cost of the shares still held. */
  function Booked(lot: Lot): real {
    lot.realized - Scale(lot.entryPrice, lot.remaining) - Share(lot.entryCost, lot.remaining, lot.total)
  }

  function Pnl(trade: Trade): real {
    trade.pnl
  }

  /** Commission charged to a lot: its full entry commission and the exit shares so far. */
  function Charged(lot: Lot): real {
    lot.entryCost + lot.exitCostUsed
  }

  function Costs(trade: Trade): real {
    trade.entryCost + trade.exitCost
  }

  lemma CashIsAdditive(fill: Fill)
    ensures Additive(fill, Booked, Pnl,
                     quantity => Scale(fill.price, quantity) - Share(fill.commission, quantity, fill.quantity))
  {
    var moved := quantity => Scale(fill.price, quantity) - Share(fill.commission, quantity, fill.quantity);
    ShareOfWhole(fill.commission, fill.quantity);
    assert Scale(fill.price, 0.0) == 0.0;
    forall a, b ensures Splits(moved, a, b) {
      ScaleSplits(fill.price, a, b);
      ShareSplits(fill.commission, a, b, fill.quantity);
    }
    forall lot, matched ensures Moves(Booked, moved, fill, lot, matched) { MatchBooks(lot, fill, matched); }
    forall lot, sequence ensures Settles(Booked, Pnl, lot, sequence) {
      if Coherent(lot) && lot.remaining == 0.0 {
        ShareOfWhole(lot.entryCost, lot.total);
        assert Scale(lot.entryPrice, 0.0) == 0.0;
      }
    }
  }

  lemma MatchBooks(lot: Lot, fill: Fill, matched: real)
    ensures Booked(Match(lot, fill, matched))
            == Booked(lot) + (Scale(fill.price, matched) - Share(fill.commission, matched, fill.quantity))
  {
    ShareSplits(lot.entryCost, lot.remaining - matched, matched, lot.total);
    ScaleSplits(lot.entryPrice, lot.remaining - matched, matched);
    PriceDifference(fill.price, lot.entryPrice, matched);
  }

  lemma CommissionIsAdditive(fill: Fill)
    ensures Additive(fill, Charged, Costs, quantity => Share(fill.commission, quantity, fill.quantity))
  {
    var moved := quantity => Share(fill.commission, quantity, fill.quantity);
    ShareOfWhole(fill.commission, fill.quantity);
    forall a, b ensures Splits(moved, a, b) { ShareSplits(fill.commission, a, b, fill.quantity); }
    forall lot, matched ensures Moves(Charged, moved, fill, lot, matched) {}
    forall lot, sequence ensures Settles(Charged, Costs, lot, sequence) {
      if Coherent(lot) && lot.remaining == 0.0 { CompletedBalanced(lot, sequence); }
    }
  }

  lemma SharesAreAdditive(fill: Fill)
    ensures Additive(fill, (lot: Lot) => lot.remaining, (trade: Trade) => 0.0, quantity => 0.0 - quantity)
  {
    var held, none, moved := (lot: Lot) => lot.remaining, (trade: Trade) => 0.0, quantity => 0.0 - quantity;
    forall a, b ensures Splits(moved, a, b) {}
    forall lot, matched ensures Moves(held, moved, fill, lot, matched) {}
    forall lot, sequence ensures Settles(held, none, lot, sequence) {}
  }

  // ------------------------------------------------------------ whole fills

  /** Buying adds the shares, their full cost and the entry commission to the books. */
  lemma OpenBooks(ledger: Ledger, fill: Fill)
    requires AllOpen(ledger.lots)
    ensures var after := Opened(ledger, fill);
            && AllOpen(after.lots)
            && Remaining(after.lots) == Remaining(ledger.lots) + fill.quantity
            && LotsTotal(after.lots, Booked)
               == LotsTotal(ledger.lots, Booked) - Scale(fill.price, fill.quantity) - fill.commission
            && LotsTotal(after.lots, Charged) == LotsTotal(ledger.lots, Charged) + fill.commission
  {
    var lot := NewLot(fill);
    NewLotCoherent(fill);
    RemainingAppend(ledger.lots, lot);
    LotsTotalAppend(ledger.lots, lot, Booked);
    LotsTotalAppend(ledger.lots, lot, Charged);
    ShareOfWhole(fill.commission, fill.quantity);
  }

  lemma {:induction false} RemainingAppend(lots: seq<Lot>, lot: Lot)
    ensures Remaining(lots + [lot]) == Remaining(lots) + lot.remaining
  {
    if |lots| == 0 {
      assert (lots + [lot])[1..] == [];
    } else {
      assert (lots + [lot])[1..] == lots[1..] + [lot];
      RemainingAppend(lots[1..], lot);
    }
  }

  lemma {:induction false} RemainingIsTotal(lots: seq<Lot>)
    ensures LotsTotal(lots, (lot: Lot) => lot.remaining) == Remaining(lots)
  {
    if |lots| > 0 { RemainingIsTotal(lots[1..]); }
  }

  lemma {:induction false} NoShares(trades: seq<Trade>)
    ensures TradesTotal(trades, (trade: Trade) => 0.0) == 0.0
  {
    if |trades| > 0 { NoShares(trades[1..]); }
  }

  /** Selling moves exactly the quantity, the net proceeds and the exit commission on the books. */
  lemma CloseBooks(ledger: Ledger, fill: Fill)
    requires AllOpen(ledger.lots) && fill.quantity <= Remaining(ledger.lots)
    ensures var (after, completed) := Closed(ledger, fill);
            && AllOpen(after.lots)
            && (forall t :: t in completed ==> Balanced(t))
            && Remaining(after.lots) == Remaining(ledger.lots) - fill.quantity
            && LotsTotal(after.lots, Booked) + TradesTotal(completed, Pnl)
               == LotsTotal(ledger.lots, Booked) + Scale(fill.price, fill.quantity) - fill.commission
            && LotsTotal(after.lots, Charged) + TradesTotal(completed, Costs)
               == LotsTotal(ledger.lots, Charged) + fill.commission
  {
    MatchedStayCoherent(ledger.lots, fill, fill.quantity);
    FinishedAreBalanced(ledger.lots, fill, fill.quantity, ledger.nextTrade);
    CloseShares(ledger, fill);
    ShareOfWhole(fill.commission, fill.quantity);
    CashIsAdditive(fill);
    SellConserves(ledger.lots, fill, fill.quantity, ledger.nextTrade, Booked, Pnl,
                     quantity => Scale(fill.price, quantity) - Share(fill.commission, quantity, fill.quantity));
    CommissionIsAdditive(fill);
    SellConserves(ledger.lots, fill, fill.quantity, ledger.nextTrade, Charged, Costs,
                     quantity => Share(fill.commission, quantity, fill.quantity));
  }

  lemma CloseShares(ledger: Ledger, fill: Fill)
    requires AllOpen(ledger.lots) && fill.quantity <= Remaining(ledger.lots)
    ensures Remaining(Closed(ledger, fill).0.lots) == Remaining(ledger.lots) - fill.quantity
  {
    SharesAreAdditive(fill);
    SellConserves(ledger.lots, fill, fill.quantity, ledger.nextTrade,
                     (lot: Lot) => lot.remaining, (trade: Trade) => 0.0, quantity => 0.0 - quantity);
    RemainingIsTotal(ledger.lots);
    RemainingIsTotal(Survivors(Matched(ledger.lots, fill, fill.quantity)));
    NoShares(Finished(ledger.lots, fill, fill.quantity, ledger.nextTrade));
  }

  // -------------------------------------------------------- the ledger itself

  /** The ledger object: lots are rewritten in place while a sell walks over them. */
  class FifoLedger {
    var lots: seq<Lot>
    var nextTrade: nat

    ghost predicate Valid()
      reads this
    {
      AllOpen(lots)
    }

    function Value(): Ledger
      reads this
    {
      Ledger(lots, nextTrade)
    }

    constructor ()
      ensures Valid() && Value() == EMPTY_LEDGER
    {
      lots, nextTrade := [], 0;
    }

    method OpenLot(fill: Fill) returns (r: Result<(), LedgerError>)
      requires Valid()
      modifies this
      ensures Valid()
      ensures r.Ok? <==> fill.side.Buy?
      ensures Value() == if r.Ok? then Opened(old(Value()), fill) else old(Value())
    {
      if fill.side != Buy {
        return Err(OnlyBuysOpenLots);
      }
      lots := lots + [NewLot(fill)];
      NewLotCoherent(fill);
      return Ok(());
    }

    /** Closes lots oldest first; fails exactly when the sell exceeds the open position. */
    method CloseLots(fill: Fill) returns (r: Result<seq<Trade>, LedgerError>)
      modifies this
      ensures fill.side.Buy? ==> r == Err(OnlySellsCloseLots) && Value() == old(Value())
      ensures r.Ok? ==> (Value(), r.value) == Closed(old(Value()), fill)
      ensures old(Valid()) ==>
                && (r.Ok? <==> fill.side.Sell? && fill.quantity <= Remaining(old(lots)))
                && (r.Ok? ==> Valid())
    {
      if fill.side != Sell {
        return Err(OnlySellsCloseLots);
      }
      ghost var walk := Walk(lots, fill, fill.quantity, nextTrade);
      var remaining: real, completed, i := fill.quantity, [], 0;
      assert lots[..0] == [] && lots[0..] == lots;
      while i < |lots|
        invariant 0 <= i <= |lots|
        invariant nextTrade == old(nextTrade) + |completed|
        invariant InProgress(walk, lots, i, completed, remaining, nextTrade)
      {
        if remaining <= 0.0 {
          break;
        }
        var lot := lots[i];
        if lot.remaining <= 0.0 {
          SkipProgress(walk, lots, i, completed, remaining, nextTrade);
        } else {
          MatchProgress(walk, lots, i, completed, remaining, nextTrade);
          var matched := Min(remaining, lot.remaining);
          lot := Match(lot, fill, matched);
          lots := lots[i := lot];
          remaining := remaining - matched;
          if lot.remaining == 0.0 {
            completed := completed + [Completed(lot, nextTrade)];
            nextTrade := nextTrade + 1;
          } else {
            assert completed + [] == completed;
          }
        }
        i := i + 1;
      }
      EndProgress(walk, lots, i, completed, remaining, nextTrade);
      if old(AllOpen(lots)) {
        UnmatchedShares(old(lots), fill.quantity);
        MatchedStayCoherent(old(lots), fill, fill.quantity);
      }
      if remaining > 0.0 {
        return Err(ExceededOpenPosition);
      }
      lots := Survivors(lots);
      return Ok(completed);
    }
  }

  /** One walk of a sell over the lots, as it was called. */
  datatype Walk = Walk(lots: seq<Lot>, fill: Fill, need: real, nextTrade: nat)

  /** The walk has rewritten the first `i` lots; the rest of it is the walk over the others. */
  ghost predicate InProgress(walk: Walk, lots: seq<Lot>, i: nat, completed: seq<Trade>, remaining: real, nextTrade: nat) {
    && i <= |lots|
    && Matched(walk.lots, walk.fill, walk.need) == lots[..i] + Matched(lots[i..], walk.fill, remaining)
    && Finished(walk.lots, walk.fill, walk.need, walk.nextTrade)
       == completed + Finished(lots[i..], walk.fill, remaining, nextTrade)
    && Unmatched(walk.lots, walk.need) == Unmatched(lots[i..], remaining)
  }

  lemma SkipProgress(walk: Walk, lots: seq<Lot>, i: nat, completed: seq<Trade>, remaining: real, nextTrade: nat)
    requires InProgress(walk, lots, i, completed, remaining, nextTrade)
    requires i < |lots| && lots[i].remaining <= 0.0 && remaining > 0.0
    ensures InProgress(walk, lots, i + 1, completed, remaining, nextTrade)
  {
    assert lots[i..][1..] == lots[i + 1..];
    assert lots[..i] + ([lots[i]] + Matched(lots[i + 1..], walk.fill, remaining))
        == lots[..i + 1] + Matched(lots[i + 1..], walk.fill, remaining);
  }

  lemma MatchProgress(walk: Walk, lots: seq<Lot>, i: nat, completed: seq<Trade>, remaining: real, nextTrade: nat)
    requires InProgress(walk, lots, i, completed, remaining, nextTrade)
    requires i < |lots| && lots[i].remaining > 0.0 && remaining > 0.0
    ensures var matched := Min(remaining, lots[i].remaining);
            var lot := Match(lots[i], walk.fill, matched);
            var done := DoneTrades(lot, nextTrade);
            InProgress(walk, lots[i := lot], i + 1, completed + done, remaining - matched, nextTrade + |done|)
  {
    var matched := Min(remaining, lots[i].remaining);
    var lot := Match(lots[i], walk.fill, matched);
    var done := DoneTrades(lot, nextTrade);
    assert lots[i..] == [lots[i]] + lots[i + 1..];
    MatchUnfolds(lots[i], lots[i + 1..], walk.fill, remaining, nextTrade);
    MatchedPrefix(lots, i, lot, Matched(lots[i + 1..], walk.fill, remaining - matched));
    assert completed + (done + Finished(lots[i + 1..], walk.fill, remaining - matched, nextTrade + |done|))
        == completed + done + Finished(lots[i + 1..], walk.fill, remaining - matched, nextTrade + |done|);
  }

  lemma MatchedPrefix(lots: seq<Lot>, i: nat, lot: Lot, later: seq<Lot>)
    requires i < |lots|
    ensures lots[i := lot][i + 1..] == lots[i + 1..]
    ensures lots[..i] + ([lot] + later) == lots[i := lot][..i + 1] + later
  {}

  lemma EndProgress(walk: Walk, lots: seq<Lot>, i: nat, completed: seq<Trade>, remaining: real, nextTrade: nat)
    requires InProgress(walk, lots, i, completed, remaining, nextTrade) && (i == |lots| || remaining <= 0.0)
    ensures Matched(walk.lots, walk.fill, walk.need) == lots
    ensures Finished(walk.lots, walk.fill, walk.need, walk.nextTrade) == completed
    ensures Unmatched(walk.lots, walk.need) == remaining
  {
    assert lots[..i] + lots[i..] == lots && completed + [] == completed;
  }
}
