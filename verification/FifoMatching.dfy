/**
 FIFO matching as interval overlap.

 Lay all buys end to end by quantity, and all sells end to end by quantity. The
 amount a sell takes from a lot is the length of the overlap of their two
 intervals; nothing else about the order of fills matters.
 */
module FifoMatching {
  import opened Arithmetic
  import opened Fills
  import opened Ledger

  // ---------------------------------------------------------- the simple form

  function Quantity(fills: seq<Fill>): (total: real)
    ensures total >= 0.0
    decreases |fills|
  {
    if |fills| == 0 then 0.0 else Quantity(fills[..|fills| - 1]) + fills[|fills| - 1].quantity
  }

  function Overlap(a: real, b: real, c: real, d: real): real {
    Max(0.0, Min(b, d) - Max(a, c))
  }

  /** The lot of `buy`, whose interval begins at `start`, after all of `sells`. */
  function LotAfter(buy: Fill, start: real, sells: seq<Fill>): Lot
    decreases |sells|
  {
    if |sells| == 0 then NewLot(buy)
    else
      var earlier, sell := sells[..|sells| - 1], sells[|sells| - 1];
      var taken := Overlap(start, start + buy.quantity, Quantity(earlier), Quantity(sells));
      var lot := LotAfter(buy, start, earlier);
      if taken > 0.0 then Match(lot, sell, taken) else lot
  }

  function AllLots(buys: seq<Fill>, start: real, sells: seq<Fill>): (lots: seq<Lot>)
    ensures |lots| == |buys|
  {
    if |buys| == 0 then []
    else [LotAfter(buys[0], start, sells)] + AllLots(buys[1..], start + buys[0].quantity, sells)
  }

  /** Trades of the leading lots that are sold out, numbered from `sequence`. */
  function LeadingTrades(lots: seq<Lot>, sequence: nat): seq<Trade> {
    if |lots| == 0 || lots[0].remaining > 0.0 then []
    else [Completed(lots[0], sequence)] + LeadingTrades(lots[1..], sequence + 1)
  }

  function OfSide(fills: seq<Fill>, side: Side): seq<Fill>
    decreases |fills|
  {
    if |fills| == 0 then []
    else
      var earlier, last := OfSide(fills[..|fills| - 1], side), fills[|fills| - 1];
      if last.side == side then earlier + [last] else earlier
  }

  // ------------------------------------------------------------- the ledger

  /** The ledger and the trades after a history of fills. */
  function LedgerAfter(fills: seq<Fill>): (Ledger, seq<Trade>)
    decreases |fills|
  {
    if |fills| == 0 then (EMPTY_LEDGER, [])
    else
      var (ledger, trades) := LedgerAfter(fills[..|fills| - 1]);
      var fill := fills[|fills| - 1];
      if fill.side.Buy? then (Opened(ledger, fill), trades)
      else
        var (after, completed) := Closed(ledger, fill);
        (after, trades + completed)
  }

  ghost predicate Covered(fills: seq<Fill>) {
    Quantity(OfSide(fills, Sell)) <= Quantity(OfSide(fills, Buy))
  }

  /** At no point have more shares been sold than bought. */
  ghost predicate NeverOversold(fills: seq<Fill>) {
    forall n :: 0 <= n <= |fills| ==> Covered(fills[..n])
  }

  // ---------------------------------------------------------- single lots

  lemma {:induction false} LotRemaining(buy: Fill, start: real, sells: seq<Fill>)
    requires start >= 0.0
    ensures LotAfter(buy, start, sells).total == buy.quantity
    ensures LotAfter(buy, start, sells).entrySequence == buy.sequence
    ensures LotAfter(buy, start, sells).remaining
            == buy.quantity - Overlap(start, start + buy.quantity, 0.0, Quantity(sells))
    decreases |sells|
  {
    if |sells| > 0 { LotRemaining(buy, start, sells[..|sells| - 1]); }
  }

  /** A lot whose interval the sells have not reached is untouched. */
  lemma {:induction false} LotUntouched(buy: Fill, start: real, sells: seq<Fill>)
    requires Quantity(sells) <= start
    ensures LotAfter(buy, start, sells) == NewLot(buy)
    decreases |sells|
  {
    if |sells| > 0 { LotUntouched(buy, start, sells[..|sells| - 1]); }
  }

  lemma LotAfterOneMore(buy: Fill, start: real, sells: seq<Fill>, sell: Fill)
    ensures Quantity(sells + [sell]) == Quantity(sells) + sell.quantity
    ensures var taken := Overlap(start, start + buy.quantity, Quantity(sells), Quantity(sells) + sell.quantity);
            var lot := LotAfter(buy, start, sells);
            LotAfter(buy, start, sells + [sell]) == if taken > 0.0 then Match(lot, sell, taken) else lot
  {
    assert (sells + [sell])[..|sells|] == sells;
  }

  // ------------------------------------------------------------ the buy step

  lemma {:induction false} AllLotsAppend(buys: seq<Fill>, start: real, sells: seq<Fill>, buy: Fill)
    requires Quantity(sells) <= start + Quantity(buys)
    ensures AllLots(buys + [buy], start, sells) == AllLots(buys, start, sells) + [NewLot(buy)]
    decreases |buys|
  {
    if |buys| == 0 {
      assert (buys + [buy])[1..] == [];
      LotUntouched(buy, start, sells);
    } else {
      assert (buys + [buy])[1..] == buys[1..] + [buy];
      QuantityHead(buys);
      AllLotsAppend(buys[1..], start + buys[0].quantity, sells, buy);
    }
  }

  lemma {:induction false} QuantityHead(fills: seq<Fill>)
    requires |fills| > 0
    ensures Quantity(fills) == fills[0].quantity + Quantity(fills[1..])
    decreases |fills|
  {
    if |fills| > 1 {
      var front := fills[..|fills| - 1];
      QuantityHead(front);
      assert front[1..] == fills[1..][..|fills| - 2];
    }
  }

  lemma {:induction false} SurvivorsAppend(lots: seq<Lot>, lot: Lot)
    requires lot.remaining > 0.0
    ensures Survivors(lots + [lot]) == Survivors(lots) + [lot]
  {
    if |lots| == 0 {
      assert (lots + [lot])[1..] == [];
    } else {
      assert (lots + [lot])[1..] == lots[1..] + [lot];
      SurvivorsAppend(lots[1..], lot);
    }
  }

  lemma {:induction false} LeadingTradesAppend(lots: seq<Lot>, lot: Lot, sequence: nat)
    requires lot.remaining > 0.0
    ensures LeadingTrades(lots + [lot], sequence) == LeadingTrades(lots, sequence)
    decreases |lots|
  {
    if |lots| > 0 {
      assert (lots + [lot])[1..] == lots[1..] + [lot];
      LeadingTradesAppend(lots[1..], lot, sequence + 1);
    }
  }

  // ----------------------------------------------------------- the sell step

  /** What is left of a sell for the lots whose intervals begin at `start`. */
  function Need(start: real, sold: real, quantity: real): real {
    Max(0.0, sold + quantity - Max(start, sold))
  }

  lemma NoLeadingTrades(buys: seq<Fill>, start: real, sells: seq<Fill>, sequence: nat)
    requires Quantity(sells) <= start
    ensures LeadingTrades(AllLots(buys, start, sells), sequence) == []
  {
    if |buys| > 0 { LotUntouched(buys[0], start, sells); }
  }

  /** A sell that leaves `kept` and completes `trades` turns the lots `before` into `after`. */
  ghost predicate Turns(before: seq<Lot>, after: seq<Lot>, kept: seq<Lot>, trades: seq<Trade>, sequence: nat) {
    Survivors(kept) == Survivors(after) && LeadingTrades(after, sequence) == LeadingTrades(before, sequence) + trades
  }

  /** Selling `need` shares to the open lots among `before` turns them into `after`. */
  ghost predicate SellTurns(before: seq<Lot>, after: seq<Lot>, sell: Fill, need: real, sequence: nat) {
    Turns(before, after, Matched(Survivors(before), sell, need),
          Finished(Survivors(before), sell, need, sequence + |LeadingTrades(before, sequence)|), sequence)
  }

  lemma SellPassesHead(head: Lot, tail: seq<Lot>, tailAfter: seq<Lot>, sell: Fill, need: real, sequence: nat)
    requires head.remaining <= 0.0 && SellTurns(tail, tailAfter, sell, need, sequence + 1)
    ensures SellTurns([head] + tail, [head] + tailAfter, sell, need, sequence)
  {
    var trade, done := Completed(head, sequence), LeadingTrades(tail, sequence + 1);
    var trades := Finished(Survivors(tail), sell, need, sequence + 1 + |done|);
    HeadIsClosed(head, tail, sequence);
    HeadIsClosed(head, tailAfter, sequence);
    assert [trade] + (done + trades) == ([trade] + done) + trades;
  }

  lemma HeadIsClosed(head: Lot, tail: seq<Lot>, sequence: nat)
    requires head.remaining <= 0.0
    ensures Survivors([head] + tail) == Survivors(tail)
    ensures LeadingTrades([head] + tail, sequence) == [Completed(head, sequence)] + LeadingTrades(tail, sequence + 1)
  {
    assert ([head] + tail)[1..] == tail;
  }

  lemma SellTakesHead(head: Lot, lot: Lot, tail: seq<Lot>, tailAfter: seq<Lot>,
                      kept: seq<Lot>, trades: seq<Trade>, sequence: nat)
    requires head.remaining > 0.0 && lot.remaining >= 0.0 && (lot.remaining > 0.0 ==> trades == [])
    requires LeadingTrades(tail, sequence + |DoneTrades(lot, sequence)|) == []
    requires Turns(tail, tailAfter, kept, trades, sequence + |DoneTrades(lot, sequence)|)
    ensures Turns([head] + tail, [lot] + tailAfter, [lot] + kept, DoneTrades(lot, sequence) + trades, sequence)
  {
    HeadIsOpen(head, tail, sequence);
    assert [] + trades == trades;
    HeadIsMatched(lot, kept, trades, tailAfter, sequence);
    assert [] + (DoneTrades(lot, sequence) + trades) == DoneTrades(lot, sequence) + trades;
  }

  lemma HeadIsOpen(head: Lot, tail: seq<Lot>, sequence: nat)
    requires head.remaining > 0.0
    ensures Survivors([head] + tail) == [head] + Survivors(tail)
    ensures LeadingTrades([head] + tail, sequence) == []
  {
    assert ([head] + tail)[1..] == tail;
  }

  lemma HeadIsMatched(lot: Lot, kept: seq<Lot>, trades: seq<Trade>, tailAfter: seq<Lot>, sequence: nat)
    requires lot.remaining >= 0.0 && (lot.remaining > 0.0 ==> trades == [])
    requires Survivors(kept) == Survivors(tailAfter)
    requires LeadingTrades(tailAfter, sequence + |DoneTrades(lot, sequence)|) == trades
    ensures Survivors([lot] + kept) == Survivors([lot] + tailAfter)
    ensures LeadingTrades([lot] + tailAfter, sequence) == DoneTrades(lot, sequence) + trades
  {
    assert ([lot] + kept)[1..] == kept && ([lot] + tailAfter)[1..] == tailAfter;
  }

  /** The interval arithmetic of one lot met by one sell. */
  lemma NeedAtHead(start: real, size: Positive, sold: real, quantity: Positive)
    requires start >= 0.0 && sold >= 0.0 && sold < start + size && start < sold + quantity
    ensures var need, remaining := Need(start, sold, quantity), size - Overlap(start, start + size, 0.0, sold);
            var matched := Min(need, remaining);
            && need > 0.0 && remaining > 0.0
            && matched == Overlap(start, start + size, sold, sold + quantity)
            && need - matched == Need(start + size, sold, quantity)
  {}

  /** One sell walks the open lots exactly as its interval overlaps theirs. */
  lemma {:induction false} SellStep(buys: seq<Fill>, start: real, sells: seq<Fill>, sell: Fill, sequence: nat)
    requires start >= 0.0
    ensures SellTurns(AllLots(buys, start, sells), AllLots(buys, start, sells + [sell]), sell,
                      Need(start, Quantity(sells), sell.quantity), sequence)
    decreases |buys|, 1
  {
    if |buys| > 0 {
      var sold, end := Quantity(sells), start + buys[0].quantity;
      if sold >= end {
        SellPastHead(buys, start, sells, sell, sequence);
      } else if sold + sell.quantity <= start {
        UnreachedLots(buys, start, sells, sell);
        NoLeadingTrades(buys, start, sells, sequence);
        SurvivorsIdempotent(AllLots(buys, start, sells));
      } else {
        SellAtHead(buys, start, sells, sell, sequence);
      }
    }
  }

  lemma {:induction false} SellPastHead(buys: seq<Fill>, start: real, sells: seq<Fill>, sell: Fill, sequence: nat)
    requires start >= 0.0 && |buys| > 0 && Quantity(sells) >= start + buys[0].quantity
    ensures SellTurns(AllLots(buys, start, sells), AllLots(buys, start, sells + [sell]), sell,
                      Need(start, Quantity(sells), sell.quantity), sequence)
    decreases |buys|, 0
  {
    var end := start + buys[0].quantity;
    var head, tail := LotAfter(buys[0], start, sells), AllLots(buys[1..], end, sells);
    SellStep(buys[1..], end, sells, sell, sequence + 1);
    HeadIsPassed(buys[0], start, sells, sell);
    assert AllLots(buys, start, sells) == [head] + tail;
    assert AllLots(buys, start, sells + [sell]) == [head] + AllLots(buys[1..], end, sells + [sell]);
    SellPassesHead(head, tail, AllLots(buys[1..], end, sells + [sell]), sell, sell.quantity, sequence);
  }

  /** A lot that earlier sells have used up is out of the next sell's reach. */
  lemma HeadIsPassed(buy: Fill, start: real, sells: seq<Fill>, sell: Fill)
    requires start >= 0.0 && Quantity(sells) >= start + buy.quantity
    ensures LotAfter(buy, start, sells).remaining <= 0.0 && LotAfter(buy, start, sells + [sell]) == LotAfter(buy, start, sells)
    ensures Need(start, Quantity(sells), sell.quantity) == Need(start + buy.quantity, Quantity(sells), sell.quantity) == sell.quantity
  {
    LotRemaining(buy, start, sells);
    LotAfterOneMore(buy, start, sells, sell);
  }

  lemma {:induction false} SellAtHead(buys: seq<Fill>, start: real, sells: seq<Fill>, sell: Fill, sequence: nat)
    requires start >= 0.0 && |buys| > 0
    requires Quantity(sells) < start + buys[0].quantity && start < Quantity(sells) + sell.quantity
    ensures SellTurns(AllLots(buys, start, sells), AllLots(buys, start, sells + [sell]), sell,
                      Need(start, Quantity(sells), sell.quantity), sequence)
    decreases |buys|, 0
  {
    var end := start + buys[0].quantity;
    var lot := LotAfter(buys[0], start, sells + [sell]);
    var tail, tailAfter := AllLots(buys[1..], end, sells), AllLots(buys[1..], end, sells + [sell]);
    var later := sequence + |DoneTrades(lot, sequence)|;
    SellStep(buys[1..], end, sells, sell, later);
    NoLeadingTrades(buys[1..], end, sells, later);
    assert AllLots(buys, start, sells) == [LotAfter(buys[0], start, sells)] + tail;
    assert AllLots(buys, start, sells + [sell]) == [lot] + tailAfter;
    SellMeetsHead(buys[0], start, sells, sell, tail, tailAfter, sequence);
  }

  /** The sell takes the overlap from the lot it reaches and goes on to the lots behind it. */
  lemma SellMeetsHead(buy: Fill, start: real, sells: seq<Fill>, sell: Fill, tail: seq<Lot>, tailAfter: seq<Lot>, sequence: nat)
    requires start >= 0.0 && Quantity(sells) < start + buy.quantity && start < Quantity(sells) + sell.quantity
    requires var lot := LotAfter(buy, start, sells + [sell]);
             var later := sequence + |DoneTrades(lot, sequence)|;
             && LeadingTrades(tail, later) == []
             && SellTurns(tail, tailAfter, sell, Need(start + buy.quantity, Quantity(sells), sell.quantity), later)
    ensures SellTurns([LotAfter(buy, start, sells)] + tail, [LotAfter(buy, start, sells + [sell])] + tailAfter, sell,
                      Need(start, Quantity(sells), sell.quantity), sequence)
  {
    HeadMeetsSell(buy, start, sells, sell);
    SellTurnsHead(LotAfter(buy, start, sells), LotAfter(buy, start, sells + [sell]), tail, tailAfter, sell,
                  Need(start, Quantity(sells), sell.quantity), sequence);
  }

  lemma SellTurnsHead(head: Lot, lot: Lot, tail: seq<Lot>, tailAfter: seq<Lot>, sell: Fill, need: real, sequence: nat)
    requires head.remaining > 0.0 && need > 0.0 && lot.remaining >= 0.0
    requires lot == Match(head, sell, Min(need, head.remaining))
    requires lot.remaining > 0.0 ==> need == Min(need, head.remaining)
    requires var later := sequence + |DoneTrades(lot, sequence)|;
             && LeadingTrades(tail, later) == []
             && SellTurns(tail, tailAfter, sell, need - Min(need, head.remaining), later)
    ensures SellTurns([head] + tail, [lot] + tailAfter, sell, need, sequence)
  {
    var later, rest := sequence + |DoneTrades(lot, sequence)|, need - Min(need, head.remaining);
    var trades := Finished(Survivors(tail), sell, rest, later);
    assert rest <= 0.0 ==> trades == [];
    SellTakesHead(head, lot, tail, tailAfter, Matched(Survivors(tail), sell, rest), trades, sequence);
    MatchUnfolds(head, Survivors(tail), sell, need, sequence);
    HeadIsOpen(head, tail, sequence);
  }

  /** The lot a sell reaches loses exactly the overlap, and the sell goes on with the rest. */
  lemma HeadMeetsSell(buy: Fill, start: real, sells: seq<Fill>, sell: Fill)
    requires start >= 0.0
    requires Quantity(sells) < start + buy.quantity && start < Quantity(sells) + sell.quantity
    ensures var head, lot := LotAfter(buy, start, sells), LotAfter(buy, start, sells + [sell]);
            var need, later := Need(start, Quantity(sells), sell.quantity), Need(start + buy.quantity, Quantity(sells), sell.quantity);
            && head.remaining > 0.0 && need > 0.0 && lot.remaining >= 0.0
            && lot == Match(head, sell, Min(need, head.remaining))
            && need - Min(need, head.remaining) == later
            && (lot.remaining > 0.0 ==> later == 0.0)
  {
    LotRemaining(buy, start, sells);
    LotRemaining(buy, start, sells + [sell]);
    LotAfterOneMore(buy, start, sells, sell);
    NeedAtHead(start, buy.quantity, Quantity(sells), sell.quantity);
  }

  lemma {:induction false} UnreachedLots(buys: seq<Fill>, start: real, sells: seq<Fill>, sell: Fill)
    requires Quantity(sells) + sell.quantity <= start
    ensures AllLots(buys, start, sells) == AllLots(buys, start, sells + [sell])
    decreases |buys|
  {
    if |buys| > 0 {
      LotAfterOneMore(buys[0], start, sells, sell);
      UnreachedLots(buys[1..], start + buys[0].quantity, sells, sell);
    }
  }

  lemma {:induction false} SurvivorsIdempotent(lots: seq<Lot>)
    ensures Survivors(Survivors(lots)) == Survivors(lots)
  {
    if |lots| > 0 {
      SurvivorsIdempotent(lots[1..]);
      if lots[0].remaining > 0.0 { assert ([lots[0]] + Survivors(lots[1..]))[1..] == Survivors(lots[1..]); }
    }
  }

  // ------------------------------------------------------------- the theorem

  /** Open lots, next trade number and trades as the intervals dictate them. */
  function LedgerBySpec(buys: seq<Fill>, sells: seq<Fill>): (Ledger, seq<Trade>) {
    var lots := AllLots(buys, 0.0, sells);
    var trades := LeadingTrades(lots, 0);
    (Ledger(Survivors(lots), |trades|), trades)
  }

  /** The ledger after any covered history is the interval matching of its buys and sells. */
  lemma {:induction false} LedgerIsIntervalMatching(fills: seq<Fill>)
    requires NeverOversold(fills)
    ensures LedgerAfter(fills) == LedgerBySpec(OfSide(fills, Buy), OfSide(fills, Sell))
    decreases |fills|
  {
    if |fills| > 0 {
      var earlier, fill := fills[..|fills| - 1], fills[|fills| - 1];
      assert Covered(earlier);
      NeverOversoldPrefix(fills);
      LedgerIsIntervalMatching(earlier);
      if fill.side.Buy? {
        BuyExtends(OfSide(earlier, Buy), OfSide(earlier, Sell), fill);
      } else {
        SellExtends(OfSide(earlier, Buy), OfSide(earlier, Sell), fill);
      }
    }
  }

  lemma NeverOversoldPrefix(fills: seq<Fill>)
    requires NeverOversold(fills) && |fills| > 0
    ensures NeverOversold(fills[..|fills| - 1])
  {
    var earlier := fills[..|fills| - 1];
    forall n | 0 <= n <= |earlier| ensures Covered(earlier[..n]) {
      assert earlier[..n] == fills[..n];
    }
  }

  lemma BuyExtends(buys: seq<Fill>, sells: seq<Fill>, buy: Fill)
    requires Quantity(sells) <= Quantity(buys)
    ensures var (ledger, trades) := LedgerBySpec(buys, sells);
            LedgerBySpec(buys + [buy], sells) == (Opened(ledger, buy), trades)
  {
    var lots := AllLots(buys, 0.0, sells);
    AllLotsAppend(buys, 0.0, sells, buy);
    SurvivorsAppend(lots, NewLot(buy));
    LeadingTradesAppend(lots, NewLot(buy), 0);
  }

  lemma SellExtends(buys: seq<Fill>, sells: seq<Fill>, sell: Fill)
    ensures var (ledger, trades) := LedgerBySpec(buys, sells);
            var (after, completed) := Closed(ledger, sell);
            LedgerBySpec(buys, sells + [sell]) == (after, trades + completed)
  {
    SellStep(buys, 0.0, sells, sell, 0);
    assert Need(0.0, Quantity(sells), sell.quantity) == sell.quantity;
  }

  // ------------------------------------------------------------ consequences

  /** Length of the overlap of sell `j` with the interval of `buy`. */
  function Taken(buy: Fill, start: real, sells: seq<Fill>, j: nat): real
    requires j < |sells|
  {
    Overlap(start, start + buy.quantity, Quantity(sells[..j]), Quantity(sells[..j + 1]))
  }

  predicate Hits(buy: Fill, start: real, sells: seq<Fill>, sequence: nat, j: nat) {
    j < |sells| && sells[j].sequence == sequence && Taken(buy, start, sells, j) > 0.0
  }

  /** A lot's exit list names exactly the sells whose intervals overlap its own. */
  lemma {:induction false} ExitsAreOverlaps(buy: Fill, start: real, sells: seq<Fill>, sequence: nat)
    ensures sequence in LotAfter(buy, start, sells).exitSequences
            <==> exists j: nat :: Hits(buy, start, sells, sequence, j)
    decreases |sells|
  {
    if |sells| > 0 {
      var last := |sells| - 1;
      ExitsAreOverlaps(buy, start, sells[..last], sequence);
      forall j: nat ensures Hits(buy, start, sells, sequence, j)
                            <==> Hits(buy, start, sells[..last], sequence, j) || (j == last && HitsLast(buy, start, sells, sequence)) {
        HitsPrefix(buy, start, sells, sequence, j);
      }
      assert HitsLast(buy, start, sells, sequence) ==> Hits(buy, start, sells, sequence, last);
    }
  }

  predicate HitsLast(buy: Fill, start: real, sells: seq<Fill>, sequence: nat)
    requires |sells| > 0
  {
    var last := |sells| - 1;
    && sells[last].sequence == sequence
    && Overlap(start, start + buy.quantity, Quantity(sells[..last]), Quantity(sells)) > 0.0
  }

  lemma HitsPrefix(buy: Fill, start: real, sells: seq<Fill>, sequence: nat, j: nat)
    requires |sells| > 0
    ensures Hits(buy, start, sells, sequence, j)
            <==> Hits(buy, start, sells[..|sells| - 1], sequence, j)
                 || (j == |sells| - 1 && HitsLast(buy, start, sells, sequence))
  {
    var last := |sells| - 1;
    if j < last {
      assert sells[..last][..j] == sells[..j] && sells[..last][..j + 1] == sells[..j + 1];
    } else if j == last {
      assert sells[..j + 1] == sells;
    }
  }

  predicate Untouched(lot: Lot) {
    lot.remaining == lot.total && lot.exitSequences == []
  }

  predicate UntouchedFrom(lots: seq<Lot>, from: nat) {
    forall i :: from <= i < |lots| ==> Untouched(lots[i])
  }

  lemma {:induction false} OpenLotsBehindTheFirst(buys: seq<Fill>, start: real, sells: seq<Fill>)
    requires start >= 0.0
    ensures UntouchedFrom(Survivors(AllLots(buys, start, sells)), if Quantity(sells) <= start then 0 else 1)
    decreases |buys|
  {
    if |buys| > 0 {
      var end := start + buys[0].quantity;
      var head, tail := LotAfter(buys[0], start, sells), AllLots(buys[1..], end, sells);
      OpenLotsBehindTheFirst(buys[1..], end, sells);
      LotRemaining(buys[0], start, sells);
      if Quantity(sells) >= end {
        HeadIsClosed(head, tail, 0);
      } else {
        HeadIsOpen(head, tail, 0);
        if Quantity(sells) <= start { LotUntouched(buys[0], start, sells); }
      }
    }
  }

  /** In every reachable ledger, only the oldest open lot can be partly consumed. */
  lemma OnlyOldestLotPartlySold(fills: seq<Fill>)
    requires NeverOversold(fills)
    ensures UntouchedFrom(LedgerAfter(fills).0.lots, 1)
  {
    LedgerIsIntervalMatching(fills);
    OpenLotsBehindTheFirst(OfSide(fills, Buy), 0.0, OfSide(fills, Sell));
  }

  // ------------------------------------------------------------- round trips

  /** What the first `n` sells paid for their overlaps with the interval of `buy`. */
  function ExitValue(buy: Fill, start: real, sells: seq<Fill>, n: nat): real
    requires n <= |sells|
  {
    if n == 0 then 0.0 else ExitValue(buy, start, sells, n - 1) + Scale(sells[n - 1].price, Taken(buy, start, sells, n - 1))
  }

  /** Their commissions, each in proportion to the part of the sell that the overlap is. */
  function ExitCost(buy: Fill, start: real, sells: seq<Fill>, n: nat): real
    requires n <= |sells|
  {
    if n == 0 then 0.0
    else ExitCost(buy, start, sells, n - 1) + Share(sells[n - 1].commission, Taken(buy, start, sells, n - 1), sells[n - 1].quantity)
  }

  /** The sells among the first `n` whose intervals overlap that of `buy`, in order. */
  function ExitList(buy: Fill, start: real, sells: seq<Fill>, n: nat): seq<nat>
    requires n <= |sells|
  {
    if n == 0 then []
    else ExitList(buy, start, sells, n - 1) + (if Taken(buy, start, sells, n - 1) > 0.0 then [sells[n - 1].sequence] else [])
  }

  /** Everything a lot has accumulated, from its buy and the overlaps alone. */
  ghost predicate LotTells(lot: Lot, buy: Fill, start: real, sells: seq<Fill>, n: nat)
    requires n <= |sells|
  {
    && lot.entryPrice == buy.price && lot.entryCost == buy.commission
    && lot.weightedExit == ExitValue(buy, start, sells, n)
    && lot.exitCostUsed == ExitCost(buy, start, sells, n)
    && lot.exitSequences == ExitList(buy, start, sells, n)
    && Coherent(lot)
  }

  lemma {:induction false} LotAccumulates(buy: Fill, start: real, sells: seq<Fill>, n: nat)
    requires start >= 0.0 && n <= |sells|
    ensures LotTells(LotAfter(buy, start, sells[..n]), buy, start, sells, n)
    decreases n
  {
    if n == 0 {
      NewLotCoherent(buy);
    } else {
      var earlier, now, sell := sells[..n - 1], sells[..n], sells[n - 1];
      assert now[..n - 1] == earlier && now[n - 1] == sell;
      LotAccumulates(buy, start, sells, n - 1);
      LotRemaining(buy, start, earlier);
      LotRemaining(buy, start, now);
      TakenFits(start, buy.quantity, Quantity(earlier), Quantity(now));
      OneMoreSell(LotAfter(buy, start, earlier), buy, start, sells, n);
    }
  }

  lemma TakenFits(start: real, size: Positive, sold: real, now: real)
    requires start >= 0.0 && 0.0 <= sold <= now
    ensures 0.0 <= Overlap(start, start + size, sold, now) <= size - Overlap(start, start + size, 0.0, sold)
  {}

  lemma OneMoreSell(lot: Lot, buy: Fill, start: real, sells: seq<Fill>, n: nat)
    requires 0 < n <= |sells| && LotTells(lot, buy, start, sells, n - 1)
    requires 0.0 <= Taken(buy, start, sells, n - 1) <= lot.remaining
    ensures var taken := Taken(buy, start, sells, n - 1);
            LotTells(if taken > 0.0 then Match(lot, sells[n - 1], taken) else lot, buy, start, sells, n)
  {
    var taken, sell := Taken(buy, start, sells, n - 1), sells[n - 1];
    MatchCoherent(lot, sell, taken);
    assert Scale(sell.price, 0.0) == 0.0;
    ShareOfWhole(sell.commission, sell.quantity);
    assert lot.exitSequences + [] == lot.exitSequences;
  }

  /**
   The trade is the round trip of `buy`, whose interval begins at `start`: bought at its price with its
   full commission, sold at the volume-weighted price of the sells that overlap it, with their
   proportional commissions, and accounted for to the last share.
   */
  ghost predicate RoundTrip(trade: Trade, buy: Fill, start: real, sells: seq<Fill>) {
    && trade.entrySequence == buy.sequence && trade.quantity == buy.quantity
    && trade.entryPrice == buy.price && trade.entryCost == buy.commission
    && Scale(trade.exitPrice, trade.quantity) == ExitValue(buy, start, sells, |sells|)
    && trade.exitCost == ExitCost(buy, start, sells, |sells|)
    && trade.exitSequences == ExitList(buy, start, sells, |sells|)
    && Overlap(start, start + buy.quantity, 0.0, Quantity(sells)) == buy.quantity
    && Balanced(trade)
  }

  lemma SoldOutIsRoundTrip(buy: Fill, start: real, sells: seq<Fill>, sequence: nat)
    requires start >= 0.0 && LotAfter(buy, start, sells).remaining <= 0.0
    ensures RoundTrip(Completed(LotAfter(buy, start, sells), sequence), buy, start, sells)
  {
    var lot := LotAfter(buy, start, sells);
    LotRemaining(buy, start, sells);
    assert sells[..|sells|] == sells;
    LotAccumulates(buy, start, sells, |sells|);
    CompletedBalanced(lot, sequence);
    WeightedPrice(lot.weightedExit, lot.total);
  }

  lemma WeightedPrice(value: real, quantity: Positive)
    ensures Scale(value / quantity, quantity) == value
  {}

  lemma {:induction false} LeadingTradesOrder(buys: seq<Fill>, start: real, sells: seq<Fill>, sequence: nat, k: nat)
    requires start >= 0.0 && k < |LeadingTrades(AllLots(buys, start, sells), sequence)|
    ensures k < |buys|
    ensures var trade := LeadingTrades(AllLots(buys, start, sells), sequence)[k];
            trade.sequence == sequence + k && RoundTrip(trade, buys[k], start + Quantity(buys[..k]), sells)
    decreases |buys|
  {
    if k == 0 {
      SoldOutIsRoundTrip(buys[0], start, sells, sequence);
      assert buys[..0] == [];
    } else {
      LeadingTradesOrder(buys[1..], start + buys[0].quantity, sells, sequence + 1, k - 1);
      QuantityHead(buys[..k]);
      assert buys[..k][1..] == buys[1..][..k - 1];
    }
  }

  /** Trades complete in entry order, and the k-th trade is the round trip of the k-th buy. */
  lemma TradesInEntryOrder(fills: seq<Fill>, k: nat)
    requires NeverOversold(fills) && k < |LedgerAfter(fills).1|
    ensures var buys, sells, trade := OfSide(fills, Buy), OfSide(fills, Sell), LedgerAfter(fills).1[k];
            k < |buys| && trade.sequence == k && RoundTrip(trade, buys[k], Quantity(buys[..k]), sells)
  {
    LedgerIsIntervalMatching(fills);
    LeadingTradesOrder(OfSide(fills, Buy), 0.0, OfSide(fills, Sell), 0, k);
  }
}
