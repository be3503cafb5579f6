/** How the outcomes a paper service records, and its cash, correspond to the fills its book records. */
module PaperTrail {
  import opened Wrappers
  import opened Arithmetic
  import opened PaperBook
  import opened PaperFunds
  import opened PaperService
  import opened PaperCash

  function Accepted(outcomes: seq<Outcome>): seq<Outcome>
    decreases |outcomes|
  {
    if |outcomes| == 0 then []
    else
      var n := |outcomes| - 1;
      if outcomes[n].refusal.None? then Accepted(outcomes[..n]) + [outcomes[n]] else Accepted(outcomes[..n])
  }

  lemma AcceptedAppend(outcomes: seq<Outcome>, outcome: Outcome)
    ensures Accepted(outcomes + [outcome]) == if outcome.refusal.None? then Accepted(outcomes) + [outcome] else Accepted(outcomes)
  {
    assert (outcomes + [outcome])[..|outcomes|] == outcomes;
  }

  /** What a fill on record moves in cash under the cost model. */
  function NetOf(fill: FillRecord, costs: Costs): real {
    var notional := Scale(Effective(fill.price, fill.side, costs), fill.quantity);
    if fill.side.Buy? then -(notional + Fee(costs)) else notional - Fee(costs)
  }

  function TrailCash(fills: seq<FillRecord>, costs: Costs): real
    decreases |fills|
  {
    if |fills| == 0 then 0.0 else TrailCash(fills[..|fills| - 1], costs) + NetOf(fills[|fills| - 1], costs)
  }

  lemma TrailCashAppend(fills: seq<FillRecord>, fill: FillRecord, costs: Costs)
    ensures TrailCash(fills + [fill], costs) == TrailCash(fills, costs) + NetOf(fill, costs)
  {
    assert (fills + [fill])[..|fills|] == fills;
  }

  /** The outcome reports the fill, and its net cash is what the fill moves. */
  predicate Reports(outcome: Outcome, fill: FillRecord, costs: Costs) {
    && outcome.clientId == fill.clientId && outcome.side == fill.side && outcome.instrument == fill.instrument
    && outcome.quantity as real == fill.quantity && outcome.fillPrice == Some(fill.price)
    && outcome.netCash == NetOf(fill, costs)
  }

  /** The accepted outcomes are the fill trail, one for one and in order. */
  ghost predicate TrailMatches(desk: Desk) {
    && |Accepted(desk.outcomes)| == |desk.book.fills|
    && forall i :: 0 <= i < |desk.book.fills| ==> Reports(Accepted(desk.outcomes)[i], desk.book.fills[i], desk.account.costs)
  }

  // ----------------------------------------------------- beforehand, in step

  /** The call will be filled: the book takes it, the policy fills it on the shared quote, and a buy is affordable. */
  predicate WouldFill(desk: Desk, ticket: Ticket, naming: Naming) {
    var request := RequestFor(desk.account, ticket, ClientId(desk, ticket), naming);
    && Submittable(desk, ticket, request) && Decide(request, desk.prices[ticket.instrument]).Fills?
    && (ticket.side.Buy? ==> CanAfford(desk, ticket, request, desk.prices[ticket.instrument]))
  }

  function QuotedPrice(desk: Desk, ticket: Ticket, naming: Naming): Positive
    requires WouldFill(desk, ticket, naming)
  {
    Decide(RequestFor(desk.account, ticket, ClientId(desk, ticket), naming), desk.prices[ticket.instrument]).price
  }

  /** A price at which the cash ledger cannot settle: a buy that rounds to nothing, or a sell that does not exceed its fee. */
  predicate CannotSettle(price: Positive, ticket: Ticket, costs: Costs) {
    if ticket.side.Buy? then RoundsToNothing(price, costs.slippage) else Notional(price, ticket, costs) <= Fee(costs)
  }

  /** The book will record a fill that the service cannot settle. */
  predicate WouldStray(desk: Desk, ticket: Ticket, naming: Naming) {
    WouldFill(desk, ticket, naming) && CannotSettle(QuotedPrice(desk, ticket, naming), ticket, desk.account.costs)
  }

  /** The price at which a ticket trades on a quote: the last one for a market order, its own side's if that meets its limit. */
  function TicketPrice(ticket: Ticket, reference: Reference): Option<Positive> {
    var leg := if ticket.side.Buy? then reference.ask else reference.bid;
    if ticket.orderType.Market? then Some(reference.last)
    else if ticket.orderType.Limit? && leg.Some? && ticket.limitPrice.Some?
            && (if ticket.side.Buy? then leg.value <= ticket.limitPrice.value else leg.value >= ticket.limitPrice.value)
    then leg else None
  }

  lemma TicketDecides(desk: Desk, ticket: Ticket, naming: Naming, reference: Reference)
    ensures var request := RequestFor(desk.account, ticket, ClientId(desk, ticket), naming);
            if TicketPrice(ticket, reference).Some? then Decide(request, reference) == Fills(TicketPrice(ticket, reference).value)
            else Decide(request, reference).Refuses?
  {}

  /** Whether a call is filled, and at what price, follows from its ticket: its type, its limit, the quote, and for a buy the cash. */
  lemma WouldFillExactlyWhen(desk: Desk, ticket: Ticket, naming: Naming)
    requires Submittable(desk, ticket, RequestFor(desk.account, ticket, ClientId(desk, ticket), naming))
    ensures var price := TicketPrice(ticket, desk.prices[ticket.instrument]);
            && (WouldFill(desk, ticket, naming) <==>
                  price.Some? && (ticket.side.Buy? ==> Notional(price.value, ticket, desk.account.costs) + Fee(desk.account.costs) <= desk.funds.available))
            && (WouldFill(desk, ticket, naming) ==> QuotedPrice(desk, ticket, naming) == price.value)
  {
    TicketDecides(desk, ticket, naming, desk.prices[ticket.instrument]);
  }

  // ------------------------------------------------------------------ one call

  function RecordFor(desk: Desk, ticket: Ticket, naming: Naming): FillRecord
    requires WouldFill(desk, ticket, naming)
  {
    var clientId := ClientId(desk, ticket);
    FillRecord(desk.book.sequence, clientId, naming((desk.account.id, clientId)), ticket.side, ticket.instrument, desk.account.id,
               ticket.quantity as real, QuotedPrice(desk, ticket, naming))
  }

  lemma FillIsRecorded(desk: Desk, ticket: Ticket, clock: Clock, naming: Naming)
    requires InStep(desk) && WouldFill(desk, ticket, naming)
    ensures Reaches(desk, ticket, clock, naming)
    ensures SeenBy(desk, ticket, clock, naming).price == Some(QuotedPrice(desk, ticket, naming))
    ensures Brokered(desk, ticket, clock, naming).0.fills == desk.book.fills + [RecordFor(desk, ticket, naming)]
  {
    var request := RequestFor(desk.account, ticket, ClientId(desk, ticket), naming);
    var price, id := QuotedPrice(desk, ticket, naming), naming(KeyOf(request));
    FreshEvents(request, id, clock.book, Fills(price));
    assert Undrained(Brokered(desk, ticket, clock, naming).0) == EventsFor(request, id, clock.book, Fills(price));
  }

  lemma NoFillIsRecorded(desk: Desk, ticket: Ticket, clock: Clock, naming: Naming)
    requires InStep(desk) && !WouldFill(desk, ticket, naming) && Reaches(desk, ticket, clock, naming)
    ensures SeenBy(desk, ticket, clock, naming).price.None?
    ensures Brokered(desk, ticket, clock, naming).0.fills == desk.book.fills
  {
    if SeenBy(desk, ticket, clock, naming).price.Some? {
      FillsAtOwnQuote(desk, ticket, clock, naming);
    }
  }

  /** The ledger settles a fill exactly at prices at which it can. */
  lemma SettlesExactlyWhen(funds: Funds, price: Positive, ticket: Ticket, costs: Costs)
    requires ticket.quantity > 0
    requires ticket.side.Buy? ==> Notional(price, ticket, costs) + Fee(costs) <= funds.available
    ensures var settlement := Settle(funds, ticket.side, Notional(price, ticket, costs), Fee(costs));
            && (CannotSettle(price, ticket, costs) <==> settlement.Err? || Effective(price, ticket.side, costs) <= 0.0)
            && (settlement.Ok? ==>
                  settlement.value.netCash == if ticket.side.Buy? then -(Notional(price, ticket, costs) + Fee(costs))
                                              else Notional(price, ticket, costs) - Fee(costs))
  {
    SettlementMovesNetCash(funds, ticket.side, Notional(price, ticket, costs), Fee(costs));
    CommissionIsNonNegative(costs.commission);
    SlippedBuyPrice(price, costs.slippage);
    NotionalSign(Effective(price, ticket.side, costs), ticket.quantity as real);
  }

  /** The outcome that reports a fill at the price. */
  predicate IsReport(o: Outcome, ticket: Ticket, clientId: string, price: Positive, costs: Costs) {
    && o.refusal.None? && o.clientId == clientId && o.side == ticket.side && o.instrument == ticket.instrument
    && o.quantity == ticket.quantity && o.fillPrice == Some(price)
    && o.netCash == if ticket.side.Buy? then -(Notional(price, ticket, costs) + Fee(costs)) else Notional(price, ticket, costs) - Fee(costs)
  }

  /** A fill is reported exactly when it can be settled. */
  lemma ChargeReports(desk: Desk, ticket: Ticket, clientId: string, price: Positive, at: int, now: int)
    requires ticket.quantity > 0
    requires ticket.side.Buy? ==> Notional(price, ticket, desk.account.costs) + Fee(desk.account.costs) <= desk.funds.available
    ensures var after, costs := Charged(desk, ticket, clientId, price, at, now).0, desk.account.costs;
            && after.book == desk.book && after.account == desk.account
            && if CannotSettle(price, ticket, costs) then Accepted(after.outcomes) == Accepted(desk.outcomes)
               else
                 && |after.outcomes| == |desk.outcomes| + 1
                 && var o := after.outcomes[|desk.outcomes|];
                    after.outcomes == desk.outcomes + [o] && IsReport(o, ticket, clientId, price, costs)
  {
    SettlesExactlyWhen(desk.funds, price, ticket, desk.account.costs);
    var after := Charged(desk, ticket, clientId, price, at, now).0;
    if after.outcomes != desk.outcomes {
      AcceptedAppend(desk.outcomes, after.outcomes[|desk.outcomes|]);
    }
  }

  lemma RefusalIsNotAccepted(desk: Desk, ticket: Ticket, clientId: string, refusal: Refusal, at: int)
    ensures var after := PaperService.Refused(desk, ticket, clientId, refusal, at).0;
            after.book == desk.book && Accepted(after.outcomes) == Accepted(desk.outcomes) && NetSum(after.outcomes) == NetSum(desk.outcomes)
  {
    var outcome := PaperService.Refused(desk, ticket, clientId, refusal, at).1.value;
    AcceptedAppend(desk.outcomes, outcome);
    NetSumAppend(desk.outcomes, outcome);
  }

  /** A call that will not be filled adds neither a fill nor an accepted outcome. */
  lemma QuietCall(desk: Desk, ticket: Ticket, clock: Clock, naming: Naming)
    requires InStep(desk) && !WouldFill(desk, ticket, naming)
    ensures var after := SubmitOn(desk, ticket, clock, naming).0;
            && after.book.fills == desk.book.fills && Accepted(after.outcomes) == Accepted(desk.outcomes)
            && NetSum(after.outcomes) == NetSum(desk.outcomes)
  {
    var clientId := ClientId(desk, ticket);
    if Reaches(desk, ticket, clock, naming) {
      NoFillIsRecorded(desk, ticket, clock, naming);
      ReachingCall(desk, ticket, clock, naming);
      var seen := SeenBy(desk, ticket, clock, naming);
      RefusalIsNotAccepted(Taken(desk, ticket, clock, naming), ticket, clientId,
                           BrokerRejected(if seen.reason.Some? then seen.reason.value else "order rejected by paper broker"), seen.at);
    } else {
      RefusalIsNotAccepted(Numbered(desk, ticket), ticket, clientId, QuantityRefused, clock.refused);
      RefusalIsNotAccepted(Numbered(desk, ticket), ticket, clientId, InsufficientFunds, clock.refused);
    }
  }

  /** A call that will be filled adds one fill, and one outcome that reports it exactly when it does not stray. */
  lemma FillingCall(desk: Desk, ticket: Ticket, clock: Clock, naming: Naming)
    requires InStep(desk) && WouldFill(desk, ticket, naming)
    ensures var after, fill := SubmitOn(desk, ticket, clock, naming).0, RecordFor(desk, ticket, naming);
            && after.book.fills == desk.book.fills + [fill]
            && if WouldStray(desk, ticket, naming) then Accepted(after.outcomes) == Accepted(desk.outcomes)
               else
                 && |after.outcomes| == |desk.outcomes| + 1
                 && var o := after.outcomes[|desk.outcomes|];
                    after.outcomes == desk.outcomes + [o] && o.refusal.None? && Reports(o, fill, desk.account.costs)
  {
    FillIsRecorded(desk, ticket, clock, naming);
    var price, seen := QuotedPrice(desk, ticket, naming), SeenBy(desk, ticket, clock, naming);
    ChargeReports(Taken(desk, ticket, clock, naming), ticket, ClientId(desk, ticket), price, seen.at, clock.refused);
    ReachingCall(desk, ticket, clock, naming);
  }

  /** In step, an accepted outcome honours its ticket: the same side, instrument and quantity, at the price the ticket asks for. */
  lemma AcceptedTicketsAreHonoured(desk: Desk, ticket: Ticket, clock: Clock, naming: Naming)
    requires InStep(desk) && WouldFill(desk, ticket, naming) && !WouldStray(desk, ticket, naming)
    ensures var after := SubmitOn(desk, ticket, clock, naming).0;
            && |after.outcomes| == |desk.outcomes| + 1
            && var o := after.outcomes[|desk.outcomes|];
            && o.refusal.None? && o.side == ticket.side && o.instrument == ticket.instrument && o.quantity == ticket.quantity
            && ticket.instrument in desk.prices && o.fillPrice == TicketPrice(ticket, desk.prices[ticket.instrument])
  {
    WouldFillExactlyWhen(desk, ticket, naming);
    FillingCall(desk, ticket, clock, naming);
  }

  // ------------------------------------------------------------------- all runs

  /** The desk after the first `n` acts. */
  function After(desk: Desk, acts: seq<Act>, naming: Naming, n: nat): Desk
    requires n <= |acts|
  {
    PaperCash.Run(desk, acts[..n], naming)
  }

  lemma AfterNext(desk: Desk, acts: seq<Act>, naming: Naming, n: nat)
    requires n < |acts|
    ensures After(desk, acts, naming, n + 1) == Acted(After(desk, acts, naming, n), acts[n], naming)
  {
    var longer := acts[..n + 1];
    assert longer[..n] == acts[..n] && longer[n] == acts[n];
  }

  lemma AfterStart(desk: Desk, acts: seq<Act>, naming: Naming)
    ensures After(desk, acts, naming, 0) == desk
  {
    assert acts[..0] == [];
  }

  /** One if the act submits an order whose fill strays. */
  function Strays(desk: Desk, act: Act, naming: Naming): nat {
    if act.Submits? && WouldStray(desk, act.ticket, naming) then 1 else 0
  }

  /** Act `k` submits an order whose fill strays. */
  ghost predicate StraysAt(desk: Desk, acts: seq<Act>, naming: Naming, k: int) {
    0 <= k < |acts| && Strays(After(desk, acts, naming, k), acts[k], naming) > 0
  }

  /** How many of the first `n` flags are set. */
  function Count(flags: seq<bool>, n: nat): nat
    requires n <= |flags|
  {
    if n == 0 then 0 else Count(flags, n - 1) + (if flags[n - 1] then 1 else 0)
  }

  lemma {:induction false} SetIsCounted(flags: seq<bool>, k: nat, n: nat)
    requires k < n <= |flags| && flags[k]
    ensures Count(flags, n) > 0
  {
    if k < n - 1 { SetIsCounted(flags, k, n - 1); }
  }

  ghost function StrayFlags(desk: Desk, acts: seq<Act>, naming: Naming): seq<bool> {
    seq(|acts|, k => StraysAt(desk, acts, naming, k))
  }

  /** How many fills of the first `n` acts strayed. */
  ghost function StrayCount(desk: Desk, acts: seq<Act>, naming: Naming, n: nat): nat
    requires n <= |acts|
  {
    Count(StrayFlags(desk, acts, naming), n)
  }

  lemma ActKeepsCount(desk: Desk, act: Act, naming: Naming)
    requires InStep(desk)
    ensures var after := Acted(desk, act, naming);
            && InStep(after) && after.account == desk.account
            && |after.book.fills| - |Accepted(after.outcomes)| == |desk.book.fills| - |Accepted(desk.outcomes)| + Strays(desk, act, naming)
  {
    if act.Submits? {
      CallStaysInStep(desk, act.ticket, act.clock, naming);
      CallAccounts(desk, act.ticket, act.clock, naming);
      if WouldFill(desk, act.ticket, naming) {
        FillingCall(desk, act.ticket, act.clock, naming);
        var after := SubmitOn(desk, act.ticket, act.clock, naming).0;
        if !WouldStray(desk, act.ticket, naming) { AcceptedAppend(desk.outcomes, after.outcomes[|desk.outcomes|]); }
      } else {
        QuietCall(desk, act.ticket, act.clock, naming);
      }
    }
  }

  /** In step, at every moment of a run: the fills on record are the accepted outcomes and the strays. */
  lemma {:induction false} FillsAreAcceptedOrStray(desk: Desk, acts: seq<Act>, naming: Naming, n: nat)
    requires InStep(desk) && n <= |acts|
    ensures var after := After(desk, acts, naming, n);
            && InStep(after) && after.account == desk.account
            && |after.book.fills| - |desk.book.fills| == |Accepted(after.outcomes)| - |Accepted(desk.outcomes)| + StrayCount(desk, acts, naming, n)
  {
    if n == 0 {
      AfterStart(desk, acts, naming);
    } else {
      FillsAreAcceptedOrStray(desk, acts, naming, n - 1);
      AfterNext(desk, acts, naming, n - 1);
      ActKeepsCount(After(desk, acts, naming, n - 1), acts[n - 1], naming);
    }
  }

  lemma ActKeepsTrail(desk: Desk, act: Act, naming: Naming)
    requires InStep(desk) && TrailMatches(desk) && Strays(desk, act, naming) == 0
    ensures TrailMatches(Acted(desk, act, naming))
    ensures var after, costs := Acted(desk, act, naming), desk.account.costs;
            NetSum(after.outcomes) - NetSum(desk.outcomes) == TrailCash(after.book.fills, costs) - TrailCash(desk.book.fills, costs)
  {
    if act.Submits? {
      CallAccounts(desk, act.ticket, act.clock, naming);
      if WouldFill(desk, act.ticket, naming) {
        FillingCall(desk, act.ticket, act.clock, naming);
        var after := SubmitOn(desk, act.ticket, act.clock, naming).0;
        var o := after.outcomes[|desk.outcomes|];
        AcceptedAppend(desk.outcomes, o);
        NetSumAppend(desk.outcomes, o);
        TrailCashAppend(desk.book.fills, RecordFor(desk, act.ticket, naming), desk.account.costs);
      } else {
        QuietCall(desk, act.ticket, act.clock, naming);
      }
    }
  }

  lemma {:induction false} TrailIsKept(desk: Desk, acts: seq<Act>, naming: Naming, n: nat)
    requires InStep(desk) && TrailMatches(desk) && n <= |acts| && forall k :: !StraysAt(desk, acts, naming, k)
    ensures TrailMatches(After(desk, acts, naming, n))
    ensures var after, costs := After(desk, acts, naming, n), desk.account.costs;
            NetSum(after.outcomes) - NetSum(desk.outcomes) == TrailCash(after.book.fills, costs) - TrailCash(desk.book.fills, costs)
  {
    if n == 0 {
      AfterStart(desk, acts, naming);
    } else {
      TrailIsKept(desk, acts, naming, n - 1);
      FillsAreAcceptedOrStray(desk, acts, naming, n - 1);
      AfterNext(desk, acts, naming, n - 1);
      assert !StraysAt(desk, acts, naming, n - 1);
      ActKeepsTrail(After(desk, acts, naming, n - 1), acts[n - 1], naming);
    }
  }

  /**
   In step, the accepted outcomes are the fill trail, one for one, if and only if no call of the run was filled
   at a price at which the cash ledger cannot settle: a buy that rounds to nothing, or a sell that does not exceed its fee.
   */
  lemma TrailMatchesExactlyWhen(desk: Desk, acts: seq<Act>, naming: Naming)
    requires InStep(desk) && TrailMatches(desk)
    ensures TrailMatches(PaperCash.Run(desk, acts, naming)) <==> forall k :: !StraysAt(desk, acts, naming, k)
  {
    var n := |acts|;
    assert acts[..n] == acts;
    if k :| StraysAt(desk, acts, naming, k) {
      SetIsCounted(StrayFlags(desk, acts, naming), k, n);
      FillsAreAcceptedOrStray(desk, acts, naming, n);
    } else {
      TrailIsKept(desk, acts, naming, n);
    }
  }

  /** A fee that vanishes belongs to a stray. */
  lemma VanishedStrays(desk: Desk, acts: seq<Act>, naming: Naming, k: int)
    requires InStep(desk) && VanishesAt(desk, acts, naming, k)
    ensures StraysAt(desk, acts, naming, k)
  {
    var before, ticket := After(desk, acts, naming, k), acts[k].ticket;
    FillsAreAcceptedOrStray(desk, acts, naming, k);
    VanishesExactlyWhen(before, ticket, acts[k].clock, naming);
    var price := Decide(RequestFor(before.account, ticket, ClientId(before, ticket), naming), before.prices[ticket.instrument]).price;
    SlippedBuyPrice(price, before.account.costs.slippage);
    NotionalSign(Effective(price, Buy, before.account.costs), ticket.quantity as real);
  }

  /** Then cash follows from the fill trail alone: it moves by what every recorded fill costs or brings. */
  lemma CashFollowsTheTrail(desk: Desk, acts: seq<Act>, naming: Naming)
    requires InStep(desk) && TrailMatches(desk) && forall k :: !StraysAt(desk, acts, naming, k)
    ensures var end, costs := PaperCash.Run(desk, acts, naming), desk.account.costs;
            Total(end.funds) - Total(desk.funds) == TrailCash(end.book.fills, costs) - TrailCash(desk.book.fills, costs)
  {
    assert acts[..|acts|] == acts;
    TrailIsKept(desk, acts, naming, |acts|);
    forall k ensures !VanishesAt(desk, acts, naming, k) {
      if VanishesAt(desk, acts, naming, k) { VanishedStrays(desk, acts, naming, k); }
    }
    CashIsConservedExactlyWhen(desk, acts, naming);
  }

  // ------------------------------------------------------------ fair charges

  /**
   An accepted outcome is charged at its fill price with the configured basis points, to the nearest
   ten-thousandth, and pays the configured fee, to the nearest hundredth; a refused one moves nothing.
   */
  ghost predicate ChargedFairly(o: Outcome, costs: Costs) {
    if o.refusal.Some? then o.fillPrice.None? && o.effective.None? && o.fee == 0.0 && o.netCash == 0.0
    else
      && o.fillPrice.Some? && o.effective.Some? && o.effective.value > 0.0
      && (if costs.slippage.NoSlippage? then o.effective.value == o.fillPrice.value
          else Nearest(o.effective.value, ExactPrice(o.fillPrice.value, o.side, costs.slippage), 0.0001))
      && (if costs.commission.NoCommission? then o.fee == 0.0 else Nearest(o.fee, costs.commission.fee, 0.01))
      && var notional := Scale(o.effective.value, o.quantity as real);
         o.netCash == if o.side.Buy? then -(notional + o.fee) else notional - o.fee
  }

  ghost predicate AllChargedFairly(desk: Desk) {
    forall i :: 0 <= i < |desk.outcomes| ==> ChargedFairly(desk.outcomes[i], desk.account.costs)
  }

  lemma RefusalIsFair(desk: Desk, ticket: Ticket, clientId: string, refusal: Refusal, at: int)
    requires AllChargedFairly(desk)
    ensures AllChargedFairly(PaperService.Refused(desk, ticket, clientId, refusal, at).0)
  {}

  lemma ChargeIsFair(desk: Desk, ticket: Ticket, clientId: string, price: Positive, at: int, now: int)
    requires AllChargedFairly(desk)
    ensures AllChargedFairly(Charged(desk, ticket, clientId, price, at, now).0)
  {
    EffectivePriceIsNearest(price, ticket.side, desk.account.costs.slippage);
    FeeIsNearest(desk.account.costs.commission);
  }

  lemma CallIsFair(desk: Desk, ticket: Ticket, clock: Clock, naming: Naming)
    requires AllChargedFairly(desk)
    ensures AllChargedFairly(SubmitOn(desk, ticket, clock, naming).0)
  {
    var clientId := ClientId(desk, ticket);
    if Reaches(desk, ticket, clock, naming) {
      var taken, seen := Taken(desk, ticket, clock, naming), SeenBy(desk, ticket, clock, naming);
      ReachingCall(desk, ticket, clock, naming);
      if seen.price.Some? {
        ChargeIsFair(taken, ticket, clientId, seen.price.value, seen.at, clock.refused);
      } else {
        RefusalIsFair(taken, ticket, clientId, BrokerRejected(if seen.reason.Some? then seen.reason.value else "order rejected by paper broker"), seen.at);
      }
    } else {
      RefusalIsFair(Numbered(desk, ticket), ticket, clientId, QuantityRefused, clock.refused);
      RefusalIsFair(Numbered(desk, ticket), ticket, clientId, InsufficientFunds, clock.refused);
    }
  }

  /** Over every run, in step or not, every outcome on record is charged fairly. */
  lemma {:induction false} OutcomesAreChargedFairly(desk: Desk, acts: seq<Act>, naming: Naming)
    requires AllChargedFairly(desk)
    ensures AllChargedFairly(PaperCash.Run(desk, acts, naming))
    decreases |acts|
  {
    if |acts| > 0 {
      var n := |acts| - 1;
      OutcomesAreChargedFairly(desk, acts[..n], naming);
      if acts[n].Submits? { CallIsFair(PaperCash.Run(desk, acts[..n], naming), acts[n].ticket, acts[n].clock, naming); }
    }
  }

  // -------------------------------------------------------------- counterexample

  /** A desk whose fee is larger than what one share at its quote brings. */
  function DearDesk(): Desk {
    var prices := map[1 := Reference(1, 1.0, None, None)];
    Desk(Account(1, "paper-1", true, Costs(NoSlippage, FixedPerTrade(1.0))), Funds(10.0, 0.0), NoRepository, [], 0, prices, true, prices, PaperBook.EMPTY)
  }

  /** A concrete stray: the book records the sell of a share, and the service records neither outcome nor cash. */
  lemma SellStrays(naming: Naming)
    ensures var desk, ticket := DearDesk(), Ticket(1, Sell, 1, Market, None, Some("x"));
            var after := SubmitOn(desk, ticket, NOON, naming).0;
            && InStep(desk) && TrailMatches(desk) && WouldStray(desk, ticket, naming)
            && |after.book.fills| == 1 && Accepted(after.outcomes) == [] && !TrailMatches(after)
  {
    var desk, ticket := DearDesk(), Ticket(1, Sell, 1, Market, None, Some("x"));
    PennyArithmetic();
    ScaleByOne(1.0);
    assert !IsSpace("x"[0]);
    assert !Blank(ClientId(desk, ticket));
    FillingCall(desk, ticket, NOON, naming);
  }
}
