/** What the paper service's cash ledger keeps over every run. */
module PaperCash {
  import opened Wrappers
  import opened Arithmetic
  import opened OrderLifecycle
  import opened PaperBook
  import opened PaperFunds
  import opened PaperService

  // -------------------------------------------------------------------- runs

  datatype Act = Submits(ticket: Ticket, clock: Clock) | SetsPrice(instrument: InstrumentId, reference: Reference)

  function Acted(desk: Desk, act: Act, naming: Naming): Desk {
    match act
    case Submits(ticket, clock) => SubmitOn(desk, ticket, clock, naming).0
    case SetsPrice(instrument, reference) => SetPrice(desk, instrument, reference)
  }

  function Run(desk: Desk, acts: seq<Act>, naming: Naming): Desk
    decreases |acts|
  {
    if |acts| == 0 then desk else Acted(Run(desk, acts[..|acts| - 1], naming), acts[|acts| - 1], naming)
  }

  function NetSum(outcomes: seq<Outcome>): real
    decreases |outcomes|
  {
    if |outcomes| == 0 then 0.0 else NetSum(outcomes[..|outcomes| - 1]) + outcomes[|outcomes| - 1].netCash
  }

  lemma NetSumAppend(outcomes: seq<Outcome>, outcome: Outcome)
    ensures NetSum(outcomes + [outcome]) == NetSum(outcomes) + outcome.netCash
  {
    assert (outcomes + [outcome])[..|outcomes|] == outcomes;
  }

  // ----------------------------------------------------------- client order ids

  /** Generated ids of one account are all different, and none is empty. */
  lemma GeneratedIdsDiffer(account: AccountId, m: nat, n: nat)
    ensures |AutoId(account, n)| > 0 && (AutoId(account, m) == AutoId(account, n) ==> m == n)
  {
    var head := "paper-" + Text(account) + "-";
    assert |AutoId(account, m)| == |head| + m && |AutoId(account, n)| == |head| + n;
  }

  lemma ConclusionKeepsId(desk: Desk, ticket: Ticket, clientId: string, seen: Collected, now: int)
    ensures var (after, answer) := Concluded(desk, ticket, clientId, seen, now);
            after.sequence == desk.sequence && (answer.Ok? ==> answer.value.clientId == clientId)
  {}

  lemma EarlyReturnKeepsId(desk: Desk, ticket: Ticket, clock: Clock, naming: Naming)
    requires desk.account.active && !Reaches(desk, ticket, clock, naming)
    ensures var (after, answer) := SubmitOn(desk, ticket, clock, naming);
            after.sequence == Numbered(desk, ticket).sequence && (answer.Ok? ==> answer.value.clientId == ClientId(desk, ticket))
  {}

  /** A call goes by the id of its ticket, and an absent or empty one is replaced by the next generated one. */
  lemma CallsGoByTheirIds(desk: Desk, ticket: Ticket, clock: Clock, naming: Naming)
    requires desk.account.active
    ensures var (after, answer), given := SubmitOn(desk, ticket, clock, naming), ticket.clientId.Some? && ticket.clientId.value != "";
            && after.sequence == desk.sequence + (if given then 0 else 1)
            && (answer.Ok? ==> answer.value.clientId == if given then ticket.clientId.value else AutoId(desk.account.id, desk.sequence + 1))
  {
    if Reaches(desk, ticket, clock, naming) {
      ReachingCall(desk, ticket, clock, naming);
      ConclusionKeepsId(Taken(desk, ticket, clock, naming), ticket, ClientId(desk, ticket), SeenBy(desk, ticket, clock, naming), clock.refused);
    } else {
      EarlyReturnKeepsId(desk, ticket, clock, naming);
    }
  }

  // ------------------------------------------------------------ conservation

  /**
   A buy that the broker fills at a price whose slipped value rounds to nothing, with a fee that
   the account can pay: the fee is taken and then no outcome can be recorded.
   */
  predicate Vanishes(desk: Desk, ticket: Ticket, clock: Clock, naming: Naming) {
    && ticket.side.Buy? && Reaches(desk, ticket, clock, naming)
    && var price := SeenBy(desk, ticket, clock, naming).price;
    && price.Some? && Effective(price.value, Buy, desk.account.costs) == 0.0
    && 0.0 < Fee(desk.account.costs) <= desk.funds.available
  }

  /** Cash that leaves the account without an outcome on record. */
  function VanishedBy(desk: Desk, act: Act, naming: Naming): real {
    if act.Submits? && Vanishes(desk, act.ticket, act.clock, naming) then Fee(desk.account.costs) else 0.0
  }

  function LossAt(desk: Desk, acts: seq<Act>, naming: Naming, k: nat): real
    requires k < |acts|
  {
    VanishedBy(Run(desk, acts[..k], naming), acts[k], naming)
  }

  function Sum(losses: seq<real>): real
    decreases |losses|
  {
    if |losses| == 0 then 0.0 else Sum(losses[..|losses| - 1]) + losses[|losses| - 1]
  }

  function Losses(desk: Desk, acts: seq<Act>, naming: Naming): seq<real> {
    seq(|acts|, k requires 0 <= k < |acts| => LossAt(desk, acts, naming, k))
  }

  function Vanished(desk: Desk, acts: seq<Act>, naming: Naming): real {
    Sum(Losses(desk, acts, naming))
  }

  lemma LossesOfPrefix(desk: Desk, acts: seq<Act>, naming: Naming, n: nat)
    requires n <= |acts|
    ensures Losses(desk, acts[..n], naming) == Losses(desk, acts, naming)[..n]
  {
    forall k | 0 <= k < n ensures Losses(desk, acts[..n], naming)[k] == Losses(desk, acts, naming)[k] {
      assert acts[..n][..k] == acts[..k];
    }
  }

  lemma LossesExtend(desk: Desk, acts: seq<Act>, naming: Naming, n: nat)
    requires n + 1 == |acts|
    ensures Losses(desk, acts, naming) == Losses(desk, acts[..n], naming) + [LossAt(desk, acts, naming, n)]
  {
    LossesOfPrefix(desk, acts, naming, n);
    EndsWithLast(Losses(desk, acts, naming), n, LossAt(desk, acts, naming, n));
  }

  lemma EndsWithLast(losses: seq<real>, n: nat, last: real)
    requires |losses| == n + 1 && losses[n] == last
    ensures losses == losses[..n] + [last]
  {}

  lemma SumAppend(losses: seq<real>, loss: real)
    ensures Sum(losses + [loss]) == Sum(losses) + loss
  {
    assert (losses + [loss])[..|losses|] == losses;
  }

  lemma VanishedStep(desk: Desk, acts: seq<Act>, naming: Naming, n: nat)
    requires n + 1 == |acts|
    ensures Vanished(desk, acts, naming) == Vanished(desk, acts[..n], naming) + LossAt(desk, acts, naming, n)
  {
    LossesExtend(desk, acts, naming, n);
    SumAppend(Losses(desk, acts[..n], naming), LossAt(desk, acts, naming, n));
  }

  lemma ChargeAccounts(desk: Desk, ticket: Ticket, clientId: string, price: Positive, at: int, now: int)
    requires ticket.quantity > 0
    ensures var after := Charged(desk, ticket, clientId, price, at, now).0;
            var fee := Fee(desk.account.costs);
            var lost := ticket.side.Buy? && Effective(price, Buy, desk.account.costs) == 0.0 && 0.0 < fee <= desk.funds.available;
            && after.funds.reserved == desk.funds.reserved
            && Total(after.funds) - Total(desk.funds) == NetSum(after.outcomes) - NetSum(desk.outcomes) - (if lost then fee else 0.0)
  {
    var costs := desk.account.costs;
    var effective, notional, fee := Effective(price, ticket.side, costs), Notional(price, ticket, costs), Fee(costs);
    SettlementMovesNetCash(desk.funds, ticket.side, notional, fee);
    CommissionIsNonNegative(costs.commission);
    SlippedBuyPrice(price, costs.slippage);
    NotionalSign(effective, ticket.quantity as real);
    var after := Charged(desk, ticket, clientId, price, at, now);
    if after.0.outcomes != desk.outcomes {
      NetSumAppend(desk.outcomes, after.1.value);
    }
  }

  lemma NotionalSign(effective: real, quantity: Positive)
    ensures effective > 0.0 ==> Scale(effective, quantity) > 0.0
    ensures effective == 0.0 ==> Scale(effective, quantity) == 0.0
    ensures effective < 0.0 ==> Scale(effective, quantity) < 0.0
  {}

  lemma RefusalAccounts(desk: Desk, ticket: Ticket, clientId: string, refusal: Refusal, at: int)
    ensures var after := Refused(desk, ticket, clientId, refusal, at).0;
            after.funds == desk.funds && NetSum(after.outcomes) == NetSum(desk.outcomes)
  {
    NetSumAppend(desk.outcomes, Refused(desk, ticket, clientId, refusal, at).1.value);
  }

  lemma EarlyReturnAccounts(desk: Desk, ticket: Ticket, clock: Clock, naming: Naming)
    requires !Reaches(desk, ticket, clock, naming)
    ensures var after := SubmitOn(desk, ticket, clock, naming).0;
            after.account == desk.account && after.funds == desk.funds && NetSum(after.outcomes) == NetSum(desk.outcomes)
  {
    var clientId, numbered := ClientId(desk, ticket), Numbered(desk, ticket);
    RefusalAccounts(numbered, ticket, clientId, QuantityRefused, clock.refused);
    RefusalAccounts(numbered, ticket, clientId, InsufficientFunds, clock.refused);
  }

  lemma ConclusionAccounts(desk: Desk, ticket: Ticket, clientId: string, seen: Collected, now: int)
    requires ticket.quantity > 0
    ensures var after := Concluded(desk, ticket, clientId, seen, now).0;
            var fee := Fee(desk.account.costs);
            var lost := ticket.side.Buy? && seen.price.Some? && Effective(seen.price.value, Buy, desk.account.costs) == 0.0
                        && 0.0 < fee <= desk.funds.available;
            && after.account == desk.account && after.funds.reserved == desk.funds.reserved
            && Total(after.funds) - Total(desk.funds) == NetSum(after.outcomes) - NetSum(desk.outcomes) - (if lost then fee else 0.0)
  {
    if seen.price.Some? {
      ChargeAccounts(desk, ticket, clientId, seen.price.value, seen.at, now);
    } else {
      RefusalAccounts(desk, ticket, clientId, BrokerRejected(if seen.reason.Some? then seen.reason.value else "order rejected by paper broker"), seen.at);
    }
  }

  /** The desk as the broker has left it, before the call is concluded. */
  function Taken(desk: Desk, ticket: Ticket, clock: Clock, naming: Naming): Desk {
    Numbered(desk, ticket).(book := Drained(Brokered(desk, ticket, clock, naming).0))
  }

  lemma ReachingCall(desk: Desk, ticket: Ticket, clock: Clock, naming: Naming)
    requires Reaches(desk, ticket, clock, naming)
    ensures SubmitOn(desk, ticket, clock, naming)
            == Concluded(Taken(desk, ticket, clock, naming), ticket, ClientId(desk, ticket), SeenBy(desk, ticket, clock, naming), clock.refused)
  {}

  lemma ReachingAccounts(desk: Desk, ticket: Ticket, clock: Clock, naming: Naming)
    requires Reaches(desk, ticket, clock, naming)
    ensures var after := SubmitOn(desk, ticket, clock, naming).0;
            && after.account == desk.account && after.funds.reserved == desk.funds.reserved
            && Total(after.funds) - Total(desk.funds)
               == NetSum(after.outcomes) - NetSum(desk.outcomes) - VanishedBy(desk, Act.Submits(ticket, clock), naming)
  {
    var taken, seen := Taken(desk, ticket, clock, naming), SeenBy(desk, ticket, clock, naming);
    assert taken.account == desk.account && taken.funds == desk.funds && taken.outcomes == desk.outcomes;
    ReachingCall(desk, ticket, clock, naming);
    ConclusionAccounts(taken, ticket, ClientId(desk, ticket), seen, clock.refused);
  }

  /** One call moves exactly the net cash of the outcome it records, less what vanishes. */
  lemma CallAccounts(desk: Desk, ticket: Ticket, clock: Clock, naming: Naming)
    ensures var after := SubmitOn(desk, ticket, clock, naming).0;
            && after.account == desk.account && after.funds.reserved == desk.funds.reserved
            && Total(after.funds) - Total(desk.funds)
               == NetSum(after.outcomes) - NetSum(desk.outcomes) - VanishedBy(desk, Act.Submits(ticket, clock), naming)
  {
    if Reaches(desk, ticket, clock, naming) {
      ReachingAccounts(desk, ticket, clock, naming);
    } else {
      EarlyReturnAccounts(desk, ticket, clock, naming);
    }
  }

  /**
   Over every run: cash is what the account began with plus the recorded net cash, less what
   vanished; reserved cash never changes. Available cash cannot be negative by its type.
   */
  lemma {:induction false} CashIsAccountedFor(desk: Desk, acts: seq<Act>, naming: Naming)
    ensures var end := Run(desk, acts, naming);
            && end.account == desk.account && end.funds.reserved == desk.funds.reserved && end.funds.available >= 0.0
            && Total(end.funds) == Total(desk.funds) + NetSum(end.outcomes) - NetSum(desk.outcomes) - Vanished(desk, acts, naming)
    decreases |acts|
  {
    if |acts| > 0 {
      var n := |acts| - 1;
      CashIsAccountedFor(desk, acts[..n], naming);
      VanishedStep(desk, acts, naming, n);
      if acts[n].Submits? { CallAccounts(Run(desk, acts[..n], naming), acts[n].ticket, acts[n].clock, naming); }
    }
  }

  ghost predicate VanishesAt(desk: Desk, acts: seq<Act>, naming: Naming, k: int) {
    0 <= k < |acts| && acts[k].Submits? && Vanishes(Run(desk, acts[..k], naming), acts[k].ticket, acts[k].clock, naming)
  }

  lemma LossMeaning(desk: Desk, acts: seq<Act>, naming: Naming, k: nat)
    requires k < |acts|
    ensures LossAt(desk, acts, naming, k) >= 0.0
    ensures LossAt(desk, acts, naming, k) == 0.0 <==> !VanishesAt(desk, acts, naming, k)
  {}

  lemma {:induction false} SumOfNonNegatives(losses: seq<real>)
    requires forall k :: 0 <= k < |losses| ==> losses[k] >= 0.0
    ensures Sum(losses) >= 0.0
    ensures Sum(losses) == 0.0 <==> forall k :: 0 <= k < |losses| ==> losses[k] == 0.0
    decreases |losses|
  {
    if |losses| > 0 {
      var n := |losses| - 1;
      SumOfNonNegatives(losses[..n]);
      assert forall k :: 0 <= k < n ==> losses[..n][k] == losses[k];
    }
  }

  lemma VanishedMeaning(desk: Desk, acts: seq<Act>, naming: Naming)
    ensures Vanished(desk, acts, naming) == 0.0 <==> forall k :: !VanishesAt(desk, acts, naming, k)
  {
    var losses := Losses(desk, acts, naming);
    forall k | 0 <= k < |acts| ensures losses[k] >= 0.0 && (losses[k] == 0.0 <==> !VanishesAt(desk, acts, naming, k)) {
      LossMeaning(desk, acts, naming, k);
    }
    SumOfNonNegatives(losses);
    assert forall k :: VanishesAt(desk, acts, naming, k) ==> 0 <= k < |acts|;
  }

  /** Cash is conserved by a run exactly when none of its buys rounds to nothing while a fee is charged. */
  lemma CashIsConservedExactlyWhen(desk: Desk, acts: seq<Act>, naming: Naming)
    ensures var end := Run(desk, acts, naming);
            Total(end.funds) == Total(desk.funds) + NetSum(end.outcomes) - NetSum(desk.outcomes)
            <==> forall k :: !VanishesAt(desk, acts, naming, k)
  {
    CashIsAccountedFor(desk, acts, naming);
    VanishedMeaning(desk, acts, naming);
  }

  // --------------------------------------------------------- the late refusal

  predicate Late(outcome: Outcome) {
    outcome.refusal == Some(FundsRefused(InsufficientAvailable))
  }

  ghost predicate NoneLate(outcomes: seq<Outcome>) {
    forall i :: 0 <= i < |outcomes| ==> !Late(outcomes[i])
  }

  /** Service and broker agree on prices, and the service has taken every event so far. */
  predicate InStep(desk: Desk) {
    desk.prices == desk.brokerPrices && desk.book.pending == |desk.book.events|
  }

  lemma FreshEvents(request: Request, id: OrderId, now: int, verdict: Verdict)
    requires request.quantity > 0
    ensures LastPrice(EventsFor(request, id, now, verdict)) == if verdict.Fills? then Some(verdict.price) else None
  {
    var events := EventsFor(request, id, now, verdict);
    if verdict.Refuses? { assert events[..0] == []; }
  }

  /** In step, a call that fills does so at the price the fill policy gives on the service's own quote. */
  lemma FillsAtOwnQuote(desk: Desk, ticket: Ticket, clock: Clock, naming: Naming)
    requires InStep(desk) && Reaches(desk, ticket, clock, naming) && SeenBy(desk, ticket, clock, naming).price.Some?
    ensures var request := RequestFor(desk.account, ticket, ClientId(desk, ticket), naming);
            && ticket.instrument in desk.prices && KeyOf(request) !in desk.book.submissions
            && Decide(request, desk.prices[ticket.instrument]) == Fills(SeenBy(desk, ticket, clock, naming).price.value)
  {
    var request := RequestFor(desk.account, ticket, ClientId(desk, ticket), naming);
    var quoted := Quoted(desk.brokerPrices, ticket.instrument);
    var book := Brokered(desk, ticket, clock, naming).0;
    if KeyOf(request) !in desk.book.submissions {
      assert Undrained(book) == EventsFor(request, naming(KeyOf(request)), clock.book, VerdictOn(request, quoted));
      FreshEvents(request, naming(KeyOf(request)), clock.book, VerdictOn(request, quoted));
    }
  }

  /** And so a buy fills at the very price that the pre-check found affordable. */
  lemma PreCheckSawThePrice(desk: Desk, ticket: Ticket, clock: Clock, naming: Naming)
    requires InStep(desk) && ticket.side.Buy? && Reaches(desk, ticket, clock, naming)
    requires SeenBy(desk, ticket, clock, naming).price.Some?
    ensures var request := RequestFor(desk.account, ticket, ClientId(desk, ticket), naming);
            var price := SeenBy(desk, ticket, clock, naming).price.value;
            && ticket.instrument in desk.prices && Decide(request, desk.prices[ticket.instrument]) == Fills(price)
            && Notional(price, ticket, desk.account.costs) + Fee(desk.account.costs) <= desk.funds.available
  {
    FillsAtOwnQuote(desk, ticket, clock, naming);
  }

  lemma ChargeIsNotLate(desk: Desk, ticket: Ticket, clientId: string, price: Positive, at: int, now: int)
    requires NoneLate(desk.outcomes)
    requires ticket.side.Buy? ==> Notional(price, ticket, desk.account.costs) + Fee(desk.account.costs) <= desk.funds.available
    ensures NoneLate(Charged(desk, ticket, clientId, price, at, now).0.outcomes)
  {
    SettlementMovesNetCash(desk.funds, ticket.side, Notional(price, ticket, desk.account.costs), Fee(desk.account.costs));
  }

  lemma CallIsNotLate(desk: Desk, ticket: Ticket, clock: Clock, naming: Naming)
    requires InStep(desk) && NoneLate(desk.outcomes)
    ensures NoneLate(SubmitOn(desk, ticket, clock, naming).0.outcomes)
  {
    if Reaches(desk, ticket, clock, naming) && SeenBy(desk, ticket, clock, naming).price.Some? {
      var seen := SeenBy(desk, ticket, clock, naming);
      if ticket.side.Buy? { PreCheckSawThePrice(desk, ticket, clock, naming); }
      ReachingCall(desk, ticket, clock, naming);
      ChargeIsNotLate(Taken(desk, ticket, clock, naming), ticket, ClientId(desk, ticket), seen.price.value, seen.at, clock.refused);
    }
  }

  lemma ConclusionKeepsPlace(desk: Desk, ticket: Ticket, clientId: string, seen: Collected, now: int)
    ensures var after := Concluded(desk, ticket, clientId, seen, now).0;
            after.book == desk.book && after.prices == desk.prices && after.brokerPrices == desk.brokerPrices
  {}

  lemma CallStaysInStep(desk: Desk, ticket: Ticket, clock: Clock, naming: Naming)
    requires InStep(desk)
    ensures InStep(SubmitOn(desk, ticket, clock, naming).0)
  {
    if Reaches(desk, ticket, clock, naming) {
      ReachingCall(desk, ticket, clock, naming);
      ConclusionKeepsPlace(Taken(desk, ticket, clock, naming), ticket, ClientId(desk, ticket), SeenBy(desk, ticket, clock, naming), clock.refused);
    }
  }

  /** Sharing prices, no run ever reaches the late insufficient-funds refusal. */
  lemma {:induction false} LateRefusalNeverRuns(desk: Desk, acts: seq<Act>, naming: Naming)
    requires InStep(desk) && NoneLate(desk.outcomes)
    ensures InStep(Run(desk, acts, naming)) && NoneLate(Run(desk, acts, naming).outcomes)
    decreases |acts|
  {
    if |acts| > 0 {
      var n := |acts| - 1;
      LateRefusalNeverRuns(desk, acts[..n], naming);
      if acts[n].Submits? {
        CallIsNotLate(Run(desk, acts[..n], naming), acts[n].ticket, acts[n].clock, naming);
        CallStaysInStep(Run(desk, acts[..n], naming), acts[n].ticket, acts[n].clock, naming);
      }
    }
  }

  // ---------------------------------------------- when a fee vanishes, beforehand

  /** The book would take the call's request as a new submission against the service's own quote. */
  predicate Submittable(desk: Desk, ticket: Ticket, request: Request) {
    && desk.account.active && ticket.quantity > 0 && desk.connected
    && !Blank(request.clientId) && KeyOf(request) !in desk.book.submissions
    && ticket.instrument in desk.prices && desk.prices[ticket.instrument].instrument == ticket.instrument
  }

  /** The price, slipped and not yet rounded, is at most half a price quantum. */
  predicate RoundsToNothing(price: Positive, slippage: Slippage) {
    slippage.FixedBps? && Scale(price, 1.0 + slippage.bps / 10000.0) <= 0.5 * PRICE_QUANTUM
  }

  /** From what a caller holds before the call: the quote, the slippage, the fee and the cash. */
  predicate WouldVanish(desk: Desk, ticket: Ticket, naming: Naming) {
    var request := RequestFor(desk.account, ticket, ClientId(desk, ticket), naming);
    && ticket.side.Buy? && Submittable(desk, ticket, request)
    && var verdict := Decide(request, desk.prices[ticket.instrument]);
    && verdict.Fills? && RoundsToNothing(verdict.price, desk.account.costs.slippage)
    && 0.0 < Fee(desk.account.costs) <= desk.funds.available
  }

  /** In step, a fee vanishes exactly when the caller could have told so beforehand. */
  lemma VanishesExactlyWhen(desk: Desk, ticket: Ticket, clock: Clock, naming: Naming)
    requires InStep(desk)
    ensures Vanishes(desk, ticket, clock, naming) <==> WouldVanish(desk, ticket, naming)
  {
    if Vanishes(desk, ticket, clock, naming) {
      FillsAtOwnQuote(desk, ticket, clock, naming);
      SlippedBuyPrice(SeenBy(desk, ticket, clock, naming).price.value, desk.account.costs.slippage);
    }
    if WouldVanish(desk, ticket, naming) { WouldVanishDoes(desk, ticket, clock, naming); }
  }

  lemma WouldVanishDoes(desk: Desk, ticket: Ticket, clock: Clock, naming: Naming)
    requires InStep(desk) && WouldVanish(desk, ticket, naming)
    ensures Vanishes(desk, ticket, clock, naming)
  {
    var request := RequestFor(desk.account, ticket, ClientId(desk, ticket), naming);
    var price, id := Decide(request, desk.prices[ticket.instrument]).price, naming(KeyOf(request));
    SlippedBuyPrice(price, desk.account.costs.slippage);
    NotionalSign(Effective(price, Buy, desk.account.costs), ticket.quantity as real);
    FreshEvents(request, id, clock.book, Fills(price));
    assert Undrained(Brokered(desk, ticket, clock, naming).0) == EventsFor(request, id, clock.book, Fills(price));
  }

  // ------------------------------------------------------------------- restarts

  lemma CallPersists(desk: Desk, ticket: Ticket, clock: Clock, naming: Naming, capital: Positive)
    requires desk.repository.Repository? && desk.funds == Restored(desk.repository, capital)
    ensures var after := SubmitOn(desk, ticket, clock, naming).0;
            after.repository.Repository? && after.funds == Restored(after.repository, capital)
  {
    if Reaches(desk, ticket, clock, naming) {
      ReachingCall(desk, ticket, clock, naming);
      ConclusionPersists(Taken(desk, ticket, clock, naming), ticket, ClientId(desk, ticket), SeenBy(desk, ticket, clock, naming), clock.refused, capital);
    }
  }

  lemma ConclusionPersists(desk: Desk, ticket: Ticket, clientId: string, seen: Collected, refused: int, capital: Positive)
    requires desk.repository.Repository? && desk.funds == Restored(desk.repository, capital)
    ensures var after := Concluded(desk, ticket, clientId, seen, refused).0;
            after.repository.Repository? && after.funds == Restored(after.repository, capital)
  {}

  /** A service started again on the same repository, after any run, has the funds the old one had. */
  lemma {:induction false} RestartRestoresFunds(desk: Desk, acts: seq<Act>, naming: Naming, capital: Positive)
    requires desk.repository.Repository? && desk.funds == Restored(desk.repository, capital)
    ensures var end := Run(desk, acts, naming);
            end.repository.Repository? && Restored(end.repository, capital) == end.funds
    decreases |acts|
  {
    if |acts| > 0 {
      var n := |acts| - 1;
      RestartRestoresFunds(desk, acts[..n], naming, capital);
      if acts[n].Submits? { CallPersists(Run(desk, acts[..n], naming), acts[n].ticket, acts[n].clock, naming, capital); }
    }
  }

  // ----------------------------------------------------------- counterexample

  const PENNY_COSTS := Costs(FixedBps(0.0), FixedPerTrade(1.0))

  /** A fresh desk with ten of cash, quoting an instrument at a hundredth of a price quantum. */
  function PennyDesk(): Desk {
    var prices := map[1 := Reference(1, 0.000001, None, None)];
    Desk(Account(1, "paper-1", true, PENNY_COSTS), Funds(10.0, 0.0), NoRepository, [], 0, prices, true, prices, PaperBook.EMPTY)
  }

  lemma PennyArithmetic()
    ensures ApplySlippage(0.000001, Buy, FixedBps(0.0)) == 0.0 && CommissionAmount(FixedPerTrade(1.0)) == 1.0
  {
    ScaleByOne(0.000001);
    SlippedBuyPrice(0.000001, FixedBps(0.0));
    assert 1.0 / MONEY_QUANTUM == 100.0;
    assert RoundHalfEven(100.0) == 100;
  }

  const NOON := Clock(12, 12, 12)

  lemma PennyVanishes(naming: Naming)
    ensures Vanishes(PennyDesk(), Ticket(1, Buy, 1, Market, None, Some("x")), NOON, naming)
  {
    var desk, ticket := PennyDesk(), Ticket(1, Buy, 1, Market, None, Some("x"));
    PennyArithmetic();
    NotionalSign(Effective(0.000001, Buy, PENNY_COSTS), 1.0);
    var request := RequestFor(desk.account, ticket, "x", naming);
    assert !IsSpace("x"[0]);
    assert !Blank(request.clientId);
    FreshEvents(request, naming(KeyOf(request)), 12, Fills(0.000001));
    assert Undrained(Brokered(desk, ticket, NOON, naming).0) == EventsFor(request, naming(KeyOf(request)), 12, Fills(0.000001));
  }

  lemma ChargeVanishes(desk: Desk, ticket: Ticket, clientId: string, price: Positive, at: int, now: int)
    requires ticket.side.Buy? && ticket.quantity > 0 && Effective(price, Buy, desk.account.costs) == 0.0
    requires 0.0 < Fee(desk.account.costs) <= desk.funds.available
    ensures Charged(desk, ticket, clientId, price, at, now)
            == var left := Funds(desk.funds.available - Fee(desk.account.costs), desk.funds.reserved);
               (desk.(funds := left, repository := Persisted(desk.repository, left)), Err(PriceNotPositive))
  {
    NotionalSign(Effective(price, Buy, desk.account.costs), ticket.quantity as real);
  }

  /** Every such call takes the fee, raises, and records nothing. */
  lemma FeeVanishes(desk: Desk, ticket: Ticket, clock: Clock, naming: Naming)
    requires Vanishes(desk, ticket, clock, naming)
    ensures var answer := SubmitOn(desk, ticket, clock, naming);
            && answer.1 == Err(PriceNotPositive) && answer.0.outcomes == desk.outcomes
            && Total(answer.0.funds) == Total(desk.funds) - Fee(desk.account.costs)
  {
    var seen := SeenBy(desk, ticket, clock, naming);
    ReachingCall(desk, ticket, clock, naming);
    ChargeVanishes(Taken(desk, ticket, clock, naming), ticket, ClientId(desk, ticket), seen.price.value, seen.at, clock.refused);
  }
}
