/** The paper trading service: funds pre-check, broker submission, cost model and cash ledger. */
module PaperService {
  import opened Wrappers
  import opened Arithmetic
  import opened OrderLifecycle
  import opened PaperBook
  import opened PaperFunds

  /** One call of `submit`. An absent or empty client order id is generated. */
  datatype Ticket = Ticket(instrument: InstrumentId, side: Side, quantity: int, orderType: OrderType, limitPrice: Option<real>, clientId: Option<string>)

  datatype Refusal = QuantityRefused | InsufficientFunds | FundsRefused(error: FundsError) | BrokerRejected(reason: string)

  datatype Outcome = Outcome(
    clientId: string, side: Side, instrument: InstrumentId, quantity: int,
    fillPrice: Option<Positive>, effective: Option<real>, fee: real, netCash: real, refusal: Option<Refusal>, at: int)

  /** Errors the call raises instead of returning an outcome. */
  datatype ServiceError = AccountNotActive | NotConnected | BookRaised(error: BookError) | ProceedsNotPositive | PriceNotPositive

  type Prices = map<InstrumentId, Reference>

  /** Durable funds: none kept, or the last ones saved. */
  datatype Repository = NoRepository | Repository(saved: Option<Funds>)

  function Persisted(repository: Repository, funds: Funds): Repository {
    if repository.NoRepository? then NoRepository else Repository(Some(funds))
  }

  /** The funds a service starts with: the saved ones, or else its starting capital. */
  function Restored(repository: Repository, capital: Positive): Funds {
    if repository.Repository? && repository.saved.Some? then repository.saved.value else Funds(capital, 0.0)
  }

  /** What the clock says in one call: to the book, after the submission, and to a refusal. */
  datatype Clock = Clock(book: int, collected: int, refused: int)

  datatype Account = Account(id: AccountId, approval: string, active: bool, costs: Costs)

  /** Service and broker state; each keeps its own copy of the reference prices. */
  datatype Desk = Desk(account: Account, funds: Funds, repository: Repository, outcomes: seq<Outcome>, sequence: nat, prices: Prices, connected: bool, brokerPrices: Prices, book: Book)

  function Quoted(prices: Prices, instrument: InstrumentId): Option<Reference> {
    if instrument in prices then Some(prices[instrument]) else None
  }

  /** The n-th generated client order id of an account. */
  function AutoId(account: AccountId, n: nat): string {
    "paper-" + Text(account) + "-" + Text(n)
  }

  predicate Named(ticket: Ticket) {
    ticket.clientId.Some? && |ticket.clientId.value| > 0
  }

  /** The desk after a client order id has been settled on. */
  function Numbered(desk: Desk, ticket: Ticket): Desk {
    if Named(ticket) then desk else desk.(sequence := desk.sequence + 1)
  }

  function ClientId(desk: Desk, ticket: Ticket): string {
    if Named(ticket) then ticket.clientId.value else AutoId(desk.account.id, desk.sequence + 1)
  }

  function RequestFor(account: Account, ticket: Ticket, clientId: string, naming: Naming): Request {
    Request(account.id, ticket.instrument, PaperMode, clientId, ticket.side, ticket.orderType, ticket.quantity,
            account.approval, ticket.limitPrice, None, Some(naming((account.id, clientId))))
  }

  // ------------------------------------------------------------ cost of a fill

  function Effective(price: Positive, side: Side, costs: Costs): real {
    ApplySlippage(price, side, costs.slippage)
  }

  function Notional(price: Positive, ticket: Ticket, costs: Costs): real {
    Scale(Effective(price, ticket.side, costs), ticket.quantity as real)
  }

  function Fee(costs: Costs): real {
    CommissionAmount(costs.commission)
  }

  /** The pre-check of a buy: what the fill policy would cost is covered by available cash. */
  predicate CanAfford(desk: Desk, ticket: Ticket, request: Request, reference: Reference) {
    match Decide(request, reference)
    case Refuses(_) => true
    case Fills(price) => Notional(price, ticket, desk.account.costs) + Fee(desk.account.costs) <= desk.funds.available
  }

  predicate Unaffordable(desk: Desk, ticket: Ticket, request: Request) {
    ticket.side.Buy? && ticket.instrument in desk.prices && !CanAfford(desk, ticket, request, desk.prices[ticket.instrument])
  }

  // ----------------------------------------------------------- drained events

  function LastPrice(events: seq<PaperEvent>): Option<Positive>
    decreases |events|
  {
    if |events| == 0 then None
    else
      var last := events[|events| - 1];
      if last.event.kind == FullFill && last.price.Some? then last.price else LastPrice(events[..|events| - 1])
  }

  function LastRejection(events: seq<PaperEvent>): Option<string>
    decreases |events|
  {
    if |events| == 0 then None
    else
      var last := events[|events| - 1];
      if last.event.kind == Rejection then Some(last.event.reason) else LastRejection(events[..|events| - 1])
  }

  datatype Collected = Collected(price: Option<Positive>, reason: Option<string>, at: int)

  function Collect(events: seq<PaperEvent>, response: Response, now: int): Collected {
    var price, rejection := LastPrice(events), LastRejection(events);
    Collected(price,
              if price.None? && rejection.None? then Some(if response.reason.Some? then response.reason.value else "order rejected") else rejection,
              if |events| == 0 then now else events[|events| - 1].event.at)
  }

  // ---------------------------------------------------------------- one call

  function Refused(desk: Desk, ticket: Ticket, clientId: string, refusal: Refusal, at: int): (Desk, Result<Outcome, ServiceError>) {
    var outcome := Outcome(clientId, ticket.side, ticket.instrument, ticket.quantity, None, None, 0.0, 0.0, Some(refusal), at);
    (desk.(outcomes := desk.outcomes + [outcome]), Ok(outcome))
  }

  /** A filled order is charged and recorded; construction of the outcome refuses a price that is not positive. */
  function Charged(desk: Desk, ticket: Ticket, clientId: string, price: Positive, at: int, refused: int): (Desk, Result<Outcome, ServiceError>) {
    var costs := desk.account.costs;
    var settlement := Settle(desk.funds, ticket.side, Notional(price, ticket, costs), Fee(costs));
    if settlement.Err? then
      if ticket.side.Buy? then Refused(desk, ticket, clientId, FundsRefused(settlement.error), refused)
      else (desk, Err(ProceedsNotPositive))
    else
      var paid := desk.(funds := settlement.value.funds, repository := Persisted(desk.repository, settlement.value.funds));
      var effective := Effective(price, ticket.side, costs);
      if effective <= 0.0 then (paid, Err(PriceNotPositive))
      else
        var outcome := Outcome(clientId, ticket.side, ticket.instrument, ticket.quantity, Some(price), Some(effective),
                               Fee(costs), settlement.value.netCash, None, at);
        (paid.(outcomes := paid.outcomes + [outcome]), Ok(outcome))
  }

  function Concluded(desk: Desk, ticket: Ticket, clientId: string, seen: Collected, refused: int): (Desk, Result<Outcome, ServiceError>) {
    if seen.price.None? then
      Refused(desk, ticket, clientId, BrokerRejected(if seen.reason.Some? then seen.reason.value else "order rejected by paper broker"), seen.at)
    else Charged(desk, ticket, clientId, seen.price.value, seen.at, refused)
  }

  /** The book after the broker took the request, and its answer. */
  function Brokered(desk: Desk, ticket: Ticket, clock: Clock, naming: Naming): (Book, Result<Response, BookError>) {
    var request := RequestFor(desk.account, ticket, ClientId(desk, ticket), naming);
    SubmitTo(desk.book, request, Quoted(desk.brokerPrices, ticket.instrument), clock.book, naming)
  }

  /** The call gets past the account, quantity and funds guards to a broker that records or replays it. */
  predicate Reaches(desk: Desk, ticket: Ticket, clock: Clock, naming: Naming) {
    && desk.account.active && ticket.quantity > 0 && desk.connected
    && !Unaffordable(desk, ticket, RequestFor(desk.account, ticket, ClientId(desk, ticket), naming))
    && Brokered(desk, ticket, clock, naming).1.Ok?
  }

  function SeenBy(desk: Desk, ticket: Ticket, clock: Clock, naming: Naming): Collected
    requires Reaches(desk, ticket, clock, naming)
  {
    var answer := Brokered(desk, ticket, clock, naming);
    Collect(Undrained(answer.0), answer.1.value, clock.collected)
  }

  function SubmitOn(desk: Desk, ticket: Ticket, clock: Clock, naming: Naming): (Desk, Result<Outcome, ServiceError>) {
    var clientId := ClientId(desk, ticket);
    var request := RequestFor(desk.account, ticket, clientId, naming);
    if !desk.account.active then (desk, Err(AccountNotActive))
    else if ticket.quantity <= 0 then Refused(Numbered(desk, ticket), ticket, clientId, QuantityRefused, clock.refused)
    else if Unaffordable(desk, ticket, request) then Refused(Numbered(desk, ticket), ticket, clientId, InsufficientFunds, clock.refused)
    else if !desk.connected then (Numbered(desk, ticket), Err(NotConnected))
    else
      var answer := Brokered(desk, ticket, clock, naming);
      if answer.1.Err? then (Numbered(desk, ticket), Err(BookRaised(answer.1.error)))
      else
        Concluded(Numbered(desk, ticket).(book := Drained(answer.0)), ticket, clientId, SeenBy(desk, ticket, clock, naming), clock.refused)
  }

  function SetPrice(desk: Desk, instrument: InstrumentId, reference: Reference): Desk {
    desk.(prices := desk.prices[instrument := reference], brokerPrices := desk.brokerPrices[instrument := reference])
  }

  // ------------------------------------------------------------- the objects

  /** The paper broker: a session flag and its own prices in front of the book. */
  class PaperBroker {
    const book: PaperOrderBook
    var connected: bool
    var prices: Prices

    constructor (book: PaperOrderBook, prices: Prices)
      ensures this.book == book && !connected && this.prices == prices
    {
      this.book, connected, this.prices := book, false, prices;
    }

    method SubmitOrder(request: Request, now: int) returns (r: Option<Result<Response, BookError>>)
      modifies book
      ensures r.None? <==> !connected
      ensures r.None? ==> book.Value() == old(book.Value())
      ensures r.Some? ==> (book.Value(), r.value) == SubmitTo(old(book.Value()), request, Quoted(prices, request.instrument), now, book.naming)
    {
      if !connected {
        return None;
      }
      var answer := book.Submit(request, Quoted(prices, request.instrument), now);
      return Some(answer);
    }
  }

  class PaperTradingService {
    const account: Account
    const broker: PaperBroker
    var funds: Funds
    var repository: Repository
    var outcomes: seq<Outcome>
    var sequence: nat
    var prices: Prices

    function Value(): Desk
      reads this, broker, broker.book
    {
      Desk(account, funds, repository, outcomes, sequence, prices, broker.connected, broker.prices, broker.book.Value())
    }

    constructor (account: Account, broker: PaperBroker, prices: Prices, repository: Repository, capital: Positive)
      ensures this.account == account && this.broker == broker && this.prices == prices && this.repository == repository
      ensures outcomes == [] && sequence == 0 && funds == Restored(repository, capital)
    {
      this.account, this.broker, this.prices, this.repository := account, broker, prices, repository;
      funds := if repository.Repository? && repository.saved.Some? then repository.saved.value else Funds(capital, 0.0);
      outcomes, sequence := [], 0;
    }

    method PersistFunds()
      modifies this`repository
      ensures repository == Persisted(old(repository), funds)
    {
      if repository.Repository? {
        repository := Repository(Some(funds));
      }
    }

    method SetReferencePrice(instrument: InstrumentId, reference: Reference)
      modifies this, broker
      ensures Value() == SetPrice(old(Value()), instrument, reference)
    {
      prices := prices[instrument := reference];
      broker.prices := broker.prices[instrument := reference];
    }

    method NextClientId(ticket: Ticket) returns (clientId: string)
      modifies this
      ensures clientId == ClientId(old(Value()), ticket) && Value() == Numbered(old(Value()), ticket)
    {
      if Named(ticket) {
        return ticket.clientId.value;
      }
      sequence := sequence + 1;
      return AutoId(account.id, sequence);
    }

    method RejectWithoutFill(ticket: Ticket, clientId: string, refusal: Refusal, at: int) returns (outcome: Outcome)
      modifies this
      ensures (Value(), Ok(outcome)) == Refused(old(Value()), ticket, clientId, refusal, at)
    {
      outcome := Outcome(clientId, ticket.side, ticket.instrument, ticket.quantity, None, None, 0.0, 0.0, Some(refusal), at);
      outcomes := outcomes + [outcome];
    }

    /** Read fill price, rejection and time off the drained events, the latest of each. */
    method CollectEvents(events: seq<PaperEvent>, response: Response, now: int) returns (seen: Collected)
      ensures seen == Collect(events, response, now)
    {
      var price: Option<Positive>, reason: Option<string>, at := None, None, now;
      for i := 0 to |events|
        invariant price == LastPrice(events[..i]) && reason == LastRejection(events[..i])
        invariant at == if i == 0 then now else events[i - 1].event.at
      {
        assert events[..i + 1][..i] == events[..i];
        var e := events[i];
        at := e.event.at;
        if e.event.kind == FullFill {
          if e.price.Some? {
            price := e.price;
          }
        } else if e.event.kind == Rejection {
          reason := Some(e.event.reason);
        }
      }
      assert events[..|events|] == events;
      if price.None? && reason.None? {
        reason := Some(if response.reason.Some? then response.reason.value else "order rejected");
      }
      return Collected(price, reason, at);
    }

    method Charge(ticket: Ticket, clientId: string, price: Positive, at: int, refused: int) returns (r: Result<Outcome, ServiceError>)
      modifies this
      ensures (Value(), r) == Charged(old(Value()), ticket, clientId, price, at, refused)
    {
      var effective := Effective(price, ticket.side, account.costs);
      var notional := Scale(effective, ticket.quantity as real);
      var fee := Fee(account.costs);
      var settlement := Settle(funds, ticket.side, notional, fee);
      if settlement.Err? {
        if ticket.side.Buy? {
          var refusal := RejectWithoutFill(ticket, clientId, FundsRefused(settlement.error), refused);
          return Ok(refusal);
        }
        return Err(ProceedsNotPositive);
      }
      funds := settlement.value.funds;
      PersistFunds();
      if effective <= 0.0 {
        return Err(PriceNotPositive);
      }
      var outcome := Outcome(clientId, ticket.side, ticket.instrument, ticket.quantity, Some(price), Some(effective),
                             fee, settlement.value.netCash, None, at);
      outcomes := outcomes + [outcome];
      return Ok(outcome);
    }

    method Submit(ticket: Ticket, clock: Clock) returns (r: Result<Outcome, ServiceError>)
      modifies this, broker.book
      ensures (Value(), r) == SubmitOn(old(Value()), ticket, clock, broker.book.naming)
    {
      if !account.active {
        return Err(AccountNotActive);
      }
      var outcome;
      var clientId := NextClientId(ticket);
      if ticket.quantity <= 0 {
        outcome := RejectWithoutFill(ticket, clientId, QuantityRefused, clock.refused);
        return Ok(outcome);
      }
      var request := RequestFor(account, ticket, clientId, broker.book.naming);
      if Unaffordable(Value(), ticket, request) {
        outcome := RejectWithoutFill(ticket, clientId, InsufficientFunds, clock.refused);
        return Ok(outcome);
      }
      var answer := broker.SubmitOrder(request, clock.book);
      if answer.None? {
        return Err(NotConnected);
      }
      if answer.value.Err? {
        return Err(BookRaised(answer.value.error));
      }
      var events := broker.book.PendingEvents();
      var seen := CollectEvents(events, answer.value.value, clock.collected);
      if seen.price.None? {
        outcome := RejectWithoutFill(ticket, clientId,
                                     BrokerRejected(if seen.reason.Some? then seen.reason.value else "order rejected by paper broker"), seen.at);
        return Ok(outcome);
      }
      r := Charge(ticket, clientId, seen.price.value, seen.at, clock.refused);
    }
  }
}
