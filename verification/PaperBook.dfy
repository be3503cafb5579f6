/** The append-only, idempotent paper order book and its fill policy. */
module PaperBook {
  import opened Wrappers
  import opened Arithmetic
  import opened OrderLifecycle

  type AccountId = nat
  type InstrumentId = nat

  datatype Side = Buy | Sell
  datatype OrderType = Market | Limit | Stop | StopLimit
  datatype Mode = BacktestMode | PaperMode | LiveMode

  /** `orderId` is what the caller put in the request's metadata, when it is a well-formed id. */
  datatype Request = Request(
    account: AccountId, instrument: InstrumentId, mode: Mode, clientId: string, side: Side, orderType: OrderType,
    quantity: int, approval: string, limitPrice: Option<real>, stopPrice: Option<real>, orderId: Option<OrderId>)

  /** Injected prices; construction rejects what is not positive or lies outside the spread. */
  datatype Reference = Reference(instrument: InstrumentId, last: Positive, bid: Option<Positive>, ask: Option<Positive>)

  type Key = (AccountId, string)

  /** The deterministic order id of an account and client order id; different keys get different ids. */
  type Naming = Key -> OrderId

  ghost predicate Separates(naming: Naming, a: Key, b: Key) {
    a != b ==> naming(a) != naming(b)
  }

  ghost predicate Injective(naming: Naming) {
    forall a, b :: Separates(naming, a, b)
  }

  /** A string as a number whose digits are its characters. */
  function StringCode(s: string): nat
    decreases |s|
  {
    if |s| == 0 then 0 else StringCode(s[..|s| - 1]) * 0x110001 + (s[|s| - 1] as int + 1)
  }

  lemma {:induction false} StringCodeInjective(a: string, b: string)
    requires StringCode(a) == StringCode(b)
    ensures a == b
    decreases |a|
  {
    if |a| > 0 && |b| > 0 {
      var x, y := a[..|a| - 1], b[..|b| - 1];
      LastDigit(a);
      LastDigit(b);
      SameDigits(StringCode(x), a[|a| - 1] as int + 1, StringCode(y), b[|b| - 1] as int + 1);
      StringCodeInjective(x, y);
      assert a == x + [a[|a| - 1]] && b == y + [b[|b| - 1]];
    }
  }

  lemma LastDigit(s: string)
    requires |s| > 0
    ensures StringCode(s) == StringCode(s[..|s| - 1]) * 0x110001 + (s[|s| - 1] as int + 1) && 0 < s[|s| - 1] as int + 1 < 0x110001
  {}

  lemma SameDigits(m: nat, c: nat, n: nat, d: nat)
    requires m * 0x110001 + c == n * 0x110001 + d && c < 0x110001 && d < 0x110001
    ensures m == n && c == d
  {}

  /** One number for a pair. */
  function PairCode(a: nat, b: nat): nat {
    (a + b) * (a + b) + a
  }

  lemma PairCodeInjective(a: nat, b: nat, c: nat, d: nat)
    requires PairCode(a, b) == PairCode(c, d)
    ensures a == c && b == d
  {
    var x, y := a + b, c + d;
    if x < y { SquareGap(x, y); } else if y < x { SquareGap(y, x); }
  }

  lemma {:induction false} SquareGap(x: nat, y: nat)
    requires x < y
    ensures x * x + x < y * y
    decreases y
  {
    assert y * y == (y - 1) * (y - 1) + 2 * y - 1;
    if x < y - 1 { SquareGap(x, y - 1); }
  }

  function ExampleName(key: Key): OrderId {
    PairCode(key.0, StringCode(key.1))
  }

  /** Such namings exist. */
  lemma NamingsExist()
    ensures Injective(ExampleName)
  {
    forall a: Key, b: Key ensures Separates(ExampleName, a, b) {
      if ExampleName(a) == ExampleName(b) {
        PairCodeInjective(a.0, StringCode(a.1), b.0, StringCode(b.1));
        StringCodeInjective(a.1, b.1);
      }
    }
  }

  // ------------------------------------------------------------- fill policy

  datatype Verdict = Fills(price: Positive) | Refuses(reason: string)

  /** Market orders fill at the last price, limit orders at their own side of the quote if it is good enough. */
  function Decide(request: Request, reference: Reference): Verdict {
    match request.orderType
    case Stop => Refuses("unsupported order type in paper mode: STOP")
    case StopLimit => Refuses("unsupported order type in paper mode: STOP_LIMIT")
    case Market => Fills(reference.last)
    case Limit =>
      if request.side.Buy? then
        if reference.ask.None? then Refuses("no executable quote: injected reference has no ask")
        else if request.limitPrice.None? || request.limitPrice.value < reference.ask.value
        then Refuses("limit price not executable against injected ask")
        else Fills(reference.ask.value)
      else
        if reference.bid.None? then Refuses("no executable quote: injected reference has no bid")
        else if request.limitPrice.None? || request.limitPrice.value > reference.bid.value
        then Refuses("limit price not executable against injected bid")
        else Fills(reference.bid.value)
  }

  /** The side of the quote that a limit order trades against. */
  function Leg(reference: Reference, side: Side): Option<Positive> {
    if side.Buy? then reference.ask else reference.bid
  }

  /** An order fills at a price if and only if it is a market order and that is the last price, or a limit order whose leg quotes it at the limit or better. */
  lemma FillsExactlyWhen(request: Request, reference: Reference, price: Positive)
    ensures Decide(request, reference) == Fills(price) <==>
            || (request.orderType.Market? && price == reference.last)
            || (request.orderType.Limit? && Leg(reference, request.side) == Some(price) && request.limitPrice.Some?
                && if request.side.Buy? then price <= request.limitPrice.value else price >= request.limitPrice.value)
  {}

  /** A refusal says what is missing: a supported order type, a quote on the order's side, or a limit that reaches it. */
  lemma RefusalNamesTheObstacle(request: Request, reference: Reference)
    requires Decide(request, reference).Refuses?
    ensures var reason, side := Decide(request, reference).reason, if request.side.Buy? then "ask" else "bid";
            && !request.orderType.Market?
            && (request.orderType.Stop? ==> reason == "unsupported order type in paper mode: STOP")
            && (request.orderType.StopLimit? ==> reason == "unsupported order type in paper mode: STOP_LIMIT")
            && (request.orderType.Limit? ==>
                  reason == if Leg(reference, request.side).None? then "no executable quote: injected reference has no " + side
                            else "limit price not executable against injected " + side)
  {}

  function VerdictOn(request: Request, reference: Option<Reference>): Verdict {
    if reference.None? then Refuses("no reference price available for instrument") else Decide(request, reference.value)
  }

  // -------------------------------------------------------------------- book

  /** A broker event, with the fill price its metadata carries. */
  datatype PaperEvent = PaperEvent(event: Event, price: Option<Positive>)

  datatype FillRecord = FillRecord(sequence: nat, clientId: string, orderId: OrderId, side: Side, instrument: InstrumentId, account: AccountId, quantity: Positive, price: Positive)

  datatype Response = Response(accepted: bool, brokerOrderId: Option<string>, at: int, reason: Option<string>)

  datatype Submission = Submission(request: Request, response: Response, events: seq<PaperEvent>)

  datatype BookError = ModeViolation | BlankClientId | QuantityNotPositive | WrongOrderId | PayloadConflict | WrongReference

  datatype Book = Book(submissions: map<Key, Submission>, events: seq<PaperEvent>, fills: seq<FillRecord>, pending: nat, sequence: nat)

  const EMPTY := Book(map[], [], [], 0, 0)

  predicate IsSpace(c: char) {
    var n := c as int;
    || 0x09 <= n <= 0x0D || 0x1C <= n <= 0x20 || n == 0x85 || n == 0xA0 || n == 0x1680 || 0x2000 <= n <= 0x200A
    || n == 0x2028 || n == 0x2029 || n == 0x202F || n == 0x205F || n == 0x3000
  }

  /** The white space of Unicode as the program's language strips it. */
  lemma SpacesAreListed(c: char)
    ensures IsSpace(c) <==>
            c as int in {9, 10, 11, 12, 13, 28, 29, 30, 31, 32, 133, 160, 5760, 8192, 8193, 8194, 8195, 8196, 8197, 8198, 8199, 8200,
                         8201, 8202, 8232, 8233, 8239, 8287, 12288}
  {}

  predicate Blank(s: string) {
    forall i :: 0 <= i < |s| ==> IsSpace(s[i])
  }

  function KeyOf(request: Request): Key {
    (request.account, request.clientId)
  }

  predicate SamePayload(a: Request, b: Request) {
    && a.account == b.account && a.instrument == b.instrument && a.mode == b.mode && a.side == b.side
    && a.orderType == b.orderType && a.quantity == b.quantity && a.approval == b.approval
    && a.limitPrice == b.limitPrice && a.stopPrice == b.stopPrice
  }

  function Objection(request: Request, id: OrderId): Option<BookError> {
    if request.mode != PaperMode then Some(ModeViolation)
    else if Blank(request.clientId) then Some(BlankClientId)
    else if request.quantity <= 0 then Some(QuantityNotPositive)
    else if request.orderId != Some(id) then Some(WrongOrderId)
    else None
  }

  /** An injective rendering of an id; the program prints hexadecimal digits. */
  function Text(n: nat): string {
    seq(n, _ => '1')
  }

  function BrokerName(id: OrderId): string {
    "paper-" + Text(id)
  }

  /** Different orders get different broker order ids. */
  lemma BrokerNamesDiffer(a: OrderId, b: OrderId)
    requires BrokerName(a) == BrokerName(b)
    ensures a == b
  {
    assert |BrokerName(a)| == 6 + a && |BrokerName(b)| == 6 + b;
  }

  function EventsFor(request: Request, id: OrderId, now: int, verdict: Verdict): seq<PaperEvent>
    requires request.quantity > 0
  {
    match verdict
    case Refuses(reason) => [PaperEvent(Event(id, Rejection, now, reason, None, 0.0, 0, None), None)]
    case Fills(price) =>
      [PaperEvent(Event(id, Acknowledgement, now, "paper broker accepted order", Some(BrokerName(id)), 0.0, 0, None), None),
       PaperEvent(Event(id, FullFill, now, "paper simulator-confirmed fill", Some(BrokerName(id)), request.quantity as real, 0, None), Some(price))]
  }

  function ResponseFor(id: OrderId, now: int, verdict: Verdict): Response {
    match verdict
    case Refuses(reason) => Response(false, None, now, Some(reason))
    case Fills(_) => Response(true, Some(BrokerName(id)), now, None)
  }

  function FillsFor(book: Book, request: Request, id: OrderId, verdict: Verdict): seq<FillRecord>
    requires request.quantity > 0
  {
    match verdict
    case Refuses(_) => []
    case Fills(price) =>
      [FillRecord(book.sequence, request.clientId, id, request.side, request.instrument, request.account, request.quantity as real, price)]
  }

  /** The book with one more submission on record. */
  function Recorded(book: Book, request: Request, id: OrderId, now: int, verdict: Verdict): Book
    requires request.quantity > 0
  {
    var events, fills := EventsFor(request, id, now, verdict), FillsFor(book, request, id, verdict);
    Book(book.submissions[KeyOf(request) := Submission(request, ResponseFor(id, now, verdict), events)],
         book.events + events, book.fills + fills, book.pending, book.sequence + |fills|)
  }

  function SubmitTo(book: Book, request: Request, reference: Option<Reference>, now: int, naming: Naming): (Book, Result<Response, BookError>) {
    var id := naming(KeyOf(request));
    var objection := Objection(request, id);
    if objection.Some? then (book, Err(objection.value))
    else if KeyOf(request) in book.submissions then
      var prior := book.submissions[KeyOf(request)];
      (book, if SamePayload(prior.request, request) then Ok(prior.response) else Err(PayloadConflict))
    else if reference.Some? && reference.value.instrument != request.instrument then (book, Err(WrongReference))
    else
      var verdict := VerdictOn(request, reference);
      (Recorded(book, request, id, now, verdict), Ok(ResponseFor(id, now, verdict)))
  }

  function Undrained(book: Book): seq<PaperEvent> {
    if book.pending <= |book.events| then book.events[book.pending..] else []
  }

  function Drained(book: Book): Book {
    book.(pending := |book.events|)
  }

  class PaperOrderBook {
    const naming: Naming
    var submissions: map<Key, Submission>
    var events: seq<PaperEvent>
    var fills: seq<FillRecord>
    var pending: nat
    var sequence: nat

    function Value(): Book
      reads this
    {
      Book(submissions, events, fills, pending, sequence)
    }

    constructor (naming: Naming)
      ensures Value() == EMPTY && this.naming == naming
    {
      this.naming := naming;
      submissions, events, fills, pending, sequence := map[], [], [], 0, 0;
    }

    method Record(request: Request, response: Response, recorded: seq<PaperEvent>)
      modifies this
      ensures Value() == old(Value()).(submissions := old(submissions)[KeyOf(request) := Submission(request, response, recorded)],
                                       events := old(events) + recorded)
    {
      submissions := submissions[KeyOf(request) := Submission(request, response, recorded)];
      events := events + recorded;
    }

    method Reject(request: Request, id: OrderId, now: int, reason: string) returns (response: Response)
      requires request.quantity > 0
      modifies this
      ensures Value() == Recorded(old(Value()), request, id, now, Refuses(reason))
      ensures response == ResponseFor(id, now, Refuses(reason))
    {
      response := Response(false, None, now, Some(reason));
      Record(request, response, [PaperEvent(Event(id, Rejection, now, reason, None, 0.0, 0, None), None)]);
    }

    method AcceptAndFill(request: Request, id: OrderId, now: int, price: Positive) returns (response: Response)
      requires request.quantity > 0
      modifies this
      ensures Value() == Recorded(old(Value()), request, id, now, Fills(price))
      ensures response == ResponseFor(id, now, Fills(price))
    {
      var name := BrokerName(id);
      var quantity := request.quantity as real;
      var ack := PaperEvent(Event(id, Acknowledgement, now, "paper broker accepted order", Some(name), 0.0, 0, None), None);
      var fill := PaperEvent(Event(id, FullFill, now, "paper simulator-confirmed fill", Some(name), quantity, 0, None), Some(price));
      var record := FillRecord(sequence, request.clientId, id, request.side, request.instrument, request.account, quantity, price);
      sequence := sequence + 1;
      fills := fills + [record];
      response := Response(true, Some(name), now, None);
      Record(request, response, [ack, fill]);
    }

    method Submit(request: Request, reference: Option<Reference>, now: int) returns (r: Result<Response, BookError>)
      modifies this
      ensures (Value(), r) == SubmitTo(old(Value()), request, reference, now, naming)
    {
      if request.mode != PaperMode {
        return Err(ModeViolation);
      }
      if Blank(request.clientId) {
        return Err(BlankClientId);
      }
      if request.quantity <= 0 {
        return Err(QuantityNotPositive);
      }
      var id := naming(KeyOf(request));
      if request.orderId != Some(id) {
        return Err(WrongOrderId);
      }
      if KeyOf(request) in submissions {
        var prior := submissions[KeyOf(request)];
        if !SamePayload(prior.request, request) {
          return Err(PayloadConflict);
        }
        return Ok(prior.response);
      }
      var response;
      if reference.None? {
        response := Reject(request, id, now, "no reference price available for instrument");
        return Ok(response);
      }
      if reference.value.instrument != request.instrument {
        return Err(WrongReference);
      }
      var verdict := Decide(request, reference.value);
      match verdict {
        case Refuses(reason) => response := Reject(request, id, now, reason);
        case Fills(price) => response := AcceptAndFill(request, id, now, price);
      }
      return Ok(response);
    }

    method PendingEvents() returns (unconsumed: seq<PaperEvent>)
      modifies this
      ensures unconsumed == Undrained(old(Value())) && Value() == Drained(old(Value()))
    {
      unconsumed := if pending <= |events| then events[pending..] else [];
      pending := |events|;
    }
  }

  // ------------------------------------------------------------ state machine

  function ApplyAll(x: Execution, events: seq<PaperEvent>): Result<Execution, OrderError>
    decreases |events|
  {
    if |events| == 0 then Ok(x)
    else
      var before := ApplyAll(x, events[..|events| - 1]);
      if before.Err? then before else ApplyEvent(before.value, events[|events| - 1].event)
  }

  /** An order that has been handed to the broker and not heard of since. */
  predicate Awaiting(x: Execution, id: OrderId, quantity: int) {
    x.lifecycle.orderId == id && x.lifecycle.state == SubmissionRequested && x.filled == 0.0 && x.quantity == quantity as real
  }

  /** One rejection, or an acknowledgement and a fill of the whole quantity. */
  predicate Conclusive(events: seq<PaperEvent>, id: OrderId, quantity: int) {
    if |events| == 1 then events[0].event.orderId == id && events[0].event.kind == Rejection
    else
      && |events| == 2
      && events[0].event.orderId == id && events[0].event.kind == Acknowledgement
      && events[1].event.orderId == id && events[1].event.kind == FullFill && events[1].event.fillQuantity == quantity as real
  }

  lemma ConclusiveEventsConclude(x: Execution, events: seq<PaperEvent>, id: OrderId, quantity: int)
    requires quantity > 0 && Awaiting(x, id, quantity) && Conclusive(events, id, quantity)
    ensures var r := ApplyAll(x, events);
            && r.Ok?
            && if |events| == 1 then r.value.lifecycle.state == Rejected && r.value.filled == 0.0
               else r.value.lifecycle.state == Filled && r.value.filled == quantity as real
  {
    if |events| == 1 {
      assert events[..0] == [];
    } else {
      var first := events[..1];
      assert first[..0] == [] && first[0] == events[0];
      assert ApplyAll(x, first) == ApplyEvent(x, events[0].event);
    }
  }

  // --------------------------------------------------------------------- runs

  datatype Operation = Submits(request: Request, reference: Option<Reference>, now: int) | Drains

  function After(book: Book, op: Operation, naming: Naming): Book {
    match op
    case Submits(request, reference, now) => SubmitTo(book, request, reference, now, naming).0
    case Drains => Drained(book)
  }

  function Run(ops: seq<Operation>, naming: Naming): Book
    decreases |ops|
  {
    if |ops| == 0 then EMPTY else After(Run(ops[..|ops| - 1], naming), ops[|ops| - 1], naming)
  }

  /** All that the drains of a run returned, in order. */
  function Delivered(ops: seq<Operation>, naming: Naming): seq<PaperEvent>
    decreases |ops|
  {
    if |ops| == 0 then []
    else
      var before := Run(ops[..|ops| - 1], naming);
      Delivered(ops[..|ops| - 1], naming) + (if ops[|ops| - 1].Drains? then Undrained(before) else [])
  }

  /** The events of one order in a log. */
  function OfOrder(log: seq<PaperEvent>, id: OrderId): seq<PaperEvent>
    decreases |log|
  {
    if |log| == 0 then []
    else
      var last := log[|log| - 1];
      OfOrder(log[..|log| - 1], id) + (if last.event.orderId == id then [last] else [])
  }

  /** Order, quantity and price of each fill event of a log, in order. */
  function FillEvents(log: seq<PaperEvent>): seq<(OrderId, real, Option<Positive>)>
    decreases |log|
  {
    if |log| == 0 then []
    else
      var last := log[|log| - 1];
      FillEvents(log[..|log| - 1])
      + (if last.event.kind == FullFill then [(last.event.orderId, last.event.fillQuantity as real, last.price)] else [])
  }

  function Trail(fills: seq<FillRecord>): seq<(OrderId, real, Option<Positive>)> {
    seq(|fills|, i requires 0 <= i < |fills| => (fills[i].orderId, fills[i].quantity as real, Some(fills[i].price)))
  }

  /** What the book keeps about one account and client order id. */
  ghost predicate KeyOk(book: Book, naming: Naming, key: Key) {
    if key !in book.submissions then OfOrder(book.events, naming(key)) == []
    else
      var s := book.submissions[key];
      && KeyOf(s.request) == key && Objection(s.request, naming(key)).None?
      && OfOrder(book.events, naming(key)) == s.events
      && Conclusive(s.events, naming(key), s.request.quantity)
      && (s.response.accepted <==> |s.events| == 2)
  }

  ghost predicate BookOk(book: Book, naming: Naming) {
    && book.pending <= |book.events|
    && (forall key :: KeyOk(book, naming, key))
  }

  /** The fill trail is the log's fill events in order, numbered from zero. */
  ghost predicate TrailOk(book: Book) {
    && |book.fills| == book.sequence
    && (forall i :: 0 <= i < |book.fills| ==> book.fills[i].sequence == i)
    && Trail(book.fills) == FillEvents(book.events)
  }

  lemma {:induction false} OfOrderSplits(a: seq<PaperEvent>, b: seq<PaperEvent>, id: OrderId)
    ensures OfOrder(a + b, id) == OfOrder(a, id) + OfOrder(b, id)
    decreases |b|
  {
    if |b| == 0 {
      assert a + b == a;
    } else {
      var n := |b| - 1;
      OfOrderSplits(a, b[..n], id);
      assert (a + b)[..|a + b| - 1] == a + b[..n];
    }
  }

  lemma EventsAreOwn(request: Request, id: OrderId, now: int, verdict: Verdict, other: OrderId)
    requires request.quantity > 0
    ensures OfOrder(EventsFor(request, id, now, verdict), other) == if other == id then EventsFor(request, id, now, verdict) else []
  {
    var events := EventsFor(request, id, now, verdict);
    if verdict.Refuses? {
      assert events[..0] == [];
    } else {
      var first := events[..1];
      assert first[..0] == [] && first[0] == events[0];
      assert OfOrder(first, other) == if other == id then [events[0]] else [];
    }
  }

  lemma {:induction false} FillEventsSplit(a: seq<PaperEvent>, b: seq<PaperEvent>)
    ensures FillEvents(a + b) == FillEvents(a) + FillEvents(b)
    decreases |b|
  {
    if |b| == 0 {
      assert a + b == a;
    } else {
      var n := |b| - 1;
      FillEventsSplit(a, b[..n]);
      assert (a + b)[..|a + b| - 1] == a + b[..n];
    }
  }

  lemma TrailExtends(book: Book, request: Request, id: OrderId, now: int, verdict: Verdict)
    requires request.quantity > 0 && TrailOk(book)
    ensures TrailOk(Recorded(book, request, id, now, verdict))
  {
    var events, fills := EventsFor(request, id, now, verdict), FillsFor(book, request, id, verdict);
    FillEventsSplit(book.events, events);
    assert FillEvents(events) == Trail(fills) by {
      if verdict.Refuses? {
        assert events[..0] == [];
      } else {
        var first := events[..1];
        assert first[..0] == [] && first[0] == events[0];
        assert FillEvents(first) == [];
      }
    }
    assert Trail(book.fills + fills) == Trail(book.fills) + Trail(fills);
  }

  lemma OtherKeysKept(book: Book, request: Request, now: int, verdict: Verdict, naming: Naming, key: Key)
    requires request.quantity > 0 && key != KeyOf(request) && Separates(naming, key, KeyOf(request)) && KeyOk(book, naming, key)
    ensures KeyOk(Recorded(book, request, naming(KeyOf(request)), now, verdict), naming, key)
  {
    var id := naming(KeyOf(request));
    OfOrderSplits(book.events, EventsFor(request, id, now, verdict), naming(key));
    EventsAreOwn(request, id, now, verdict, naming(key));
  }

  lemma EventsConclude(request: Request, id: OrderId, now: int, verdict: Verdict)
    requires request.quantity > 0
    ensures Conclusive(EventsFor(request, id, now, verdict), id, request.quantity)
    ensures ResponseFor(id, now, verdict).accepted <==> |EventsFor(request, id, now, verdict)| == 2
  {}

  lemma OwnEvents(events: seq<PaperEvent>, request: Request, id: OrderId, now: int, verdict: Verdict)
    requires request.quantity > 0 && OfOrder(events, id) == []
    ensures var more := EventsFor(request, id, now, verdict); OfOrder(events + more, id) == more
  {
    OfOrderSplits(events, EventsFor(request, id, now, verdict), id);
    EventsAreOwn(request, id, now, verdict, id);
  }

  lemma OwnKeyRecorded(book: Book, request: Request, now: int, verdict: Verdict, naming: Naming)
    requires var key := KeyOf(request);
             key !in book.submissions && KeyOk(book, naming, key) && Objection(request, naming(key)).None?
    ensures KeyOk(Recorded(book, request, naming(KeyOf(request)), now, verdict), naming, KeyOf(request))
  {
    var id := naming(KeyOf(request));
    OwnEvents(book.events, request, id, now, verdict);
    EventsConclude(request, id, now, verdict);
  }

  lemma SubmitKeeps(book: Book, request: Request, reference: Option<Reference>, now: int, naming: Naming)
    requires Injective(naming) && BookOk(book, naming)
    ensures BookOk(SubmitTo(book, request, reference, now, naming).0, naming)
  {
    var after := SubmitTo(book, request, reference, now, naming).0;
    if after != book {
      var verdict := VerdictOn(request, reference);
      forall key ensures KeyOk(after, naming, key) {
        assert KeyOk(book, naming, key) && Separates(naming, key, KeyOf(request));
        if key == KeyOf(request) {
          OwnKeyRecorded(book, request, now, verdict, naming);
        } else {
          OtherKeysKept(book, request, now, verdict, naming, key);
        }
      }
    }
  }

  lemma {:induction false} RunKeeps(ops: seq<Operation>, naming: Naming)
    requires Injective(naming)
    ensures BookOk(Run(ops, naming), naming)
    decreases |ops|
  {
    if |ops| == 0 {
      forall key ensures KeyOk(EMPTY, naming, key) {}
    } else {
      var n := |ops| - 1;
      RunKeeps(ops[..n], naming);
      var book := Run(ops[..n], naming);
      match ops[n]
      case Submits(request, reference, now) => SubmitKeeps(book, request, reference, now, naming);
      case Drains => forall key ensures KeyOk(Drained(book), naming, key) { assert KeyOk(book, naming, key); }
    }
  }

  // ---------------------------------------------------------------- theorems

  /** Every recorded submission's events are legal for its order and end it filled or rejected, as the response said. */
  lemma SubmissionsConclude(ops: seq<Operation>, naming: Naming, key: Key, x: Execution)
    requires Injective(naming) && key in Run(ops, naming).submissions
    requires Awaiting(x, naming(key), Run(ops, naming).submissions[key].request.quantity)
    ensures var s := Run(ops, naming).submissions[key];
            var r := ApplyAll(x, s.events);
            && s.request.quantity > 0 && r.Ok?
            && (if s.response.accepted then r.value.lifecycle.state == Filled && r.value.filled == s.request.quantity as real
                else r.value.lifecycle.state == Rejected && r.value.filled == 0.0)
  {
    RunKeeps(ops, naming);
    var s := Run(ops, naming).submissions[key];
    assert KeyOk(Run(ops, naming), naming, key);
    ConclusiveEventsConclude(x, s.events, naming(key), s.request.quantity);
  }

  /** Submitting leaves the drain mark where it is and only appends. */
  lemma SubmitAppends(book: Book, request: Request, reference: Option<Reference>, now: int, naming: Naming)
    ensures var after := SubmitTo(book, request, reference, now, naming).0;
            after.pending == book.pending && book.events <= after.events && book.fills <= after.fills
  {}

  lemma PrefixStays(log: seq<PaperEvent>, longer: seq<PaperEvent>, mark: nat)
    requires mark <= |log| && log <= longer
    ensures longer[..mark] == log[..mark] && log[..mark] + longer[mark..] == longer
  {}

  /** The drains of a run deliver the log in order without loss or repetition; what is left is the undrained tail. */
  lemma {:induction false} DrainsDeliverTheLog(ops: seq<Operation>, naming: Naming)
    ensures var book := Run(ops, naming);
            book.pending <= |book.events| && Delivered(ops, naming) == book.events[..book.pending]
            && Delivered(ops, naming) + Undrained(book) == book.events
    decreases |ops|
  {
    if |ops| > 0 {
      var n := |ops| - 1;
      DrainsDeliverTheLog(ops[..n], naming);
      var before, delivered := Run(ops[..n], naming), Delivered(ops[..n], naming);
      match ops[n]
      case Submits(request, reference, now) =>
        SubmitAppends(before, request, reference, now, naming);
        PrefixStays(before.events, Run(ops, naming).events, before.pending);
        assert Delivered(ops, naming) == delivered;
      case Drains =>
        assert Delivered(ops, naming) == delivered + Undrained(before);
    }
  }

  /** Picking one order's events out of the whole log gives exactly the events its submission recorded. */
  lemma LogHoldsEachSubmissionOnce(ops: seq<Operation>, naming: Naming, key: Key)
    requires Injective(naming)
    ensures var book := Run(ops, naming);
            OfOrder(book.events, naming(key)) == if key in book.submissions then book.submissions[key].events else []
  {
    RunKeeps(ops, naming);
    assert KeyOk(Run(ops, naming), naming, key);
  }

  /** In every run the fill trail is exactly what the log's fill events say. */
  lemma {:induction false} FillTrailIsTheLog(ops: seq<Operation>, naming: Naming)
    ensures TrailOk(Run(ops, naming))
    decreases |ops|
  {
    if |ops| > 0 {
      var n := |ops| - 1;
      FillTrailIsTheLog(ops[..n], naming);
      var before := Run(ops[..n], naming);
      if ops[n].Submits? && Run(ops, naming) != before {
        var request := ops[n].request;
        TrailExtends(before, request, naming(KeyOf(request)), ops[n].now, VerdictOn(request, ops[n].reference));
      }
    }
  }

  lemma {:induction false} SubmissionsAreForever(ops: seq<Operation>, more: seq<Operation>, naming: Naming, key: Key)
    requires key in Run(ops, naming).submissions
    ensures key in Run(ops + more, naming).submissions && Run(ops + more, naming).submissions[key] == Run(ops, naming).submissions[key]
    ensures Run(ops, naming).events <= Run(ops + more, naming).events && Run(ops, naming).fills <= Run(ops + more, naming).fills
    decreases |more|
  {
    if |more| == 0 {
      assert ops + more == ops;
    } else {
      var n := |more| - 1;
      SubmissionsAreForever(ops, more[..n], naming, key);
      assert (ops + more)[..|ops + more| - 1] == ops + more[..n];
    }
  }

  /** Resubmitting at any later time: the same payload gets the recorded answer, another one is refused, and nothing changes. */
  lemma ResubmissionIsHarmless(ops: seq<Operation>, more: seq<Operation>, naming: Naming, request: Request, reference: Option<Reference>, now: int)
    requires Injective(naming) && KeyOf(request) in Run(ops, naming).submissions && Objection(request, naming(KeyOf(request))).None?
    ensures var prior := Run(ops, naming).submissions[KeyOf(request)];
            SubmitTo(Run(ops + more, naming), request, reference, now, naming)
            == (Run(ops + more, naming), if prior.request == request then Ok(prior.response) else Err(PayloadConflict))
  {
    SubmissionsAreForever(ops, more, naming, KeyOf(request));
    RunKeeps(ops, naming);
    assert KeyOk(Run(ops, naming), naming, KeyOf(request));
  }
}
