/** Which events an order accepts, and where they take it: what moves an order on, in memory and in the store. */
module OrderProgress {
  import opened Wrappers
  import opened Arithmetic
  import opened OrderLifecycle
  import opened EventStore
  import opened ConcurrentDelivery

  // ---------------------------------------------------------------- one event

  /** The statuses at which an order accepts an event, by the kind of the event. */
  function Admitting(kind: EventKind): set<OrderState> {
    match kind
    case Acknowledgement => {SubmissionRequested, ReconciliationRequired}
    case PartialFill => {BrokerAcknowledged, PartiallyFilled, CancelRequested, ReconciliationRequired}
    case FullFill => {BrokerAcknowledged, PartiallyFilled, CancelRequested, ReconciliationRequired}
    case Rejection => {InternalOrderCreated, SubmissionRequested, BrokerAcknowledged, ReconciliationRequired}
    case CancelRequest => {SubmissionRequested, BrokerAcknowledged, PartiallyFilled}
    case Cancellation => {CancelRequested, ReconciliationRequired}
    case UnknownState => {SubmissionRequested, BrokerAcknowledged, PartiallyFilled, CancelRequested}
    case Reconciliation => {Unknown}
  }

  /** A partial fill leaves shares open, a full fill none. */
  predicate FillFits(kind: EventKind, filled: real, quantity: real) {
    (kind == PartialFill ==> filled < quantity) && (kind == FullFill ==> filled == quantity)
  }

  /** An event is accepted exactly by its own order, at a status that admits it, if its fill fits; otherwise the first obstacle is named. */
  lemma AcceptedExactlyWhen(x: Execution, e: Event)
    requires ValidEvent(e)
    ensures var own, fits := e.orderId == x.lifecycle.orderId, FillFits(e.kind, x.filled + e.fillQuantity, x.quantity);
            && (ApplyEvent(x, e).Ok? <==> own && fits && x.lifecycle.state in Admitting(e.kind))
            && (ApplyEvent(x, e).Err? ==>
                  ApplyEvent(x, e).error == (if !own then WrongOrder
                                             else if !fits then (if e.kind == PartialFill then PartialFillCompletes else FillDoesNotComplete)
                                             else InvalidTransition))
  {}

  /** The order after an accepted event: only its status, its filled quantity and its broker order id can change. */
  lemma AcceptedMovesOrder(x: Execution, e: Event)
    requires ValidEvent(e) && ApplyEvent(x, e).Ok?
    ensures var after := ApplyEvent(x, e).value;
            && after.quantity == x.quantity && after.filled == x.filled + e.fillQuantity
            && after.brokerOrderId == (if e.brokerOrderId.Some? && e.brokerOrderId.value != "" then e.brokerOrderId else x.brokerOrderId)
            && after.lifecycle.orderId == x.lifecycle.orderId
            && after.lifecycle.transitions == x.lifecycle.transitions + [Transition(x.lifecycle.state, after.lifecycle.state, e.at, e.reason)]
  {}

  /** The order service moves an order on exactly along the path to submission, and to cancellation from where it can be requested. */
  lemma AdvancedExactlyWhen(x: Execution, to: OrderState, at: int, reason: string)
    requires to in {InternalOrderCreated, SubmissionRequested, CancelRequested}
    ensures ValidMove(Advance(to, at, reason))
    ensures TryMove(x, Advance(to, at, reason)).Ok? <==>
            || (to == InternalOrderCreated && x.lifecycle.state == IntentCreated)
            || (to == SubmissionRequested && x.lifecycle.state == InternalOrderCreated)
            || (to == CancelRequested && x.lifecycle.state in {SubmissionRequested, BrokerAcknowledged, PartiallyFilled})
    ensures TryMove(x, Advance(to, at, reason)).Ok? ==>
              var after := MoveOrder(x, Advance(to, at, reason));
              after.lifecycle.state == to && after.filled == x.filled && after.quantity == x.quantity && after.brokerOrderId == x.brokerOrderId
  {}

  // --------------------------------------------------------------------- runs

  function Receives(events: seq<Event>): seq<Move> {
    seq(|events|, i requires 0 <= i < |events| => Receive(events[i]))
  }

  lemma RunOne(x: Execution, m: Move)
    ensures RunOrder(x, [m]) == MoveOrder(x, m)
  {
    assert [m][..0] == [];
  }

  lemma {:induction false} RunConcat(x: Execution, a: seq<Move>, b: seq<Move>)
    ensures RunOrder(x, a + b) == RunOrder(RunOrder(x, a), b)
    decreases |b|
  {
    if |b| == 0 {
      assert a + b == a;
    } else {
      var n := |b| - 1;
      RunConcat(x, a, b[..n]);
      assert (a + b)[..|a + b| - 1] == a + b[..n];
    }
  }

  /** A confirmed cancellation ends the order CANCELLED, with what it had filled. */
  lemma ConfirmedCancelEnds(x: Execution, e: Event)
    requires x.lifecycle.state == CancelRequested && e.kind == Cancellation && e.orderId == x.lifecycle.orderId && ValidEvent(e)
    ensures var after := RunOrder(x, [Receive(e)]);
            after.lifecycle.state == Cancelled && after.filled == x.filled && after.quantity == x.quantity
  {
    RunOne(x, Receive(e));
  }

  /** Partial fills of one order. */
  predicate Partials(events: seq<Event>, id: OrderId) {
    forall i :: 0 <= i < |events| ==> events[i].kind == PartialFill && events[i].orderId == id && events[i].fillQuantity > 0.0
  }

  function Shares(events: seq<Event>): NonNegative
    decreases |events|
  {
    if |events| == 0 then 0.0 else Shares(events[..|events| - 1]) + events[|events| - 1].fillQuantity
  }

  const FILLABLE := {BrokerAcknowledged, PartiallyFilled, CancelRequested, ReconciliationRequired}

  /** Partial fills that leave shares open are all accepted and add up. */
  lemma {:induction false} PartialsAddUp(x: Execution, events: seq<Event>)
    requires x.lifecycle.state in FILLABLE && Partials(events, x.lifecycle.orderId) && x.filled + Shares(events) < x.quantity
    ensures var after := RunOrder(x, Receives(events));
            && after.filled == x.filled + Shares(events) && after.quantity == x.quantity && after.lifecycle.orderId == x.lifecycle.orderId
            && after.lifecycle.state == if |events| == 0 then x.lifecycle.state else PartiallyFilled
    decreases |events|
  {
    if |events| > 0 {
      var n := |events| - 1;
      PartialsAddUp(x, events[..n]);
      assert Receives(events)[..n] == Receives(events[..n]) && Receives(events)[n] == Receive(events[n]);
    }
  }

  /** From submission an acknowledgement, any partial fills that leave shares open, and the completing fill end the order FILLED. */
  lemma FillsComplete(x: Execution, ack: Event, partials: seq<Event>, full: Event)
    requires x.lifecycle.state == SubmissionRequested && ValidEvent(ack) && Partials(partials, x.lifecycle.orderId)
    requires ack.kind == Acknowledgement && full.kind == FullFill && ack.orderId == full.orderId == x.lifecycle.orderId
    requires x.filled + Shares(partials) < x.quantity && x.filled + Shares(partials) + full.fillQuantity == x.quantity
    ensures var after := RunOrder(x, [Receive(ack)] + Receives(partials) + [Receive(full)]);
            after.lifecycle.state == Filled && after.filled == x.quantity == after.quantity
  {
    var acknowledged := MoveOrder(x, Receive(ack));
    RunOne(x, Receive(ack));
    RunConcat(x, [Receive(ack)], Receives(partials));
    RunConcat(x, [Receive(ack)] + Receives(partials), [Receive(full)]);
    PartialsAddUp(acknowledged, partials);
    RunOne(RunOrder(acknowledged, Receives(partials)), Receive(full));
  }

  lemma RunTwo(x: Execution, a: Move, b: Move)
    ensures RunOrder(x, [a, b]) == MoveOrder(MoveOrder(x, a), b)
  {
    assert [a, b][..1] == [a];
    RunOne(x, a);
  }

  /** An order of unknown state that is reconciled ends where the next report says. */
  lemma ReconciledOrderFollowsReport(x: Execution, reconciliation: Event, e: Event)
    requires x.lifecycle.state == Unknown && reconciliation.kind == Reconciliation && ValidEvent(reconciliation) && ValidEvent(e)
    requires reconciliation.orderId == e.orderId == x.lifecycle.orderId
    requires e.kind in {Acknowledgement, PartialFill, FullFill, Rejection, Cancellation}
    requires FillFits(e.kind, x.filled + e.fillQuantity, x.quantity)
    ensures var state := RunOrder(x, [Receive(reconciliation), Receive(e)]).lifecycle.state;
            && (e.kind == Acknowledgement ==> state == BrokerAcknowledged)
            && (e.kind == PartialFill ==> state == PartiallyFilled)
            && (e.kind == FullFill ==> state == Filled)
            && (e.kind == Rejection ==> state == Rejected)
            && (e.kind == Cancellation ==> state == Cancelled)
  {
    RunTwo(x, Receive(reconciliation), Receive(e));
  }

  // ------------------------------------------------------- no order gets stuck

  /** An event of the given kind that fills nothing. */
  function Bare(id: OrderId, kind: EventKind): Event {
    Event(id, kind, 0, "", None, 0.0, 0, None)
  }

  /** Moves that take an order in the given state to a terminal one. */
  function WayOut(id: OrderId, state: OrderState): seq<Move> {
    match state
    case IntentCreated => [Advance(InternalOrderCreated, 0, ""), Receive(Bare(id, Rejection))]
    case PartiallyFilled => [Receive(Bare(id, CancelRequest)), Receive(Bare(id, Cancellation))]
    case CancelRequested => [Receive(Bare(id, Cancellation))]
    case Unknown => [Receive(Bare(id, Reconciliation)), Receive(Bare(id, Rejection))]
    case _ => [Receive(Bare(id, Rejection))]
  }

  /** From every state that is not terminal some run of valid moves reaches a terminal one. */
  lemma EveryOrderCanEnd(x: Execution)
    requires !Terminal(x.lifecycle.state)
    ensures var moves := WayOut(x.lifecycle.orderId, x.lifecycle.state);
            ValidMoves(moves) && Terminal(RunOrder(x, moves).lifecycle.state) && RunOrder(x, moves).filled == x.filled
  {
    var moves := WayOut(x.lifecycle.orderId, x.lifecycle.state);
    if |moves| == 1 {
      RunOne(x, moves[0]);
    } else {
      RunTwo(x, moves[0], moves[1]);
    }
  }

  // ------------------------------------------------------------- in the store

  /** Some other order has this broker order id. */
  ghost predicate HeldByOther(db: Db, id: OrderId, brokerOrderId: Option<string>) {
    brokerOrderId.Some? && exists other :: other in db.orders && other != id && db.orders[other].brokerOrderId == brokerOrderId
  }

  /** A new event is accepted by the store exactly when its order is stored, at a status that admits it, its fill fits and its broker order id is free. */
  lemma StoredExactlyWhen(db: Db, e: Event)
    requires ValidEvent(e)
    ensures Accepted(db, e) <==>
            && FindEvent(db.events, IdentityOf(e)).None? && e.orderId in db.orders
            && var row := db.orders[e.orderId];
            && row.status in Admitting(e.kind) && FillFits(e.kind, row.filled as real + e.fillQuantity, row.quantity as real)
            && !HeldByOther(db, e.orderId, if Given(e.brokerOrderId) then e.brokerOrderId else row.brokerOrderId)
  {
    if e.orderId in db.orders {
      AcceptedExactlyWhen(Load(db, e.orderId).value, e);
      AcceptedGrows(db, e);
    }
  }

  lemma AcceptedGrows(db: Db, e: Event)
    requires e.orderId in db.orders
    ensures forall x :: |Saved(db, e, x).events| == |db.events| + 1
  {}

  /** What an accepted event leaves in the store: the one row moved on, and the event appended. */
  lemma StoredMovesRow(db: Db, e: Event)
    requires ValidEvent(e) && Accepted(db, e)
    ensures var after, id := Deliver(db, e).0, e.orderId;
            && id in db.orders && after.orders.Keys == db.orders.Keys
            && (forall other :: other in db.orders && other != id ==> after.orders[other] == db.orders[other])
            && after.orders[id].quantity == db.orders[id].quantity
            && after.orders[id].filled == db.orders[id].filled + Whole(e.fillQuantity)
            && after.orders[id].brokerOrderId == (if Given(e.brokerOrderId) then e.brokerOrderId else db.orders[id].brokerOrderId)
            && after.events == db.events + [EventRow(IdentityOf(e), ContentOf(e), id)]
  {
    DeliverFills(db, e, e.orderId);
  }

  /** An event that brings no broker order id, and that the store does not know. */
  predicate NewEvent(db: Db, e: Event, id: OrderId) {
    e.orderId == id && ValidEvent(e) && e.brokerOrderId == None && FindEvent(db.events, IdentityOf(e)).None?
  }

  /** The order is stored, and its broker order id is its own. */
  predicate OwnBrokerId(db: Db, id: OrderId) {
    id in db.orders && BrokerIdFree(db, id, db.orders[id].brokerOrderId)
  }

  /** A confirmed cancellation is stored as CANCELLED, with what was filled. */
  lemma ConfirmedCancelIsStored(db: Db, id: OrderId, e: Event)
    requires OwnBrokerId(db, id) && db.orders[id].status == CancelRequested && e.kind == Cancellation && NewEvent(db, e, id)
    ensures var after := DeliverAll(db, [e]);
            id in after.orders && after.orders[id] == db.orders[id].(status := Cancelled)
  {
    assert [e][..0] == [];
  }

  /** A cancel request and its confirmation, one after the other, end the order CANCELLED. */
  lemma RequestAndConfirmationCancel(db: Db, id: OrderId, e: Event)
    requires OwnBrokerId(db, id) && Cancellable(db.orders[id].status) && CancelCommits(db, id)
    requires e.kind == Cancellation && NewEvent(db, e, id)
    ensures var after := OneByOne(db, [Request(id), Delivery(e)]);
            id in after.orders && after.orders[id] == db.orders[id].(status := Cancelled)
  {
    var requested := Requested(db, id);
    assert [Request(id), Delivery(e)][..1] == [Request(id)] && [Request(id)][..0] == [];
    assert OneByOne(db, [Request(id)]) == requested;
    FindAppended(db.events, EventRow(CancelKey(id), CANCEL_CONTENT, id), IdentityOf(e));
    ConfirmedCancelIsStored(requested, id, e);
    assert [e][..0] == [];
  }

  ghost predicate UnlikeEvents(events: seq<Event>, i: int, j: int) {
    0 <= i < j < |events| ==> IdentityOf(events[i]) != IdentityOf(events[j])
  }

  /** Partial fills of whole shares, all new to the store and to each other. */
  ghost predicate NewPartials(db: Db, events: seq<Event>, id: OrderId) {
    && Partials(events, id)
    && (forall i :: 0 <= i < |events| ==> NewEvent(db, events[i], id) && WholeQuantity(events[i].fillQuantity))
    && (forall i, j :: UnlikeEvents(events, i, j))
  }

  lemma OnePartialIsStored(db: Db, id: OrderId, e: Event)
    requires OwnBrokerId(db, id) && db.orders[id].status in FILLABLE && e.kind == PartialFill && NewEvent(db, e, id)
    requires WholeQuantity(e.fillQuantity) && db.orders[id].filled as real + e.fillQuantity < db.orders[id].quantity as real
    ensures var after := Deliver(db, e).0;
            && OwnBrokerId(after, id) && after.orders[id].status == PartiallyFilled && after.orders[id].quantity == db.orders[id].quantity
            && after.orders[id].filled as real == db.orders[id].filled as real + e.fillQuantity
            && after.events == db.events + [EventRow(IdentityOf(e), ContentOf(e), id)]
  {
    WholeAdds(db.orders[id].filled, e.fillQuantity);
  }

  /** The event table has grown by exactly these events. */
  ghost predicate Extends(db: Db, after: Db, events: seq<Event>) {
    && |after.events| == |db.events| + |events| && after.events[..|db.events|] == db.events
    && forall k :: |db.events| <= k < |after.events| ==> after.events[k].identity == IdentityOf(events[k - |db.events|])
  }

  lemma {:induction false} StoredPartialsAddUp(db: Db, id: OrderId, events: seq<Event>)
    requires OwnBrokerId(db, id) && db.orders[id].status in FILLABLE && NewPartials(db, events, id)
    requires db.orders[id].filled as real + Shares(events) < db.orders[id].quantity as real
    ensures var after := DeliverAll(db, events);
            && OwnBrokerId(after, id) && after.orders[id].quantity == db.orders[id].quantity
            && after.orders[id].filled as real == db.orders[id].filled as real + Shares(events)
            && after.orders[id].status == (if |events| == 0 then db.orders[id].status else PartiallyFilled)
            && Extends(db, after, events)
    decreases |events|
  {
    if |events| > 0 {
      var n := |events| - 1;
      forall i, j ensures UnlikeEvents(events[..n], i, j) { assert UnlikeEvents(events, i, j); }
      StoredPartialsAddUp(db, id, events[..n]);
      var before := DeliverAll(db, events[..n]);
      forall i | 0 <= i < n ensures IdentityOf(events[i]) != IdentityOf(events[n]) { assert UnlikeEvents(events, i, n); }
      StillNew(db, before, events[..n], events[n]);
      OnePartialIsStored(before, id, events[n]);
    }
  }

  /** An event unlike those delivered is still new. */
  lemma StillNew(db: Db, after: Db, events: seq<Event>, e: Event)
    requires FindEvent(db.events, IdentityOf(e)).None? && Extends(db, after, events)
    requires forall i :: 0 <= i < |events| ==> IdentityOf(events[i]) != IdentityOf(e)
    ensures FindEvent(after.events, IdentityOf(e)).None?
  {
    FindEventMeaning(db.events, IdentityOf(e));
    forall k | 0 <= k < |after.events| ensures after.events[k].identity != IdentityOf(e) {
      if k < |db.events| { assert after.events[..|db.events|][k] == db.events[k]; }
    }
    FindEventMeaning(after.events, IdentityOf(e));
  }

  lemma DeliverOne(db: Db, before: seq<Event>, e: Event)
    ensures DeliverAll(db, before + [e]) == Deliver(DeliverAll(db, before), e).0
  {
    assert (before + [e])[..|before|] == before;
  }

  /**
   In the store too: an acknowledged order that receives partial fills of whole shares, all different and
   leaving shares open, and then the completing fill, is stored FILLED and completely filled.
   */
  lemma StoredFillsComplete(db: Db, id: OrderId, partials: seq<Event>, full: Event)
    requires OwnBrokerId(db, id) && db.orders[id].status in FILLABLE && NewPartials(db, partials, id) && NewEvent(db, full, id)
    requires full.kind == FullFill && forall i :: 0 <= i < |partials| ==> IdentityOf(partials[i]) != IdentityOf(full)
    requires db.orders[id].filled as real + Shares(partials) < db.orders[id].quantity as real
    requires db.orders[id].filled as real + Shares(partials) + full.fillQuantity == db.orders[id].quantity as real
    ensures var after := DeliverAll(db, partials + [full]);
            id in after.orders && after.orders[id].status == Filled && after.orders[id].filled == after.orders[id].quantity == db.orders[id].quantity
  {
    StoredPartialsAddUp(db, id, partials);
    DeliverOne(db, partials, full);
    StillNew(db, DeliverAll(db, partials), partials, full);
  }
}
