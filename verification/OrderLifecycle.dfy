/** The order lifecycle and the state machine that broker events drive. */
module OrderLifecycle {
  import opened Wrappers
  import opened Arithmetic

  type OrderId = nat

  datatype OrderState =
    | IntentCreated
    | InternalOrderCreated
    | SubmissionRequested
    | BrokerAcknowledged
    | PartiallyFilled
    | Filled
    | Rejected
    | CancelRequested
    | Cancelled
    | Unknown
    | ReconciliationRequired

  predicate Terminal(state: OrderState) {
    state in {Filled, Rejected, Cancelled}
  }

  function Allowed(state: OrderState): set<OrderState> {
    match state
    case IntentCreated => {InternalOrderCreated}
    case InternalOrderCreated => {SubmissionRequested, Rejected}
    case SubmissionRequested => {BrokerAcknowledged, Rejected, Unknown, CancelRequested}
    case BrokerAcknowledged => {PartiallyFilled, Filled, Rejected, CancelRequested, Unknown}
    case PartiallyFilled => {PartiallyFilled, Filled, CancelRequested, Unknown}
    case CancelRequested => {Cancelled, PartiallyFilled, Filled, Unknown}
    case Unknown => {ReconciliationRequired}
    case ReconciliationRequired => {BrokerAcknowledged, PartiallyFilled, Filled, Rejected, Cancelled}
    case Filled => {}
    case Rejected => {}
    case Cancelled => {}
  }

  /** The statuses from which the order service accepts a cancel request. */
  predicate Cancellable(state: OrderState) {
    state in {SubmissionRequested, BrokerAcknowledged, PartiallyFilled}
  }

  datatype Transition = Transition(from: OrderState, to: OrderState, at: int, reason: string)

  datatype Lifecycle = Lifecycle(orderId: OrderId, state: OrderState, transitions: seq<Transition>)

  datatype OrderError = InvalidTransition | WrongOrder | PartialFillCompletes | FillDoesNotComplete

  function TransitionTo(l: Lifecycle, to: OrderState, at: int, reason: string): Result<Lifecycle, OrderError> {
    if to !in Allowed(l.state) then Err(InvalidTransition)
    else Ok(Lifecycle(l.orderId, to, l.transitions + [Transition(l.state, to, at, reason)]))
  }

  // ----------------------------------------------------------------- events

  datatype EventKind =
    | Acknowledgement | PartialFill | FullFill | Rejection | CancelRequest | Cancellation | UnknownState | Reconciliation

  /**
   `exponent` is the power of ten in which the fill quantity is written: 1 and 1.0 are one value, written
   differently. `source` is the event id the broker attached, if any.
   */
  datatype Event = Event(
    orderId: OrderId, kind: EventKind, at: int, reason: string,
    brokerOrderId: Option<string>, fillQuantity: NonNegative, exponent: int, source: Option<string>)

  predicate IsFill(kind: EventKind) {
    kind in {PartialFill, FullFill}
  }

  /** Event construction: exactly the fill events carry a positive quantity. */
  predicate ValidEvent(e: Event) {
    IsFill(e.kind) <==> e.fillQuantity > 0.0
  }

  function Target(kind: EventKind): OrderState {
    match kind
    case Acknowledgement => BrokerAcknowledged
    case PartialFill => PartiallyFilled
    case FullFill => Filled
    case Rejection => Rejected
    case CancelRequest => CancelRequested
    case Cancellation => Cancelled
    case UnknownState => Unknown
    case Reconciliation => ReconciliationRequired
  }

  datatype Execution = Execution(lifecycle: Lifecycle, quantity: Positive, filled: NonNegative, brokerOrderId: Option<string>)

  /** An empty broker order id counts as absent. */
  predicate Given(brokerOrderId: Option<string>) {
    brokerOrderId.Some? && brokerOrderId.value != ""
  }

  function WithTransition(x: Execution, e: Event, filled: NonNegative): Result<Execution, OrderError> {
    var next := TransitionTo(x.lifecycle, Target(e.kind), e.at, e.reason);
    if next.Err? then Err(next.error)
    else Ok(Execution(next.value, x.quantity, filled, if Given(e.brokerOrderId) then e.brokerOrderId else x.brokerOrderId))
  }

  function ApplyEvent(x: Execution, e: Event): Result<Execution, OrderError> {
    if e.orderId != x.lifecycle.orderId then Err(WrongOrder)
    else match e.kind
      case PartialFill =>
        if x.filled + e.fillQuantity >= x.quantity then Err(PartialFillCompletes)
        else WithTransition(x, e, x.filled + e.fillQuantity)
      case FullFill =>
        if x.filled + e.fillQuantity != x.quantity then Err(FillDoesNotComplete)
        else WithTransition(x, e, x.filled + e.fillQuantity)
      case _ => WithTransition(x, e, x.filled)
  }

  // ------------------------------------------------------------------- runs

  /** A move of one order: the OMS advances its own states, the broker delivers events. */
  datatype Move = Advance(to: OrderState, at: int, reason: string) | Receive(event: Event)

  predicate ValidMove(m: Move) {
    match m
    case Advance(to, _, _) => to in {InternalOrderCreated, SubmissionRequested, CancelRequested}
    case Receive(e) => ValidEvent(e)
  }

  function TryMove(x: Execution, m: Move): Result<Execution, OrderError> {
    match m
    case Receive(e) => ApplyEvent(x, e)
    case Advance(to, at, reason) =>
      var next := TransitionTo(x.lifecycle, to, at, reason);
      if next.Err? then Err(next.error) else Ok(x.(lifecycle := next.value))
  }

  /** A refused move leaves the order as it was. */
  function MoveOrder(x: Execution, m: Move): Execution {
    var r := TryMove(x, m);
    if r.Ok? then r.value else x
  }

  function RunOrder(x: Execution, moves: seq<Move>): Execution
    decreases |moves|
  {
    if |moves| == 0 then x else MoveOrder(RunOrder(x, moves[..|moves| - 1]), moves[|moves| - 1])
  }

  function FreshOrder(id: OrderId, quantity: Positive): Execution {
    Execution(Lifecycle(id, IntentCreated, []), quantity, 0.0, None)
  }

  predicate ValidMoves(moves: seq<Move>) {
    forall i :: 0 <= i < |moves| ==> ValidMove(moves[i])
  }

  // -------------------------------------------------------------- invariants

  /** Entry `k` of a transition log starts where the previous one ended and is an edge of the graph. */
  predicate LinkHolds(log: seq<Transition>, k: nat) {
    k < |log| ==>
      && log[k].to in Allowed(log[k].from)
      && log[k].from == if k == 0 then IntentCreated else log[k - 1].to
  }

  /** The log is a connected path in the allowed graph from creation to the current state. */
  ghost predicate PathTo(log: seq<Transition>, state: OrderState) {
    && (forall k: nat :: LinkHolds(log, k))
    && state == if |log| == 0 then IntentCreated else log[|log| - 1].to
  }

  ghost predicate OrderInvariant(x: Execution) {
    && x.filled <= x.quantity
    && (x.lifecycle.state == Filled <==> x.filled == x.quantity)
    && PathTo(x.lifecycle.transitions, x.lifecycle.state)
  }

  lemma PathExtends(l: Lifecycle, to: OrderState, at: int, reason: string)
    requires PathTo(l.transitions, l.state) && to in Allowed(l.state)
    ensures PathTo(l.transitions + [Transition(l.state, to, at, reason)], to)
  {
    var log := l.transitions + [Transition(l.state, to, at, reason)];
    forall k: nat ensures LinkHolds(log, k) { assert LinkHolds(l.transitions, k); }
  }

  lemma MoveKeepsInvariant(x: Execution, m: Move)
    requires OrderInvariant(x) && ValidMove(m)
    ensures OrderInvariant(MoveOrder(x, m))
    ensures MoveOrder(x, m).filled >= x.filled
  {
    var to := match m case Receive(e) => Target(e.kind) case Advance(t, _, _) => t;
    if to in Allowed(x.lifecycle.state) {
      match m
      case Receive(e) => PathExtends(x.lifecycle, to, e.at, e.reason);
      case Advance(_, at, reason) => PathExtends(x.lifecycle, to, at, reason);
    }
  }

  /** Over every run: quantities stay in range, FILLED means filled, and the log is a legal path. */
  lemma {:induction false} RunKeepsInvariant(x: Execution, moves: seq<Move>)
    requires OrderInvariant(x) && ValidMoves(moves)
    ensures OrderInvariant(RunOrder(x, moves))
    ensures RunOrder(x, moves).filled >= x.filled
    decreases |moves|
  {
    if |moves| > 0 {
      var n := |moves| - 1;
      RunKeepsInvariant(x, moves[..n]);
      MoveKeepsInvariant(RunOrder(x, moves[..n]), moves[n]);
    }
  }

  lemma FreshOrderInvariant(id: OrderId, quantity: Positive, moves: seq<Move>)
    requires ValidMoves(moves)
    ensures OrderInvariant(RunOrder(FreshOrder(id, quantity), moves))
  {
    var x := FreshOrder(id, quantity);
    assert forall k: nat :: LinkHolds(x.lifecycle.transitions, k);
    RunKeepsInvariant(x, moves);
  }

  /** Terminal states absorb: no sequence of moves changes a terminal order in any way. */
  lemma {:induction false} TerminalAbsorbs(x: Execution, moves: seq<Move>)
    requires Terminal(x.lifecycle.state)
    ensures RunOrder(x, moves) == x
    decreases |moves|
  {
    if |moves| > 0 { TerminalAbsorbs(x, moves[..|moves| - 1]); }
  }

  /** An unknown order can only be sent to reconciliation, whatever arrives and in whatever order. */
  lemma {:induction false} UnknownAwaitsReconciliation(x: Execution, moves: seq<Move>)
    requires x.lifecycle.state == Unknown
    requires forall i :: 0 <= i < |moves| ==> moves[i].Receive? ==> moves[i].event.kind != Reconciliation
    requires ValidMoves(moves)
    ensures RunOrder(x, moves) == x
    decreases |moves|
  {
    if |moves| > 0 {
      var n := |moves| - 1;
      UnknownAwaitsReconciliation(x, moves[..n]);
      assert ValidMove(moves[n]);
    }
  }

  // ------------------------------------------------------------ conservation

  /** Quantity that the accepted fill events of a run delivered. */
  function AcceptedFills(x: Execution, moves: seq<Move>): real
    decreases |moves|
  {
    if |moves| == 0 then 0.0
    else
      var n := |moves| - 1;
      var accepted := TryMove(RunOrder(x, moves[..n]), moves[n]).Ok? && moves[n].Receive?;
      AcceptedFills(x, moves[..n]) + (if accepted then moves[n].event.fillQuantity as real else 0.0)
  }

  /** The filled quantity is exactly what the accepted fills add up to. */
  lemma {:induction false} FilledIsSumOfFills(x: Execution, moves: seq<Move>)
    requires ValidMoves(moves)
    ensures RunOrder(x, moves).filled == x.filled + AcceptedFills(x, moves)
    decreases |moves|
  {
    if |moves| > 0 {
      var n := |moves| - 1;
      FilledIsSumOfFills(x, moves[..n]);
      assert ValidMove(moves[n]);
    }
  }
}
