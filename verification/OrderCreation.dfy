/**
 Creation, cancellation and status reports of orders by concurrent workers over an
 order table with unique keys. Each worker is one call: of the order management service,
 or of the execution engine with a broker event. A call reads an order in one transaction
 and writes it in another. Any interleaving of their steps, and a crash at any point, is a run.
 */
module OrderCreation {
  import opened Wrappers
  import opened OrderLifecycle

  type OrchestrationId = nat
  type WorkerId = nat

  /** The immutable intent payload; the identity key is an injective digest of it. */
  datatype Payload = Payload(orchestration: OrchestrationId, approval: nat, terms: nat)

  /** The ids that make each order event unique in the event table. */
  datatype SourceId = CreateSource(OrchestrationId) | InternalSource(OrchestrationId) | SubmissionSource(OrchestrationId) | CancelSource(Payload) | BrokerSource(nat)

  /**
   A stored order. `history` lists the statuses its events recorded; the writer of `history[k + 1]`
   worked from what it had read at `history[seen[k]]`. `creator` is the worker whose insert succeeded.
   */
  datatype Row = Row(payload: Payload, status: OrderState, history: seq<OrderState>, seen: seq<nat>, creator: WorkerId)

  datatype Handoff = Handoff(order: OrderId, orchestration: OrchestrationId)

  datatype Outcome =
    | Created
    | Replayed(order: OrderId, status: OrderState)
    | Conflict(order: OrderId)
    | NotFound
    | ApprovalExpired
    | NotCancellable
    | Ignored
    | Refused
    | PersistenceFailed
    | Written(source: SourceId)

  datatype Pc =
    | Finding
    | Inserting
    | Violated
    | Raced(winner: Option<OrderId>)
    | Recording
    | Requesting
    | HandingOff
    | Checking
    | Reporting(target: OrderState, event: nat)
    | Writing(to: OrderState, source: SourceId, at: nat)
    | Done(outcome: Outcome)
    | Crashed

  /** A creating call brings a new order id and a payload; a cancelling or reporting call names an order. */
  datatype Worker = Worker(order: OrderId, payload: Payload, pc: Pc)

  /** Cancelling and reporting calls bring no payload. */
  const NOBODY := Payload(0, 0, 0)

  datatype System = System(rows: map<OrderId, Row>, sources: set<SourceId>, workers: map<WorkerId, Worker>, handoffs: seq<Handoff>)

  const EMPTY := System(map[], {}, map[], [])

  datatype Step =
    | Create(worker: WorkerId, order: OrderId, payload: Payload)
    | Cancel(worker: WorkerId, order: OrderId)
    | Find(worker: WorkerId)
    | Insert(worker: WorkerId)
    | Reread(worker: WorkerId)
    | Resolve(worker: WorkerId)
    | RecordInternal(worker: WorkerId)
    | RecordSubmission(worker: WorkerId, expired: bool)
    | HandOff(worker: WorkerId)
    | Report(worker: WorkerId, order: OrderId, target: OrderState, event: nat)
    | CheckStatus(worker: WorkerId)
    | LoadStatus(worker: WorkerId)
    | Write(worker: WorkerId)
    | Crash(worker: WorkerId)

  predicate Holds(rows: map<OrderId, Row>, id: OrderId, o: OrchestrationId) {
    id in rows && rows[id].payload.orchestration == o
  }

  predicate Taken(rows: map<OrderId, Row>, o: OrchestrationId) {
    exists id :: id in rows && Holds(rows, id, o)
  }

  /** The row of an orchestration id; with two of them the read would fail, which the invariant rules out. */
  ghost function Lookup(rows: map<OrderId, Row>, o: OrchestrationId): (found: Option<OrderId>)
    ensures found.Some? <==> Taken(rows, o)
    ensures found.Some? ==> Holds(rows, found.value, o)
  {
    if Taken(rows, o) then var id :| id in rows && Holds(rows, id, o); Some(id) else None
  }

  predicate ApprovalUsed(rows: map<OrderId, Row>, approval: nat) {
    exists id :: id in rows && rows[id].payload.approval == approval
  }

  /** The insert violates the primary key or a unique column. */
  predicate Violates(rows: map<OrderId, Row>, sources: set<SourceId>, id: OrderId, p: Payload) {
    id in rows || Taken(rows, p.orchestration) || ApprovalUsed(rows, p.approval) || CreateSource(p.orchestration) in sources
  }

  /** What a creating call returns when the order is already there. */
  function Resolution(rows: map<OrderId, Row>, winner: Option<OrderId>, p: Payload): Outcome {
    if winner.None? || winner.value !in rows then NotFound
    else if rows[winner.value].payload == p then Replayed(winner.value, rows[winner.value].status)
    else Conflict(winner.value)
  }

  function NewRow(p: Payload, w: WorkerId): Row {
    Row(p, IntentCreated, [IntentCreated], [], w)
  }

  /** The order moves on; its writer had read entry `at` of the history. */
  function Moved(row: Row, to: OrderState, at: nat): Row {
    row.(status := to, history := row.history + [to], seen := row.seen + [at])
  }

  function At(sys: System, w: WorkerId, pc: Pc): System
    requires w in sys.workers
  {
    sys.(workers := sys.workers[w := sys.workers[w].(pc := pc)])
  }

  /** Append an event and set the status in one transaction; the event id must be new. */
  function Appended(sys: System, w: WorkerId, source: SourceId, to: OrderState, at: nat, next: Pc): System
    requires w in sys.workers
  {
    var id := sys.workers[w].order;
    if id !in sys.rows || source in sys.sources then At(sys, w, Done(PersistenceFailed))
    else At(sys.(rows := sys.rows[id := Moved(sys.rows[id], to, at)], sources := sys.sources + {source}), w, next)
  }

  predicate HandedOff(sys: System, id: OrderId) {
    exists i :: 0 <= i < |sys.handoffs| && sys.handoffs[i].order == id
  }

  /** Where loading the order takes a report: the broker knows an order once it was handed off. */
  function Loaded(sys: System, id: OrderId, to: OrderState, event: nat): Pc {
    if BrokerSource(event) in sys.sources then Done(Ignored)
    else if id !in sys.rows || !HandedOff(sys, id) || |sys.rows[id].history| == 0 then Done(NotFound)
    else if to !in Allowed(sys.rows[id].status) then Done(Refused)
    else Writing(to, BrokerSource(event), |sys.rows[id].history| - 1)
  }

  /** One atomic step; a step whose worker is not at its place changes nothing. */
  ghost function Next(sys: System, step: Step): System {
    var w := step.worker;
    match step
    case Create(_, id, p) => if w in sys.workers then sys else sys.(workers := sys.workers[w := Worker(id, p, Finding)])
    case Cancel(_, id) => if w in sys.workers then sys else sys.(workers := sys.workers[w := Worker(id, NOBODY, Checking)])
    case Report(_, id, to, event) =>
      if w in sys.workers then sys else sys.(workers := sys.workers[w := Worker(id, NOBODY, Reporting(to, event))])
    case _ => if w in sys.workers then WorkerStep(sys, step) else sys
  }

  ghost function WorkerStep(sys: System, step: Step): System
    requires step.worker in sys.workers
  {
    var w := step.worker;
    var id, p, pc := sys.workers[w].order, sys.workers[w].payload, sys.workers[w].pc;
    match step
    case Find(_) =>
      if !pc.Finding? then sys
      else
        var found := Lookup(sys.rows, p.orchestration);
        At(sys, w, if found.Some? then Done(Resolution(sys.rows, found, p)) else Inserting)
    case Insert(_) =>
      if !pc.Inserting? then sys
      else if Violates(sys.rows, sys.sources, id, p) then At(sys, w, Violated)
      else
        At(sys.(rows := sys.rows[id := NewRow(p, w)],
                sources := sys.sources + {CreateSource(p.orchestration)}), w, Recording)
    case Reread(_) => if !pc.Violated? then sys else At(sys, w, Raced(Lookup(sys.rows, p.orchestration)))
    case Resolve(_) => if !pc.Raced? then sys else At(sys, w, Done(Resolution(sys.rows, pc.winner, p)))
    case RecordInternal(_) =>
      if !pc.Recording? then sys else Appended(sys, w, InternalSource(p.orchestration), InternalOrderCreated, 0, Requesting)
    case RecordSubmission(_, expired) =>
      if !pc.Requesting? then sys
      else if expired then At(sys, w, Done(ApprovalExpired))
      else Appended(sys, w, SubmissionSource(p.orchestration), SubmissionRequested, 1, HandingOff)
    case HandOff(_) =>
      if !pc.HandingOff? then sys
      else At(sys.(handoffs := sys.handoffs + [Handoff(id, p.orchestration)]), w, Done(Created))
    case CheckStatus(_) =>
      if !pc.Checking? then sys
      else if id !in sys.rows then At(sys, w, Done(NotFound))
      else if !Cancellable(sys.rows[id].status) || |sys.rows[id].history| == 0 then At(sys, w, Done(NotCancellable))
      else At(sys, w, Writing(CancelRequested, CancelSource(sys.rows[id].payload), |sys.rows[id].history| - 1))
    case LoadStatus(_) => if !pc.Reporting? then sys else At(sys, w, Loaded(sys, id, pc.target, pc.event))
    case Write(_) => if !pc.Writing? then sys else Appended(sys, w, pc.source, pc.to, pc.at, Done(Written(pc.source)))
    case Crash(_) => At(sys, w, Crashed)
    case _ => sys
  }

  ghost function Run(sys: System, steps: seq<Step>): System
    decreases |steps|
  {
    if |steps| == 0 then sys else Next(Run(sys, steps[..|steps| - 1]), steps[|steps| - 1])
  }

  // --------------------------------------------------------------- invariant

  /** The edge was legal for what its writer had read. */
  predicate EdgeOk(history: seq<OrderState>, seen: seq<nat>, k: int) {
    0 <= k < |seen| && k + 1 < |history| ==>
      seen[k] <= k && history[k + 1] in Allowed(history[seen[k]])
  }

  ghost predicate HistoryOk(history: seq<OrderState>, seen: seq<nat>) {
    && (forall k :: EdgeOk(history, seen, k))
    && |history| == |seen| + 1 && history[0] == IntentCreated
    && (2 <= |history| ==> history[1] == InternalOrderCreated)
    && (3 <= |history| ==> history[2] == SubmissionRequested)
  }

  predicate Over(pc: Pc) {
    pc.Done? || pc.Crashed?
  }

  /** The places a worker can be at once its row is stored. */
  predicate Past(pc: Pc) {
    pc.Recording? || pc.Requesting? || pc.HandingOff? || Over(pc)
  }

  ghost predicate RowOk(sys: System, id: OrderId) {
    id in sys.rows ==>
      var row := sys.rows[id];
      && HistoryOk(row.history, row.seen) && row.status == row.history[|row.history| - 1]
      && row.creator in sys.workers
      && var c := sys.workers[row.creator];
      && c.order == id && c.payload == row.payload
      && Past(c.pc)
  }

  ghost predicate OneRow(sys: System, a: OrderId, b: OrderId) {
    a in sys.rows && b in sys.rows && a != b ==>
      sys.rows[a].payload.orchestration != sys.rows[b].payload.orchestration
      && sys.rows[a].payload.approval != sys.rows[b].payload.approval
  }

  ghost predicate SourceOk(sys: System, o: OrchestrationId) {
    CreateSource(o) in sys.sources || InternalSource(o) in sys.sources || SubmissionSource(o) in sys.sources ==> Taken(sys.rows, o)
  }

  /** `w` stored its row and has appended `n` events to it. */
  ghost predicate Owns(sys: System, w: WorkerId, n: nat) {
    && w in sys.workers
    && var id := sys.workers[w].order;
    && id in sys.rows && sys.rows[id].creator == w && |sys.rows[id].history| >= n
  }

  ghost predicate WorkerOk(sys: System, w: WorkerId) {
    w in sys.workers ==>
      var id, p := sys.workers[w].order, sys.workers[w].payload;
      match sys.workers[w].pc
      case Raced(winner) => winner.Some? ==> Holds(sys.rows, winner.value, p.orchestration)
      case Recording => Owns(sys, w, 1) && |sys.rows[id].history| == 1
                        && InternalSource(p.orchestration) !in sys.sources && SubmissionSource(p.orchestration) !in sys.sources
      case Requesting => Owns(sys, w, 2) && |sys.rows[id].history| == 2 && SubmissionSource(p.orchestration) !in sys.sources
      case HandingOff => Owns(sys, w, 3)
      case Writing(to, source, at) =>
        && id in sys.rows && 3 <= |sys.rows[id].history| && at < |sys.rows[id].history|
        && to in Allowed(sys.rows[id].history[at]) && Fits(source, sys.rows[id])
      case Done(outcome) => OutcomeOk(sys, w, outcome)
      case _ => true
  }

  /** A call that works from what it read writes a broker event, or the order's own cancel request. */
  predicate Fits(source: SourceId, row: Row) {
    source.BrokerSource? || source == CancelSource(row.payload)
  }

  ghost predicate OutcomeOk(sys: System, w: WorkerId, outcome: Outcome)
    requires w in sys.workers
  {
    match outcome
    case Created => Owns(sys, w, 3) && HandedOff(sys, sys.workers[w].order)
    case Replayed(id, _) => id in sys.rows && sys.rows[id].payload == sys.workers[w].payload
    case Conflict(id) =>
      Holds(sys.rows, id, sys.workers[w].payload.orchestration) && sys.rows[id].payload != sys.workers[w].payload
    case Written(source) =>
      sys.workers[w].order in sys.rows && Fits(source, sys.rows[sys.workers[w].order]) && source in sys.sources
    case _ => true
  }

  ghost predicate HandoffOk(sys: System, i: int) {
    0 <= i < |sys.handoffs| ==>
      var h := sys.handoffs[i];
      && Holds(sys.rows, h.order, h.orchestration) && |sys.rows[h.order].history| >= 3
      && sys.rows[h.order].creator in sys.workers
      && Over(sys.workers[sys.rows[h.order].creator].pc)
  }

  ghost predicate Apart(sys: System, i: int, j: int) {
    0 <= i < j < |sys.handoffs| ==> sys.handoffs[i].order != sys.handoffs[j].order
  }

  ghost predicate Invariant(sys: System) {
    && (forall id :: RowOk(sys, id))
    && (forall a, b :: OneRow(sys, a, b))
    && (forall o :: SourceOk(sys, o))
    && (forall w :: WorkerOk(sys, w))
    && (forall i :: HandoffOk(sys, i))
    && (forall i, j :: Apart(sys, i, j))
  }

  // ------------------------------------------------------------ preservation

  /** Rows are only added or moved forward, and keep their identity. */
  ghost predicate Grows(before: System, after: System, id: OrderId) {
    id in before.rows ==>
      && id in after.rows
      && after.rows[id].payload == before.rows[id].payload
      && after.rows[id].creator == before.rows[id].creator
      && before.rows[id].history <= after.rows[id].history && before.rows[id].seen <= after.rows[id].seen
  }

  lemma StepGrows(sys: System, step: Step, id: OrderId)
    requires Invariant(sys)
    ensures Grows(sys, Next(sys, step), id)
  {}

  lemma TakenGrows(before: System, after: System, o: OrchestrationId)
    requires forall id :: Grows(before, after, id)
    requires Taken(before.rows, o)
    ensures Taken(after.rows, o)
  {
    var id :| id in before.rows && Holds(before.rows, id, o);
    assert Grows(before, after, id) && Holds(after.rows, id, o);
  }

  lemma HistoryGrows(history: seq<OrderState>, seen: seq<nat>, to: OrderState, at: nat)
    requires HistoryOk(history, seen) && at < |history| && to in Allowed(history[at])
    requires |history| >= 3 || to == [IntentCreated, InternalOrderCreated, SubmissionRequested][|history|]
    ensures HistoryOk(history + [to], seen + [at])
  {
    forall k ensures EdgeOk(history + [to], seen + [at], k) { assert EdgeOk(history, seen, k); }
  }

  /** A worker that stored its row stays at a place after the insert; one that is over stays so. */
  predicate Forward(from: Pc, to: Pc) {
    && (Past(from) ==> Past(to))
    && (Over(from) ==> Over(to))
  }

  lemma PcMoves(sys: System, w: WorkerId, pc: Pc)
    requires Invariant(sys) && w in sys.workers && Forward(sys.workers[w].pc, pc)
    requires WorkerOk(At(sys, w, pc), w)
    ensures Invariant(At(sys, w, pc))
  {
    var after := At(sys, w, pc);
    forall id ensures RowOk(after, id) { assert RowOk(sys, id); }
    forall a, b ensures OneRow(after, a, b) { assert OneRow(sys, a, b); }
    forall o ensures SourceOk(after, o) { assert SourceOk(sys, o); }
    forall i ensures HandoffOk(after, i) { assert HandoffOk(sys, i); }
    forall i, j ensures Apart(after, i, j) { assert Apart(sys, i, j); }
    forall v ensures WorkerOk(after, v) { assert WorkerOk(sys, v); }
  }

  lemma WorkerBegins(sys: System, w: WorkerId, worker: Worker)
    requires Invariant(sys) && w !in sys.workers && (worker.pc.Finding? || worker.pc.Checking? || worker.pc.Reporting?)
    ensures Invariant(sys.(workers := sys.workers[w := worker]))
  {
    var after := sys.(workers := sys.workers[w := worker]);
    forall id ensures RowOk(after, id) { assert RowOk(sys, id); }
    forall a, b ensures OneRow(after, a, b) { assert OneRow(sys, a, b); }
    forall o ensures SourceOk(after, o) { assert SourceOk(sys, o); }
    forall i ensures HandoffOk(after, i) { assert HandoffOk(sys, i); }
    forall i, j ensures Apart(after, i, j) { assert Apart(sys, i, j); }
    forall v ensures WorkerOk(after, v) { assert WorkerOk(sys, v); }
  }

  /** An order moves on, with its event stored; the workers are looked at separately. */
  ghost predicate MovesRow(sys: System, after: System, id: OrderId, to: OrderState, at: nat, source: SourceId) {
    && id in sys.rows && after.rows == sys.rows[id := Moved(sys.rows[id], to, at)]
    && after.handoffs == sys.handoffs && after.sources == sys.sources + {source}
    && (source in {InternalSource(sys.rows[id].payload.orchestration), SubmissionSource(sys.rows[id].payload.orchestration)}
        || Fits(source, sys.rows[id]))
    && (forall w :: Continues(sys, after, w))
  }

  ghost predicate Continues(sys: System, after: System, w: WorkerId) {
    w in sys.workers ==>
      w in after.workers && after.workers[w].order == sys.workers[w].order && after.workers[w].payload == sys.workers[w].payload
      && Forward(sys.workers[w].pc, after.workers[w].pc)
  }

  lemma RowMoves(sys: System, after: System, id: OrderId, to: OrderState, at: nat, source: SourceId)
    requires Invariant(sys) && MovesRow(sys, after, id, to, at, source)
    requires HistoryOk(sys.rows[id].history + [to], sys.rows[id].seen + [at])
    requires forall w :: WorkerOk(after, w)
    ensures Invariant(after)
  {
    forall x ensures RowOk(after, x) {
      assert RowOk(sys, x);
      if x in sys.rows { assert Continues(sys, after, sys.rows[x].creator); }
    }
    forall a, b ensures OneRow(after, a, b) { assert OneRow(sys, a, b); }
    forall x ensures Grows(sys, after, x) {}
    forall o ensures SourceOk(after, o) {
      assert SourceOk(sys, o) && Holds(after.rows, id, sys.rows[id].payload.orchestration);
      if Taken(sys.rows, o) { TakenGrows(sys, after, o); }
    }
    forall i ensures HandoffOk(after, i) {
      assert HandoffOk(sys, i);
      if 0 <= i < |sys.handoffs| { assert Continues(sys, after, sys.rows[sys.handoffs[i].order].creator); }
    }
    forall i, j ensures Apart(after, i, j) { assert Apart(sys, i, j); }
  }

  /** No worker but the creator is disturbed when an order moves on. */
  lemma OthersKeep(sys: System, after: System, id: OrderId, to: OrderState, at: nat, source: SourceId, v: WorkerId)
    requires Invariant(sys) && MovesRow(sys, after, id, to, at, source)
    requires if v in sys.workers then v in after.workers && after.workers[v] == sys.workers[v] else v !in after.workers
    requires |sys.rows[id].history| >= 3 || v != sys.rows[id].creator
    ensures WorkerOk(after, v)
  {
    assert WorkerOk(sys, v);
    if v in sys.workers {
      var mine := sys.workers[v].order;
      assert RowOk(sys, mine) && RowOk(sys, id) && OneRow(sys, mine, id);
    }
  }

  lemma AppendKeeps(sys: System, w: WorkerId, source: SourceId, to: OrderState, at: nat, next: Pc)
    requires Invariant(sys) && w in sys.workers && sys.workers[w].order in sys.rows && source !in sys.sources
    requires Forward(sys.workers[w].pc, next)
    requires var after, id := Appended(sys, w, source, to, at, next), sys.workers[w].order;
             && MovesRow(sys, after, id, to, at, source) && HistoryOk(sys.rows[id].history + [to], sys.rows[id].seen + [at])
             && WorkerOk(after, w) && (|sys.rows[id].history| >= 3 || w == sys.rows[id].creator)
    ensures Invariant(Appended(sys, w, source, to, at, next))
  {
    var after, id := Appended(sys, w, source, to, at, next), sys.workers[w].order;
    forall v ensures WorkerOk(after, v) { if v != w { OthersKeep(sys, after, id, to, at, source, v); } }
    RowMoves(sys, after, id, to, at, source);
  }

  lemma RecordInternalKeeps(sys: System, step: Step)
    requires Invariant(sys) && step.RecordInternal?
    ensures Invariant(Next(sys, step))
  {
    var w := step.worker;
    if w in sys.workers && sys.workers[w].pc.Recording? {
      var id, source := sys.workers[w].order, InternalSource(sys.workers[w].payload.orchestration);
      assert WorkerOk(sys, w) && RowOk(sys, id);
      HistoryGrows(sys.rows[id].history, sys.rows[id].seen, InternalOrderCreated, 0);
      AppendKeeps(sys, w, source, InternalOrderCreated, 0, Requesting);
    }
  }

  lemma RecordSubmissionKeeps(sys: System, step: Step)
    requires Invariant(sys) && step.RecordSubmission?
    ensures Invariant(Next(sys, step))
  {
    var w := step.worker;
    if w in sys.workers && sys.workers[w].pc.Requesting? {
      var id, source := sys.workers[w].order, SubmissionSource(sys.workers[w].payload.orchestration);
      assert WorkerOk(sys, w) && RowOk(sys, id);
      if step.expired {
        PcMoves(sys, w, Done(ApprovalExpired));
      } else {
        HistoryGrows(sys.rows[id].history, sys.rows[id].seen, SubmissionRequested, 1);
        AppendKeeps(sys, w, source, SubmissionRequested, 1, HandingOff);
      }
    }
  }

  lemma WriteKeeps(sys: System, step: Step)
    requires Invariant(sys) && step.Write?
    ensures Invariant(Next(sys, step))
  {
    var w := step.worker;
    if w in sys.workers && sys.workers[w].pc.Writing? {
      var id, pc := sys.workers[w].order, sys.workers[w].pc;
      assert WorkerOk(sys, w) && RowOk(sys, id);
      if pc.source in sys.sources {
        PcMoves(sys, w, Done(PersistenceFailed));
      } else {
        HistoryGrows(sys.rows[id].history, sys.rows[id].seen, pc.to, pc.at);
        AppendKeeps(sys, w, pc.source, pc.to, pc.at, Done(Written(pc.source)));
      }
    }
  }

  lemma HandOffKeeps(sys: System, step: Step)
    requires Invariant(sys) && step.HandOff?
    ensures Invariant(Next(sys, step))
  {
    var w := step.worker;
    if w in sys.workers && sys.workers[w].pc.HandingOff? {
      var after, id := Next(sys, step), sys.workers[w].order;
      assert WorkerOk(sys, w) && RowOk(sys, id);
      assert after.handoffs[|sys.handoffs|].order == id;
      forall x ensures RowOk(after, x) { assert RowOk(sys, x); }
      forall a, b ensures OneRow(after, a, b) { assert OneRow(sys, a, b); }
      forall o ensures SourceOk(after, o) { assert SourceOk(sys, o); }
      forall i ensures HandoffOk(after, i) { assert HandoffOk(sys, i); }
      forall i, j ensures Apart(after, i, j) { assert Apart(sys, i, j) && HandoffOk(sys, i); }
      forall x | HandedOff(sys, x) ensures HandedOff(after, x) {
        var i :| 0 <= i < |sys.handoffs| && sys.handoffs[i].order == x;
        assert after.handoffs[i].order == x;
      }
      forall v ensures WorkerOk(after, v) { assert WorkerOk(sys, v); }
    }
  }

  lemma InsertKeeps(sys: System, step: Step)
    requires Invariant(sys) && step.Insert?
    ensures Invariant(Next(sys, step))
  {
    var w := step.worker;
    if w in sys.workers && sys.workers[w].pc.Inserting? {
      var id, p := sys.workers[w].order, sys.workers[w].payload;
      if Violates(sys.rows, sys.sources, id, p) {
        PcMoves(sys, w, Violated);
      } else {
        StoreKeeps(sys, w);
      }
    }
  }

  lemma StoreKeeps(sys: System, w: WorkerId)
    requires Invariant(sys) && w in sys.workers && sys.workers[w].pc.Inserting?
    requires !Violates(sys.rows, sys.sources, sys.workers[w].order, sys.workers[w].payload)
    ensures Invariant(Next(sys, Insert(w)))
  {
    var after, id, p := Next(sys, Insert(w)), sys.workers[w].order, sys.workers[w].payload;
    assert SourceOk(sys, p.orchestration);
    forall k ensures EdgeOk([IntentCreated], [], k) {}
    forall x ensures Grows(sys, after, x) {}
    forall x ensures RowOk(after, x) { assert RowOk(sys, x); }
    forall a, b ensures OneRow(after, a, b) {
      assert OneRow(sys, a, b) && !(a in sys.rows && Holds(sys.rows, a, p.orchestration)) && !(b in sys.rows && Holds(sys.rows, b, p.orchestration));
    }
    assert Holds(after.rows, id, p.orchestration);
    forall o ensures SourceOk(after, o) {
      assert SourceOk(sys, o);
      if Taken(sys.rows, o) { TakenGrows(sys, after, o); }
    }
    forall i ensures HandoffOk(after, i) {
      assert HandoffOk(sys, i);
      if 0 <= i < |sys.handoffs| { assert RowOk(sys, sys.handoffs[i].order); }
    }
    forall i, j ensures Apart(after, i, j) { assert Apart(sys, i, j); }
    forall v ensures WorkerOk(after, v) { assert WorkerOk(sys, v); }
  }

  lemma StepKeeps(sys: System, step: Step)
    requires Invariant(sys)
    ensures Invariant(Next(sys, step))
  {
    var w := step.worker;
    match step
    case Create(_, id, p) => if w !in sys.workers { WorkerBegins(sys, w, Worker(id, p, Finding)); }
    case Cancel(_, id) => if w !in sys.workers { WorkerBegins(sys, w, Worker(id, NOBODY, Checking)); }
    case Report(_, id, to, event) => if w !in sys.workers { WorkerBegins(sys, w, Worker(id, NOBODY, Reporting(to, event))); }
    case Insert(_) => InsertKeeps(sys, step);
    case RecordInternal(_) => RecordInternalKeeps(sys, step);
    case RecordSubmission(_, _) => RecordSubmissionKeeps(sys, step);
    case Write(_) => WriteKeeps(sys, step);
    case LoadStatus(_) => LoadKeeps(sys, step);
    case HandOff(_) => HandOffKeeps(sys, step);
    case _ => QuietKeeps(sys, step);
  }

  lemma LoadKeeps(sys: System, step: Step)
    requires Invariant(sys) && step.LoadStatus?
    ensures Invariant(Next(sys, step))
  {
    var w := step.worker;
    if w in sys.workers && sys.workers[w].pc.Reporting? {
      var id, pc := sys.workers[w].order, sys.workers[w].pc;
      var next := Loaded(sys, id, pc.target, pc.event);
      assert RowOk(sys, id);
      if next.Writing? {
        var i :| 0 <= i < |sys.handoffs| && sys.handoffs[i].order == id;
        assert HandoffOk(sys, i);
      }
      PcMoves(sys, w, next);
    }
  }

  /** Steps that only move their worker. */
  lemma QuietKeeps(sys: System, step: Step)
    requires Invariant(sys) && (step.Find? || step.Reread? || step.Resolve? || step.CheckStatus? || step.Crash?)
    ensures Invariant(Next(sys, step))
  {
    var w, after := step.worker, Next(sys, step);
    if w in sys.workers && after != sys {
      assert after == At(sys, w, after.workers[w].pc);
      assert WorkerOk(sys, w) && RowOk(sys, sys.workers[w].order);
      PcMoves(sys, w, after.workers[w].pc);
    }
  }

  lemma {:induction false} RunKeeps(sys: System, steps: seq<Step>)
    requires Invariant(sys)
    ensures Invariant(Run(sys, steps))
    decreases |steps|
  {
    if |steps| > 0 {
      var n := |steps| - 1;
      RunKeeps(sys, steps[..n]);
      StepKeeps(Run(sys, steps[..n]), steps[n]);
    }
  }

  lemma EmptyIsFine()
    ensures Invariant(EMPTY)
  {
    forall id ensures RowOk(EMPTY, id) {}
    forall a, b ensures OneRow(EMPTY, a, b) {}
    forall o ensures SourceOk(EMPTY, o) {}
    forall w ensures WorkerOk(EMPTY, w) {}
    forall i ensures HandoffOk(EMPTY, i) {}
    forall i, j ensures Apart(EMPTY, i, j) {}
  }

  // ---------------------------------------------------------------- theorems

  /** In every run, an orchestration id has at most one order row, and so has a risk approval. */
  lemma {:induction false} OneRowPerOrchestration(steps: seq<Step>, a: OrderId, b: OrderId)
    requires var rows := Run(EMPTY, steps).rows;
             a in rows && b in rows
             && (rows[a].payload.orchestration == rows[b].payload.orchestration || rows[a].payload.approval == rows[b].payload.approval)
    ensures a == b
  {
    EmptyIsFine();
    RunKeeps(EMPTY, steps);
    assert OneRow(Run(EMPTY, steps), a, b);
  }

  /** In every run, an orchestration id is handed to execution at most once, and only with its three events on record. */
  lemma {:induction false} OneHandoffPerOrchestration(steps: seq<Step>, i: int, j: int)
    requires 0 <= i < |Run(EMPTY, steps).handoffs| && 0 <= j < |Run(EMPTY, steps).handoffs|
    ensures var sys := Run(EMPTY, steps);
            && Holds(sys.rows, sys.handoffs[i].order, sys.handoffs[i].orchestration)
            && [IntentCreated, InternalOrderCreated, SubmissionRequested] <= sys.rows[sys.handoffs[i].order].history
            && (sys.handoffs[i].orchestration == sys.handoffs[j].orchestration ==> i == j)
  {
    var sys := Run(EMPTY, steps);
    EmptyIsFine();
    RunKeeps(EMPTY, steps);
    assert HandoffOk(sys, i) && HandoffOk(sys, j) && Apart(sys, i, j) && Apart(sys, j, i);
    assert OneRow(sys, sys.handoffs[i].order, sys.handoffs[j].order) && RowOk(sys, sys.handoffs[i].order);
  }

  /** Once stored, an order keeps its identity forever and its history only grows. */
  lemma {:induction false} RowsAreForever(sys: System, steps: seq<Step>, id: OrderId)
    requires Invariant(sys)
    ensures Grows(sys, Run(sys, steps), id)
    decreases |steps|
  {
    if |steps| > 0 {
      var n := |steps| - 1;
      RowsAreForever(sys, steps[..n], id);
      RunKeeps(sys, steps[..n]);
      StepGrows(Run(sys, steps[..n]), steps[n], id);
    }
  }

  /** What a finished creating call says is true of the store: its own order, an equal one, or a conflicting one. */
  lemma {:induction false} OutcomesAreTruthful(steps: seq<Step>, w: WorkerId)
    requires var sys := Run(EMPTY, steps); w in sys.workers && sys.workers[w].pc.Done?
    ensures OutcomeOk(Run(EMPTY, steps), w, Run(EMPTY, steps).workers[w].pc.outcome)
  {
    EmptyIsFine();
    RunKeeps(EMPTY, steps);
    assert WorkerOk(Run(EMPTY, steps), w);
  }

  /** A call that begins after the row exists and carries another payload can only end in a conflict naming that row. */
  lemma {:induction false} LaterConflictIsRefused(sys: System, id: OrderId, w: WorkerId, order: OrderId, p: Payload, steps: seq<Step>)
    requires Invariant(sys) && w !in sys.workers
    requires Holds(sys.rows, id, p.orchestration) && sys.rows[id].payload != p
    ensures var after := Run(Next(sys, Create(w, order, p)), steps);
            && w in after.workers && after.workers[w].payload == p
            && after.workers[w].pc in {Finding, Done(Conflict(id)), Crashed}
            && Grows(sys, after, id)
    decreases |steps|
  {
    var start := Next(sys, Create(w, order, p));
    StepKeeps(sys, Create(w, order, p));
    if |steps| > 0 {
      var n := |steps| - 1;
      LaterConflictIsRefused(sys, id, w, order, p, steps[..n]);
      var before := Run(start, steps[..n]);
      RunKeeps(start, steps[..n]);
      StepGrows(before, steps[n], id);
      ConflictStays(before, steps[n], id, w, p);
    }
  }

  lemma ConflictStays(sys: System, step: Step, id: OrderId, w: WorkerId, p: Payload)
    requires Invariant(sys) && w in sys.workers && sys.workers[w].payload == p
    requires Holds(sys.rows, id, p.orchestration) && sys.rows[id].payload != p
    requires sys.workers[w].pc in {Finding, Done(Conflict(id)), Crashed}
    ensures var after := Next(sys, step);
            w in after.workers && after.workers[w].payload == p && after.workers[w].pc in {Finding, Done(Conflict(id)), Crashed}
  {
    var found := Lookup(sys.rows, p.orchestration);
    assert Taken(sys.rows, p.orchestration);
    assert OneRow(sys, id, found.value);
  }

  /** The call is still before the insert that must fail, or it has found the row `id` and said what it is to its payload. */
  predicate NamesTheWinner(rows: map<OrderId, Row>, pc: Pc, id: OrderId, p: Payload) {
    || pc in {Finding, Inserting, Violated, Raced(Some(id)), Crashed}
    || (pc.Done? && id in rows && if rows[id].payload == p then pc.outcome.Replayed? && pc.outcome.order == id else pc.outcome == Conflict(id))
  }

  lemma RaceStep(sys: System, step: Step, id: OrderId, w: WorkerId, p: Payload)
    requires Invariant(sys) && w in sys.workers && sys.workers[w].payload == p && Holds(sys.rows, id, p.orchestration)
    requires NamesTheWinner(sys.rows, sys.workers[w].pc, id, p)
    ensures var after := Next(sys, step);
            w in after.workers && after.workers[w].payload == p && NamesTheWinner(after.rows, after.workers[w].pc, id, p)
  {
    var found := Lookup(sys.rows, p.orchestration);
    assert Taken(sys.rows, p.orchestration);
    assert OneRow(sys, id, found.value);
    StepGrows(sys, step, id);
  }

  /**
   Whoever loses the race names the winner: once an orchestration id has a row, every call for it that has not
   inserted yet can only end in that row, as a replay if the payloads are equal and as a conflict if not.
   */
  lemma {:induction false} LoserNamesTheWinner(sys: System, id: OrderId, w: WorkerId, p: Payload, steps: seq<Step>)
    requires Invariant(sys) && w in sys.workers && sys.workers[w].payload == p && sys.workers[w].pc in {Finding, Inserting, Violated}
    requires Holds(sys.rows, id, p.orchestration)
    ensures var after := Run(sys, steps);
            w in after.workers && after.workers[w].payload == p && NamesTheWinner(after.rows, after.workers[w].pc, id, p)
    decreases |steps|
  {
    if |steps| > 0 {
      var n := |steps| - 1;
      LoserNamesTheWinner(sys, id, w, p, steps[..n]);
      RunKeeps(sys, steps[..n]);
      RowsAreForever(sys, steps[..n], id);
      RaceStep(Run(sys, steps[..n]), steps[n], id, w, p);
    }
  }

  // ------------------------------------------------------ legality of histories

  /** In every interleaving, every write was legal for what its writer had read. */
  lemma {:induction false} WritesWereLegalWhenRead(steps: seq<Step>, id: OrderId, k: nat)
    requires id in Run(EMPTY, steps).rows && k + 1 < |Run(EMPTY, steps).rows[id].history|
    ensures var row := Run(EMPTY, steps).rows[id];
            |row.seen| + 1 == |row.history| && row.seen[k] <= k && row.history[k + 1] in Allowed(row.history[row.seen[k]])
  {
    EmptyIsFine();
    RunKeeps(EMPTY, steps);
    var row := Run(EMPTY, steps).rows[id];
    assert RowOk(Run(EMPTY, steps), id);
    assert EdgeOk(row.history, row.seen, k);
  }

  /** Another write of the order landed between the read and the write of entry `k + 1`. */
  predicate Overtaken(row: Row, k: nat)
    requires k < |row.seen|
  {
    row.seen[k] < k
  }

  /** Every illegal edge of a stored history was overtaken: an edge nobody overtook is legal. */
  lemma {:induction false} IllegalEdgesWereOvertaken(steps: seq<Step>, id: OrderId, k: nat)
    requires id in Run(EMPTY, steps).rows && k + 1 < |Run(EMPTY, steps).rows[id].history|
    ensures var row := Run(EMPTY, steps).rows[id];
            k < |row.seen| && (Overtaken(row, k) || row.history[k + 1] in Allowed(row.history[k]))
  {
    WritesWereLegalWhenRead(steps, id, k);
  }

  // ----------------------------------------------------------- written only once

  ghost predicate HasWritten(sys: System, w: WorkerId, source: SourceId) {
    w in sys.workers && sys.workers[w].pc == Done(Written(source))
  }

  /** No event is written by two calls, however many deliver it. */
  lemma {:induction false} EventsAreWrittenOnce(steps: seq<Step>, v: WorkerId, w: WorkerId, source: SourceId)
    requires HasWritten(Run(EMPTY, steps), v, source) && HasWritten(Run(EMPTY, steps), w, source)
    ensures v == w
    decreases |steps|
  {
    if v != w && |steps| > 0 {
      var n := |steps| - 1;
      EmptyIsFine();
      RunKeeps(EMPTY, steps[..n]);
      NoSecondWrite(Run(EMPTY, steps[..n]), steps[n], v, w, source);
      EventsAreWrittenOnce(steps[..n], v, w, source);
    }
  }

  /** If two calls have written the event after a step, both had before it. */
  lemma NoSecondWrite(sys: System, step: Step, v: WorkerId, w: WorkerId, source: SourceId)
    requires Invariant(sys) && v != w
    requires HasWritten(Next(sys, step), v, source) && HasWritten(Next(sys, step), w, source)
    ensures HasWritten(sys, v, source) && HasWritten(sys, w, source)
  {
    assert WorkerOk(sys, v) && WorkerOk(sys, w);
  }

  /** Two calls never both have a cancellation of the same order accepted. */
  lemma {:induction false} OneCancelPerOrder(steps: seq<Step>, v: WorkerId, w: WorkerId, p: Payload, q: Payload)
    requires HasWritten(Run(EMPTY, steps), v, CancelSource(p)) && HasWritten(Run(EMPTY, steps), w, CancelSource(q))
    requires Run(EMPTY, steps).workers[v].order == Run(EMPTY, steps).workers[w].order
    ensures v == w && p == q
  {
    var sys := Run(EMPTY, steps);
    EmptyIsFine();
    RunKeeps(EMPTY, steps);
    assert WorkerOk(sys, v) && WorkerOk(sys, w);
    EventsAreWrittenOnce(steps, v, w, CancelSource(p));
  }

  lemma RunAppend(sys: System, steps: seq<Step>, step: Step)
    ensures Run(sys, steps + [step]) == Next(Run(sys, steps), step)
  {
    assert (steps + [step])[..|steps|] == steps;
  }

  lemma {:induction false} RunConcat(sys: System, a: seq<Step>, b: seq<Step>)
    ensures Run(sys, a + b) == Run(Run(sys, a), b)
    decreases |b|
  {
    if |b| == 0 {
      assert a + b == a;
    } else {
      var n := |b| - 1;
      RunConcat(sys, a, b[..n]);
      assert (a + b)[..|a + b| - 1] == a + b[..n];
    }
  }
}
