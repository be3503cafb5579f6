/** One uninterrupted call of the order service, as a run of the creation protocol. */
module OrderService {
  import opened Wrappers
  import opened OrderLifecycle
  import opened OrderCreation

  lemma RunTwo(sys: System, a: Step, b: Step)
    ensures Run(sys, [a, b]) == Next(Next(sys, a), b)
  {
    RunAppend(sys, [], a);
    RunAppend(sys, [a], b);
    assert [] + [a] == [a] && [a] + [b] == [a, b];
  }

  function Put(sys: System, w: WorkerId, worker: Worker): System {
    sys.(workers := sys.workers[w := worker])
  }

  lemma FindMeaning(sys: System, w: WorkerId, id: OrderId, p: Payload)
    requires w !in sys.workers
    ensures Run(sys, [Create(w, id, p), Find(w)])
            == Put(sys, w, Worker(id, p, if Taken(sys.rows, p.orchestration)
                                         then Done(Resolution(sys.rows, Lookup(sys.rows, p.orchestration), p)) else Inserting))
  {
    RunTwo(sys, Create(w, id, p), Find(w));
  }

  lemma RefusalMeaning(sys: System, w: WorkerId, id: OrderId, p: Payload)
    requires !Taken(sys.rows, p.orchestration) && Violates(sys.rows, sys.sources, id, p)
    ensures Run(Put(sys, w, Worker(id, p, Inserting)), [Insert(w), Reread(w)] + [Resolve(w)])
            == Put(sys, w, Worker(id, p, Done(NotFound)))
  {
    var start := Put(sys, w, Worker(id, p, Inserting));
    RunTwo(start, Insert(w), Reread(w));
    RunAppend(start, [Insert(w), Reread(w)], Resolve(w));
  }

  /** The store after the insert and the first transition. */
  function Recorded(sys: System, w: WorkerId, id: OrderId, p: Payload): System {
    sys.(rows := sys.rows[id := Moved(NewRow(p, w), InternalOrderCreated, 0)],
         sources := sys.sources + {CreateSource(p.orchestration), InternalSource(p.orchestration)})
  }

  function Inserted(sys: System, w: WorkerId, id: OrderId, p: Payload): System {
    sys.(rows := sys.rows[id := NewRow(p, w)], sources := sys.sources + {CreateSource(p.orchestration)})
  }

  lemma StoreMeaning(sys: System, w: WorkerId, id: OrderId, p: Payload)
    requires !Violates(sys.rows, sys.sources, id, p)
    ensures Next(Put(sys, w, Worker(id, p, Inserting)), Insert(w)) == Put(Inserted(sys, w, id, p), w, Worker(id, p, Recording))
  {}

  lemma InternalMeaning(sys: System, w: WorkerId, id: OrderId, p: Payload)
    requires InternalSource(p.orchestration) !in sys.sources
    ensures Next(Put(Inserted(sys, w, id, p), w, Worker(id, p, Recording)), RecordInternal(w))
            == Put(Recorded(sys, w, id, p), w, Worker(id, p, Requesting))
  {
    var after := Next(Put(Inserted(sys, w, id, p), w, Worker(id, p, Recording)), RecordInternal(w));
    assert after.rows == Recorded(sys, w, id, p).rows;
    assert after.sources == Recorded(sys, w, id, p).sources;
  }

  lemma InsertMeaning(sys: System, w: WorkerId, id: OrderId, p: Payload)
    requires Invariant(sys) && !Violates(sys.rows, sys.sources, id, p)
    ensures Run(Put(sys, w, Worker(id, p, Inserting)), [Insert(w), RecordInternal(w)])
            == Put(Recorded(sys, w, id, p), w, Worker(id, p, Requesting))
    ensures SubmissionSource(p.orchestration) !in Recorded(sys, w, id, p).sources && InternalSource(p.orchestration) !in sys.sources
  {
    assert SourceOk(sys, p.orchestration);
    RunTwo(Put(sys, w, Worker(id, p, Inserting)), Insert(w), RecordInternal(w));
    StoreMeaning(sys, w, id, p);
    InternalMeaning(sys, w, id, p);
  }

  /** The store after the submission is requested and handed off. */
  function Submitted(sys: System, w: WorkerId, id: OrderId, p: Payload): System
    requires id in sys.rows
  {
    System(sys.rows[id := Moved(sys.rows[id], SubmissionRequested, 1)],
           sys.sources + {SubmissionSource(p.orchestration)}, sys.workers, sys.handoffs + [Handoff(id, p.orchestration)])
  }

  lemma SubmitMeaning(sys: System, w: WorkerId, id: OrderId, p: Payload)
    requires id in sys.rows && SubmissionSource(p.orchestration) !in sys.sources
    ensures Run(Put(sys, w, Worker(id, p, Requesting)), [RecordSubmission(w, false), HandOff(w)])
            == Put(Submitted(sys, w, id, p), w, Worker(id, p, Done(OrderCreation.Created)))
  {
    var start := Put(sys, w, Worker(id, p, Requesting));
    RunTwo(start, RecordSubmission(w, false), HandOff(w));
    var middle := Next(start, RecordSubmission(w, false));
    assert middle.rows == Submitted(sys, w, id, p).rows;
    assert Next(middle, HandOff(w)).handoffs == Submitted(sys, w, id, p).handoffs;
  }

  lemma ExpiryMeaning(sys: System, w: WorkerId, id: OrderId, p: Payload)
    ensures Run(Put(sys, w, Worker(id, p, Requesting)), [] + [RecordSubmission(w, true)])
            == Put(sys, w, Worker(id, p, Done(ApprovalExpired)))
  {
    RunAppend(Put(sys, w, Worker(id, p, Requesting)), [], RecordSubmission(w, true));
  }

  /** The order and event tables, with their unique keys, and the execution boundary behind them. */
  class OrderTables {
    var rows: map<OrderId, Row>
    var sources: set<SourceId>
    var handoffs: seq<Handoff>

    ghost predicate Shows(sys: System)
      reads this
    {
      rows == sys.rows && sources == sys.sources && handoffs == sys.handoffs
    }

    method FindByOrchestration(o: OrchestrationId, ghost sys: System) returns (found: Option<OrderId>)
      requires Invariant(sys) && rows == sys.rows
      ensures found == Lookup(rows, o)
    {
      if id :| id in rows && Holds(rows, id, o) {
        assert Taken(rows, o);
        assert OneRow(sys, id, Lookup(rows, o).value);
        return Some(id);
      }
      return None;
    }

    /** Insert the order and its first event in one transaction, or say which order was there first. */
    method CreateOrder(id: OrderId, p: Payload, w: WorkerId, ghost sys: System) returns (stored: bool, winner: Option<OrderId>)
      requires Invariant(sys) && Shows(sys)
      modifies this
      ensures stored <==> !Violates(old(rows), old(sources), id, p)
      ensures handoffs == old(handoffs)
      ensures stored ==> rows == old(rows)[id := NewRow(p, w)]
                         && sources == old(sources) + {CreateSource(p.orchestration)}
      ensures !stored ==> Shows(sys) && winner == Lookup(rows, p.orchestration)
    {
      if Violates(rows, sources, id, p) {
        winner := FindByOrchestration(p.orchestration, sys);
        return false, winner;
      }
      rows := rows[id := NewRow(p, w)];
      sources := sources + {CreateSource(p.orchestration)};
      return true, Some(id);
    }

    /** Append an event and set the status, unless the event is already on record. */
    method AppendEvent(id: OrderId, source: SourceId, to: OrderState, at: nat) returns (saved: bool)
      modifies this
      ensures saved <==> id in old(rows) && source !in old(sources)
      ensures handoffs == old(handoffs)
      ensures if saved then rows == old(rows)[id := Moved(old(rows)[id], to, at)] && sources == old(sources) + {source}
              else rows == old(rows) && sources == old(sources)
    {
      saved := id in rows && source !in sources;
      if saved {
        rows := rows[id := Moved(rows[id], to, at)];
        sources := sources + {source};
      }
    }
  }

  /** What a call that stored its order leaves behind. */
  function Advanced(sys: System, w: WorkerId, id: OrderId, p: Payload, expired: bool): System {
    var recorded := Recorded(sys, w, id, p);
    if expired then recorded else Submitted(recorded, w, id, p)
  }

  /** The transitions after the insert, and the handoff. */
  method AdvanceToSubmission(tables: OrderTables, id: OrderId, p: Payload, expired: bool, w: WorkerId, ghost sys: System)
    returns (outcome: Outcome, ghost steps: seq<Step>)
    requires Invariant(sys) && !Violates(sys.rows, sys.sources, id, p)
    requires tables.rows == sys.rows[id := NewRow(p, w)] && tables.sources == sys.sources + {CreateSource(p.orchestration)}
             && tables.handoffs == sys.handoffs
    modifies tables
    ensures outcome == if expired then ApprovalExpired else OrderCreation.Created
    ensures tables.Shows(Advanced(sys, w, id, p, expired))
    ensures Run(Put(sys, w, Worker(id, p, Inserting)), steps)
            == Put(Advanced(sys, w, id, p, expired), w, Worker(id, p, Done(outcome)))
  {
    ghost var inserting, recorded := Put(sys, w, Worker(id, p, Inserting)), Recorded(sys, w, id, p);
    InsertMeaning(sys, w, id, p);
    steps := [Insert(w), RecordInternal(w)];
    var saved := tables.AppendEvent(id, InternalSource(p.orchestration), InternalOrderCreated, 0);
    assert tables.Shows(recorded);
    if expired {
      ExpiryMeaning(recorded, w, id, p);
      RunConcat(inserting, steps, [] + [RecordSubmission(w, true)]);
      return ApprovalExpired, steps + ([] + [RecordSubmission(w, true)]);
    }
    SubmitMeaning(recorded, w, id, p);
    RunConcat(inserting, steps, [RecordSubmission(w, false), HandOff(w)]);
    saved := tables.AppendEvent(id, SubmissionSource(p.orchestration), SubmissionRequested, 1);
    tables.handoffs := tables.handoffs + [Handoff(id, p.orchestration)];
    return OrderCreation.Created, steps + [RecordSubmission(w, false), HandOff(w)];
  }

  /**
   One call of `create_order` that no other worker interrupts is a run of the protocol. It
   replays or refuses an orchestration id that is taken, and otherwise stores the order and
   hands it off, unless another unique key is taken or the approval has expired by then.
   */
  method CreateOrder(tables: OrderTables, id: OrderId, p: Payload, expired: bool, w: WorkerId, ghost sys: System)
    returns (outcome: Outcome, ghost steps: seq<Step>)
    requires Invariant(sys) && tables.Shows(sys) && w !in sys.workers
    modifies tables
    ensures tables.Shows(Run(sys, steps))
    ensures w in Run(sys, steps).workers && Run(sys, steps).workers[w] == Worker(id, p, Done(outcome))
    ensures Taken(sys.rows, p.orchestration) ==>
              tables.Shows(sys) && outcome == Resolution(sys.rows, Lookup(sys.rows, p.orchestration), p)
    ensures !Taken(sys.rows, p.orchestration) && Violates(sys.rows, sys.sources, id, p) ==> tables.Shows(sys) && outcome == NotFound
    ensures !Violates(sys.rows, sys.sources, id, p) ==>
              tables.Shows(Advanced(sys, w, id, p, expired)) && outcome == if expired then ApprovalExpired else OrderCreation.Created
  {
    steps := [Create(w, id, p), Find(w)];
    FindMeaning(sys, w, id, p);
    var existing := tables.FindByOrchestration(p.orchestration, sys);
    if existing.Some? {
      return Resolution(tables.rows, existing, p), steps;
    }
    ghost var rest;
    var stored, winner := tables.CreateOrder(id, p, w, sys);
    if stored {
      outcome, rest := AdvanceToSubmission(tables, id, p, expired, w, sys);
    } else {
      RefusalMeaning(sys, w, id, p);
      outcome, rest := Resolution(tables.rows, winner, p), [Insert(w), Reread(w)] + [Resolve(w)];
    }
    RunConcat(sys, steps, rest);
    steps := steps + rest;
  }

  /** Where the status check of a cancelling call leads. */
  function Checked(rows: map<OrderId, Row>, id: OrderId): Pc {
    if id !in rows then Done(NotFound)
    else if !Cancellable(rows[id].status) || |rows[id].history| == 0 then Done(NotCancellable)
    else Writing(CancelRequested, CancelSource(rows[id].payload), |rows[id].history| - 1)
  }

  lemma CheckMeaning(sys: System, w: WorkerId, id: OrderId)
    requires w !in sys.workers
    ensures Run(sys, [Cancel(w, id), CheckStatus(w)]) == Put(sys, w, Worker(id, NOBODY, Checked(sys.rows, id)))
  {
    RunTwo(sys, Cancel(w, id), CheckStatus(w));
    CheckStep(sys, w, id);
  }

  lemma CheckStep(sys: System, w: WorkerId, id: OrderId)
    ensures Next(Put(sys, w, Worker(id, NOBODY, Checking)), CheckStatus(w)) == Put(sys, w, Worker(id, NOBODY, Checked(sys.rows, id)))
  {}

  /** The store after a write by a call that had read the newest entry. */
  function Updated(sys: System, id: OrderId, to: OrderState, source: SourceId): System
    requires id in sys.rows && |sys.rows[id].history| > 0
  {
    sys.(rows := sys.rows[id := Moved(sys.rows[id], to, |sys.rows[id].history| - 1)], sources := sys.sources + {source})
  }

  lemma WriteMeaning(sys: System, w: WorkerId, id: OrderId, to: OrderState, source: SourceId)
    requires id in sys.rows && |sys.rows[id].history| > 0
    ensures Run(Put(sys, w, Worker(id, NOBODY, Writing(to, source, |sys.rows[id].history| - 1))), [] + [Write(w)])
            == if source in sys.sources then Put(sys, w, Worker(id, NOBODY, Done(PersistenceFailed)))
               else Put(Updated(sys, id, to, source), w, Worker(id, NOBODY, Done(Written(source))))
  {
    RunAppend(Put(sys, w, Worker(id, NOBODY, Writing(to, source, |sys.rows[id].history| - 1))), [], Write(w));
  }

  /**
   One call of `request_cancellation` that no other worker interrupts is a run of the protocol: it
   moves an order that admits cancellation to CANCEL_REQUESTED, once, and otherwise changes nothing.
   */
  method RequestCancellation(tables: OrderTables, id: OrderId, w: WorkerId, ghost sys: System)
    returns (outcome: Outcome, ghost steps: seq<Step>)
    requires Invariant(sys) && tables.Shows(sys) && w !in sys.workers
    modifies tables
    ensures tables.Shows(Run(sys, steps))
    ensures w in Run(sys, steps).workers && Run(sys, steps).workers[w].pc == Done(outcome)
    ensures id !in sys.rows ==> outcome == NotFound
    ensures id in sys.rows && !Cancellable(sys.rows[id].status) ==> outcome == NotCancellable
    ensures id in sys.rows && Cancellable(sys.rows[id].status) ==>
              var source := CancelSource(sys.rows[id].payload);
              outcome == if source in sys.sources then PersistenceFailed else Written(source)
    ensures if outcome.Written? then id in sys.rows && |sys.rows[id].history| > 0 && tables.Shows(Updated(sys, id, CancelRequested, outcome.source))
            else tables.Shows(sys)
  {
    steps := [Cancel(w, id), CheckStatus(w)];
    CheckMeaning(sys, w, id);
    if id !in tables.rows {
      return NotFound, steps;
    }
    assert RowOk(sys, id);
    var order := tables.rows[id];
    if !Cancellable(order.status) {
      return NotCancellable, steps;
    }
    var source := CancelSource(order.payload);
    WriteMeaning(sys, w, id, CancelRequested, source);
    RunConcat(sys, steps, [] + [Write(w)]);
    steps := steps + ([] + [Write(w)]);
    var saved := tables.AppendEvent(id, source, CancelRequested, |order.history| - 1);
    return if saved then Written(source) else PersistenceFailed, steps;
  }

  /** The steps of one call that creates an order and meets nobody else. */
  function Creation(w: WorkerId, id: OrderId, p: Payload): seq<Step> {
    [Create(w, id, p), Find(w)] + [Insert(w), RecordInternal(w)] + [RecordSubmission(w, false), HandOff(w)]
  }

  lemma CreationMeaning(sys: System, w: WorkerId, id: OrderId, p: Payload)
    requires Invariant(sys) && w !in sys.workers && !Violates(sys.rows, sys.sources, id, p)
    ensures Run(sys, Creation(w, id, p))
            == Put(Submitted(Recorded(sys, w, id, p), w, id, p), w, Worker(id, p, Done(OrderCreation.Created)))
  {
    FindMeaning(sys, w, id, p);
    InsertMeaning(sys, w, id, p);
    SubmitMeaning(Recorded(sys, w, id, p), w, id, p);
    RunConcat(sys, [Create(w, id, p), Find(w)], [Insert(w), RecordInternal(w)]);
    RunConcat(sys, [Create(w, id, p), Find(w)] + [Insert(w), RecordInternal(w)], [RecordSubmission(w, false), HandOff(w)]);
  }

  /** No stored order has this id, this orchestration id or this risk approval. */
  ghost predicate Unused(rows: map<OrderId, Row>, id: OrderId, p: Payload) {
    && id !in rows
    && forall other :: other in rows ==> rows[other].payload.orchestration != p.orchestration && rows[other].payload.approval != p.approval
  }

  /** An order whose id, orchestration id and approval are all unused is created, handed off and stored at SUBMISSION_REQUESTED. */
  lemma UnusedOrderIsCreated(sys: System, w: WorkerId, id: OrderId, p: Payload)
    requires Invariant(sys) && w !in sys.workers && Unused(sys.rows, id, p)
    ensures var after := Run(sys, Creation(w, id, p));
            && w in after.workers && after.workers[w].pc == Done(OrderCreation.Created)
            && id in after.rows && after.rows[id].payload == p && after.rows[id].status == SubmissionRequested
            && after.rows[id].history == [IntentCreated, InternalOrderCreated, SubmissionRequested]
            && after.handoffs == sys.handoffs + [Handoff(id, p.orchestration)]
            && (forall other :: other in sys.rows ==> other in after.rows && after.rows[other] == sys.rows[other])
  {
    assert SourceOk(sys, p.orchestration);
    CreationMeaning(sys, w, id, p);
  }

  /** A used id, orchestration id or approval keeps a second order out. */
  lemma UsedOrderIsNotStored(sys: System, w: WorkerId)
    requires Invariant(sys) && w in sys.workers && sys.workers[w].pc.Inserting? && !Unused(sys.rows, sys.workers[w].order, sys.workers[w].payload)
    ensures Next(sys, Insert(w)).rows == sys.rows && Next(sys, Insert(w)).workers[w].pc == Violated
  {
    var id, p := sys.workers[w].order, sys.workers[w].payload;
    if id !in sys.rows {
      var other :| other in sys.rows && (sys.rows[other].payload.orchestration == p.orchestration || sys.rows[other].payload.approval == p.approval);
      assert sys.rows[other].payload.orchestration == p.orchestration ==> Holds(sys.rows, other, p.orchestration);
    }
  }

  // ------------------------------------------------- overtaken reads and writes

  /** A call that reads an order and then writes it: a cancellation, or a broker event. */
  datatype Reader = Canceller | Broker(target: OrderState, event: nat)

  function TargetOf(r: Reader): OrderState {
    if r.Canceller? then CancelRequested else r.target
  }

  function SourceOf(r: Reader, p: Payload): SourceId {
    if r.Canceller? then CancelSource(p) else BrokerSource(r.event)
  }

  /** Its call and its read. */
  function Reads(r: Reader, w: WorkerId, id: OrderId): seq<Step> {
    if r.Canceller? then [Cancel(w, id), CheckStatus(w)] else [Report(w, id, r.target, r.event), LoadStatus(w)]
  }

  /** A call about the order now would get as far as writing it. */
  predicate Admits(sys: System, id: OrderId, r: Reader) {
    && id in sys.rows && HandedOff(sys, id) && |sys.rows[id].history| > 0
    && (if r.Canceller? then Cancellable(sys.rows[id].status) else r.target in Allowed(sys.rows[id].status))
    && SourceOf(r, sys.rows[id].payload) !in sys.sources
  }

  function Pending(sys: System, id: OrderId, r: Reader): Worker
    requires Admits(sys, id, r)
  {
    Worker(id, NOBODY, Writing(TargetOf(r), SourceOf(r, sys.rows[id].payload), |sys.rows[id].history| - 1))
  }

  lemma ReadMeaning(sys: System, id: OrderId, r: Reader, w: WorkerId)
    requires Admits(sys, id, r) && w !in sys.workers
    ensures Run(sys, Reads(r, w, id)) == Put(sys, w, Pending(sys, id, r))
  {
    if r.Canceller? {
      CheckMeaning(sys, w, id);
    } else {
      RunTwo(sys, Report(w, id, r.target, r.event), LoadStatus(w));
      LoadStep(sys, w, id, r.target, r.event);
    }
  }

  lemma LoadStep(sys: System, w: WorkerId, id: OrderId, to: OrderState, event: nat)
    ensures Next(Put(sys, w, Worker(id, NOBODY, Reporting(to, event))), LoadStatus(w))
            == Put(sys, w, Worker(id, NOBODY, Loaded(sys, id, to, event)))
  {
    var start := Put(sys, w, Worker(id, NOBODY, Reporting(to, event)));
    assert HandedOff(start, id) <==> HandedOff(sys, id);
  }

  lemma StillAdmits(sys: System, id: OrderId, q: Reader, v: WorkerId, worker: Worker)
    requires Admits(sys, id, q)
    ensures Admits(Put(sys, v, worker), id, q) && Pending(Put(sys, v, worker), id, q) == Pending(sys, id, q)
  {
    assert HandedOff(Put(sys, v, worker), id);
  }

  lemma BothRead(sys: System, id: OrderId, r: Reader, v: WorkerId, q: Reader, w: WorkerId)
    requires Admits(sys, id, r) && Admits(sys, id, q) && v !in sys.workers && w !in sys.workers && v != w
    ensures Run(sys, Reads(r, v, id) + Reads(q, w, id)) == Put(Put(sys, v, Pending(sys, id, r)), w, Pending(sys, id, q))
  {
    ReadMeaning(sys, id, r, v);
    StillAdmits(sys, id, q, v, Pending(sys, id, r));
    ReadMeaning(Put(sys, v, Pending(sys, id, r)), id, q, w);
    RunConcat(sys, Reads(r, v, id), Reads(q, w, id));
  }

  lemma BothWrite(sys: System, v: WorkerId, w: WorkerId, id: OrderId)
    requires v != w && v in sys.workers && w in sys.workers && id in sys.rows
    requires sys.workers[v].order == sys.workers[w].order == id && sys.workers[v].pc.Writing? && sys.workers[w].pc.Writing?
    requires sys.workers[v].pc.source != sys.workers[w].pc.source
    requires sys.workers[v].pc.source !in sys.sources && sys.workers[w].pc.source !in sys.sources
    ensures var after := Run(sys, [Write(v), Write(w)]);
            var a, b := sys.workers[v].pc, sys.workers[w].pc;
            id in after.rows && after.rows[id] == Moved(Moved(sys.rows[id], a.to, a.at), b.to, b.at)
  {
    RunTwo(sys, Write(v), Write(w));
  }

  /** Both calls read, then both write, the second over the first. */
  function Overtaking(r: Reader, v: WorkerId, q: Reader, w: WorkerId, id: OrderId): seq<Step> {
    Reads(r, v, id) + Reads(q, w, id) + [Write(v), Write(w)]
  }

  /** Any two writes that an order admits can be stored one over the other, whether or not the second follows from the first. */
  lemma OvertakingStoresBoth(sys: System, id: OrderId, r: Reader, v: WorkerId, q: Reader, w: WorkerId)
    requires Admits(sys, id, r) && Admits(sys, id, q) && v !in sys.workers && w !in sys.workers && v != w
    requires SourceOf(r, sys.rows[id].payload) != SourceOf(q, sys.rows[id].payload)
    ensures var after, row := Run(sys, Overtaking(r, v, q, w, id)), sys.rows[id];
            && id in after.rows && after.rows[id].status == TargetOf(q)
            && after.rows[id].history == row.history + [TargetOf(r)] + [TargetOf(q)]
  {
    BothRead(sys, id, r, v, q, w);
    RunConcat(sys, Reads(r, v, id) + Reads(q, w, id), [Write(v), Write(w)]);
    BothWrite(Put(Put(sys, v, Pending(sys, id, r)), w, Pending(sys, id, q)), v, w, id);
  }

  /** A stale fill: a late partial fill reopens a completely filled order, and no cancellation is involved. */
  lemma StaleFillReopensOrder(sys: System, id: OrderId, v: WorkerId, w: WorkerId, e: nat, f: nat)
    requires var r, q := Broker(Filled, e), Broker(PartiallyFilled, f); Admits(sys, id, r) && Admits(sys, id, q)
    requires e != f && v !in sys.workers && w !in sys.workers && v != w
    ensures var after := Run(sys, Overtaking(Broker(Filled, e), v, Broker(PartiallyFilled, f), w, id));
            && id in after.rows && after.rows[id].history == sys.rows[id].history + [Filled] + [PartiallyFilled]
            && PartiallyFilled !in Allowed(Filled)
  {
    OvertakingStoresBoth(sys, id, Broker(Filled, e), v, Broker(PartiallyFilled, f), w);
  }

  /** An erased cancel request: a late acknowledgement takes the order back behind it. */
  lemma LateReportErasesCancel(sys: System, id: OrderId, v: WorkerId, w: WorkerId, e: nat)
    requires Admits(sys, id, Canceller) && Admits(sys, id, Broker(BrokerAcknowledged, e))
    requires v !in sys.workers && w !in sys.workers && v != w
    ensures var after := Run(sys, Overtaking(Canceller, v, Broker(BrokerAcknowledged, e), w, id));
            && id in after.rows && after.rows[id].history == sys.rows[id].history + [CancelRequested] + [BrokerAcknowledged]
            && BrokerAcknowledged !in Allowed(CancelRequested)
  {
    OvertakingStoresBoth(sys, id, Canceller, v, Broker(BrokerAcknowledged, e), w);
  }

  /** A late cancellation: a fill between a canceller's check and its write is overwritten. */
  lemma LateCancelOverwritesFill(sys: System, id: OrderId, v: WorkerId, w: WorkerId, e: nat)
    requires Admits(sys, id, Broker(Filled, e)) && Admits(sys, id, Canceller)
    requires v !in sys.workers && w !in sys.workers && v != w
    ensures var after := Run(sys, Overtaking(Broker(Filled, e), v, Canceller, w, id));
            && id in after.rows && after.rows[id].history == sys.rows[id].history + [Filled] + [CancelRequested]
            && CancelRequested !in Allowed(Filled)
  {
    OvertakingStoresBoth(sys, id, Broker(Filled, e), v, Canceller, w);
  }

  // ---------------------------------------------------- such runs start from empty

  /** Create any order and have the broker acknowledge it. */
  function Acknowledged(p: Payload, id: OrderId, u: WorkerId, v: WorkerId, e: nat): seq<Step> {
    Creation(u, id, p) + (Reads(Broker(BrokerAcknowledged, e), v, id) + ([] + [Write(v)]))
  }

  lemma CreatedAdmits(p: Payload, id: OrderId, u: WorkerId, e: nat)
    ensures var sys := Run(EMPTY, Creation(u, id, p));
            && Admits(sys, id, Canceller) && Admits(sys, id, Broker(BrokerAcknowledged, e))
            && sys.workers.Keys == {u} && sys.rows.Keys == {id} && sys.rows[id].payload == p
            && (forall f :: BrokerSource(f) !in sys.sources) && CancelSource(p) !in sys.sources
  {
    EmptyIsFine();
    CreationMeaning(EMPTY, u, id, p);
    assert Run(EMPTY, Creation(u, id, p)).handoffs[0].order == id;
  }

  lemma AcknowledgedAdmits(p: Payload, id: OrderId, u: WorkerId, v: WorkerId, e: nat, f: nat)
    requires u != v && e != f
    ensures var sys := Run(EMPTY, Acknowledged(p, id, u, v, e));
            && Admits(sys, id, Canceller) && Admits(sys, id, Broker(Filled, f)) && Admits(sys, id, Broker(PartiallyFilled, f))
            && sys.workers.Keys == {u, v}
  {
    var created, r := Run(EMPTY, Creation(u, id, p)), Broker(BrokerAcknowledged, e);
    CreatedAdmits(p, id, u, e);
    ReadMeaning(created, id, r, v);
    WriteMeaning(created, v, id, BrokerAcknowledged, BrokerSource(e));
    RunConcat(created, Reads(r, v, id), [] + [Write(v)]);
    RunConcat(EMPTY, Creation(u, id, p), Reads(r, v, id) + ([] + [Write(v)]));
    UpdateAdmits(created, id, e, f);
    var updated, worker := Updated(created, id, BrokerAcknowledged, BrokerSource(e)), Worker(id, NOBODY, Done(Written(BrokerSource(e))));
    StillAdmits(updated, id, Canceller, v, worker);
    StillAdmits(updated, id, Broker(Filled, f), v, worker);
    StillAdmits(updated, id, Broker(PartiallyFilled, f), v, worker);
  }

  lemma UpdateAdmits(sys: System, id: OrderId, e: nat, f: nat)
    requires Admits(sys, id, Canceller) && e != f && BrokerSource(f) !in sys.sources
    ensures var after := Updated(sys, id, BrokerAcknowledged, BrokerSource(e));
            Admits(after, id, Canceller) && Admits(after, id, Broker(Filled, f)) && Admits(after, id, Broker(PartiallyFilled, f))
  {
    assert HandedOff(Updated(sys, id, BrokerAcknowledged, BrokerSource(e)), id);
  }

  /** For every payload: the three illegal edges are stored by runs from the empty store. */
  lemma IllegalEdgesAreReached(p: Payload, id: OrderId)
    ensures var erased := Run(EMPTY, Creation(1, id, p) + Overtaking(Canceller, 3, Broker(BrokerAcknowledged, 1), 4, id));
            id in erased.rows && [CancelRequested, BrokerAcknowledged] == Ending(erased.rows[id].history)
    ensures var reopened := Run(EMPTY, Acknowledged(p, id, 1, 2, 1) + Overtaking(Broker(Filled, 2), 3, Broker(PartiallyFilled, 3), 4, id));
            id in reopened.rows && [Filled, PartiallyFilled] == Ending(reopened.rows[id].history)
    ensures var cancelled := Run(EMPTY, Acknowledged(p, id, 1, 2, 1) + Overtaking(Broker(Filled, 2), 3, Canceller, 4, id));
            id in cancelled.rows && [Filled, CancelRequested] == Ending(cancelled.rows[id].history)
  {
    ErasedFromEmpty(p, id);
    ReopenedFromEmpty(p, id);
    CancelledFromEmpty(p, id);
  }

  /** The last two entries of a history. */
  function Ending(history: seq<OrderState>): seq<OrderState> {
    if |history| >= 2 then history[|history| - 2..] else history
  }

  lemma ErasedFromEmpty(p: Payload, id: OrderId)
    ensures var after := Run(EMPTY, Creation(1, id, p) + Overtaking(Canceller, 3, Broker(BrokerAcknowledged, 1), 4, id));
            id in after.rows && [CancelRequested, BrokerAcknowledged] == Ending(after.rows[id].history)
  {
    CreatedAdmits(p, id, 1, 1);
    LateReportErasesCancel(Run(EMPTY, Creation(1, id, p)), id, 3, 4, 1);
    RunConcat(EMPTY, Creation(1, id, p), Overtaking(Canceller, 3, Broker(BrokerAcknowledged, 1), 4, id));
  }

  lemma ReopenedFromEmpty(p: Payload, id: OrderId)
    ensures var after := Run(EMPTY, Acknowledged(p, id, 1, 2, 1) + Overtaking(Broker(Filled, 2), 3, Broker(PartiallyFilled, 3), 4, id));
            id in after.rows && [Filled, PartiallyFilled] == Ending(after.rows[id].history)
  {
    AcknowledgedAdmits(p, id, 1, 2, 1, 2);
    AcknowledgedAdmits(p, id, 1, 2, 1, 3);
    StaleFillReopensOrder(Run(EMPTY, Acknowledged(p, id, 1, 2, 1)), id, 3, 4, 2, 3);
    RunConcat(EMPTY, Acknowledged(p, id, 1, 2, 1), Overtaking(Broker(Filled, 2), 3, Broker(PartiallyFilled, 3), 4, id));
  }

  lemma CancelledFromEmpty(p: Payload, id: OrderId)
    ensures var after := Run(EMPTY, Acknowledged(p, id, 1, 2, 1) + Overtaking(Broker(Filled, 2), 3, Canceller, 4, id));
            id in after.rows && [Filled, CancelRequested] == Ending(after.rows[id].history)
  {
    AcknowledgedAdmits(p, id, 1, 2, 1, 2);
    LateCancelOverwritesFill(Run(EMPTY, Acknowledged(p, id, 1, 2, 1)), id, 3, 4, 2);
    RunConcat(EMPTY, Acknowledged(p, id, 1, 2, 1), Overtaking(Broker(Filled, 2), 3, Canceller, 4, id));
  }
}
