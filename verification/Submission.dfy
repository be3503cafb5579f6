/**
 Submission of one order by concurrent workers over a store that keeps
 (execution id, attempt number) unique. Each worker is one call of `submit`;
 any interleaving of their steps, and a crash at any point, is a run.
 */
module Submission {
  import opened Wrappers
  import Orders = OrderLifecycle

  type ExecutionId = nat
  type WorkerId = nat

  datatype SubmissionState = InProgress | Submitted | Acknowledged | TimedOut | RejectedBySubmit | UnknownOutcome | CancelledSubmission

  /** What one adapter call comes back with: an error class or a response. */
  datatype Answer = Transient | Timeout | UnknownExternal | OtherError | Response(status: SubmissionState)

  /** The state that ends an attempt, given the adapter's answer. */
  function Verdict(answer: Answer): SubmissionState {
    match answer
    case Transient => RejectedBySubmit
    case Timeout => TimedOut
    case UnknownExternal => UnknownOutcome
    case OtherError => RejectedBySubmit
    case Response(status) =>
      if status in {Acknowledged, Submitted, RejectedBySubmit, TimedOut, UnknownOutcome} then status else UnknownOutcome
  }

  /** The order event that an answer which ends an attempt gives rise to. */
  function Notice(answer: Answer): Option<Orders.EventKind> {
    match answer
    case Timeout => Some(Orders.UnknownState)
    case Response(Acknowledged) => Some(Orders.Acknowledgement)
    case Response(RejectedBySubmit) => Some(Orders.Rejection)
    case Response(TimedOut) => Some(Orders.UnknownState)
    case Response(UnknownOutcome) => Some(Orders.UnknownState)
    case _ => None
  }

  /** A stored attempt; `worker` is the one whose insert succeeded. */
  datatype Attempt = Attempt(worker: WorkerId, state: SubmissionState)

  type Key = (ExecutionId, nat)

  datatype Call = Call(worker: WorkerId, answer: Option<Answer>)

  datatype Outcome = Duplicate(state: SubmissionState) | Finished(state: SubmissionState) | Raised

  datatype Pc =
    | Finding
    | Persisting(number: nat)
    | Conflicted
    | Dispatching(number: nat)
    | Waiting(number: nat)
    | Notifying(number: nat, answer: Answer)
    | Finalizing(number: nat, state: SubmissionState)
    | Done(outcome: Outcome)
    | Crashed

  datatype Worker = Worker(execution: ExecutionId, pc: Pc)

  /** Store, workers and, per execution id, every adapter call made and every order event applied for it. */
  datatype System = System(
    store: map<Key, Attempt>, workers: map<WorkerId, Worker>, calls: map<ExecutionId, seq<Call>>,
    notices: map<ExecutionId, seq<Orders.EventKind>>)

  const EMPTY := System(map[], map[], map[], map[])

  datatype Step =
    | Begin(worker: WorkerId, execution: ExecutionId)
    | Find(worker: WorkerId)
    | Persist(worker: WorkerId)
    | Reread(worker: WorkerId)
    | Dispatch(worker: WorkerId)
    | Receive(worker: WorkerId, answer: Answer)
    | Notify(worker: WorkerId)
    | Finalize(worker: WorkerId)
    | Crash(worker: WorkerId)

  function CallsOf(sys: System, execution: ExecutionId): seq<Call> {
    if execution in sys.calls then sys.calls[execution] else []
  }

  function NoticesOf(sys: System, execution: ExecutionId): seq<Orders.EventKind> {
    if execution in sys.notices then sys.notices[execution] else []
  }

  function At(sys: System, w: WorkerId, pc: Pc): System
    requires w in sys.workers
  {
    sys.(workers := sys.workers[w := sys.workers[w].(pc := pc)])
  }

  /** The replayed outcome is read from attempt 0 alone. */
  function Existing(sys: System, execution: ExecutionId): Option<Attempt> {
    if (execution, 0) in sys.store then Some(sys.store[(execution, 0)]) else None
  }

  /** One atomic step; a step whose worker is not at its place changes nothing. */
  function Next(sys: System, step: Step, maxRetries: nat): System {
    var w := step.worker;
    if step.Begin? then
      if w in sys.workers then sys else sys.(workers := sys.workers[w := Worker(step.execution, Finding)])
    else if w !in sys.workers then sys
    else
      var execution, pc := sys.workers[w].execution, sys.workers[w].pc;
      match step
      case Find(_) =>
        if !pc.Finding? then sys
        else
          var existing := Existing(sys, execution);
          At(sys, w, if existing.Some? then Done(Duplicate(existing.value.state)) else Persisting(0))
      case Persist(_) =>
        if !pc.Persisting? then sys
        else if (execution, pc.number) in sys.store then At(sys, w, Conflicted)
        else At(sys.(store := sys.store[(execution, pc.number) := Attempt(w, InProgress)]), w, Dispatching(pc.number))
      case Reread(_) =>
        if !pc.Conflicted? then sys
        else
          var existing := Existing(sys, execution);
          At(sys, w, Done(if existing.Some? then Duplicate(existing.value.state) else Raised))
      case Dispatch(_) =>
        if !pc.Dispatching? then sys
        else At(sys.(calls := sys.calls[execution := CallsOf(sys, execution) + [Call(w, None)]]), w, Waiting(pc.number))
      case Receive(_, answer) =>
        var calls := CallsOf(sys, execution);
        if !pc.Waiting? || |calls| == 0 then sys
        else
          var answered := sys.(calls := sys.calls[execution := calls[|calls| - 1 := calls[|calls| - 1].(answer := Some(answer))]]);
          At(answered, w,
             if answer.Transient? && pc.number < maxRetries then Persisting(pc.number + 1)
             else Notifying(pc.number, answer))
      case Notify(_) =>
        if !pc.Notifying? then sys
        else
          var notice := Notice(pc.answer);
          var told := if notice.None? then sys
                      else sys.(notices := sys.notices[execution := NoticesOf(sys, execution) + [notice.value]]);
          At(told, w, Finalizing(pc.number, Verdict(pc.answer)))
      case Finalize(_) =>
        if !pc.Finalizing? then sys
        else
          var key := (execution, pc.number);
          var stored := if key in sys.store then sys.store[key := sys.store[key].(state := pc.state)] else sys.store;
          At(sys.(store := stored), w, Done(Finished(pc.state)))
      case Crash(_) => At(sys, w, Crashed)
  }

  function Run(sys: System, steps: seq<Step>, maxRetries: nat): System
    decreases |steps|
  {
    if |steps| == 0 then sys else Next(Run(sys, steps[..|steps| - 1], maxRetries), steps[|steps| - 1], maxRetries)
  }

  // --------------------------------------------------------------- invariant

  /** `w` stored attempt 0 of the execution. */
  ghost predicate Owns(sys: System, execution: ExecutionId, w: WorkerId) {
    (execution, 0) in sys.store && sys.store[(execution, 0)].worker == w
  }

  ghost predicate CallOk(sys: System, execution: ExecutionId, k: nat) {
    var calls := CallsOf(sys, execution);
    k < |calls| ==>
      && (execution, k) in sys.store
      && Owns(sys, execution, calls[k].worker)
      && (k + 1 < |calls| ==> calls[k].answer == Some(Transient))
  }

  ghost predicate RowOk(sys: System, execution: ExecutionId, n: nat, maxRetries: nat) {
    (execution, n) in sys.store ==>
      && n <= maxRetries
      && Owns(sys, execution, sys.store[(execution, n)].worker)
      && n <= |CallsOf(sys, execution)|
      && (n == |CallsOf(sys, execution)| ==> HeldBack(sys, sys.store[(execution, n)].worker, n))
  }

  /** The worker has stored attempt `n` and not called the adapter for it. */
  ghost predicate HeldBack(sys: System, w: WorkerId, n: nat) {
    w in sys.workers && sys.workers[w].pc in {Dispatching(n), Crashed}
  }

  /** The last call of the execution was answered by a transient error. */
  ghost predicate LastWasTransient(sys: System, execution: ExecutionId, n: nat) {
    var calls := CallsOf(sys, execution);
    |calls| == n && (n > 0 ==> calls[n - 1].answer == Some(Transient))
  }

  ghost predicate WorkerOk(sys: System, w: WorkerId, maxRetries: nat) {
    w in sys.workers ==>
      var execution, pc := sys.workers[w].execution, sys.workers[w].pc;
      match pc
      case Finding => !Owns(sys, execution, w)
      case Conflicted => !Owns(sys, execution, w)
      case Persisting(n) =>
        if n == 0 then !Owns(sys, execution, w)
        else n <= maxRetries && Owns(sys, execution, w) && (execution, n) !in sys.store && LastWasTransient(sys, execution, n)
      case Dispatching(n) =>
        n <= maxRetries && Owns(sys, execution, w) && (execution, n) in sys.store && LastWasTransient(sys, execution, n)
      case Waiting(n) =>
        n <= maxRetries && Owns(sys, execution, w) && |CallsOf(sys, execution)| == n + 1
      case Notifying(n, answer) =>
        Owns(sys, execution, w) && |CallsOf(sys, execution)| == n + 1 && CallsOf(sys, execution)[n].answer == Some(answer)
      case _ => true
  }

  ghost predicate Known(sys: System, execution: ExecutionId) {
    (execution, 0) in sys.store ==> sys.store[(execution, 0)].worker in sys.workers
                                    && sys.workers[sys.store[(execution, 0)].worker].execution == execution
  }

  predicate Past(pc: Pc) {
    pc.Finalizing? || pc.Done? || pc.Crashed?
  }

  /** An order event was applied once, for the last answer, by a worker that is past it. */
  ghost predicate NoticeOk(sys: System, execution: ExecutionId) {
    |NoticesOf(sys, execution)| > 0 ==>
      var calls := CallsOf(sys, execution);
      && |NoticesOf(sys, execution)| == 1 && |calls| > 0 && calls[|calls| - 1].answer.Some?
      && Notice(calls[|calls| - 1].answer.value) == Some(NoticesOf(sys, execution)[0])
      && (execution, 0) in sys.store && sys.store[(execution, 0)].worker in sys.workers
      && Past(sys.workers[sys.store[(execution, 0)].worker].pc)
  }

  ghost predicate Invariant(sys: System, maxRetries: nat) {
    && (forall execution, k :: CallOk(sys, execution, k))
    && (forall execution, n :: RowOk(sys, execution, n, maxRetries))
    && (forall w :: WorkerOk(sys, w, maxRetries))
    && (forall execution :: Known(sys, execution))
    && (forall execution :: NoticeOk(sys, execution))
  }

  lemma BeginKeeps(sys: System, step: Step, maxRetries: nat)
    requires Invariant(sys, maxRetries) && (step.Begin? || step.Find? || step.Reread? || step.Crash?)
    ensures Invariant(Next(sys, step, maxRetries), maxRetries)
  {
    var after, w := Next(sys, step, maxRetries), step.worker;
    if after != sys {
      forall execution, k ensures CallOk(after, execution, k) { assert CallOk(sys, execution, k); }
      forall execution ensures Known(after, execution) { assert Known(sys, execution); }
      forall execution ensures NoticeOk(after, execution) { assert NoticeOk(sys, execution) && Known(sys, execution); }
      forall execution, n ensures RowOk(after, execution, n, maxRetries) {
        assert RowOk(sys, execution, n, maxRetries) && Known(sys, execution);
      }
      forall v ensures WorkerOk(after, v, maxRetries) {
        assert WorkerOk(sys, v, maxRetries);
        if step.Begin? && v == w { assert Known(sys, step.execution); }
      }
    }
  }

  lemma PersistNotice(sys: System, step: Step, maxRetries: nat, execution: ExecutionId)
    requires Invariant(sys, maxRetries) && step.Persist?
    ensures NoticeOk(Next(sys, step, maxRetries), execution)
  {
    assert NoticeOk(sys, execution) && Known(sys, execution) && WorkerOk(sys, step.worker, maxRetries);
  }

  lemma PersistRow(sys: System, step: Step, maxRetries: nat, execution: ExecutionId, m: nat)
    requires Invariant(sys, maxRetries) && step.Persist?
    ensures RowOk(Next(sys, step, maxRetries), execution, m, maxRetries)
  {
    assert WorkerOk(sys, step.worker, maxRetries) && Known(sys, execution);
    assert RowOk(sys, execution, m, maxRetries) && RowOk(sys, execution, 0, maxRetries);
    assert CallOk(sys, execution, 0);
  }

  lemma PersistWorker(sys: System, step: Step, maxRetries: nat, v: WorkerId)
    requires Invariant(sys, maxRetries) && step.Persist?
    ensures WorkerOk(Next(sys, step, maxRetries), v, maxRetries)
  {
    assert WorkerOk(sys, v, maxRetries) && WorkerOk(sys, step.worker, maxRetries);
    if step.worker in sys.workers { assert CallOk(sys, sys.workers[step.worker].execution, 0); }
  }

  lemma PersistKeeps(sys: System, step: Step, maxRetries: nat)
    requires Invariant(sys, maxRetries) && step.Persist?
    ensures Invariant(Next(sys, step, maxRetries), maxRetries)
  {
    var after := Next(sys, step, maxRetries);
    forall execution, k ensures CallOk(after, execution, k) { assert CallOk(sys, execution, k); }
    forall execution ensures Known(after, execution) { assert Known(sys, execution); }
    forall execution ensures NoticeOk(after, execution) { PersistNotice(sys, step, maxRetries, execution); }
    forall execution, m ensures RowOk(after, execution, m, maxRetries) { PersistRow(sys, step, maxRetries, execution, m); }
    forall v ensures WorkerOk(after, v, maxRetries) { PersistWorker(sys, step, maxRetries, v); }
  }

  lemma DispatchKeeps(sys: System, step: Step, maxRetries: nat)
    requires Invariant(sys, maxRetries) && step.Dispatch?
    ensures Invariant(Next(sys, step, maxRetries), maxRetries)
  {
    var after, w := Next(sys, step, maxRetries), step.worker;
    if after != sys {
      var e, n := sys.workers[w].execution, sys.workers[w].pc.number;
      assert WorkerOk(sys, w, maxRetries);
      forall execution, k ensures CallOk(after, execution, k) { assert CallOk(sys, execution, k); }
      forall execution ensures Known(after, execution) { assert Known(sys, execution); }
      forall execution ensures NoticeOk(after, execution) { assert NoticeOk(sys, execution) && Known(sys, execution); }
      forall execution, m ensures RowOk(after, execution, m, maxRetries) {
        assert RowOk(sys, execution, m, maxRetries) && Known(sys, execution);
      }
      forall v ensures WorkerOk(after, v, maxRetries) { assert WorkerOk(sys, v, maxRetries); }
    }
  }

  lemma ReceiveKeeps(sys: System, step: Step, maxRetries: nat)
    requires Invariant(sys, maxRetries) && step.Receive?
    ensures Invariant(Next(sys, step, maxRetries), maxRetries)
  {
    var after, w := Next(sys, step, maxRetries), step.worker;
    if after != sys && w in sys.workers && sys.workers[w].pc.Waiting? {
      var e, n := sys.workers[w].execution, sys.workers[w].pc.number;
      assert WorkerOk(sys, w, maxRetries) && RowOk(sys, e, n + 1, maxRetries);
      forall execution, k ensures CallOk(after, execution, k) { assert CallOk(sys, execution, k); }
      forall execution ensures Known(after, execution) { assert Known(sys, execution); }
      forall execution ensures NoticeOk(after, execution) { assert NoticeOk(sys, execution) && Known(sys, execution); }
      forall execution, m ensures RowOk(after, execution, m, maxRetries) {
        assert RowOk(sys, execution, m, maxRetries) && Known(sys, execution);
      }
      forall v ensures WorkerOk(after, v, maxRetries) { assert WorkerOk(sys, v, maxRetries); }
    }
  }

  lemma FinalizeKeeps(sys: System, step: Step, maxRetries: nat)
    requires Invariant(sys, maxRetries) && step.Finalize?
    ensures Invariant(Next(sys, step, maxRetries), maxRetries)
  {
    var after, w := Next(sys, step, maxRetries), step.worker;
    if after != sys {
      forall execution, k ensures CallOk(after, execution, k) { assert CallOk(sys, execution, k); }
      forall execution ensures Known(after, execution) { assert Known(sys, execution); }
      forall execution ensures NoticeOk(after, execution) { assert NoticeOk(sys, execution) && Known(sys, execution); }
      forall execution, m ensures RowOk(after, execution, m, maxRetries) {
        assert RowOk(sys, execution, m, maxRetries) && Known(sys, execution);
      }
      forall v ensures WorkerOk(after, v, maxRetries) { assert WorkerOk(sys, v, maxRetries); }
    }
  }

  lemma NotifyNotice(sys: System, step: Step, maxRetries: nat, execution: ExecutionId)
    requires Invariant(sys, maxRetries) && step.Notify?
    ensures NoticeOk(Next(sys, step, maxRetries), execution)
  {
    assert NoticeOk(sys, execution) && Known(sys, execution) && WorkerOk(sys, step.worker, maxRetries);
  }

  lemma NotifyKeeps(sys: System, step: Step, maxRetries: nat)
    requires Invariant(sys, maxRetries) && step.Notify?
    ensures Invariant(Next(sys, step, maxRetries), maxRetries)
  {
    var after, w := Next(sys, step, maxRetries), step.worker;
    if w in sys.workers && sys.workers[w].pc.Notifying? {
      var e := sys.workers[w].execution;
      assert WorkerOk(sys, w, maxRetries);
      forall execution, k ensures CallOk(after, execution, k) { assert CallOk(sys, execution, k); }
      forall execution ensures Known(after, execution) { assert Known(sys, execution); }
      forall execution ensures NoticeOk(after, execution) { NotifyNotice(sys, step, maxRetries, execution); }
      forall execution, m ensures RowOk(after, execution, m, maxRetries) {
        assert RowOk(sys, execution, m, maxRetries) && Known(sys, execution);
      }
      forall v ensures WorkerOk(after, v, maxRetries) { assert WorkerOk(sys, v, maxRetries); }
    }
  }

  lemma StepKeeps(sys: System, step: Step, maxRetries: nat)
    requires Invariant(sys, maxRetries)
    ensures Invariant(Next(sys, step, maxRetries), maxRetries)
  {
    match step
    case Persist(_) => PersistKeeps(sys, step, maxRetries);
    case Dispatch(_) => DispatchKeeps(sys, step, maxRetries);
    case Receive(_, _) => ReceiveKeeps(sys, step, maxRetries);
    case Notify(_) => NotifyKeeps(sys, step, maxRetries);
    case Finalize(_) => FinalizeKeeps(sys, step, maxRetries);
    case _ => BeginKeeps(sys, step, maxRetries);
  }

  lemma {:induction false} RunKeeps(steps: seq<Step>, maxRetries: nat)
    ensures Invariant(Run(EMPTY, steps, maxRetries), maxRetries)
    decreases |steps|
  {
    if |steps| == 0 {
      assert forall execution, k :: CallOk(EMPTY, execution, k);
      assert forall execution, n :: RowOk(EMPTY, execution, n, maxRetries);
      assert forall w :: WorkerOk(EMPTY, w, maxRetries);
      assert forall execution :: Known(EMPTY, execution);
      assert forall execution :: NoticeOk(EMPTY, execution);
    } else {
      var n := |steps| - 1;
      RunKeeps(steps[..n], maxRetries);
      StepKeeps(Run(EMPTY, steps[..n], maxRetries), steps[n], maxRetries);
    }
  }

  // ---------------------------------------------------------------- theorems

  /** In every interleaving, only the worker that stored attempt 0 calls the adapter, boundedly often. */
  lemma AtMostOneDispatcher(steps: seq<Step>, maxRetries: nat, execution: ExecutionId)
    ensures var sys := Run(EMPTY, steps, maxRetries);
            var calls := CallsOf(sys, execution);
            && |calls| <= maxRetries + 1
            && (forall k :: 0 <= k < |calls| ==> Owns(sys, execution, calls[k].worker))
  {
    var sys := Run(EMPTY, steps, maxRetries);
    var calls := CallsOf(sys, execution);
    RunKeeps(steps, maxRetries);
    forall k | 0 <= k < |calls| ensures Owns(sys, execution, calls[k].worker) { assert CallOk(sys, execution, k); }
    if |calls| > 0 { assert CallOk(sys, execution, |calls| - 1) && RowOk(sys, execution, |calls| - 1, maxRetries); }
  }

  /** Every call after the first directly follows a transient error, never an ambiguous or final answer. */
  lemma RetriesFollowTransients(steps: seq<Step>, maxRetries: nat, execution: ExecutionId, k: nat)
    requires k + 1 < |CallsOf(Run(EMPTY, steps, maxRetries), execution)|
    ensures CallsOf(Run(EMPTY, steps, maxRetries), execution)[k].answer == Some(Transient)
  {
    RunKeeps(steps, maxRetries);
    assert CallOk(Run(EMPTY, steps, maxRetries), execution, k);
  }

  /** The unique key never refuses a retry: a conflict can only happen on attempt 0. */
  lemma RetriesNeverConflict(steps: seq<Step>, maxRetries: nat, w: WorkerId)
    requires var sys := Run(EMPTY, steps, maxRetries);
             w in sys.workers && sys.workers[w].pc.Persisting? && sys.workers[w].pc.number > 0
    ensures var sys := Run(EMPTY, steps, maxRetries);
            (sys.workers[w].execution, sys.workers[w].pc.number) !in sys.store
  {
    RunKeeps(steps, maxRetries);
    assert WorkerOk(Run(EMPTY, steps, maxRetries), w, maxRetries);
  }

  /**
   In every interleaving an execution applies at most one order event, it is the one its last answer
   calls for, and an order that awaits its submission admits it.
   */
  lemma {:induction false} AtMostOneOrderEvent(steps: seq<Step>, maxRetries: nat, execution: ExecutionId)
    ensures var sys := Run(EMPTY, steps, maxRetries);
            var calls, notices := CallsOf(sys, execution), NoticesOf(sys, execution);
            && |notices| <= 1
            && (|notices| == 1 ==>
                  && |calls| > 0 && calls[|calls| - 1].answer.Some? && Notice(calls[|calls| - 1].answer.value) == Some(notices[0])
                  && Orders.Target(notices[0]) in Orders.Allowed(Orders.SubmissionRequested))
  {
    RunKeeps(steps, maxRetries);
    assert NoticeOk(Run(EMPTY, steps, maxRetries), execution);
  }

  // ------------------------------------------------------- the loop of one call

  /** The attempt table; inserts fail on an existing (execution id, attempt number). */
  class AttemptStore {
    var rows: map<Key, Attempt>

    method FindAttempt(key: Key) returns (found: Option<Attempt>)
      ensures found == if key in rows then Some(rows[key]) else None
    {
      return if key in rows then Some(rows[key]) else None;
    }

    method SaveAttempt(key: Key, w: WorkerId) returns (saved: bool)
      modifies this
      ensures saved <==> key !in old(rows)
      ensures rows == if saved then old(rows)[key := Attempt(w, InProgress)] else old(rows)
    {
      saved := key !in rows;
      if saved {
        rows := rows[key := Attempt(w, InProgress)];
      }
    }

    method UpdateAttempt(key: Key, state: SubmissionState)
      modifies this
      ensures rows == if key in old(rows) then old(rows)[key := old(rows)[key].(state := state)] else old(rows)
    {
      if key in rows {
        rows := rows[key := rows[key].(state := state)];
      }
    }
  }

  lemma RunAppend(sys: System, steps: seq<Step>, step: Step, maxRetries: nat)
    ensures Run(sys, steps + [step], maxRetries) == Next(Run(sys, steps, maxRetries), step, maxRetries)
  {
    assert (steps + [step])[..|steps|] == steps;
  }

  /** The worker is about to store attempt `n`, after `n` transient answers. */
  ghost predicate AboutToPersist(sys: System, w: WorkerId, execution: ExecutionId, n: nat, rows: map<Key, Attempt>, maxRetries: nat) {
    && Invariant(sys, maxRetries) && sys.store == rows
    && w in sys.workers && sys.workers[w] == Worker(execution, Persisting(n))
    && (execution, n) !in rows
  }

  /** One round of the loop: store the attempt, call the adapter, take its answer. */
  function Round(w: WorkerId, answer: Answer): seq<Step> {
    [Persist(w), Dispatch(w), Receive(w, answer)]
  }

  lemma RoundMeaning(sys: System, w: WorkerId, execution: ExecutionId, n: nat, rows: map<Key, Attempt>, answer: Answer, maxRetries: nat)
    requires AboutToPersist(sys, w, execution, n, rows, maxRetries)
    ensures var after := Run(sys, Round(w, answer), maxRetries);
            var stored := rows[(execution, n) := Attempt(w, InProgress)];
            if answer.Transient? && n < maxRetries then AboutToPersist(after, w, execution, n + 1, stored, maxRetries)
            else w in after.workers && after.workers[w] == Worker(execution, Notifying(n, answer)) && after.store == stored
  {
    var a := Next(sys, Persist(w), maxRetries);
    var b := Next(a, Dispatch(w), maxRetries);
    var c := Next(b, Receive(w, answer), maxRetries);
    StepKeeps(sys, Persist(w), maxRetries);
    StepKeeps(a, Dispatch(w), maxRetries);
    StepKeeps(b, Receive(w, answer), maxRetries);
    RunAppend(sys, [], Persist(w), maxRetries);
    RunAppend(sys, [Persist(w)], Dispatch(w), maxRetries);
    RunAppend(sys, [Persist(w), Dispatch(w)], Receive(w, answer), maxRetries);
    assert [] + [Persist(w)] == [Persist(w)];
    assert [Persist(w)] + [Dispatch(w)] == [Persist(w), Dispatch(w)];
    assert [Persist(w), Dispatch(w)] + [Receive(w, answer)] == Round(w, answer);
    assert WorkerOk(c, w, maxRetries);
  }

  lemma {:induction false} RunConcat(sys: System, a: seq<Step>, b: seq<Step>, maxRetries: nat)
    ensures Run(sys, a + b, maxRetries) == Run(Run(sys, a, maxRetries), b, maxRetries)
    decreases |b|
  {
    if |b| == 0 {
      assert a + b == a;
    } else {
      var n := |b| - 1;
      RunConcat(sys, a, b[..n], maxRetries);
      assert (a + b)[..|a + b| - 1] == a + b[..n];
    }
  }

  lemma StartMeaning(sys: System, w: WorkerId, execution: ExecutionId, maxRetries: nat)
    requires Invariant(sys, maxRetries) && w !in sys.workers
    ensures var after := Run(sys, [Begin(w, execution), Find(w)], maxRetries);
            && after.store == sys.store && w in after.workers
            && if (execution, 0) in sys.store
               then after.workers[w] == Worker(execution, Done(Duplicate(sys.store[(execution, 0)].state)))
               else AboutToPersist(after, w, execution, 0, sys.store, maxRetries)
  {
    var a := Next(sys, Begin(w, execution), maxRetries);
    StepKeeps(sys, Begin(w, execution), maxRetries);
    StepKeeps(a, Find(w), maxRetries);
    RunAppend(sys, [], Begin(w, execution), maxRetries);
    RunAppend(sys, [Begin(w, execution)], Find(w), maxRetries);
    assert [] + [Begin(w, execution)] == [Begin(w, execution)];
    assert [Begin(w, execution)] + [Find(w)] == [Begin(w, execution), Find(w)];
  }

  /** The worker has finished, and the store shows it. */
  ghost predicate Concluded(sys: System, w: WorkerId, execution: ExecutionId, rows: map<Key, Attempt>, outcome: Outcome) {
    sys.store == rows && w in sys.workers && sys.workers[w] == Worker(execution, Done(outcome))
  }

  /** One attempt: stored before the adapter is called, finalized unless the answer asks for another. */
  method MakeAttempt(store: AttemptStore, execution: ExecutionId, w: WorkerId, n: nat, answer: Answer, maxRetries: nat, ghost sys: System)
    returns (again: bool, event: Option<Orders.EventKind>, ghost steps: seq<Step>)
    requires AboutToPersist(sys, w, execution, n, store.rows, maxRetries)
    modifies store
    ensures again <==> answer.Transient? && n < maxRetries
    ensures again ==> AboutToPersist(Run(sys, steps, maxRetries), w, execution, n + 1, store.rows, maxRetries)
    ensures !again ==> Concluded(Run(sys, steps, maxRetries), w, execution, store.rows, Finished(Verdict(answer)))
    ensures event == if again then None else Notice(answer)
  {
    RoundMeaning(sys, w, execution, n, store.rows, answer, maxRetries);
    steps := Round(w, answer);
    var saved := store.SaveAttempt((execution, n), w);
    again := answer.Transient? && n < maxRetries;
    event := None;
    if !again {
      event := Notice(answer);
      RunAppend(sys, steps, Notify(w), maxRetries);
      steps := steps + [Notify(w)];
      store.UpdateAttempt((execution, n), Verdict(answer));
      RunAppend(sys, steps, Finalize(w), maxRetries);
      steps := steps + [Finalize(w)];
    }
  }

  /**
   One call of `submit` that no other worker interrupts. It is a run of the protocol; it
   replays attempt 0 if there is one, and otherwise calls the adapter until the first
   answer that is not transient, at most maxRetries + 1 times.
   */
  method Submit(store: AttemptStore, execution: ExecutionId, w: WorkerId, answers: seq<Answer>, maxRetries: nat, ghost sys: System)
    returns (outcome: Outcome, calls: nat, event: Option<Orders.EventKind>, ghost steps: seq<Step>)
    requires |answers| == maxRetries + 1
    requires Invariant(sys, maxRetries) && store.rows == sys.store && w !in sys.workers
    modifies store
    ensures Concluded(Run(sys, steps, maxRetries), w, execution, store.rows, outcome)
    ensures (execution, 0) in old(store.rows) ==>
              calls == 0 && event == None && outcome == Duplicate(old(store.rows)[(execution, 0)].state) && store.rows == old(store.rows)
    ensures (execution, 0) !in old(store.rows) ==>
              && 1 <= calls <= maxRetries + 1
              && outcome == Finished(Verdict(answers[calls - 1])) && event == Notice(answers[calls - 1])
              && (forall k :: 0 <= k < calls - 1 ==> answers[k].Transient?)
              && (answers[calls - 1].Transient? ==> calls == maxRetries + 1)
  {
    steps := [Begin(w, execution), Find(w)];
    StartMeaning(sys, w, execution, maxRetries);
    var existing := store.FindAttempt((execution, 0));
    if existing.Some? {
      return Duplicate(existing.value.state), 0, None, steps;
    }
    var n, again := 0, true;
    event := None;
    ghost var at := Run(sys, steps, maxRetries);
    while again
      invariant n <= maxRetries + 1 && (again ==> n <= maxRetries)
      invariant at == Run(sys, steps, maxRetries)
      invariant again ==> AboutToPersist(at, w, execution, n, store.rows, maxRetries)
      invariant forall k :: 0 <= k < n - 1 ==> answers[k].Transient?
      invariant again && n > 0 ==> answers[n - 1].Transient?
      invariant !again ==> n > 0 && event == Notice(answers[n - 1]) && Concluded(at, w, execution, store.rows, Finished(Verdict(answers[n - 1])))
                           && (answers[n - 1].Transient? ==> n == maxRetries + 1)
      decreases maxRetries + 1 - n
    {
      ghost var more;
      again, event, more := MakeAttempt(store, execution, w, n, answers[n], maxRetries, at);
      RunConcat(sys, steps, more, maxRetries);
      steps := steps + more;
      at := Run(at, more, maxRetries);
      n := n + 1;
    }
    return Finished(Verdict(answers[n - 1])), n, event, steps;
  }
}
