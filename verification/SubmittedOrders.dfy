/** What a submission leaves behind: the order, its stored attempts and what its callers are told, in every interleaving. */
module SubmittedOrders {
  import opened Wrappers
  import opened Submission

  // ---------------------------------------------------------------- invariant

  function LastAnswer(sys: System, execution: ExecutionId): Option<Answer> {
    var calls := CallsOf(sys, execution);
    if |calls| == 0 then None else calls[|calls| - 1].answer
  }

  /** The order events that an answer which ends an attempt gives rise to. */
  function Told(answer: Answer): seq<Orders.EventKind> {
    if Notice(answer).Some? then [Notice(answer).value] else []
  }

  /** The owner has its last answer, has told the order, and ends its attempt accordingly. */
  ghost predicate Settled(sys: System, execution: ExecutionId, w: WorkerId, state: SubmissionState) {
    && Owns(sys, execution, w) && LastAnswer(sys, execution).Some?
    && state == Verdict(LastAnswer(sys, execution).value) && NoticesOf(sys, execution) == Told(LastAnswer(sys, execution).value)
  }

  /** The attempt is stored in its final state. */
  ghost predicate StoredAs(sys: System, execution: ExecutionId, n: int, state: SubmissionState) {
    n >= 0 && (execution, n) in sys.store && sys.store[(execution, n)].state == state
  }

  ghost predicate EndOk(sys: System, w: WorkerId) {
    w in sys.workers ==>
      var execution := sys.workers[w].execution;
      match sys.workers[w].pc
      case Conflicted => (execution, 0) in sys.store
      case Finalizing(n, state) => n + 1 == |CallsOf(sys, execution)| && Settled(sys, execution, w, state)
      case Done(Finished(state)) => Settled(sys, execution, w, state) && StoredAs(sys, execution, |CallsOf(sys, execution)| - 1, state)
      case Done(Duplicate(state)) => (execution, 0) in sys.store && state in {InProgress, sys.store[(execution, 0)].state}
      case Done(Raised) => false
      case _ => true
  }

  /** A stored attempt is in progress, or it is the last one and ended as its answer says. */
  ghost predicate AttemptOk(sys: System, execution: ExecutionId, n: nat) {
    (execution, n) in sys.store && sys.store[(execution, n)].state != InProgress ==>
      && n + 1 == |CallsOf(sys, execution)| && LastAnswer(sys, execution).Some?
      && sys.store[(execution, n)].state == Verdict(LastAnswer(sys, execution).value)
      && (execution, 0) in sys.store && sys.store[(execution, 0)].worker in sys.workers
      && Past(sys.workers[sys.store[(execution, 0)].worker].pc)
  }

  ghost predicate Ending(sys: System) {
    (forall w :: EndOk(sys, w)) && (forall execution, n :: AttemptOk(sys, execution, n))
  }

  /** Only the owner of an execution calls, tells the order or ends its attempts. */
  lemma OthersStay(sys: System, step: Step, maxRetries: nat, execution: ExecutionId, v: WorkerId)
    requires Invariant(sys, maxRetries) && Ending(sys) && Owns(sys, execution, v) && step.worker != v
    ensures var after := Next(sys, step, maxRetries);
            && CallsOf(after, execution) == CallsOf(sys, execution) && NoticesOf(after, execution) == NoticesOf(sys, execution)
            && Owns(after, execution, v)
            && forall n :: (execution, n) in sys.store ==> (execution, n) in after.store && after.store[(execution, n)] == sys.store[(execution, n)]
  {
    var w := step.worker;
    assert WorkerOk(sys, w, maxRetries) && EndOk(sys, w);
  }

  /** The state of a first attempt changes only from in progress, and never goes away. */
  lemma FirstAttemptStays(sys: System, step: Step, maxRetries: nat, execution: ExecutionId)
    requires Invariant(sys, maxRetries) && Ending(sys) && (execution, 0) in sys.store
    ensures var after := Next(sys, step, maxRetries);
            (execution, 0) in after.store && sys.store[(execution, 0)].state in {InProgress, after.store[(execution, 0)].state}
  {
    var w := step.worker;
    assert EndOk(sys, w) && AttemptOk(sys, execution, 0);
  }

  lemma OthersWait(sys: System, step: Step, maxRetries: nat, v: WorkerId)
    requires v != step.worker && v in sys.workers
    ensures v in Next(sys, step, maxRetries).workers && Next(sys, step, maxRetries).workers[v] == sys.workers[v]
  {}

  lemma OtherEnds(sys: System, step: Step, maxRetries: nat, v: WorkerId)
    requires Invariant(sys, maxRetries) && Ending(sys) && v != step.worker && v in sys.workers
    ensures EndOk(Next(sys, step, maxRetries), v)
  {
    var e := sys.workers[v].execution;
    assert EndOk(sys, v);
    OthersWait(sys, step, maxRetries, v);
    if Owns(sys, e, v) { OthersStay(sys, step, maxRetries, e, v); }
    if (e, 0) in sys.store { FirstAttemptStays(sys, step, maxRetries, e); }
  }

  lemma OwnEnds(sys: System, step: Step, maxRetries: nat)
    requires Invariant(sys, maxRetries) && Ending(sys)
    ensures EndOk(Next(sys, step, maxRetries), step.worker)
  {
    var w := step.worker;
    if w in sys.workers {
      var e := sys.workers[w].execution;
      assert EndOk(sys, w) && WorkerOk(sys, w, maxRetries) && NoticeOk(sys, e);
      if step.Finalize? { FinalizeEnds(sys, w, maxRetries); }
    }
  }

  lemma FinalizeEnds(sys: System, w: WorkerId, maxRetries: nat)
    requires Invariant(sys, maxRetries) && Ending(sys) && w in sys.workers
    ensures EndOk(Next(sys, Finalize(w), maxRetries), w)
  {
    var e := sys.workers[w].execution;
    assert EndOk(sys, w);
    if sys.workers[w].pc.Finalizing? { assert CallOk(sys, e, sys.workers[w].pc.number); }
  }

  lemma EndStep(sys: System, step: Step, maxRetries: nat, v: WorkerId)
    requires Invariant(sys, maxRetries) && Ending(sys)
    ensures EndOk(Next(sys, step, maxRetries), v)
  {
    if v == step.worker {
      OwnEnds(sys, step, maxRetries);
    } else if v in sys.workers {
      OtherEnds(sys, step, maxRetries, v);
    }
  }

  lemma AttemptStep(sys: System, step: Step, maxRetries: nat, execution: ExecutionId, n: nat)
    requires Invariant(sys, maxRetries) && Ending(sys)
    ensures AttemptOk(Next(sys, step, maxRetries), execution, n)
  {
    var w := step.worker;
    assert AttemptOk(sys, execution, n) && EndOk(sys, w) && WorkerOk(sys, w, maxRetries) && Known(sys, execution);
  }

  lemma {:induction false} EndingsAreSound(steps: seq<Step>, maxRetries: nat)
    ensures Invariant(Run(EMPTY, steps, maxRetries), maxRetries) && Ending(Run(EMPTY, steps, maxRetries))
    decreases |steps|
  {
    RunKeeps(steps, maxRetries);
    var after := Run(EMPTY, steps, maxRetries);
    if |steps| == 0 {
      assert forall w :: EndOk(after, w);
      assert forall execution, n :: AttemptOk(after, execution, n);
    } else {
      var n := |steps| - 1;
      EndingsAreSound(steps[..n], maxRetries);
      var before := Run(EMPTY, steps[..n], maxRetries);
      forall w ensures EndOk(after, w) { EndStep(before, steps[n], maxRetries, w); }
      forall execution, m ensures AttemptOk(after, execution, m) { AttemptStep(before, steps[n], maxRetries, execution, m); }
    }
  }

  // ------------------------------------------------------------------ the order

  /** What an event says besides its kind. */
  datatype Report = Report(at: int, reason: string, brokerOrderId: Option<string>)

  /** The order after the order events of its execution; one it refuses leaves it as it was. */
  function OrderAfter(x: Orders.Execution, kinds: seq<Orders.EventKind>, report: Report): Orders.Execution
    decreases |kinds|
  {
    if |kinds| == 0 then x
    else
      var n := |kinds| - 1;
      Orders.MoveOrder(OrderAfter(x, kinds[..n], report),
                       Orders.Receive(Orders.Event(x.lifecycle.orderId, kinds[n], report.at, report.reason, report.brokerOrderId, 0.0, 0, None)))
  }

  lemma OneEvent(x: Orders.Execution, kind: Orders.EventKind, report: Report)
    requires x.lifecycle.state == Orders.SubmissionRequested && kind in {Orders.Acknowledgement, Orders.Rejection, Orders.UnknownState}
    ensures var state := OrderAfter(x, [kind], report).lifecycle.state;
            && (kind == Orders.Acknowledgement ==> state == Orders.BrokerAcknowledged)
            && (kind == Orders.Rejection ==> state == Orders.Rejected)
            && (kind == Orders.UnknownState ==> state == Orders.Unknown)
  {
    assert [kind][..0] == [];
  }

  /** Where an answer takes an order that awaits its submission. */
  ghost predicate Follows(state: Orders.OrderState, answer: Answer) {
    && (state == Orders.BrokerAcknowledged <==> answer == Response(Acknowledged))
    && (state == Orders.Rejected <==> answer == Response(RejectedBySubmit))
    && (state == Orders.Unknown <==> answer in {Timeout, Response(TimedOut), Response(UnknownOutcome)})
    && state in {Orders.SubmissionRequested, Orders.BrokerAcknowledged, Orders.Rejected, Orders.Unknown}
  }

  lemma ToldOrderFollows(x: Orders.Execution, answer: Answer, report: Report)
    requires x.lifecycle.state == Orders.SubmissionRequested
    ensures Follows(OrderAfter(x, Told(answer), report).lifecycle.state, answer)
  {
    if Notice(answer).Some? { OneEvent(x, Notice(answer).value, report); }
  }

  /**
   When a submission has finished, in any interleaving, its order is acknowledged, rejected or unknown exactly when
   the last answer was an acknowledgement, a rejection, or ambiguous; every other answer leaves it as it was.
   */
  lemma FinishedOrderFollowsAnswer(steps: seq<Step>, maxRetries: nat, w: WorkerId, x: Orders.Execution, report: Report)
    requires var sys := Run(EMPTY, steps, maxRetries); w in sys.workers && sys.workers[w].pc.Done? && sys.workers[w].pc.outcome.Finished?
    requires x.lifecycle.state == Orders.SubmissionRequested
    ensures var sys := Run(EMPTY, steps, maxRetries);
            var execution := sys.workers[w].execution;
            && LastAnswer(sys, execution).Some?
            && Follows(OrderAfter(x, NoticesOf(sys, execution), report).lifecycle.state, LastAnswer(sys, execution).value)
  {
    var sys := Run(EMPTY, steps, maxRetries);
    EndingsAreSound(steps, maxRetries);
    assert EndOk(sys, w);
    ToldOrderFollows(x, LastAnswer(sys, sys.workers[w].execution).value, report);
  }

  /** At every moment, crashes included: an order that was moved on was moved as its last answer says. */
  lemma MovedOrderFollowsAnswer(steps: seq<Step>, maxRetries: nat, execution: ExecutionId, x: Orders.Execution, report: Report)
    requires x.lifecycle.state == Orders.SubmissionRequested
    ensures var sys := Run(EMPTY, steps, maxRetries);
            var after := OrderAfter(x, NoticesOf(sys, execution), report);
            after == x || (LastAnswer(sys, execution).Some? && Follows(after.lifecycle.state, LastAnswer(sys, execution).value))
  {
    var sys := Run(EMPTY, steps, maxRetries);
    RunKeeps(steps, maxRetries);
    assert NoticeOk(sys, execution);
    var notices := NoticesOf(sys, execution);
    if |notices| > 0 {
      var answer := LastAnswer(sys, execution).value;
      assert notices == Told(answer);
      ToldOrderFollows(x, answer, report);
    }
  }

  // ------------------------------------------------------------ stored attempts

  /** An attempt ends in the state of the broker's answer; an error that is not ambiguous counts as a rejection. */
  ghost predicate Records(state: SubmissionState, answer: Answer) {
    && (state == Acknowledged <==> answer == Response(Acknowledged))
    && (state == Submitted <==> answer == Response(Submitted))
    && (state == TimedOut <==> answer in {Timeout, Response(TimedOut)})
    && (state == RejectedBySubmit <==> answer in {Transient, OtherError, Response(RejectedBySubmit)})
    && (state == UnknownOutcome <==> answer in {UnknownExternal, Response(UnknownOutcome), Response(InProgress), Response(CancelledSubmission)})
  }

  lemma VerdictRecords(answer: Answer)
    ensures Records(Verdict(answer), answer)
  {
    if answer.Response? {
      match answer.status
      case InProgress => assert answer == Response(InProgress);
      case CancelledSubmission => assert answer == Response(CancelledSubmission);
      case _ =>
    }
  }

  /**
   In every interleaving a stored attempt is still in progress, or it is the last one and records the answer to its
   call; so a timeout is never stored as a rejection, and an attempt that was retried stays in progress.
   */
  lemma StoredAttemptsRecordAnswers(steps: seq<Step>, maxRetries: nat, execution: ExecutionId, n: nat)
    requires (execution, n) in Run(EMPTY, steps, maxRetries).store
    ensures var sys := Run(EMPTY, steps, maxRetries);
            var state, calls := sys.store[(execution, n)].state, CallsOf(sys, execution);
            state == InProgress || (n + 1 == |calls| && calls[n].answer.Some? && Records(state, calls[n].answer.value))
  {
    EndingsAreSound(steps, maxRetries);
    var sys := Run(EMPTY, steps, maxRetries);
    assert AttemptOk(sys, execution, n);
    if LastAnswer(sys, execution).Some? { VerdictRecords(LastAnswer(sys, execution).value); }
  }

  /** What a finished call reports is on record: its own final state as the answer says, or the first attempt's state, now or while it was in progress. */
  lemma ReportsAreTruthful(steps: seq<Step>, maxRetries: nat, w: WorkerId)
    requires var sys := Run(EMPTY, steps, maxRetries); w in sys.workers && sys.workers[w].pc.Done?
    ensures var sys := Run(EMPTY, steps, maxRetries);
            var execution := sys.workers[w].execution;
            match sys.workers[w].pc.outcome
            case Finished(state) =>
              && LastAnswer(sys, execution).Some? && Records(state, LastAnswer(sys, execution).value)
              && StoredAs(sys, execution, |CallsOf(sys, execution)| - 1, state)
            case Duplicate(state) => (execution, 0) in sys.store && state in {InProgress, sys.store[(execution, 0)].state}
            case Raised => false
  {
    EndingsAreSound(steps, maxRetries);
    var sys := Run(EMPTY, steps, maxRetries);
    assert EndOk(sys, w);
    if LastAnswer(sys, sys.workers[w].execution).Some? { VerdictRecords(LastAnswer(sys, sys.workers[w].execution).value); }
  }
}
