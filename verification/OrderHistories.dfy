/**
 When the stored history of an order is legal, told from the schedule alone: from the calls that
 were made, and the order in which their reads and writes took effect.
 */
module OrderHistories {
  import opened Wrappers
  import opened OrderLifecycle
  import opened OrderCreation

  // ---------------------------------------------------------------- schedules

  /** The system before step `k`. */
  ghost function Before(steps: seq<Step>, k: nat): System
    requires k <= |steps|
  {
    Run(EMPTY, steps[..k])
  }

  lemma BeforeStart(steps: seq<Step>)
    ensures Before(steps, 0) == EMPTY
  {
    assert steps[..0] == [];
  }

  lemma BeforeNext(steps: seq<Step>, k: nat)
    requires k < |steps|
    ensures Before(steps, k + 1) == Next(Before(steps, k), steps[k])
  {
    var longer := steps[..k + 1];
    assert longer[..k] == steps[..k] && longer[k] == steps[k];
  }

  lemma BeforeIsFine(steps: seq<Step>, k: nat)
    requires k <= |steps|
    ensures Invariant(Before(steps, k))
  {
    EmptyIsFine();
    RunKeeps(EMPTY, steps[..k]);
  }

  /** The order is stored, and what is stored of it changes. */
  ghost predicate Lands(before: System, after: System, id: OrderId) {
    id in before.rows && id in after.rows && after.rows[id] != before.rows[id]
  }

  /** Step `k` writes the order. */
  ghost predicate LandsAt(steps: seq<Step>, k: int, id: OrderId) {
    0 <= k < |steps| && Lands(Before(steps, k), Before(steps, k + 1), id)
  }

  /** At step `i` the cancelling or reporting call of `w` reads its order. */
  ghost predicate ReadsAt(steps: seq<Step>, i: int, w: WorkerId) {
    && 0 <= i < |steps| && w in Before(steps, i).workers
    && var pc := Before(steps, i).workers[w].pc;
    (steps[i] == CheckStatus(w) && pc.Checking?) || (steps[i] == LoadStatus(w) && pc.Reporting?)
  }

  // ------------------------------------------------------- what a call writes

  predicate Opens(step: Step) {
    step.Create? || step.Cancel? || step.Report?
  }

  /** The step that began the call of `w`, after one more step. */
  function OpeningAfter(opening: Option<Step>, step: Step, w: WorkerId): Option<Step> {
    if opening.Some? then opening else if Opens(step) && step.worker == w then Some(step) else None
  }

  /** The step that began the call of `w`, among the first `n`. */
  function Opening(steps: seq<Step>, n: nat, w: WorkerId): Option<Step>
    requires n <= |steps|
  {
    if n == 0 then None else OpeningAfter(Opening(steps, n - 1, w), steps[n - 1], w)
  }

  /** The status a reporting or cancelling call was made to store. */
  function Asked(opening: Option<Step>): OrderState {
    if opening.Some? && opening.value.Report? then opening.value.target else CancelRequested
  }

  /** The status that a write at step `k` stores. */
  function WrittenAt(steps: seq<Step>, k: nat): OrderState
    requires k < |steps|
  {
    match steps[k]
    case RecordInternal(_) => InternalOrderCreated
    case RecordSubmission(_, _) => SubmissionRequested
    case _ => Asked(Opening(steps, k, steps[k].worker))
  }

  /** The call of `w` was begun, and it is about to write what it was asked to. */
  ghost predicate KeepsToOpening(sys: System, w: WorkerId, opening: Option<Step>) {
    if w !in sys.workers then opening.None?
    else
      && opening.Some?
      && match sys.workers[w].pc
         case Checking => opening.value.Cancel?
         case Reporting(target, _) => opening.value.Report? && opening.value.target == target
         case Writing(to, _, _) => to == Asked(opening)
         case _ => true
  }

  lemma {:induction false} CallsWriteWhatTheyWereAsked(steps: seq<Step>, n: nat, w: WorkerId)
    requires n <= |steps|
    ensures KeepsToOpening(Before(steps, n), w, Opening(steps, n, w))
    decreases n
  {
    if n == 0 {
      BeforeStart(steps);
    } else {
      CallsWriteWhatTheyWereAsked(steps, n - 1, w);
      BeforeNext(steps, n - 1);
      KeepsAsking(Before(steps, n - 1), steps[n - 1], w, Opening(steps, n - 1, w));
    }
  }

  lemma OthersWait(sys: System, step: Step, w: WorkerId)
    requires step.worker != w
    ensures w in Next(sys, step).workers <==> w in sys.workers
    ensures w in sys.workers ==> Next(sys, step).workers[w] == sys.workers[w]
  {}

  lemma KeepsAsking(sys: System, step: Step, w: WorkerId, opening: Option<Step>)
    requires KeepsToOpening(sys, w, opening)
    ensures KeepsToOpening(Next(sys, step), w, OpeningAfter(opening, step, w))
  {
    if step.worker != w { OthersWait(sys, step, w); }
  }

  // -------------------------------------------------------------- landed writes

  lemma StepThatLands(sys: System, step: Step, id: OrderId)
    requires Invariant(sys) && Lands(sys, Next(sys, step), id)
    ensures step.worker in sys.workers && sys.workers[step.worker].order == id
    ensures step.RecordInternal? || step.RecordSubmission? || (step.Write? && sys.workers[step.worker].pc.Writing?)
    ensures var after, row := Next(sys, step).rows, sys.rows[id];
            var to := if step.RecordInternal? then InternalOrderCreated else if step.RecordSubmission? then SubmissionRequested
                      else sys.workers[step.worker].pc.to;
            && id in after && after[id].status == to && after[id].history == row.history + [to]
            && |row.history| > 0 && row.status == row.history[|row.history| - 1]
            && (!step.Write? ==> to in Allowed(row.status))
  {
    assert RowOk(sys, id) && WorkerOk(sys, step.worker);
  }

  /** A write appends what its call was asked for. */
  lemma LandedStep(steps: seq<Step>, k: nat, id: OrderId)
    requires LandsAt(steps, k, id)
    ensures var before, after := Before(steps, k).rows, Before(steps, k + 1).rows;
            && id in after && after[id].status == WrittenAt(steps, k)
            && after[id].history == before[id].history + [WrittenAt(steps, k)]
            && |before[id].history| > 0 && before[id].status == before[id].history[|before[id].history| - 1]
            && (!steps[k].Write? ==> WrittenAt(steps, k) in Allowed(before[id].status))
  {
    BeforeIsFine(steps, k);
    BeforeNext(steps, k);
    StepThatLands(Before(steps, k), steps[k], id);
    CallsWriteWhatTheyWereAsked(steps, k, steps[k].worker);
  }

  lemma WriterIsWriting(steps: seq<Step>, k: nat, id: OrderId)
    requires LandsAt(steps, k, id) && steps[k].Write?
    ensures var w, sys := steps[k].worker, Before(steps, k);
            w in sys.workers && sys.workers[w].order == id && sys.workers[w].pc.Writing? && sys.workers[w].pc.to == WrittenAt(steps, k)
  {
    BeforeIsFine(steps, k);
    BeforeNext(steps, k);
    StepThatLands(Before(steps, k), steps[k], id);
    CallsWriteWhatTheyWereAsked(steps, k, steps[k].worker);
  }

  lemma StepKeepsRow(steps: seq<Step>, k: nat, id: OrderId)
    requires k < |steps| && id in Before(steps, k).rows
    ensures id in Before(steps, k + 1).rows
    ensures !LandsAt(steps, k, id) ==> Before(steps, k + 1).rows[id] == Before(steps, k).rows[id]
  {
    BeforeIsFine(steps, k);
    BeforeNext(steps, k);
    StepGrows(Before(steps, k), steps[k], id);
  }

  /** An order that nobody writes stays as it is. */
  lemma {:induction false} RowStays(steps: seq<Step>, id: OrderId, i: nat, j: nat)
    requires i <= j <= |steps| && id in Before(steps, i).rows
    ensures id in Before(steps, j).rows
    ensures (forall m :: i <= m < j ==> !LandsAt(steps, m, id)) ==> Before(steps, j).rows[id] == Before(steps, i).rows[id]
    decreases j
  {
    if i < j {
      RowStays(steps, id, i, j - 1);
      StepKeepsRow(steps, j - 1, id);
    }
  }

  /** No write of the order lands between `k` and `j`. */
  ghost predicate NoneBetween(steps: seq<Step>, id: OrderId, k: int, j: int) {
    forall m :: k < m < j ==> !LandsAt(steps, m, id)
  }

  lemma StatusAfterLanding(steps: seq<Step>, id: OrderId, k: nat, j: nat)
    requires k < j <= |steps| && LandsAt(steps, k, id) && NoneBetween(steps, id, k, j)
    ensures id in Before(steps, j).rows && Before(steps, j).rows[id].status == WrittenAt(steps, k)
  {
    LandedStep(steps, k, id);
    RowStays(steps, id, k + 1, j);
  }

  lemma {:induction false} LastLanding(steps: seq<Step>, id: OrderId, some: nat, j: nat) returns (k: nat)
    requires some < j <= |steps| && LandsAt(steps, some, id)
    ensures some <= k < j && LandsAt(steps, k, id) && NoneBetween(steps, id, k, j)
    decreases j
  {
    if LandsAt(steps, j - 1, id) {
      k := j - 1;
    } else {
      k := LastLanding(steps, id, some, j - 1);
      NoneBetweenExtends(steps, id, k, j - 1);
    }
  }

  lemma NoneBetweenExtends(steps: seq<Step>, id: OrderId, k: int, j: int)
    requires NoneBetween(steps, id, k, j) && !LandsAt(steps, j, id)
    ensures NoneBetween(steps, id, k, j + 1)
  {
    forall m | k < m < j + 1 ensures !LandsAt(steps, m, id) { if m < j { assert !LandsAt(steps, m, id); } }
  }

  // ------------------------------------------------------------------- legality

  /** A worker that is about to write read its order at some step, and what it will write was admitted there. */
  lemma {:induction false} OrderWasRead(steps: seq<Step>, n: nat, w: WorkerId) returns (i: nat)
    requires n <= |steps| && w in Before(steps, n).workers && Before(steps, n).workers[w].pc.Writing?
    ensures i < n && ReadsAt(steps, i, w)
    ensures var worker, rows := Before(steps, n).workers[w], Before(steps, i).rows;
            worker.order in rows && worker.pc.to in Allowed(rows[worker.order].status)
    decreases n
  {
    assert n > 0 by { BeforeStart(steps); }
    BeforeNext(steps, n - 1);
    var before := Before(steps, n - 1);
    if w in before.workers && before.workers[w].pc.Writing? {
      WritingWaits(before, steps[n - 1], w);
      i := OrderWasRead(steps, n - 1, w);
    } else {
      i := n - 1;
      WritingBegins(before, steps[n - 1], w);
    }
  }

  lemma WritingWaits(sys: System, step: Step, w: WorkerId)
    requires w in sys.workers && sys.workers[w].pc.Writing?
    requires w in Next(sys, step).workers && Next(sys, step).workers[w].pc.Writing?
    ensures Next(sys, step).workers[w] == sys.workers[w]
  {}

  lemma WritingBegins(sys: System, step: Step, w: WorkerId)
    requires w in Next(sys, step).workers && Next(sys, step).workers[w].pc.Writing?
    requires w !in sys.workers || !sys.workers[w].pc.Writing?
    ensures w in sys.workers
    ensures (step == CheckStatus(w) && sys.workers[w].pc.Checking?) || (step == LoadStatus(w) && sys.workers[w].pc.Reporting?)
    ensures var worker := Next(sys, step).workers[w];
            worker.order in sys.rows && worker.pc.to in Allowed(sys.rows[worker.order].status)
  {}

  /**
   The write at `j` is barred: between its call's read at `i` and itself, the last write of the order
   that lands, at `k`, stores a status that does not admit it.
   */
  ghost predicate Barred(steps: seq<Step>, id: OrderId, i: int, k: int, j: int) {
    && i < k < j && LandsAt(steps, j, id) && ReadsAt(steps, i, steps[j].worker)
    && LandsAt(steps, k, id) && NoneBetween(steps, id, k, j)
    && WrittenAt(steps, j) !in Allowed(WrittenAt(steps, k))
  }

  /** The reading steps write nothing. */
  lemma ReadsDoNotLand(steps: seq<Step>, i: nat, w: WorkerId, id: OrderId)
    requires ReadsAt(steps, i, w)
    ensures !LandsAt(steps, i, id)
  {
    BeforeNext(steps, i);
  }

  /** What was admitted at the read at `i` still is, unless a write in between bars it. */
  lemma StillAdmitted(steps: seq<Step>, id: OrderId, i: nat, j: nat)
    requires i < j && LandsAt(steps, j, id) && ReadsAt(steps, i, steps[j].worker) && forall k :: !Barred(steps, id, i, k, j)
    requires id in Before(steps, i).rows && WrittenAt(steps, j) in Allowed(Before(steps, i).rows[id].status)
    ensures WrittenAt(steps, j) in Allowed(Before(steps, j).rows[id].status)
  {
    if m :| i <= m < j && LandsAt(steps, m, id) {
      var k := LastLanding(steps, id, m, j);
      ReadsDoNotLand(steps, i, steps[j].worker, id);
      StatusAfterLanding(steps, id, k, j);
      assert !Barred(steps, id, i, k, j);
    } else {
      RowStays(steps, id, i, j);
    }
  }

  lemma UnbarredIsLegal(steps: seq<Step>, id: OrderId, j: nat)
    requires LandsAt(steps, j, id) && forall i, k :: !Barred(steps, id, i, k, j)
    ensures WrittenAt(steps, j) in Allowed(Before(steps, j).rows[id].status)
  {
    if steps[j].Write? {
      WriterIsWriting(steps, j, id);
      var i := OrderWasRead(steps, j, steps[j].worker);
      StillAdmitted(steps, id, i, j);
    } else {
      LandedStep(steps, j, id);
    }
  }

  /**
   On the schedule: a write adds a legal edge if and only if the last write that landed since its call's
   read, if any did, stored a status that admits it.
   */
  lemma WriteIsLegalExactlyWhen(steps: seq<Step>, id: OrderId, j: nat)
    requires LandsAt(steps, j, id)
    ensures var before, after := Before(steps, j).rows, Before(steps, j + 1).rows;
            && id in before && id in after && after[id].history == before[id].history + [WrittenAt(steps, j)]
            && (WrittenAt(steps, j) in Allowed(before[id].status) <==> forall i, k :: !Barred(steps, id, i, k, j))
  {
    LandedStep(steps, j, id);
    if i, k :| Barred(steps, id, i, k, j) {
      StatusAfterLanding(steps, id, k, j);
    } else {
      UnbarredIsLegal(steps, id, j);
    }
  }

  ghost predicate LegalEdge(history: seq<OrderState>, e: int) {
    0 < e < |history| ==> history[e] in Allowed(history[e - 1])
  }

  /** Every entry is a legal successor of the one before it. */
  ghost predicate Legal(history: seq<OrderState>) {
    forall e :: LegalEdge(history, e)
  }

  lemma LegalAppend(history: seq<OrderState>, to: OrderState)
    requires |history| > 0
    ensures Legal(history + [to]) <==> Legal(history) && to in Allowed(history[|history| - 1])
  {
    var longer := history + [to];
    if Legal(longer) {
      forall e ensures LegalEdge(history, e) { assert LegalEdge(longer, e); }
      assert LegalEdge(longer, |history|);
    }
    if Legal(history) && to in Allowed(history[|history| - 1]) {
      forall e ensures LegalEdge(longer, e) { assert LegalEdge(history, e); }
    }
  }

  ghost predicate NoneBarred(steps: seq<Step>, id: OrderId, n: nat) {
    forall i, k, j :: j < n ==> !Barred(steps, id, i, k, j)
  }

  lemma NoneBarredStep(steps: seq<Step>, id: OrderId, n: nat)
    ensures NoneBarred(steps, id, n + 1) <==> NoneBarred(steps, id, n) && forall i, k :: !Barred(steps, id, i, k, n)
  {}

  /** The row of a step that does not write it: as before, or just inserted. */
  lemma NewRowIsLegal(sys: System, step: Step, id: OrderId)
    requires Invariant(sys) && id !in sys.rows && id in Next(sys, step).rows
    ensures Next(sys, step).rows[id].history == [IntentCreated]
  {}

  lemma {:induction false} LegalUpTo(steps: seq<Step>, id: OrderId, n: nat)
    requires n <= |steps|
    ensures if id in Before(steps, n).rows then Legal(Before(steps, n).rows[id].history) <==> NoneBarred(steps, id, n)
            else NoneBarred(steps, id, n)
    decreases n
  {
    if n == 0 {
      BeforeStart(steps);
    } else {
      var j := n - 1;
      LegalUpTo(steps, id, j);
      NoneBarredStep(steps, id, j);
      if LandsAt(steps, j, id) {
        WriteIsLegalExactlyWhen(steps, id, j);
        LandedStep(steps, j, id);
        LegalAppend(Before(steps, j).rows[id].history, WrittenAt(steps, j));
      } else if id in Before(steps, j).rows {
        StepKeepsRow(steps, j, id);
      } else {
        BeforeIsFine(steps, j);
        BeforeNext(steps, j);
        if id in Before(steps, n).rows { NewRowIsLegal(Before(steps, j), steps[j], id); }
      }
    }
  }

  /** In every run, all edges of an order's history are legal if and only if no write of it was barred. */
  lemma HistoryIsLegalExactlyWhen(steps: seq<Step>, id: OrderId)
    requires id in Run(EMPTY, steps).rows
    ensures Legal(Run(EMPTY, steps).rows[id].history) <==> forall i, k, j :: !Barred(steps, id, i, k, j)
  {
    LegalUpTo(steps, id, |steps|);
    assert steps[..|steps|] == steps;
    assert forall i, k, j :: Barred(steps, id, i, k, j) ==> j < |steps|;
  }
}
