/**
 Deliveries and cancellations that overlap in time. Each worker is one call of `apply_event`: it
 looks the event up, loads the order, and saves what it computed from that copy, in three separate
 transactions that other calls can come between. Each canceller is one call of
 `request_cancellation`: it checks the status in one transaction and writes it in another.
 */
module ConcurrentDelivery {
  import opened Wrappers
  import opened OrderLifecycle
  import opened EventStore

  type WorkerId = nat

  datatype Pc = Looking | Loading | Saving(copy: Execution) | Done(saved: bool)

  datatype Worker = Worker(event: Event, pc: Pc)

  datatype CancelPc = Checking | Cancelling | Over(accepted: bool)

  datatype Canceller = Canceller(order: OrderId, pc: CancelPc)

  datatype System = System(db: Db, workers: map<WorkerId, Worker>, cancellers: map<WorkerId, Canceller>)

  datatype Step =
    | Begin(worker: WorkerId, event: Event)
    | Look(worker: WorkerId)
    | LoadOrder(worker: WorkerId)
    | Save(worker: WorkerId)
    | Ask(worker: WorkerId, order: OrderId)
    | Check(worker: WorkerId)
    | Cancel(worker: WorkerId)

  predicate OfCanceller(step: Step) {
    step.Ask? || step.Check? || step.Cancel?
  }

  // ------------------------------------------------------------ cancel requests

  const CANCEL_CONTENT := Content(CancelRequest, None, 0.0, 0, "cancellation requested")

  /** The order exists and has no cancel request on record. */
  predicate CancelCommits(db: Db, id: OrderId) {
    id in db.orders && FindEvent(db.events, CancelKey(id)).None?
  }

  /** The status alone is set, and the request recorded, in one transaction. */
  function Requested(db: Db, id: OrderId): Db
    requires id in db.orders
  {
    Db(db.orders[id := db.orders[id].(status := CancelRequested)], db.events + [EventRow(CancelKey(id), CANCEL_CONTENT, id)])
  }

  /** A cancel request that checks and writes at once. */
  function RequestCancel(db: Db, id: OrderId): Db {
    if id in db.orders && Cancellable(db.orders[id].status) && CancelCommits(db, id) then Requested(db, id) else db
  }

  // --------------------------------------------------------------------- steps

  function At(sys: System, w: WorkerId, pc: Pc): System
    requires w in sys.workers
  {
    sys.(workers := sys.workers[w := sys.workers[w].(pc := pc)])
  }

  /** The save commits: the order exists, the event is new, and the broker order id is not another order's. */
  predicate Commits(db: Db, e: Event, copy: Execution) {
    var next := ApplyEvent(copy, e);
    && next.Ok? && e.orderId in db.orders && FindEvent(db.events, IdentityOf(e)).None?
    && BrokerIdFree(db, e.orderId, next.value.brokerOrderId)
  }

  function WithCanceller(sys: System, w: WorkerId, c: Canceller): System {
    sys.(cancellers := sys.cancellers[w := c])
  }

  function CancelStep(sys: System, step: Step): System
    requires OfCanceller(step)
  {
    var w := step.worker;
    if step.Ask? then
      if w in sys.cancellers then sys else WithCanceller(sys, w, Canceller(step.order, Checking))
    else if w !in sys.cancellers then sys
    else
      var id, pc := sys.cancellers[w].order, sys.cancellers[w].pc;
      if step.Check? then
        if !pc.Checking? then sys
        else
          var admitted := id in sys.db.orders && Cancellable(sys.db.orders[id].status);
          WithCanceller(sys, w, Canceller(id, if admitted then Cancelling else Over(false)))
      else
        if !pc.Cancelling? then sys
        else if !CancelCommits(sys.db, id) then WithCanceller(sys, w, Canceller(id, Over(false)))
        else WithCanceller(sys.(db := Requested(sys.db, id)), w, Canceller(id, Over(true)))
  }

  function Next(sys: System, step: Step): System {
    if OfCanceller(step) then CancelStep(sys, step) else DeliveryStep(sys, step)
  }

  function DeliveryStep(sys: System, step: Step): System
    requires !OfCanceller(step)
  {
    var w := step.worker;
    if step.Begin? then
      if w in sys.workers then sys else sys.(workers := sys.workers[w := Worker(step.event, Looking)])
    else if w !in sys.workers then sys
    else
      var e, pc := sys.workers[w].event, sys.workers[w].pc;
      match step
      case Look(_) =>
        if !pc.Looking? then sys
        else At(sys, w, if FindEvent(sys.db.events, IdentityOf(e)).Some? then Done(false) else Loading)
      case LoadOrder(_) =>
        if !pc.Loading? then sys
        else
          var loaded := Load(sys.db, e.orderId);
          At(sys, w, if loaded.None? then Done(false) else Saving(loaded.value))
      case Save(_) =>
        if !pc.Saving? then sys
        else if !Commits(sys.db, e, pc.copy) then At(sys, w, Done(false))
        else At(sys.(db := Saved(sys.db, e, ApplyEvent(pc.copy, e).value)), w, Done(true))
      case _ => sys
  }

  /** The step saves an event of the order. */
  predicate SavesFor(sys: System, step: Step, id: OrderId) {
    && step.Save? && step.worker in sys.workers && sys.workers[step.worker].event.orderId == id
    && sys.workers[step.worker].pc.Saving? && Commits(sys.db, sys.workers[step.worker].event, sys.workers[step.worker].pc.copy)
  }

  /** The step writes a cancel request of the order. */
  predicate CancelsFor(sys: System, step: Step, id: OrderId) {
    && step.Cancel? && step.worker in sys.cancellers && sys.cancellers[step.worker].order == id
    && sys.cancellers[step.worker].pc.Cancelling? && CancelCommits(sys.db, id)
  }

  function Run(sys: System, steps: seq<Step>): System
    decreases |steps|
  {
    if |steps| == 0 then sys else Next(Run(sys, steps[..|steps| - 1]), steps[|steps| - 1])
  }

  // --------------------------------------------------------------- invariant

  /** A copy shows the order the event is for, with a whole number of filled shares. */
  ghost predicate WorkerOk(sys: System, w: WorkerId) {
    w in sys.workers ==>
      && ValidEvent(sys.workers[w].event)
      && (sys.workers[w].pc.Saving? ==> WholeQuantity(sys.workers[w].pc.copy.filled))
  }

  ghost predicate Invariant(sys: System) {
    DistinctIdentities(sys.db.events) && forall w :: WorkerOk(sys, w)
  }

  predicate ValidStep(step: Step) {
    step.Begin? ==> ValidEvent(step.event)
  }

  predicate ValidSteps(steps: seq<Step>) {
    forall i :: 0 <= i < |steps| ==> ValidStep(steps[i])
  }

  lemma StepKeeps(sys: System, step: Step)
    requires Invariant(sys) && ValidStep(step)
    ensures Invariant(Next(sys, step))
  {
    var w, after := step.worker, Next(sys, step);
    forall v ensures WorkerOk(after, v) { assert WorkerOk(sys, v); }
    if step.Save? && w in sys.workers && sys.workers[w].pc.Saving? && Commits(sys.db, sys.workers[w].event, sys.workers[w].pc.copy) {
      var e := sys.workers[w].event;
      DistinctAppend(sys.db.events, EventRow(IdentityOf(e), ContentOf(e), e.orderId));
    } else if step.Cancel? && w in sys.cancellers && CancelsFor(sys, step, sys.cancellers[w].order) {
      DistinctAppend(sys.db.events, EventRow(CancelKey(sys.cancellers[w].order), CANCEL_CONTENT, sys.cancellers[w].order));
    }
  }

  /** In every interleaving, an identity is stored at most once. */
  lemma {:induction false} IdentitiesStayUnique(sys: System, steps: seq<Step>)
    requires Invariant(sys) && ValidSteps(steps)
    ensures Invariant(Run(sys, steps))
    decreases |steps|
  {
    if |steps| > 0 {
      var n := |steps| - 1;
      IdentitiesStayUnique(sys, steps[..n]);
      StepKeeps(Run(sys, steps[..n]), steps[n]);
    }
  }

  /** In every interleaving, no two stored orders have the same broker order id. */
  lemma {:induction false} BrokerIdsStayUnique(sys: System, steps: seq<Step>)
    requires UniqueBrokerIds(sys.db)
    ensures UniqueBrokerIds(Run(sys, steps).db)
    decreases |steps|
  {
    if |steps| > 0 {
      var n := |steps| - 1;
      BrokerIdsStayUnique(sys, steps[..n]);
      StepKeepsBrokerIds(Run(sys, steps[..n]), steps[n]);
    }
  }

  lemma StepKeepsBrokerIds(sys: System, step: Step)
    requires UniqueBrokerIds(sys.db)
    ensures UniqueBrokerIds(Next(sys, step).db)
  {
    var w := step.worker;
    if step.Save? && w in sys.workers && SavesFor(sys, step, sys.workers[w].event.orderId) {
      SaveKeepsBrokerIds(sys.db, sys.workers[w].event, ApplyEvent(sys.workers[w].pc.copy, sys.workers[w].event).value);
    } else if step.Cancel? && w in sys.cancellers && CancelsFor(sys, step, sys.cancellers[w].order) {
      forall a, b ensures BrokerIdsDiffer(Requested(sys.db, sys.cancellers[w].order), a, b) { assert BrokerIdsDiffer(sys.db, a, b); }
    }
  }

  // --------------------------------------------------------------- accounting

  /** Whole shares that the stored events of an order filled. */
  function StoredFills(events: seq<EventRow>, id: OrderId): int
    decreases |events|
  {
    if |events| == 0 then 0
    else
      var last := events[|events| - 1];
      StoredFills(events[..|events| - 1], id) + (if last.orderId == id then last.content.fillQuantity.Floor else 0)
  }

  function FilledOf(db: Db, id: OrderId): int {
    if id in db.orders then db.orders[id].filled else 0
  }

  /** How far the copy that a save works from has fallen behind the stored quantity. */
  function Drift(sys: System, step: Step, id: OrderId): int {
    if SavesFor(sys, step, id) then FilledOf(sys.db, id) - Whole(sys.workers[step.worker].pc.copy.filled) else 0
  }

  lemma StepAccounts(sys: System, step: Step, id: OrderId)
    requires Invariant(sys) && ValidStep(step)
    ensures var after := Next(sys, step);
            FilledOf(after.db, id) - FilledOf(sys.db, id)
            == StoredFills(after.db.events, id) - StoredFills(sys.db.events, id) - Drift(sys, step, id)
  {
    var w := step.worker;
    if step.Save? && w in sys.workers && sys.workers[w].pc.Saving? && Commits(sys.db, sys.workers[w].event, sys.workers[w].pc.copy) {
      assert WorkerOk(sys, w);
      SaveAccounts(sys.db, sys.workers[w].event, sys.workers[w].pc.copy, id);
    } else if step.Cancel? && w in sys.cancellers && CancelsFor(sys, step, sys.cancellers[w].order) {
      CancelAccounts(sys.db, sys.cancellers[w].order, id);
    }
  }

  /** A cancel request moves no shares. */
  lemma CancelAccounts(db: Db, cancelled: OrderId, id: OrderId)
    requires CancelCommits(db, cancelled)
    ensures var after := Requested(db, cancelled);
            StoredFills(after.events, id) == StoredFills(db.events, id) && FilledOf(after, id) == FilledOf(db, id)
  {
    var row := EventRow(CancelKey(cancelled), CANCEL_CONTENT, cancelled);
    assert (db.events + [row])[..|db.events|] == db.events;
  }

  lemma SaveAccounts(db: Db, e: Event, copy: Execution, id: OrderId)
    requires Commits(db, e, copy) && ValidEvent(e) && WholeQuantity(copy.filled)
    ensures var after := Saved(db, e, ApplyEvent(copy, e).value);
            && StoredFills(after.events, id) == StoredFills(db.events, id) + (if e.orderId == id then Whole(e.fillQuantity) else 0)
            && FilledOf(after, id) == if e.orderId == id then Whole(copy.filled) + Whole(e.fillQuantity) else FilledOf(db, id)
  {
    var row := EventRow(IdentityOf(e), ContentOf(e), e.orderId);
    assert (db.events + [row])[..|db.events|] == db.events;
    WholeAdds(Whole(copy.filled), e.fillQuantity);
  }

  function TotalDrift(sys: System, steps: seq<Step>, id: OrderId): int
    decreases |steps|
  {
    if |steps| == 0 then 0
    else TotalDrift(sys, steps[..|steps| - 1], id) + Drift(Run(sys, steps[..|steps| - 1]), steps[|steps| - 1], id)
  }

  /** In every interleaving, the stored quantity is the stored fills less what stale copies wrote over. */
  lemma {:induction false} FillsAreAccountedFor(sys: System, steps: seq<Step>, id: OrderId)
    requires Invariant(sys) && ValidSteps(steps)
    ensures var end := Run(sys, steps).db;
            FilledOf(end, id) - FilledOf(sys.db, id)
            == StoredFills(end.events, id) - StoredFills(sys.db.events, id) - TotalDrift(sys, steps, id)
    decreases |steps|
  {
    if |steps| > 0 {
      var n := |steps| - 1;
      FillsAreAccountedFor(sys, steps[..n], id);
      IdentitiesStayUnique(sys, steps[..n]);
      StepAccounts(Run(sys, steps[..n]), steps[n], id);
    }
  }

  /** After the first `k` steps the stored quantity is exactly the sum of the stored fills. */
  ghost predicate ExactAt(sys: System, steps: seq<Step>, id: OrderId, k: int) {
    0 <= k <= |steps| ==>
      var db := Run(sys, steps[..k]).db;
      FilledOf(db, id) - FilledOf(sys.db, id) == StoredFills(db.events, id) - StoredFills(sys.db.events, id)
  }

  /** Step `k` saves from a copy whose filled quantity is no longer the stored one. */
  ghost predicate StaleAt(sys: System, steps: seq<Step>, id: OrderId, k: int) {
    0 <= k < |steps| && Drift(Run(sys, steps[..k]), steps[k], id) != 0
  }

  lemma DriftStep(sys: System, steps: seq<Step>, id: OrderId, k: nat)
    requires k < |steps|
    ensures TotalDrift(sys, steps[..k + 1], id) == TotalDrift(sys, steps[..k], id) + Drift(Run(sys, steps[..k]), steps[k], id)
  {
    var longer := steps[..k + 1];
    assert longer[..k] == steps[..k] && longer[k] == steps[k];
  }

  lemma ExactMeansNoDrift(sys: System, steps: seq<Step>, id: OrderId, k: nat)
    requires Invariant(sys) && ValidSteps(steps) && k <= |steps|
    ensures ExactAt(sys, steps, id, k) <==> TotalDrift(sys, steps[..k], id) == 0
  {
    FillsAreAccountedFor(sys, steps[..k], id);
  }

  lemma {:induction false} NoStaleNoDrift(sys: System, steps: seq<Step>, id: OrderId, k: nat)
    requires k <= |steps| && forall i :: !StaleAt(sys, steps, id, i)
    ensures TotalDrift(sys, steps[..k], id) == 0
  {
    if k > 0 {
      NoStaleNoDrift(sys, steps, id, k - 1);
      DriftStep(sys, steps, id, k - 1);
      assert !StaleAt(sys, steps, id, k - 1);
    } else {
      assert steps[..0] == [];
    }
  }

  lemma ExactMeansNoneStale(sys: System, steps: seq<Step>, id: OrderId)
    requires Invariant(sys) && ValidSteps(steps)
    ensures (forall k :: ExactAt(sys, steps, id, k)) <==> (forall k :: !StaleAt(sys, steps, id, k))
  {
    if forall k :: !StaleAt(sys, steps, id, k) {
      forall k ensures ExactAt(sys, steps, id, k) {
        if 0 <= k <= |steps| {
          NoStaleNoDrift(sys, steps, id, k);
          ExactMeansNoDrift(sys, steps, id, k);
        }
      }
    } else {
      var k :| StaleAt(sys, steps, id, k);
      DriftStep(sys, steps, id, k);
      ExactMeansNoDrift(sys, steps, id, k);
      ExactMeansNoDrift(sys, steps, id, k + 1);
      assert !ExactAt(sys, steps, id, k) || !ExactAt(sys, steps, id, k + 1);
    }
  }

  // ----------------------------------------------------------- on the schedule

  /** The system before step `k`. */
  function Before(sys: System, steps: seq<Step>, k: nat): System
    requires k <= |steps|
  {
    Run(sys, steps[..k])
  }

  lemma BeforeStart(sys: System, steps: seq<Step>)
    ensures Before(sys, steps, 0) == sys
  {
    assert steps[..0] == [];
  }

  lemma BeforeNext(sys: System, steps: seq<Step>, k: nat)
    requires k < |steps|
    ensures Before(sys, steps, k + 1) == Next(Before(sys, steps, k), steps[k])
  {
    var longer := steps[..k + 1];
    assert longer[..k] == steps[..k] && longer[k] == steps[k];
  }

  /** Step `i` is the one at which `w` loads its copy. */
  ghost predicate LoadsAt(sys: System, steps: seq<Step>, i: int, w: WorkerId) {
    && 0 <= i < |steps| && steps[i] == LoadOrder(w)
    && w in Before(sys, steps, i).workers && Before(sys, steps, i).workers[w].pc.Loading?
  }

  /** Step `k` commits a save for the order. */
  ghost predicate SavesAt(sys: System, steps: seq<Step>, k: int, id: OrderId) {
    0 <= k < |steps| && SavesFor(Before(sys, steps, k), steps[k], id)
  }

  /** Whole shares that the save at step `k` fills. */
  ghost function FillAt(sys: System, steps: seq<Step>, k: int, id: OrderId): nat {
    if SavesAt(sys, steps, k, id) then Whole(Before(sys, steps, k).workers[steps[k].worker].event.fillQuantity) else 0
  }

  /** Between the load at `i` and the save at `j` of one call, another save of the order commits at `k`. */
  ghost predicate Overtakes(sys: System, steps: seq<Step>, id: OrderId, i: int, k: int, j: int) {
    i < k < j && SavesAt(sys, steps, j, id) && LoadsAt(sys, steps, i, steps[j].worker) && SavesAt(sys, steps, k, id)
  }

  /** A worker that is about to save holds the order as it was at its load. */
  lemma {:induction false} CopyWasLoaded(sys: System, steps: seq<Step>, n: nat, w: WorkerId) returns (i: nat)
    requires n <= |steps| && w !in sys.workers
    requires w in Before(sys, steps, n).workers && Before(sys, steps, n).workers[w].pc.Saving?
    ensures i < n && LoadsAt(sys, steps, i, w)
    ensures Load(Before(sys, steps, i).db, Before(sys, steps, n).workers[w].event.orderId)
            == Some(Before(sys, steps, n).workers[w].pc.copy)
    decreases n
  {
    assert n > 0 by { BeforeStart(sys, steps); }
    BeforeNext(sys, steps, n - 1);
    var before := Before(sys, steps, n - 1);
    if w in before.workers && before.workers[w].pc.Saving? {
      i := CopyWasLoaded(sys, steps, n - 1, w);
    } else {
      i := n - 1;
    }
  }

  /** Whole shares saved for the order from step `i` up to but not including step `j`. */
  ghost function FillsBetween(sys: System, steps: seq<Step>, id: OrderId, i: nat, j: nat): nat
    requires i <= j <= |steps|
    decreases j
  {
    if i == j then 0 else FillsBetween(sys, steps, id, i, j - 1) + FillAt(sys, steps, j - 1, id)
  }

  lemma {:induction false} SomeFillBetween(sys: System, steps: seq<Step>, id: OrderId, i: nat, j: nat) returns (k: nat)
    requires i <= j <= |steps| && FillsBetween(sys, steps, id, i, j) > 0
    ensures i <= k < j && FillAt(sys, steps, k, id) > 0
    decreases j
  {
    if FillAt(sys, steps, j - 1, id) > 0 { k := j - 1; } else { k := SomeFillBetween(sys, steps, id, i, j - 1); }
  }

  lemma {:induction false} FillCounts(sys: System, steps: seq<Step>, id: OrderId, i: nat, k: nat, j: nat)
    requires i <= k < j <= |steps|
    ensures FillsBetween(sys, steps, id, i, j) >= FillAt(sys, steps, k, id)
    decreases j
  {
    if k < j - 1 { FillCounts(sys, steps, id, i, k, j - 1); }
  }

  /** Without drift the stored quantity moves by exactly the fills saved. */
  lemma {:induction false} FilledMoves(sys: System, steps: seq<Step>, id: OrderId, i: nat, j: nat)
    requires Invariant(sys) && ValidSteps(steps) && i <= j <= |steps|
    requires forall k :: i <= k < j ==> !StaleAt(sys, steps, id, k)
    ensures FilledOf(Before(sys, steps, j).db, id) == FilledOf(Before(sys, steps, i).db, id) + FillsBetween(sys, steps, id, i, j)
    decreases j
  {
    if i < j {
      FilledMoves(sys, steps, id, i, j - 1);
      assert !StaleAt(sys, steps, id, j - 1);
      FilledStep(sys, steps, id, j - 1);
    }
  }

  lemma FilledStep(sys: System, steps: seq<Step>, id: OrderId, k: nat)
    requires Invariant(sys) && ValidSteps(steps) && k < |steps| && !StaleAt(sys, steps, id, k)
    ensures FilledOf(Before(sys, steps, k + 1).db, id) == FilledOf(Before(sys, steps, k).db, id) + FillAt(sys, steps, k, id)
  {
    var before, step := Before(sys, steps, k), steps[k];
    BeforeNext(sys, steps, k);
    IdentitiesStayUnique(sys, steps[..k]);
    SaveMovesFilled(before, step, id);
  }

  lemma SaveMovesFilled(sys: System, step: Step, id: OrderId)
    requires Invariant(sys) && ValidStep(step) && Drift(sys, step, id) == 0
    ensures FilledOf(Next(sys, step).db, id)
            == FilledOf(sys.db, id) + if SavesFor(sys, step, id) then sys.workers[step.worker].event.fillQuantity.Floor else 0
  {
    var w := step.worker;
    if step.Save? && w in sys.workers && sys.workers[w].pc.Saving? && Commits(sys.db, sys.workers[w].event, sys.workers[w].pc.copy) {
      assert WorkerOk(sys, w);
      SaveAccounts(sys.db, sys.workers[w].event, sys.workers[w].pc.copy, id);
    }
  }

  /** Before the first stale save, a save is as stale as the fills that overtook it. */
  lemma DriftIsFillsBetween(sys: System, steps: seq<Step>, id: OrderId, i: nat, j: nat)
    requires Invariant(sys) && ValidSteps(steps) && SavesAt(sys, steps, j, id) && i < j
    requires forall k :: 0 <= k < j ==> !StaleAt(sys, steps, id, k)
    requires Load(Before(sys, steps, i).db, id) == Some(Before(sys, steps, j).workers[steps[j].worker].pc.copy)
    ensures Drift(Before(sys, steps, j), steps[j], id) == FillsBetween(sys, steps, id, i, j)
  {
    FilledMoves(sys, steps, id, i, j);
  }

  ghost predicate OvertakenByFill(sys: System, steps: seq<Step>, id: OrderId, i: int, k: int, j: int) {
    Overtakes(sys, steps, id, i, k, j) && FillAt(sys, steps, k, id) > 0
  }

  lemma {:induction false} LoadsOnce(sys: System, steps: seq<Step>, w: WorkerId, i: int, j: int)
    requires LoadsAt(sys, steps, i, w) && LoadsAt(sys, steps, j, w)
    ensures i == j
  {
    if i < j { LoadedStays(sys, steps, w, i, j); } else if j < i { LoadedStays(sys, steps, w, j, i); }
  }

  /** Once it has loaded, a worker never comes back to loading. */
  lemma {:induction false} LoadedStays(sys: System, steps: seq<Step>, w: WorkerId, i: nat, j: nat)
    requires LoadsAt(sys, steps, i, w) && i < j <= |steps|
    ensures w in Before(sys, steps, j).workers
    ensures Before(sys, steps, j).workers[w].pc.Saving? || Before(sys, steps, j).workers[w].pc.Done?
    decreases j
  {
    if i < j - 1 { LoadedStays(sys, steps, w, i, j - 1); }
    BeforeNext(sys, steps, j - 1);
  }

  lemma NoneStaleMeansNoneOvertaken(sys: System, steps: seq<Step>, id: OrderId, i: nat, k: nat, j: nat)
    requires Invariant(sys) && ValidSteps(steps) && sys.workers == map[]
    requires OvertakenByFill(sys, steps, id, i, k, j)
    ensures exists m :: StaleAt(sys, steps, id, m)
  {
    if forall m :: 0 <= m < j ==> !StaleAt(sys, steps, id, m) {
      var load := CopyWasLoaded(sys, steps, j, steps[j].worker);
      LoadsOnce(sys, steps, steps[j].worker, i, load);
      DriftIsFillsBetween(sys, steps, id, i, j);
      FillCounts(sys, steps, id, i, k, j);
      assert StaleAt(sys, steps, id, j);
    }
  }

  lemma FillOvertakes(sys: System, steps: seq<Step>, id: OrderId, i: nat, j: nat)
    requires SavesAt(sys, steps, j, id) && i < j && LoadsAt(sys, steps, i, steps[j].worker) && FillsBetween(sys, steps, id, i, j) > 0
    ensures exists k :: OvertakenByFill(sys, steps, id, i, k, j)
  {
    var k := SomeFillBetween(sys, steps, id, i, j);
    assert OvertakenByFill(sys, steps, id, i, k, j);
  }

  lemma {:induction false} NoneOvertakenMeansNoneStale(sys: System, steps: seq<Step>, id: OrderId, j: int)
    requires Invariant(sys) && ValidSteps(steps) && sys.workers == map[]
    requires forall i, k, m :: !OvertakenByFill(sys, steps, id, i, k, m)
    ensures !StaleAt(sys, steps, id, j)
    decreases j
  {
    if 0 <= j < |steps| && SavesAt(sys, steps, j, id) {
      forall m | 0 <= m < j ensures !StaleAt(sys, steps, id, m) { NoneOvertakenMeansNoneStale(sys, steps, id, m); }
      var i := CopyWasLoaded(sys, steps, j, steps[j].worker);
      DriftIsFillsBetween(sys, steps, id, i, j);
      if FillsBetween(sys, steps, id, i, j) > 0 { FillOvertakes(sys, steps, id, i, j); }
    }
  }

  /**
   The stored quantity stays exact throughout a run if and only if no save is overtaken by a fill:
   no fill of the same order commits between the load and the save of one call.
   */
  lemma ExactExactlyWhenNotOvertaken(sys: System, steps: seq<Step>, id: OrderId)
    requires Invariant(sys) && ValidSteps(steps) && sys.workers == map[]
    ensures (forall k :: ExactAt(sys, steps, id, k)) <==> (forall i, k, j :: !OvertakenByFill(sys, steps, id, i, k, j))
  {
    ExactMeansNoneStale(sys, steps, id);
    if i, k, j :| OvertakenByFill(sys, steps, id, i, k, j) {
      NoneStaleMeansNoneOvertaken(sys, steps, id, i, k, j);
    } else {
      forall m ensures !StaleAt(sys, steps, id, m) { NoneOvertakenMeansNoneStale(sys, steps, id, m); }
    }
  }

  // --------------------------------------------------------------- one by one

  /** A call that wrote: the delivery of an event, or a request to cancel an order. */
  datatype Call = Delivery(event: Event) | Request(order: OrderId)

  function OrderOf(call: Call): OrderId {
    if call.Delivery? then call.event.orderId else call.order
  }

  /** The call with nobody else in between. */
  function Alone(db: Db, call: Call): Db {
    if call.Delivery? then Deliver(db, call.event).0 else RequestCancel(db, call.order)
  }

  function OneByOne(db: Db, calls: seq<Call>): Db
    decreases |calls|
  {
    if |calls| == 0 then db else Alone(OneByOne(db, calls[..|calls| - 1]), calls[|calls| - 1])
  }

  function CallBy(sys: System, step: Step): Option<Call> {
    if step.Save? && step.worker in sys.workers then Some(Delivery(sys.workers[step.worker].event))
    else if step.Cancel? && step.worker in sys.cancellers then Some(Request(sys.cancellers[step.worker].order))
    else None
  }

  /** The step writes the order. */
  predicate WritesFor(sys: System, step: Step, id: OrderId) {
    SavesFor(sys, step, id) || CancelsFor(sys, step, id)
  }

  /** The step is the write of its call. */
  predicate Writes(sys: System, step: Step) {
    CallBy(sys, step).Some? && WritesFor(sys, step, OrderOf(CallBy(sys, step).value))
  }

  /** The calls that wrote in a run, in the order of their writes. */
  ghost function Landed(sys: System, steps: seq<Step>, n: nat): seq<Call>
    requires n <= |steps|
  {
    if n == 0 then []
    else
      var before, step := Before(sys, steps, n - 1), steps[n - 1];
      Landed(sys, steps, n - 1) + (if Writes(before, step) then [CallBy(before, step).value] else [])
  }

  /** Step `i` is the one at which `w` checks the status. */
  ghost predicate ChecksAt(sys: System, steps: seq<Step>, i: int, w: WorkerId) {
    && 0 <= i < |steps| && steps[i] == Check(w)
    && w in Before(sys, steps, i).cancellers && Before(sys, steps, i).cancellers[w].pc.Checking?
  }

  /** At step `i` the call of `step` reads the order. */
  ghost predicate ReadsAt(sys: System, steps: seq<Step>, i: int, step: Step) {
    if step.Save? then LoadsAt(sys, steps, i, step.worker) else ChecksAt(sys, steps, i, step.worker)
  }

  ghost predicate WritesAt(sys: System, steps: seq<Step>, k: int, id: OrderId) {
    0 <= k < |steps| && WritesFor(Before(sys, steps, k), steps[k], id)
  }

  /** Between the read at `i` and the write at `j` of one call, another write of the order lands at `k`. */
  ghost predicate Disturbs(sys: System, steps: seq<Step>, id: OrderId, i: int, k: int, j: int) {
    i < k < j && WritesAt(sys, steps, j, id) && ReadsAt(sys, steps, i, steps[j]) && WritesAt(sys, steps, k, id)
  }

  /** A canceller that is about to write has found an order that can be cancelled. */
  lemma {:induction false} StatusWasChecked(sys: System, steps: seq<Step>, n: nat, w: WorkerId) returns (i: nat)
    requires n <= |steps| && w !in sys.cancellers
    requires w in Before(sys, steps, n).cancellers && Before(sys, steps, n).cancellers[w].pc.Cancelling?
    ensures i < n && ChecksAt(sys, steps, i, w)
    ensures var id, db := Before(sys, steps, n).cancellers[w].order, Before(sys, steps, i).db;
            id in db.orders && Cancellable(db.orders[id].status)
    decreases n
  {
    assert n > 0 by { BeforeStart(sys, steps); }
    BeforeNext(sys, steps, n - 1);
    var before := Before(sys, steps, n - 1);
    if w in before.cancellers && before.cancellers[w].pc.Cancelling? {
      i := StatusWasChecked(sys, steps, n - 1, w);
    } else {
      i := n - 1;
    }
  }

  lemma {:induction false} RowStays(sys: System, steps: seq<Step>, id: OrderId, i: nat, j: nat)
    requires i <= j <= |steps| && forall k :: i <= k < j ==> !WritesAt(sys, steps, k, id)
    ensures Load(Before(sys, steps, j).db, id) == Load(Before(sys, steps, i).db, id)
    decreases j
  {
    if i < j {
      RowStays(sys, steps, id, i, j - 1);
      BeforeNext(sys, steps, j - 1);
      assert !WritesAt(sys, steps, j - 1, id);
    }
  }

  /** What the call of the step has read is still so. */
  ghost predicate Fresh(sys: System, step: Step)
    requires Writes(sys, step)
  {
    if step.Save? then Load(sys.db, sys.workers[step.worker].event.orderId) == Some(sys.workers[step.worker].pc.copy)
    else Cancellable(sys.db.orders[sys.cancellers[step.worker].order].status)
  }

  lemma UndisturbedWriteIsFresh(sys: System, steps: seq<Step>, j: nat)
    requires sys.workers == map[] && sys.cancellers == map[] && j < |steps|
    requires forall id, i, k, m :: !Disturbs(sys, steps, id, i, k, m)
    requires Writes(Before(sys, steps, j), steps[j])
    ensures Fresh(Before(sys, steps, j), steps[j])
  {
    var w, before := steps[j].worker, Before(sys, steps, j);
    var id := OrderOf(CallBy(before, steps[j]).value);
    var i;
    if steps[j].Save? { i := CopyWasLoaded(sys, steps, j, w); } else { i := StatusWasChecked(sys, steps, j, w); }
    forall k | i <= k < j ensures !WritesAt(sys, steps, k, id) { assert !Disturbs(sys, steps, id, i, k, j); }
    RowStays(sys, steps, id, i, j);
  }

  /** A write from what is still so is its call made alone. */
  lemma FreshWriteIsCall(sys: System, step: Step)
    requires Writes(sys, step) && Fresh(sys, step)
    ensures Next(sys, step).db == Alone(sys.db, CallBy(sys, step).value)
  {}

  lemma OtherStepsKeepTheStore(sys: System, step: Step)
    requires !Writes(sys, step)
    ensures Next(sys, step).db == sys.db
  {}

  lemma OneByOneAppend(db: Db, calls: seq<Call>, call: Call)
    ensures OneByOne(db, calls + [call]) == Alone(OneByOne(db, calls), call)
  {
    assert (calls + [call])[..|calls|] == calls;
  }

  /**
   If no write of the same order lands between the read and the write of any call, the store is the
   one that making the calls one by one gives, in the order of their writes.
   */
  lemma {:induction false} UndisturbedRunsAreSerial(sys: System, steps: seq<Step>, n: nat)
    requires sys.workers == map[] && sys.cancellers == map[] && n <= |steps|
    requires forall id, i, k, j :: !Disturbs(sys, steps, id, i, k, j)
    ensures Before(sys, steps, n).db == OneByOne(sys.db, Landed(sys, steps, n))
    decreases n
  {
    if n == 0 {
      BeforeStart(sys, steps);
    } else {
      UndisturbedRunsAreSerial(sys, steps, n - 1);
      BeforeNext(sys, steps, n - 1);
      var before, step, calls := Before(sys, steps, n - 1), steps[n - 1], Landed(sys, steps, n - 1);
      if Writes(before, step) {
        UndisturbedWriteIsFresh(sys, steps, n - 1);
        FreshWriteIsCall(before, step);
        OneByOneAppend(sys.db, calls, CallBy(before, step).value);
      } else {
        OtherStepsKeepTheStore(before, step);
        assert Landed(sys, steps, n) == calls;
      }
    }
  }

  /** Deliveries alone, one by one, are a delivery sequence. */
  lemma {:induction false} DeliveriesOneByOne(db: Db, calls: seq<Call>, events: seq<Event>)
    requires |calls| == |events| && forall i :: 0 <= i < |calls| ==> calls[i] == Delivery(events[i])
    ensures OneByOne(db, calls) == DeliverAll(db, events)
    decreases |calls|
  {
    if |calls| > 0 {
      var n := |calls| - 1;
      DeliveriesOneByOne(db, calls[..n], events[..n]);
    }
  }

  // ------------------------------------------------------------ overtaken fills

  lemma RunTwo(sys: System, a: Step, b: Step)
    ensures Run(sys, [a, b]) == Next(Next(sys, a), b)
  {
    assert [a, b][..1] == [a] && [a][..0] == [];
    assert Run(sys, [a]) == Next(sys, a);
  }

  lemma {:induction false} RunConcat(sys: System, a: seq<Step>, b: seq<Step>)
    ensures Run(sys, a + b) == Run(Run(sys, a), b)
    decreases |b|
  {
    if |b| == 0 {
      assert a + b == a;
    } else {
      var n := |b| - 1;
      RunConcat(sys, a, b[..n]);
      assert (a + b)[..|a + b| - 1] == a + b[..n];
    }
  }

  /** Two workers, alone with the store. */
  function Both(db: Db, a: Event, p: Pc, b: Event, q: Pc): System {
    System(db, map[1 := Worker(a, p), 2 := Worker(b, q)], map[])
  }

  /** A new fill event that the order admits as it is stored. */
  predicate Arrives(db: Db, e: Event, id: OrderId) {
    && e.orderId == id && IsFill(e.kind) && e.brokerOrderId == None && e.fillQuantity > 0.0
    && id in db.orders && db.orders[id].status in {BrokerAcknowledged, PartiallyFilled} && db.orders[id].brokerOrderId == None
    && (var filled := db.orders[id].filled as real + e.fillQuantity;
        if e.kind == FullFill then filled == db.orders[id].quantity as real else filled < db.orders[id].quantity as real)
    && FindEvent(db.events, IdentityOf(e)).None?
  }

  const START := [Look(1), Look(2)] + [LoadOrder(1), LoadOrder(2)]

  lemma BothLook(db: Db, a: Event, b: Event, id: OrderId)
    requires Arrives(db, a, id) && Arrives(db, b, id)
    ensures Run(Both(db, a, Looking, b, Looking), [Look(1), Look(2)]) == Both(db, a, Loading, b, Loading)
  {
    var start := Both(db, a, Looking, b, Looking);
    RunTwo(start, Look(1), Look(2));
    assert Next(start, Look(1)) == Both(db, a, Loading, b, Looking);
  }

  lemma BothTake(db: Db, a: Event, b: Event, id: OrderId)
    requires Arrives(db, a, id) && Arrives(db, b, id)
    ensures Run(Both(db, a, Loading, b, Loading), [LoadOrder(1), LoadOrder(2)])
            == Both(db, a, Saving(Load(db, id).value), b, Saving(Load(db, id).value))
  {
    var start, copy := Both(db, a, Loading, b, Loading), Load(db, id).value;
    RunTwo(start, LoadOrder(1), LoadOrder(2));
    assert Next(start, LoadOrder(1)) == Both(db, a, Saving(copy), b, Loading);
  }

  lemma BothLoad(db: Db, a: Event, b: Event, id: OrderId)
    requires Arrives(db, a, id) && Arrives(db, b, id)
    ensures Run(Both(db, a, Looking, b, Looking), START)
            == Both(db, a, Saving(Load(db, id).value), b, Saving(Load(db, id).value))
  {
    BothLook(db, a, b, id);
    BothTake(db, a, b, id);
    RunConcat(Both(db, a, Looking, b, Looking), [Look(1), Look(2)], [LoadOrder(1), LoadOrder(2)]);
  }

  lemma FirstSaves(db: Db, a: Event, copy: Execution, b: Event, id: OrderId)
    requires Arrives(db, a, id) && copy == Load(db, id).value
    ensures var saved := Saved(db, a, ApplyEvent(copy, a).value);
            && Commits(db, a, copy)
            && Next(Both(db, a, Saving(copy), b, Saving(copy)), Save(1)) == Both(saved, a, Done(true), b, Saving(copy))
  {}

  lemma SecondSaves(db: Db, a: Event, copy: Execution, b: Event, id: OrderId)
    requires Arrives(db, a, id) && Arrives(db, b, id) && IdentityOf(a) != IdentityOf(b) && copy == Load(db, id).value
    ensures var saved := Saved(db, a, ApplyEvent(copy, a).value);
            && Commits(saved, b, copy)
            && Next(Both(saved, a, Done(true), b, Saving(copy)), Save(2))
               == Both(Saved(saved, b, ApplyEvent(copy, b).value), a, Done(true), b, Done(true))
  {
    FindAppended(db.events, EventRow(IdentityOf(a), ContentOf(a), id), IdentityOf(b));
  }

  /** The store after both have saved from the same copy. */
  function BothSaved(db: Db, a: Event, b: Event, id: OrderId): Db
    requires Arrives(db, a, id) && Arrives(db, b, id)
  {
    var copy := Load(db, id).value;
    Saved(Saved(db, a, ApplyEvent(copy, a).value), b, ApplyEvent(copy, b).value)
  }

  lemma BothSave(db: Db, a: Event, b: Event, id: OrderId)
    requires Arrives(db, a, id) && Arrives(db, b, id) && IdentityOf(a) != IdentityOf(b)
    ensures Run(Both(db, a, Looking, b, Looking), START + [Save(1), Save(2)])
            == Both(BothSaved(db, a, b, id), a, Done(true), b, Done(true))
  {
    var copy := Load(db, id).value;
    BothLoad(db, a, b, id);
    RunConcat(Both(db, a, Looking, b, Looking), START, [Save(1), Save(2)]);
    RunTwo(Both(db, a, Saving(copy), b, Saving(copy)), Save(1), Save(2));
    FirstSaves(db, a, copy, b, id);
    SecondSaves(db, a, copy, b, id);
  }

  lemma SecondSaveWins(db: Db, a: Event, b: Event, id: OrderId)
    requires Arrives(db, a, id) && Arrives(db, b, id) && IdentityOf(a) != IdentityOf(b)
    ensures var end := BothSaved(db, a, b, id);
            && FilledOf(end, id) == FilledOf(db, id) + Whole(b.fillQuantity)
            && StoredFills(end.events, id) == StoredFills(db.events, id) + Whole(a.fillQuantity) + Whole(b.fillQuantity)
  {
    var copy := Load(db, id).value;
    FirstSaves(db, a, copy, b, id);
    SecondSaves(db, a, copy, b, id);
    assert WholeQuantity(copy.filled);
    SaveAccounts(db, a, copy, id);
    SaveAccounts(Saved(db, a, ApplyEvent(copy, a).value), b, copy, id);
  }

  lemma SecondStatusWins(db: Db, a: Event, b: Event, id: OrderId)
    requires Arrives(db, a, id) && Arrives(db, b, id)
    ensures var end := BothSaved(db, a, b, id);
            id in end.orders && end.orders[id].status == Target(b.kind) && end.orders[id].quantity == db.orders[id].quantity
  {}

  /** Two overlapping fills are both stored, and status and quantity show only the second. */
  lemma OverlappingFillsLoseOne(db: Db, a: Event, b: Event, id: OrderId)
    requires Arrives(db, a, id) && Arrives(db, b, id) && IdentityOf(a) != IdentityOf(b)
    ensures var end := Run(Both(db, a, Looking, b, Looking), START + [Save(1), Save(2)]);
            && end == Both(end.db, a, Done(true), b, Done(true))
            && id in end.db.orders && end.db.orders[id].status == Target(b.kind) && end.db.orders[id].quantity == db.orders[id].quantity
            && FilledOf(end.db, id) == FilledOf(db, id) + Whole(b.fillQuantity)
            && StoredFills(end.db.events, id) == StoredFills(db.events, id) + Whole(a.fillQuantity) + Whole(b.fillQuantity)
  {
    BothSave(db, a, b, id);
    SecondSaveWins(db, a, b, id);
    SecondStatusWins(db, a, b, id);
  }

  /** Terminal states do not absorb at the store: a late partial fill reopens an order whose full fill was saved. */
  lemma FilledIsNotFinal(db: Db, full: Event, part: Event, id: OrderId)
    requires Arrives(db, full, id) && Arrives(db, part, id) && full.kind == FullFill && part.kind == PartialFill
    requires IdentityOf(full) != IdentityOf(part)
    ensures var saved := Run(Both(db, full, Looking, part, Looking), START + [Save(1)]).db;
            id in saved.orders && saved.orders[id].status == Filled && saved.orders[id].filled == saved.orders[id].quantity
    ensures var end := Run(Both(db, full, Looking, part, Looking), START + [Save(1), Save(2)]).db;
            id in end.orders && end.orders[id].status == PartiallyFilled && end.orders[id].filled < end.orders[id].quantity
  {
    OverlappingFillsLoseOne(db, full, part, id);
    FirstFills(db, full, part, id);
    PartIsLess(db, part, id);
  }

  lemma FirstFills(db: Db, full: Event, part: Event, id: OrderId)
    requires Arrives(db, full, id) && Arrives(db, part, id) && full.kind == FullFill
    ensures var saved := Run(Both(db, full, Looking, part, Looking), START + [Save(1)]).db;
            id in saved.orders && saved.orders[id].status == Filled && saved.orders[id].filled == saved.orders[id].quantity
  {
    var start, copy := Both(db, full, Looking, part, Looking), Load(db, id).value;
    BothLoad(db, full, part, id);
    RunConcat(start, START, [Save(1)]);
    var loaded := Both(db, full, Saving(copy), part, Saving(copy));
    assert [Save(1)][..0] == [];
    assert Run(loaded, [Save(1)]) == Next(loaded, Save(1));
    FirstSaves(db, full, copy, part, id);
  }

  lemma PartIsLess(db: Db, part: Event, id: OrderId)
    requires Arrives(db, part, id) && part.kind == PartialFill
    ensures db.orders[id].filled + Whole(part.fillQuantity) < db.orders[id].quantity
  {}

  /** For instance, one share and one share of ten make one. */
  lemma OneAndOneMakeOne()
    ensures var db := Db(map[7 := OrderRow(BrokerAcknowledged, 10, 0, None)], []);
            var a := Event(7, PartialFill, 0, "first share", None, 1.0, 0, Some("a"));
            var b := Event(7, PartialFill, 0, "second share", None, 1.0, 0, Some("b"));
            var end := Run(Both(db, a, Looking, b, Looking), START + [Save(1), Save(2)]);
            FilledOf(end.db, 7) == 1 && StoredFills(end.db.events, 7) == 2
  {
    var db := Db(map[7 := OrderRow(BrokerAcknowledged, 10, 0, None)], []);
    var a := Event(7, PartialFill, 0, "first share", None, 1.0, 0, Some("a"));
    var b := Event(7, PartialFill, 0, "second share", None, 1.0, 0, Some("b"));
    assert "a"[0] != "b"[0];
    assert IdentityOf(a) != IdentityOf(b);
    assert Whole(1.0) == 1;
    OverlappingFillsLoseOne(db, a, b, 7);
  }

  // ------------------------------------------------------- uninterrupted calls

  /** All steps of one call; those that its lookup or its load make pointless change nothing. */
  function WholeCall(w: WorkerId, e: Event): seq<Step> {
    [Begin(w, e), Look(w)] + [LoadOrder(w), Save(w)]
  }

  /** The call as it stands before it saves, with nobody else in between. */
  function ReadyToSave(sys: System, w: WorkerId, e: Event): System {
    var pc := if FindEvent(sys.db.events, IdentityOf(e)).Some? || Load(sys.db, e.orderId).None? then Done(false)
              else Saving(Load(sys.db, e.orderId).value);
    sys.(workers := sys.workers[w := Worker(e, pc)])
  }

  lemma CallReads(sys: System, w: WorkerId, e: Event)
    requires w !in sys.workers
    ensures Next(Next(Next(sys, Begin(w, e)), Look(w)), LoadOrder(w)) == ReadyToSave(sys, w, e)
  {
    var begun := sys.(workers := sys.workers[w := Worker(e, Looking)]);
    assert Next(sys, Begin(w, e)) == begun;
    assert Next(begun, Look(w))
        == sys.(workers := sys.workers[w := Worker(e, if FindEvent(sys.db.events, IdentityOf(e)).Some? then Done(false) else Loading)]);
  }

  lemma CallSaves(sys: System, w: WorkerId, e: Event)
    ensures Next(ReadyToSave(sys, w, e), Save(w)).db == Deliver(sys.db, e).0
  {}

  /** A call that nobody interrupts leaves the store that one delivery gives. */
  lemma UninterruptedCallIsDelivery(sys: System, w: WorkerId, e: Event)
    requires w !in sys.workers
    ensures Run(sys, WholeCall(w, e)).db == Deliver(sys.db, e).0
  {
    var looked := Next(Next(sys, Begin(w, e)), Look(w));
    RunTwo(sys, Begin(w, e), Look(w));
    RunTwo(looked, LoadOrder(w), Save(w));
    RunConcat(sys, [Begin(w, e), Look(w)], [LoadOrder(w), Save(w)]);
    CallReads(sys, w, e);
    CallSaves(sys, w, e);
  }

  /** All steps of one cancellation; those that its check makes pointless change nothing. */
  function WholeCancel(w: WorkerId, id: OrderId): seq<Step> {
    [Ask(w, id), Check(w)] + [Cancel(w)]
  }

  /** A cancellation that nobody interrupts checks and writes at once. */
  lemma UninterruptedCancelIsRequest(sys: System, w: WorkerId, id: OrderId)
    requires w !in sys.cancellers
    ensures Run(sys, WholeCancel(w, id)).db == RequestCancel(sys.db, id)
  {
    RunTwo(sys, Ask(w, id), Check(w));
    assert WholeCancel(w, id)[..2] == [Ask(w, id), Check(w)];
  }

  /** The store object. A call reads and writes it in separate transactions. */
  class ExecutionStore {
    var orders: map<OrderId, OrderRow>
    var events: seq<EventRow>

    function Value(): Db
      reads this
    {
      Db(orders, events)
    }

    method SaveEvent(e: Event, x: Execution) returns (saved: bool)
      requires e.orderId in orders
      modifies this
      ensures saved <==> FindEvent(old(events), IdentityOf(e)).None? && BrokerIdFree(old(Value()), e.orderId, x.brokerOrderId)
      ensures Value() == if saved then Saved(old(Value()), e, x) else old(Value())
    {
      if FindEvent(events, IdentityOf(e)).Some? || !BrokerIdFree(Value(), e.orderId, x.brokerOrderId) {
        return false;
      }
      orders := orders[e.orderId := SavedRow(orders[e.orderId], x)];
      events := events + [EventRow(IdentityOf(e), ContentOf(e), e.orderId)];
      return true;
    }

    /** One call of `apply_event` that nobody interrupts: a run of the machine, and one delivery. */
    method Apply(e: Event, w: WorkerId, ghost sys: System) returns (r: Result<Execution, ApplyError>, ghost steps: seq<Step>)
      requires Value() == sys.db && w !in sys.workers
      modifies this
      ensures Value() == Run(sys, steps).db
      ensures (Value(), r) == Deliver(old(Value()), e)
    {
      steps := WholeCall(w, e);
      UninterruptedCallIsDelivery(sys, w, e);
      var identity := IdentityOf(e);
      var known := FindEvent(events, identity);
      if known.Some? {
        if known.value.content != ContentOf(e) {
          return Err(IdentityConflict), steps;
        }
        var current := Load(Value(), e.orderId);
        if current.None? {
          return Err(OrderNotFound), steps;
        }
        return Ok(current.value), steps;
      }
      var loaded := Load(Value(), e.orderId);
      if loaded.None? {
        return Err(OrderNotFound), steps;
      }
      var next := ApplyEvent(loaded.value, e);
      if next.Err? {
        return Err(Refused(next.error)), steps;
      }
      var saved := SaveEvent(e, next.value);
      if !saved {
        return Err(BrokerIdTaken), steps;
      }
      return Ok(next.value), steps;
    }
  }
}
