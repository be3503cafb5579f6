/**
 What deliveries and cancellations keep of an order's status. A cancel request sets the status
 alone, so one that lands over a full fill leaves an order that is completely filled and not FILLED.
 */
module CancelledFills {
  import opened OrderLifecycle
  import opened EventStore
  import opened ConcurrentDelivery

  // -------------------------------------------------------- in every interleaving

  /** Never overfilled, and FILLED only when completely filled. */
  ghost predicate Bounded(row: OrderRow) {
    row.filled <= row.quantity && (row.status == Filled ==> row.filled == row.quantity)
  }

  ghost predicate CopyBounded(copy: Execution) {
    copy.filled <= copy.quantity && (copy.lifecycle.state == Filled ==> copy.filled == copy.quantity)
  }

  ghost predicate RowsBounded(db: Db) {
    forall id :: id in db.orders ==> Bounded(db.orders[id])
  }

  ghost predicate CopyOk(sys: System, w: WorkerId) {
    w in sys.workers && sys.workers[w].pc.Saving? ==>
      var copy, id := sys.workers[w].pc.copy, sys.workers[w].event.orderId;
      && CopyBounded(copy) && id in sys.db.orders && copy.quantity == sys.db.orders[id].quantity as real
  }

  ghost predicate StoreInvariant(sys: System) {
    Invariant(sys) && RowsBounded(sys.db) && forall w :: CopyOk(sys, w)
  }

  lemma SavedIsBounded(row: OrderRow, copy: Execution, e: Event)
    requires CopyBounded(copy) && WholeQuantity(copy.filled) && ValidEvent(e) && copy.quantity == row.quantity as real && ApplyEvent(copy, e).Ok?
    ensures Bounded(SavedRow(row, ApplyEvent(copy, e).value))
  {
    WholeAdds(Whole(copy.filled), e.fillQuantity);
  }

  lemma StepKeepsBounds(sys: System, step: Step)
    requires StoreInvariant(sys) && ValidStep(step)
    ensures StoreInvariant(Next(sys, step))
  {
    var w, after := step.worker, Next(sys, step);
    StepKeeps(sys, step);
    if step.Save? && w in sys.workers && SavesFor(sys, step, sys.workers[w].event.orderId) {
      var e := sys.workers[w].event;
      assert CopyOk(sys, w) && WorkerOk(sys, w);
      SavedIsBounded(sys.db.orders[e.orderId], sys.workers[w].pc.copy, e);
    }
    forall v ensures CopyOk(after, v) { assert CopyOk(sys, v); }
  }

  /** In every interleaving of deliveries and cancellations no order is overfilled, and a FILLED order is completely filled. */
  lemma {:induction false} FilledMeansComplete(sys: System, steps: seq<Step>)
    requires StoreInvariant(sys) && ValidSteps(steps)
    ensures StoreInvariant(Run(sys, steps))
    decreases |steps|
  {
    if |steps| > 0 {
      var n := |steps| - 1;
      FilledMeansComplete(sys, steps[..n]);
      StepKeepsBounds(Run(sys, steps[..n]), steps[n]);
    }
  }

  // ------------------------------------------- completely filled means FILLED, when

  /** After the first `k` steps the order is FILLED exactly when it is completely filled. */
  ghost predicate SoundAt(sys: System, steps: seq<Step>, id: OrderId, k: int) {
    0 <= k <= |steps| && id in Before(sys, steps, k).db.orders ==> RowSound(Before(sys, steps, k).db.orders[id])
  }

  ghost predicate CancelsAt(sys: System, steps: seq<Step>, j: int, id: OrderId) {
    0 <= j < |steps| && CancelsFor(Before(sys, steps, j), steps[j], id)
  }

  /** Step `k` saves a full fill of the order. */
  ghost predicate CompletesAt(sys: System, steps: seq<Step>, k: int, id: OrderId) {
    SavesAt(sys, steps, k, id) && Before(sys, steps, k).workers[steps[k].worker].event.kind == FullFill
  }

  /** Between a canceller's check at `i` and its write at `j`, the last save of the order, at `k`, is a full fill. */
  ghost predicate CancelsOverFill(sys: System, steps: seq<Step>, id: OrderId, i: int, k: int, j: int) {
    && i < k < j && CancelsAt(sys, steps, j, id) && ChecksAt(sys, steps, i, steps[j].worker)
    && CompletesAt(sys, steps, k, id) && forall m :: k < m < j ==> !SavesAt(sys, steps, m, id)
  }

  lemma StepKeepsRow(sys: System, step: Step, id: OrderId)
    requires id in sys.db.orders
    ensures id in Next(sys, step).db.orders && Next(sys, step).db.orders[id].quantity == sys.db.orders[id].quantity
    ensures !SavesFor(sys, step, id) ==> Next(sys, step).db.orders[id].filled == sys.db.orders[id].filled
    ensures !WritesFor(sys, step, id) ==> Next(sys, step).db.orders[id] == sys.db.orders[id]
  {}

  lemma {:induction false} RowKeeps(sys: System, steps: seq<Step>, id: OrderId, i: nat, j: nat)
    requires i <= j <= |steps| && id in Before(sys, steps, i).db.orders
    ensures id in Before(sys, steps, j).db.orders
    ensures Before(sys, steps, j).db.orders[id].quantity == Before(sys, steps, i).db.orders[id].quantity
    ensures (forall k :: i <= k < j ==> !SavesAt(sys, steps, k, id)) ==>
              Before(sys, steps, j).db.orders[id].filled == Before(sys, steps, i).db.orders[id].filled
    decreases j
  {
    if i < j {
      RowKeeps(sys, steps, id, i, j - 1);
      BeforeNext(sys, steps, j - 1);
      StepKeepsRow(Before(sys, steps, j - 1), steps[j - 1], id);
      assert SavesFor(Before(sys, steps, j - 1), steps[j - 1], id) ==> SavesAt(sys, steps, j - 1, id);
    }
  }

  lemma InvariantBefore(sys: System, steps: seq<Step>, k: nat)
    requires StoreInvariant(sys) && ValidSteps(steps) && k <= |steps|
    ensures StoreInvariant(Before(sys, steps, k))
  {
    FilledMeansComplete(sys, steps[..k]);
  }

  lemma FullFillCompletes(row: OrderRow, copy: Execution, e: Event)
    requires e.kind == FullFill && ApplyEvent(copy, e).Ok? && copy.quantity == row.quantity as real
    ensures SavedRow(row, ApplyEvent(copy, e).value).filled == row.quantity
  {}

  /** A full fill that is saved makes the order complete. */
  lemma CompletedRow(sys: System, steps: seq<Step>, k: nat, id: OrderId)
    requires StoreInvariant(sys) && ValidSteps(steps) && CompletesAt(sys, steps, k, id)
    ensures var db := Before(sys, steps, k + 1).db; id in db.orders && db.orders[id].filled == db.orders[id].quantity
  {
    var before, w := Before(sys, steps, k), steps[k].worker;
    InvariantBefore(sys, steps, k);
    BeforeNext(sys, steps, k);
    assert CopyOk(before, w);
    FullFillCompletes(before.db.orders[id], before.workers[w].pc.copy, before.workers[w].event);
  }

  lemma OverFillIsUnsound(sys: System, steps: seq<Step>, id: OrderId, i: int, k: int, j: int)
    requires StoreInvariant(sys) && ValidSteps(steps) && CancelsOverFill(sys, steps, id, i, k, j)
    ensures !SoundAt(sys, steps, id, j + 1)
  {
    CompletedRow(sys, steps, k, id);
    RowKeeps(sys, steps, id, k + 1, j);
    BeforeNext(sys, steps, j);
  }

  // ---- and otherwise every row stays sound

  lemma SavedIsSound(row: OrderRow, copy: Execution, e: Event)
    requires CopyBounded(copy) && (copy.filled == copy.quantity ==> copy.lifecycle.state == Filled)
    requires WholeQuantity(copy.filled) && ValidEvent(e) && copy.quantity == row.quantity as real && ApplyEvent(copy, e).Ok?
    ensures RowSound(SavedRow(row, ApplyEvent(copy, e).value))
  {
    WholeAdds(Whole(copy.filled), e.fillQuantity);
  }

  /** A save from a copy of a sound row leaves a sound row. */
  lemma SaveKeepsSound(sys: System, steps: seq<Step>, id: OrderId, j: nat)
    requires StoreInvariant(sys) && ValidSteps(steps) && sys.workers == map[]
    requires SavesAt(sys, steps, j, id) && forall m :: 0 <= m <= j ==> SoundAt(sys, steps, id, m)
    ensures SoundAt(sys, steps, id, j + 1)
  {
    var before, w := Before(sys, steps, j), steps[j].worker;
    var i := CopyWasLoaded(sys, steps, j, w);
    assert SoundAt(sys, steps, id, i);
    InvariantBefore(sys, steps, j);
    BeforeNext(sys, steps, j);
    assert CopyOk(before, w) && WorkerOk(before, w);
    SavedIsSound(before.db.orders[id], before.workers[w].pc.copy, before.workers[w].event);
  }

  /** If the order is saved at all between two steps, there is a last save. */
  lemma {:induction false} LastSave(sys: System, steps: seq<Step>, id: OrderId, i: nat, j: nat) returns (k: nat)
    requires i <= j <= |steps| && exists m :: i <= m < j && SavesAt(sys, steps, m, id)
    ensures i <= k < j && SavesAt(sys, steps, k, id) && forall m :: k < m < j ==> !SavesAt(sys, steps, m, id)
    decreases j
  {
    if SavesAt(sys, steps, j - 1, id) { k := j - 1; } else { k := LastSave(sys, steps, id, i, j - 1); }
  }

  lemma SaveThatFills(sys: System, steps: seq<Step>, id: OrderId, k: nat)
    requires SavesAt(sys, steps, k, id) && SoundAt(sys, steps, id, k + 1)
    requires var db := Before(sys, steps, k + 1).db; id in db.orders && db.orders[id].filled == db.orders[id].quantity
    ensures CompletesAt(sys, steps, k, id)
  {
    BeforeNext(sys, steps, k);
  }

  /** A cancel request that finds its order complete wrote over a full fill. */
  lemma CompleteWasOverwritten(sys: System, steps: seq<Step>, id: OrderId, j: nat) returns (i: nat, k: nat)
    requires sys.cancellers == map[] && CancelsAt(sys, steps, j, id) && forall m :: 0 <= m <= j ==> SoundAt(sys, steps, id, m)
    requires var row := Before(sys, steps, j).db.orders[id]; row.filled == row.quantity
    ensures CancelsOverFill(sys, steps, id, i, k, j)
  {
    i := StatusWasChecked(sys, steps, j, steps[j].worker);
    assert SoundAt(sys, steps, id, i);
    RowKeeps(sys, steps, id, i, j);
    k := LastSave(sys, steps, id, i, j);
    BeforeRow(sys, steps, id, i, k);
    RowKeeps(sys, steps, id, k + 1, j);
    assert SoundAt(sys, steps, id, k + 1);
    SaveThatFills(sys, steps, id, k);
  }

  lemma BeforeRow(sys: System, steps: seq<Step>, id: OrderId, i: nat, k: nat)
    requires i <= k < |steps| && id in Before(sys, steps, i).db.orders
    ensures id in Before(sys, steps, k + 1).db.orders
  {
    RowKeeps(sys, steps, id, i, k + 1);
  }

  lemma CancelKeepsSound(sys: System, steps: seq<Step>, id: OrderId, j: nat)
    requires StoreInvariant(sys) && ValidSteps(steps) && sys.cancellers == map[]
    requires forall i, k, m :: !CancelsOverFill(sys, steps, id, i, k, m)
    requires CancelsAt(sys, steps, j, id) && forall m :: 0 <= m <= j ==> SoundAt(sys, steps, id, m)
    ensures SoundAt(sys, steps, id, j + 1)
  {
    InvariantBefore(sys, steps, j);
    BeforeNext(sys, steps, j);
    var row := Before(sys, steps, j).db.orders[id];
    assert Bounded(row);
    if row.filled == row.quantity {
      var i, k := CompleteWasOverwritten(sys, steps, id, j);
      assert false;
    }
  }

  lemma {:induction false} SoundUpTo(sys: System, steps: seq<Step>, id: OrderId, n: int)
    requires StoreInvariant(sys) && ValidSteps(steps) && sys.workers == map[] && sys.cancellers == map[]
    requires id in sys.db.orders && RowSound(sys.db.orders[id])
    requires forall i, k, m :: !CancelsOverFill(sys, steps, id, i, k, m)
    ensures SoundAt(sys, steps, id, n)
    decreases n
  {
    if n == 0 {
      BeforeStart(sys, steps);
    } else if 0 < n <= |steps| {
      var j := n - 1;
      forall m | 0 <= m <= j ensures SoundAt(sys, steps, id, m) { SoundUpTo(sys, steps, id, m); }
      if SavesAt(sys, steps, j, id) {
        SaveKeepsSound(sys, steps, id, j);
      } else if CancelsAt(sys, steps, j, id) {
        CancelKeepsSound(sys, steps, id, j);
      } else {
        BeforeStart(sys, steps);
        RowKeeps(sys, steps, id, 0, j);
        BeforeNext(sys, steps, j);
        StepKeepsRow(Before(sys, steps, j), steps[j], id);
        assert SoundAt(sys, steps, id, j);
      }
    }
  }

  /**
   Throughout a run an order is FILLED exactly when it is completely filled, if and only if no cancel
   request lands over a full fill: never is the last save between a canceller's check and its write a full fill.
   */
  lemma SoundExactlyWhenNoCancelOverFill(sys: System, steps: seq<Step>, id: OrderId)
    requires StoreInvariant(sys) && ValidSteps(steps) && sys.workers == map[] && sys.cancellers == map[]
    requires id in sys.db.orders && RowSound(sys.db.orders[id])
    ensures (forall k :: SoundAt(sys, steps, id, k)) <==> (forall i, k, j :: !CancelsOverFill(sys, steps, id, i, k, j))
  {
    if i, k, j :| CancelsOverFill(sys, steps, id, i, k, j) {
      OverFillIsUnsound(sys, steps, id, i, k, j);
    } else {
      forall k ensures SoundAt(sys, steps, id, k) { SoundUpTo(sys, steps, id, k); }
    }
  }

  // ------------------------------------------------------------ stranded orders

  /** Completely filled, and not FILLED. */
  predicate Stranded(db: Db, id: OrderId) {
    id in db.orders && db.orders[id].filled == db.orders[id].quantity && db.orders[id].status != Filled
  }

  /** A delivery of the order in flight holds a copy of the stranded order. */
  ghost predicate CopyStranded(sys: System, w: WorkerId, id: OrderId) {
    w in sys.workers && sys.workers[w].event.orderId == id && sys.workers[w].pc.Saving? ==>
      && id in sys.db.orders && sys.workers[w].pc.copy.quantity == sys.db.orders[id].quantity as real
      && sys.workers[w].pc.copy.filled == sys.workers[w].pc.copy.quantity && sys.workers[w].pc.copy.lifecycle.state != Filled
  }

  ghost predicate StaysStranded(sys: System, id: OrderId) {
    Invariant(sys) && Stranded(sys.db, id) && forall w :: CopyStranded(sys, w, id)
  }

  lemma NothingFillsIt(row: OrderRow, copy: Execution, e: Event)
    requires ValidEvent(e) && copy.quantity == row.quantity as real && copy.filled == copy.quantity && copy.lifecycle.state != Filled
    requires ApplyEvent(copy, e).Ok?
    ensures var saved := SavedRow(row, ApplyEvent(copy, e).value); saved.filled == row.quantity && saved.status != Filled
  {}

  lemma StepKeepsStranded(sys: System, step: Step, id: OrderId)
    requires StaysStranded(sys, id) && ValidStep(step)
    ensures StaysStranded(Next(sys, step), id)
  {
    var w, after := step.worker, Next(sys, step);
    StepKeeps(sys, step);
    if SavesFor(sys, step, id) {
      assert CopyStranded(sys, w, id) && WorkerOk(sys, w);
      NothingFillsIt(sys.db.orders[id], sys.workers[w].pc.copy, sys.workers[w].event);
    }
    StepKeepsRow(sys, step, id);
    forall v ensures CopyStranded(after, v, id) { assert CopyStranded(sys, v, id); }
  }

  lemma {:induction false} StrandedThroughout(sys: System, steps: seq<Step>, id: OrderId)
    requires StaysStranded(sys, id) && ValidSteps(steps)
    ensures StaysStranded(Run(sys, steps), id)
    decreases |steps|
  {
    if |steps| > 0 {
      var n := |steps| - 1;
      StrandedThroughout(sys, steps[..n], id);
      StepKeepsStranded(Run(sys, steps[..n]), steps[n], id);
    }
  }

  /** With no delivery of it in flight, a stranded order never becomes FILLED, whatever is delivered or cancelled and in whatever order. */
  lemma StrandedForever(sys: System, steps: seq<Step>, id: OrderId)
    requires Invariant(sys) && ValidSteps(steps) && Stranded(sys.db, id)
    requires forall w :: w in sys.workers && sys.workers[w].event.orderId == id ==> !sys.workers[w].pc.Saving?
    ensures Stranded(Run(sys, steps).db, id)
  {
    forall w ensures CopyStranded(sys, w, id) {}
    StrandedThroughout(sys, steps, id);
  }

  // ------------------------------------------------------------- counterexample

  /** A canceller checks, a delivery runs from beginning to end, and the canceller writes. */
  function LateCancel(e: Event, id: OrderId): seq<Step> {
    [Ask(2, id), Check(2)] + WholeCall(1, e) + [Cancel(2)]
  }

  lemma {:induction false} DeliveriesKeepCancellers(sys: System, steps: seq<Step>)
    requires forall i :: 0 <= i < |steps| ==> !OfCanceller(steps[i])
    ensures Run(sys, steps).cancellers == sys.cancellers
    decreases |steps|
  {
    if |steps| > 0 { DeliveriesKeepCancellers(sys, steps[..|steps| - 1]); }
  }

  lemma CheckFinds(db: Db, id: OrderId)
    requires id in db.orders && Cancellable(db.orders[id].status)
    ensures Run(System(db, map[], map[]), [Ask(2, id), Check(2)]) == System(db, map[], map[2 := Canceller(id, Cancelling)])
  {
    RunTwo(System(db, map[], map[]), Ask(2, id), Check(2));
  }

  lemma ArrivalIsDelivered(db: Db, e: Event, id: OrderId)
    requires Arrives(db, e, id) && e.kind == FullFill
    ensures var after := Deliver(db, e).0;
            && id in after.orders && after.orders[id].filled == after.orders[id].quantity
            && FindEvent(after.events, CancelKey(id)) == FindEvent(db.events, CancelKey(id))
  {
    FindAppended(db.events, EventRow(IdentityOf(e), ContentOf(e), e.orderId), CancelKey(id));
  }

  /** Every full fill that lands between a canceller's check and its write leaves the order stranded. */
  lemma LateCancelStrandsOrder(db: Db, e: Event, id: OrderId)
    requires Arrives(db, e, id) && e.kind == FullFill && CancelCommits(db, id)
    ensures var end := Run(System(db, map[], map[]), LateCancel(e, id)).db;
            Stranded(end, id) && end.orders[id].status == CancelRequested
  {
    var start, checked := System(db, map[], map[]), System(db, map[], map[2 := Canceller(id, Cancelling)]);
    var filled := Run(checked, WholeCall(1, e));
    CheckFinds(db, id);
    RunConcat(start, [Ask(2, id), Check(2)], WholeCall(1, e));
    RunConcat(start, [Ask(2, id), Check(2)] + WholeCall(1, e), [Cancel(2)]);
    assert [Cancel(2)][..0] == [];
    assert Run(filled, [Cancel(2)]) == Next(filled, Cancel(2));
    UninterruptedCallIsDelivery(checked, 1, e);
    DeliveriesKeepCancellers(checked, WholeCall(1, e));
    ArrivalIsDelivered(db, e, id);
  }
}
