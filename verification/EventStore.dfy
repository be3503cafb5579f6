/**
 Broker events against durable rows: every delivery is deduplicated by its
 identity, and the stored filled quantity is a whole number.

 Hashes are modelled by the values they digest, so identities and content
 fingerprints are injective.
 */
module EventStore {
  import opened Wrappers
  import opened Arithmetic
  import opened OrderLifecycle

  /**
   The broker's own event id when there is one, otherwise the stable fields of the event, with the
   quantity as it is written. The order service's cancel requests have an id of their own.
   */
  datatype Identity =
    | Sourced(orderId: OrderId, source: string)
    | Derived(order: OrderId, kind: EventKind, brokerOrderId: Option<string>, fillQuantity: real, exponent: int)
    | CancelKey(cancelled: OrderId)

  predicate HasSource(e: Event) {
    e.source.Some? && e.source.value != ""
  }

  function IdentityOf(e: Event): Identity {
    if HasSource(e) then Sourced(e.orderId, e.source.value)
    else Derived(e.orderId, e.kind, e.brokerOrderId, e.fillQuantity, e.exponent)
  }

  datatype Content = Content(kind: EventKind, brokerOrderId: Option<string>, fillQuantity: real, exponent: int, reason: string)

  function ContentOf(e: Event): Content {
    Content(e.kind, e.brokerOrderId, e.fillQuantity, e.exponent, e.reason)
  }

  /**
   Two events have one identity exactly if they are for one order and carry one event id of the broker, or carry
   none and agree in kind, broker order id and quantity as written; times and reasons do not matter.
   */
  lemma SameIdentityExactlyWhen(a: Event, b: Event)
    ensures IdentityOf(a) == IdentityOf(b) <==>
            && a.orderId == b.orderId
            && (a.source.Some? && a.source.value != "" <==> b.source.Some? && b.source.value != "")
            && if a.source.Some? && a.source.value != "" then a.source == b.source
               else a.kind == b.kind && a.brokerOrderId == b.brokerOrderId && a.fillQuantity == b.fillQuantity && a.exponent == b.exponent
    ensures ContentOf(a) == ContentOf(b) <==>
            && a.kind == b.kind && a.brokerOrderId == b.brokerOrderId && a.fillQuantity == b.fillQuantity && a.exponent == b.exponent
            && a.reason == b.reason
  {}

  type Shares = n: nat | n > 0 witness 1

  datatype OrderRow = OrderRow(status: OrderState, quantity: Shares, filled: nat, brokerOrderId: Option<string>)

  datatype EventRow = EventRow(identity: Identity, content: Content, orderId: OrderId)

  /** The order table and the append-only event table. */
  datatype Db = Db(orders: map<OrderId, OrderRow>, events: seq<EventRow>)

  datatype ApplyError = IdentityConflict | OrderNotFound | Refused(reason: OrderError) | BrokerIdTaken

  // ----------------------------------------------------------------- queries

  function FindEvent(events: seq<EventRow>, identity: Identity): Option<EventRow>
    decreases |events|
  {
    if |events| == 0 then None
    else if events[|events| - 1].identity == identity then Some(events[|events| - 1])
    else FindEvent(events[..|events| - 1], identity)
  }

  function Load(db: Db, id: OrderId): Option<Execution> {
    if id !in db.orders then None
    else
      var row := db.orders[id];
      Some(Execution(Lifecycle(id, row.status, []), row.quantity as real, row.filled as real, row.brokerOrderId))
  }

  /** The order table keeps broker order ids unique. */
  predicate BrokerIdFree(db: Db, id: OrderId, brokerOrderId: Option<string>) {
    brokerOrderId.Some? ==> forall other :: other in db.orders && other != id ==> db.orders[other].brokerOrderId != brokerOrderId
  }

  /** Whole shares of a quantity; the store truncates. */
  function Whole(quantity: NonNegative): nat {
    quantity.Floor
  }

  function SavedRow(row: OrderRow, x: Execution): OrderRow {
    OrderRow(x.lifecycle.state, row.quantity, Whole(x.filled), if x.brokerOrderId.Some? then x.brokerOrderId else row.brokerOrderId)
  }

  // ---------------------------------------------------------------- delivery

  /** One delivery: recognise a known event, otherwise apply it and save it in one transaction. */
  function Deliver(db: Db, e: Event): (Db, Result<Execution, ApplyError>) {
    var known := FindEvent(db.events, IdentityOf(e));
    var loaded := Load(db, e.orderId);
    if known.Some? && known.value.content != ContentOf(e) then (db, Err(IdentityConflict))
    else if loaded.None? then (db, Err(OrderNotFound))
    else if known.Some? then (db, Ok(loaded.value))
    else
      var next := ApplyEvent(loaded.value, e);
      if next.Err? then (db, Err(Refused(next.error)))
      else if !BrokerIdFree(db, e.orderId, next.value.brokerOrderId) then (db, Err(BrokerIdTaken))
      else (Saved(db, e, next.value), Ok(next.value))
  }

  function Saved(db: Db, e: Event, x: Execution): Db
    requires e.orderId in db.orders
  {
    Db(db.orders[e.orderId := SavedRow(db.orders[e.orderId], x)],
       db.events + [EventRow(IdentityOf(e), ContentOf(e), e.orderId)])
  }

  function DeliverAll(db: Db, deliveries: seq<Event>): Db
    decreases |deliveries|
  {
    if |deliveries| == 0 then db
    else Deliver(DeliverAll(db, deliveries[..|deliveries| - 1]), deliveries[|deliveries| - 1]).0
  }

  // ------------------------------------------------------- the event table

  ghost predicate Unlike(events: seq<EventRow>, i: int, j: int) {
    0 <= i < j < |events| ==> events[i].identity != events[j].identity
  }

  /** No identity is stored twice. */
  ghost predicate DistinctIdentities(events: seq<EventRow>) {
    forall i, j :: Unlike(events, i, j)
  }

  lemma {:induction false} FindEventMeaning(events: seq<EventRow>, identity: Identity)
    ensures var found := FindEvent(events, identity);
            if found.Some? then found.value in events && found.value.identity == identity
            else forall i :: 0 <= i < |events| ==> events[i].identity != identity
    decreases |events|
  {
    if |events| > 0 { FindEventMeaning(events[..|events| - 1], identity); }
  }

  lemma FindAppended(events: seq<EventRow>, row: EventRow, identity: Identity)
    ensures FindEvent(events + [row], identity)
            == if row.identity == identity then Some(row) else FindEvent(events, identity)
  {
    assert (events + [row])[..|events|] == events;
  }

  lemma DistinctAppend(events: seq<EventRow>, row: EventRow)
    requires DistinctIdentities(events) && FindEvent(events, row.identity).None?
    ensures DistinctIdentities(events + [row])
  {
    FindEventMeaning(events, row.identity);
    forall i, j ensures Unlike(events + [row], i, j) { assert Unlike(events, i, j); }
  }

  // -------------------------------------------------------- broker order ids

  ghost predicate BrokerIdsDiffer(db: Db, a: OrderId, b: OrderId) {
    a in db.orders && b in db.orders && a != b && db.orders[a].brokerOrderId.Some? ==>
      db.orders[a].brokerOrderId != db.orders[b].brokerOrderId
  }

  /** No two orders have the same broker order id. */
  ghost predicate UniqueBrokerIds(db: Db) {
    forall a, b :: BrokerIdsDiffer(db, a, b)
  }

  lemma SaveKeepsBrokerIds(db: Db, e: Event, x: Execution)
    requires UniqueBrokerIds(db) && e.orderId in db.orders && BrokerIdFree(db, e.orderId, x.brokerOrderId)
    ensures UniqueBrokerIds(Saved(db, e, x))
  {
    forall a, b ensures BrokerIdsDiffer(Saved(db, e, x), a, b) {
      assert BrokerIdsDiffer(db, a, b) && BrokerIdsDiffer(db, b, a);
    }
  }

  // ----------------------------------------------------------- idempotence

  /** `e` is on record with the same content. */
  predicate Recorded(db: Db, e: Event) {
    var known := FindEvent(db.events, IdentityOf(e));
    known.Some? && known.value.content == ContentOf(e)
  }

  predicate Accepted(db: Db, e: Event) {
    Deliver(db, e).0 != db
  }

  lemma DeliverRecords(db: Db, e: Event, other: Event)
    ensures Accepted(db, e) ==> Recorded(Deliver(db, e).0, e)
    ensures Recorded(db, other) ==> Recorded(Deliver(db, e).0, other)
    ensures Recorded(db, e) ==> !Accepted(db, e)
  {
    if Accepted(db, e) {
      var row := EventRow(IdentityOf(e), ContentOf(e), e.orderId);
      FindAppended(db.events, row, IdentityOf(e));
      FindAppended(db.events, row, IdentityOf(other));
    }
  }

  lemma {:induction false} RecordedForever(db: Db, deliveries: seq<Event>, e: Event)
    requires Recorded(db, e)
    ensures Recorded(DeliverAll(db, deliveries), e)
    decreases |deliveries|
  {
    if |deliveries| > 0 {
      var n := |deliveries| - 1;
      RecordedForever(db, deliveries[..n], e);
      DeliverRecords(DeliverAll(db, deliveries[..n]), deliveries[n], e);
    }
  }

  lemma {:induction false} RecordedIsIgnored(db: Db, e: Event, after: seq<Event>)
    requires Recorded(db, e)
    ensures DeliverAll(db, [e] + after) == DeliverAll(db, after)
    decreases |after|
  {
    DeliverRecords(db, e, e);
    var all := [e] + after;
    if |after| > 0 {
      var n := |after| - 1;
      RecordedIsIgnored(db, e, after[..n]);
      assert all[..n + 1] == [e] + after[..n] && all[n + 1] == after[n];
    } else {
      assert all[..0] == [];
    }
  }

  /** An accepted event can be redelivered any time later, any number of times, without any effect. */
  lemma RedeliveryIsHarmless(db: Db, e: Event, between: seq<Event>, after: seq<Event>)
    requires Accepted(db, e)
    ensures var later := DeliverAll(Deliver(db, e).0, between);
            && Deliver(later, e).0 == later
            && DeliverAll(later, [e] + after) == DeliverAll(later, after)
  {
    var later := DeliverAll(Deliver(db, e).0, between);
    DeliverRecords(db, e, e);
    RecordedForever(Deliver(db, e).0, between, e);
    DeliverRecords(later, e, e);
    RecordedIsIgnored(later, e, after);
  }

  /** The same identity with different content is refused, and nothing changes. */
  lemma ConflictIsRefused(db: Db, e: Event, forged: Event, between: seq<Event>)
    requires Accepted(db, e) && IdentityOf(forged) == IdentityOf(e) && ContentOf(forged) != ContentOf(e)
    ensures var later := DeliverAll(Deliver(db, e).0, between);
            Deliver(later, forged) == (later, Err(IdentityConflict))
  {
    DeliverRecords(db, e, e);
    RecordedForever(Deliver(db, e).0, between, e);
  }

  // ----------------------------------------------------- exactly-once filling

  ghost predicate RowSound(row: OrderRow) {
    row.filled <= row.quantity && (row.status == Filled <==> row.filled == row.quantity)
  }

  ghost predicate Sound(db: Db) {
    && DistinctIdentities(db.events)
    && forall id :: id in db.orders ==> RowSound(db.orders[id])
  }

  predicate ValidEvents(deliveries: seq<Event>) {
    forall i :: 0 <= i < |deliveries| ==> ValidEvent(deliveries[i])
  }

  lemma DeliverIsSound(db: Db, e: Event)
    requires Sound(db) && ValidEvent(e)
    ensures Sound(Deliver(db, e).0)
  {
    if Accepted(db, e) {
      DistinctAppend(db.events, EventRow(IdentityOf(e), ContentOf(e), e.orderId));
      assert RowSound(db.orders[e.orderId]);
    }
  }

  /** The events accepted by a delivery sequence, in order: first deliveries of legal events only. */
  function AcceptedEvents(db: Db, deliveries: seq<Event>): seq<Event>
    decreases |deliveries|
  {
    if |deliveries| == 0 then []
    else
      var n := |deliveries| - 1;
      var earlier := AcceptedEvents(db, deliveries[..n]);
      if Accepted(DeliverAll(db, deliveries[..n]), deliveries[n]) then earlier + [deliveries[n]] else earlier
  }

  /** Whole shares that a list of events fills for one order. */
  function WholeFills(events: seq<Event>, id: OrderId): nat
    decreases |events|
  {
    if |events| == 0 then 0
    else
      var last := events[|events| - 1];
      WholeFills(events[..|events| - 1], id) + (if last.orderId == id then Whole(last.fillQuantity) else 0)
  }

  function ExactFills(events: seq<Event>, id: OrderId): real
    decreases |events|
  {
    if |events| == 0 then 0.0
    else
      var last := events[|events| - 1];
      ExactFills(events[..|events| - 1], id) + (if last.orderId == id then last.fillQuantity as real else 0.0)
  }

  lemma WholeAdds(stored: nat, quantity: NonNegative)
    ensures Whole(stored as real + quantity) == stored + Whole(quantity)
  {
    assert (stored as real + quantity).Floor == stored + quantity.Floor;
  }

  lemma DeliverFills(db: Db, e: Event, id: OrderId)
    requires id in db.orders && ValidEvent(e)
    ensures var after := Deliver(db, e).0;
            && id in after.orders
            && after.orders[id].filled
               == db.orders[id].filled + (if Accepted(db, e) && e.orderId == id then Whole(e.fillQuantity) else 0)
  {
    if Accepted(db, e) && e.orderId == id { WholeAdds(db.orders[id].filled, e.fillQuantity); }
  }

  /** For any delivery sequence, the stored quantity counts every accepted event exactly once. */
  lemma {:induction false} StoredFillsCountOnce(db: Db, deliveries: seq<Event>, id: OrderId)
    requires Sound(db) && ValidEvents(deliveries) && id in db.orders
    ensures var after := DeliverAll(db, deliveries);
            && Sound(after) && id in after.orders
            && after.orders[id].filled == db.orders[id].filled + WholeFills(AcceptedEvents(db, deliveries), id)
    decreases |deliveries|
  {
    if |deliveries| > 0 {
      var n := |deliveries| - 1;
      StoredFillsCountOnce(db, deliveries[..n], id);
      var before, e := DeliverAll(db, deliveries[..n]), deliveries[n];
      DeliverIsSound(before, e);
      DeliverFills(before, e, id);
      var accepted := AcceptedEvents(db, deliveries[..n]);
      assert (accepted + [e])[..|accepted|] == accepted;
    }
  }

  /** Accepted events have pairwise distinct identities, none of which was stored before. */
  lemma {:induction false} AcceptedOnce(db: Db, deliveries: seq<Event>, i: int, j: int)
    requires 0 <= i < j < |AcceptedEvents(db, deliveries)|
    ensures IdentityOf(AcceptedEvents(db, deliveries)[i]) != IdentityOf(AcceptedEvents(db, deliveries)[j])
    decreases |deliveries|
  {
    var n := |deliveries| - 1;
    var earlier, before, e := AcceptedEvents(db, deliveries[..n]), DeliverAll(db, deliveries[..n]), deliveries[n];
    if j < |earlier| {
      AcceptedOnce(db, deliveries[..n], i, j);
    } else {
      AcceptedAreRecorded(db, deliveries[..n], i);
      assert FindEvent(before.events, IdentityOf(e)).None?;
    }
  }

  lemma {:induction false} AcceptedAreRecorded(db: Db, deliveries: seq<Event>, i: nat)
    requires i < |AcceptedEvents(db, deliveries)|
    ensures Recorded(DeliverAll(db, deliveries), AcceptedEvents(db, deliveries)[i])
    decreases |deliveries|
  {
    var n := |deliveries| - 1;
    var earlier, before, e := AcceptedEvents(db, deliveries[..n]), DeliverAll(db, deliveries[..n]), deliveries[n];
    if i < |earlier| {
      AcceptedAreRecorded(db, deliveries[..n], i);
      DeliverRecords(before, e, earlier[i]);
    } else {
      DeliverRecords(before, e, e);
    }
  }

  // ------------------------------------------------------------- truncation

  predicate WholeQuantity(quantity: NonNegative) {
    Whole(quantity) as real == quantity
  }

  ghost predicate AllWhole(events: seq<Event>, id: OrderId) {
    forall i :: 0 <= i < |events| && events[i].orderId == id ==> WholeQuantity(events[i].fillQuantity)
  }

  lemma {:induction false} TruncationLoses(events: seq<Event>, id: OrderId)
    ensures WholeFills(events, id) as real <= ExactFills(events, id)
    ensures WholeFills(events, id) as real == ExactFills(events, id) <==> AllWhole(events, id)
    decreases |events|
  {
    if |events| > 0 {
      var n := |events| - 1;
      TruncationLoses(events[..n], id);
      assert AllWhole(events, id) <==>
             AllWhole(events[..n], id) && (events[n].orderId == id ==> WholeQuantity(events[n].fillQuantity)) by {
        assert forall i :: 0 <= i < n ==> events[..n][i] == events[i];
      }
    }
  }

  /** The stored quantity is the sum of the accepted fills exactly when all of them are whole numbers. */
  lemma StoredFillsAreExact(db: Db, deliveries: seq<Event>, id: OrderId)
    requires Sound(db) && ValidEvents(deliveries) && id in db.orders
    ensures id in DeliverAll(db, deliveries).orders
    ensures (DeliverAll(db, deliveries).orders[id].filled - db.orders[id].filled) as real == ExactFills(AcceptedEvents(db, deliveries), id)
            <==> AllWhole(AcceptedEvents(db, deliveries), id)
  {
    StoredFillsCountOnce(db, deliveries, id);
    TruncationLoses(AcceptedEvents(db, deliveries), id);
  }

  /** Half a share is accepted and lost: the stored quantity stays at zero. */
  lemma FractionalFillIsLost()
    ensures var db := Db(map[7 := OrderRow(BrokerAcknowledged, 1, 0, None)], []);
            var half := Event(7, PartialFill, 0, "half a share", None, 0.5, -1, Some("b-1"));
            && ValidEvent(half) && Accepted(db, half)
            && Deliver(db, half).0.orders[7].filled == 0 && ExactFills([half], 7) == 0.5
  {
    var db := Db(map[7 := OrderRow(BrokerAcknowledged, 1, 0, None)], []);
    var half := Event(7, PartialFill, 0, "half a share", None, 0.5, -1, Some("b-1"));
    assert [half][..0] == [];
    assert Whole(0.5) == 0;
  }

  // ------------------------------------------------------------- renderings

  /** A fill that leaves room for the same fill again. */
  predicate FitsTwice(db: Db, e: Event) {
    && e.kind == PartialFill && e.orderId in db.orders
    && db.orders[e.orderId].filled as real + e.fillQuantity + e.fillQuantity < db.orders[e.orderId].quantity as real
  }

  /**
   An accepted fill delivered again with its quantity written differently: with a broker's event id it is
   refused as a conflict, and without one it is a new event and its shares are counted twice.
   */
  lemma RewrittenFillCountsTwice(db: Db, e: Event, again: Event)
    requires ValidEvent(e) && Accepted(db, e) && FitsTwice(db, e)
    requires again == e.(exponent := again.exponent) && again.exponent != e.exponent
    requires FindEvent(db.events, IdentityOf(again)).None?
    ensures var first := Deliver(db, e).0;
            var answer := Deliver(first, again);
            if HasSource(e) then answer == (first, Err(IdentityConflict))
            else e.orderId in answer.0.orders && answer.0.orders[e.orderId].filled == db.orders[e.orderId].filled + 2 * Whole(e.fillQuantity)
  {
    var first := Deliver(db, e).0;
    DeliverRecords(db, e, e);
    DeliverFills(db, e, e.orderId);
    DeliverFills(first, again, e.orderId);
    FindAppended(db.events, EventRow(IdentityOf(e), ContentOf(e), e.orderId), IdentityOf(again));
    WholeAdds(db.orders[e.orderId].filled, e.fillQuantity);
  }
}
