/**
 Provider events may arrive in any order.  This module says exactly when the order of
 arrival, and the received_at given to each event, make no difference to an order.
 */
module CommerceArrival {
  import opened Wrappers
  import opened CommerceStates
  import opened CommerceTables
  import opened CommerceTransactions
  import opened CommerceInvariant
  import opened CommerceSteps
  import opened CommerceRuns
  import opened CommerceResults

  // ----- The events on the table decide the outcome ------------------------------------------

  ghost predicate Seen(events: seq<EventRow>, o: Order, t: PaymentStatus) {
    exists k :: 0 <= k < |events| && Owns(o, events[k]) && AmountMatches(events[k].event, o)
                && Target(events[k].event.kind) == t
  }

  ghost function SeenTargets(events: seq<EventRow>, o: Order): set<PaymentStatus> {
    set t: PaymentStatus | Seen(events, o, t)
  }

  /** No two of the requested statuses compete for the same payment. */
  predicate Compatible(targets: set<PaymentStatus>) {
    && !({Captured, Failed} <= targets)
    && !({Captured, Disputed, RefundPending, Refunded} <= targets)
  }

  /** The payment status a compatible set of events leads to. */
  function FinalStatus(targets: set<PaymentStatus>): PaymentStatus {
    if Captured !in targets then (if Failed in targets then Failed else Pending)
    else if Disputed in targets then Disputed
    else if RefundPending in targets then (if Refunded in targets then Refunded else RefundPending)
    else if Available in targets then Available
    else Captured
  }

  /** A seen target has either been reached or cannot be moved to. */
  lemma SeenIsReachedOrStuck(s: Tables, i: nat, t: PaymentStatus)
    requires Inv(s) && i < |s.orders| && Seen(s.events, s.orders[i], t)
    ensures Passed(t, s.orders[i].payment)
            || (s.orders[i].payment != t && !PaymentMayMove(s.orders[i].payment, t))
  {
    var o := s.orders[i];
    var k :| 0 <= k < |s.events| && Owns(o, s.events[k]) && AmountMatches(s.events[k].event, o)
             && Target(s.events[k].event.kind) == t;
    assert Fits(o, s.events[k]);
    if s.events[k].status.Waiting? {
      assert QuietFor(s.orders, s.events, s.events[k].event.paymentId);
      assert WaitsFor(s.events[k], s.events[k].event.paymentId);
      assert Stuck(o, s.events[k].event);
    }
  }

  lemma BackedIsSeen(events: seq<EventRow>, o: Order, t: PaymentStatus)
    requires Backed(events, o, t)
    ensures t in SeenTargets(events, o)
  {
    var k :| 0 <= k < |events| && Backs(events[k], o, t);
    assert Seen(events, o, t);
  }

  lemma SeenFacts(s: Tables, i: nat)
    requires Inv(s) && i < |s.orders|
    ensures var o, seen := s.orders[i], SeenTargets(s.events, s.orders[i]);
            && (forall t <- seen :: Passed(t, o.payment) || (o.payment != t && !PaymentMayMove(o.payment, t)))
            && (!o.payment.Pending? ==> o.payment in seen)
            && (PastCapture(o.payment) ==> Captured in seen)
            && (o.payment.Refunded? ==> RefundPending in seen)
  {
    var o := s.orders[i];
    forall t | t in SeenTargets(s.events, o) { SeenIsReachedOrStuck(s, i, t); }
    assert SupportOk(s.events, o);
    forall t | Backed(s.events, o, t) { BackedIsSeen(s.events, o, t); }
  }

  /**
   In every store the transactions can leave behind, the payment status of an order is a
   function of which statuses its matching events ask for, if those are compatible.
   */
  lemma EventsDecideStatus(s: Tables, i: nat)
    requires Inv(s) && i < |s.orders| && Compatible(SeenTargets(s.events, s.orders[i]))
    ensures s.orders[i].payment == FinalStatus(SeenTargets(s.events, s.orders[i]))
  {
    hide Inv, SeenTargets;
    SeenFacts(s, i);
    SeenDecides(s.orders[i].payment, SeenTargets(s.events, s.orders[i]));
  }

  lemma SeenDecides(p: PaymentStatus, seen: set<PaymentStatus>)
    requires Compatible(seen)
    requires forall t <- seen :: Passed(t, p) || (p != t && !PaymentMayMove(p, t))
    requires !p.Pending? ==> p in seen
    requires PastCapture(p) ==> Captured in seen
    requires p.Refunded? ==> RefundPending in seen
    ensures p == FinalStatus(seen)
  {
  }

  /** A captured fee is the fee of one of the captured events. */
  lemma FeeIsSeen(s: Tables, i: nat)
    requires Inv(s) && i < |s.orders| && PastCapture(s.orders[i].payment)
    ensures exists k :: 0 <= k < |s.events| && Owns(s.orders[i], s.events[k]) && AmountMatches(s.events[k].event, s.orders[i])
                        && Target(s.events[k].event.kind).Captured? && s.events[k].event.fee == s.orders[i].fee
  {
    assert SupportOk(s.events, s.orders[i]);
    var k :| 0 <= k < |s.events| && Backs(s.events[k], s.orders[i], Captured);
  }

  // ----- Deliveries ------------------------------------------------------------------------------

  datatype Delivery = Delivery(event: Event, receivedAt: string)

  function Receive(s: Tables, ds: seq<Delivery>): Tables
    decreases |ds|
  {
    if ds == [] then s else Receive(Ingest(s, ds[0].event, ds[0].receivedAt).0, ds[1..])
  }

  function EventsOf(ds: seq<Delivery>): seq<Event> {
    seq(|ds|, k requires 0 <= k < |ds| => ds[k].event)
  }

  /** The store accepts the event for order `o`: it is well formed and from the order's provider. */
  predicate ForOrder(environment: Environment, o: Order, e: Event) {
    ValidEvent(environment, e) && o.paymentId == Some(e.paymentId) && o.provider == e.provider
  }

  /** Events for order `i` whose identifiers never name two different events, nor one already stored. */
  ghost predicate Batch(s: Tables, i: nat, es: seq<Event>) {
    && i < |s.orders|
    && (forall e <- es :: ForOrder(s.environment, s.orders[i], e))
    && (forall a, b :: a in es && b in es && a.id == b.id ==> a == b)
    && (forall k, e :: 0 <= k < |s.events| && e in es && s.events[k].event.id == e.id ==> s.events[k].event == e)
  }

  /** The distinct events stored for an order. */
  ghost predicate Stored(events: seq<EventRow>, o: Order, e: Event) {
    exists k :: 0 <= k < |events| && Owns(o, events[k]) && events[k].event == e
  }

  lemma IngestStores(s: Tables, i: nat, e: Event, receivedAt: string)
    requires Inv(s) && Batch(s, i, [e])
    ensures Extends(s, Ingest(s, e, receivedAt).0, i, e)
  {
    assert e in [e];
    hide Inv, UniqueOrders, Extends, Ingest;
    InvRow(s, i);
    KeyIsFound(s.orders, i, ByPayment(e.paymentId));
    var found := FindEvent(s.events, e.id);
    if found.Some? {
      assert s.events[found.value].event == e;
      RepeatIsIgnored(s, i, e, receivedAt);
    } else {
      FreshIngestStores(s, i, e, receivedAt);
    }
  }

  /** An event that is already stored, with the same payload, leaves the tables as they are. */
  lemma RepeatIsIgnored(s: Tables, i: nat, e: Event, receivedAt: string)
    requires i < |s.orders| && ForOrder(s.environment, s.orders[i], e)
    requires FindEvent(s.events, e.id).Some? && s.events[FindEvent(s.events, e.id).value].event == e
    requires FindOrder(s.orders, ByPayment(e.paymentId)) == Some(i)
    ensures Ingest(s, e, receivedAt).0 == s && Ingest(s, e, receivedAt).1.Ok? && Ingest(s, e, receivedAt).1.value.duplicate
    ensures Extends(s, s, i, e)
  {
  }

  /** `s'` holds the rows of `s`, at most one more row, for `e`, and at least one row for `e`. */
  ghost predicate Extends(s: Tables, s': Tables, i: nat, e: Event) {
    && i < |s.orders| == |s'.orders| && s'.environment == s.environment && s'.costs == s.costs
    && SameIdentity(s.orders[i], s'.orders[i]) && Follows(s.orders[i], s'.orders[i])
    && |s.events| <= |s'.events|
    && (forall k :: 0 <= k < |s.events| ==> s'.events[k].event == s.events[k].event)
    && (forall k :: |s.events| <= k < |s'.events| ==> s'.events[k].event == e)
    && (exists k :: 0 <= k < |s'.events| && s'.events[k].event == e)
  }

  lemma FreshIngestStores(s: Tables, i: nat, e: Event, receivedAt: string)
    requires Inv(s) && i < |s.orders| && ForOrder(s.environment, s.orders[i], e) && FindEvent(s.events, e.id).None?
    requires FindOrder(s.orders, ByPayment(e.paymentId)) == Some(i)
    ensures Extends(s, Ingest(s, e, receivedAt).0, i, e)
  {
    hide OrdersOk, LedgersOk, TrailsOk, EventsOk, SupportsOk, AllQuiet, QuietFor;
    var row := EventRow(e, receivedAt, Waiting, None);
    var s1 := s.(events := s.events + [row]);
    InsertKeepsBase(s, i, row);
    DrainKeeps(s1, e.paymentId);
    hide Base;
    var s' := Drain(s1, e.paymentId);
    forall k | 0 <= k < |s'.events|
      ensures s'.events[k].event == s1.events[k].event
    {
      assert KeepsEvent(s1.events[k], s'.events[k], e.paymentId);
    }
    assert s'.events[|s.events|].event == e;
  }

  lemma EventsOfTail(ds: seq<Delivery>)
    requires ds != []
    ensures EventsOf(ds) == [ds[0].event] + EventsOf(ds[1..])
  {
  }

  /** Taking in the first event of a batch leaves a batch. */
  lemma BatchShrinks(s: Tables, s1: Tables, i: nat, ds: seq<Delivery>)
    requires ds != [] && Batch(s, i, EventsOf(ds)) && Extends(s, s1, i, ds[0].event)
    ensures Batch(s1, i, EventsOf(ds[1..]))
  {
    EventsOfTail(ds);
    assert ds[0].event in EventsOf(ds) && forall x <- EventsOf(ds[1..]) :: x in EventsOf(ds);
  }

  lemma BatchHead(s: Tables, i: nat, ds: seq<Delivery>)
    requires ds != [] && Batch(s, i, EventsOf(ds))
    ensures Batch(s, i, [ds[0].event])
    ensures forall e :: e in EventsOf(ds) <==> e == ds[0].event || e in EventsOf(ds[1..])
  {
    EventsOfTail(ds);
    assert ds[0].event in EventsOf(ds);
  }

  /** `s'` holds what `s` held and the given events for order `i`; nothing else was added. */
  ghost predicate Received(s: Tables, s': Tables, i: nat, es: seq<Event>) {
    && i < |s.orders| == |s'.orders| && s'.costs == s.costs && s'.environment == s.environment
    && SameIdentity(s.orders[i], s'.orders[i]) && Follows(s.orders[i], s'.orders[i])
    && (forall e :: Stored(s'.events, s'.orders[i], e) <==> Stored(s.events, s.orders[i], e) || e in es)
    && (forall k :: 0 <= k < |s'.events| ==> OldOrNew(s.events, k, s'.events[k].event, es))
  }

  predicate OldOrNew(events: seq<EventRow>, k: nat, e: Event, es: seq<Event>) {
    (k < |events| && e == events[k].event) || e in es
  }

  lemma ReceivedChains(s: Tables, s1: Tables, s2: Tables, i: nat, e: Event, es: seq<Event>, all: seq<Event>)
    requires Extends(s, s1, i, e) && s.orders[i].paymentId == Some(e.paymentId) && Received(s1, s2, i, es)
    requires forall x :: x in all <==> x == e || x in es
    ensures Received(s, s2, i, all)
  {
    OneMoreStored(s, s1, i, e);
    hide Stored;
    forall k | 0 <= k < |s2.events|
      ensures OldOrNew(s.events, k, s2.events[k].event, all)
    {
      assert OldOrNew(s1.events, k, s2.events[k].event, es);
    }
  }

  /** After a batch the table holds what it held before and the events of the batch, however they arrived. */
  lemma {:induction false} ReceiveStores(s: Tables, i: nat, ds: seq<Delivery>)
    requires Inv(s) && Batch(s, i, EventsOf(ds))
    ensures Inv(Receive(s, ds)) && Received(s, Receive(s, ds), i, EventsOf(ds))
    decreases |ds|
  {
    hide Inv, Received, Extends, Ingest;
    if ds == [] {
      NothingReceived(s, i);
    } else {
      var s1 := Ingest(s, ds[0].event, ds[0].receivedAt).0;
      BatchHead(s, i, ds);
      IngestStores(s, i, ds[0].event, ds[0].receivedAt);
      IngestKeepsInv(s, ds[0].event, ds[0].receivedAt);
      BatchShrinks(s, s1, i, ds);
      ReceiveStores(s1, i, ds[1..]);
      assert ds[0].event in EventsOf(ds);
      ReceivedChains(s, s1, Receive(s1, ds[1..]), i, ds[0].event, EventsOf(ds[1..]), EventsOf(ds));
    }
  }

  lemma NothingReceived(s: Tables, i: nat)
    requires i < |s.orders|
    ensures Received(s, s, i, [])
  {
  }

  lemma OneMoreStored(s: Tables, s1: Tables, i: nat, e: Event)
    requires Extends(s, s1, i, e) && s.orders[i].paymentId == Some(e.paymentId)
    ensures forall x :: Stored(s1.events, s1.orders[i], x) <==> Stored(s.events, s.orders[i], x) || x == e
  {
    forall x
      ensures Stored(s1.events, s1.orders[i], x) <==> Stored(s.events, s.orders[i], x) || x == e
    {
      if Stored(s1.events, s1.orders[i], x) && x != e {
        var k :| 0 <= k < |s1.events| && Owns(s1.orders[i], s1.events[k]) && s1.events[k].event == x;
        assert Owns(s.orders[i], s.events[k]);
      }
      if Stored(s.events, s.orders[i], x) {
        var k :| 0 <= k < |s.events| && Owns(s.orders[i], s.events[k]) && s.events[k].event == x;
        assert Owns(s1.orders[i], s1.events[k]);
      }
      var k :| 0 <= k < |s1.events| && s1.events[k].event == e;
      assert Owns(s1.orders[i], s1.events[k]);
    }
  }

  // ----- Outcomes ----------------------------------------------------------------------------------

  datatype OrderOutcome = OrderOutcome(
    status: OrderStatus, payment: PaymentStatus, collected: int, fee: int, refunded: int, contribution: int)

  function OutcomeOf(s: Tables, i: nat): OrderOutcome
    requires i < |s.orders|
  {
    var o := s.orders[i];
    OrderOutcome(o.status, o.payment, o.collected, o.fee, o.refunded, Impact(s.entries, o.id))
  }

  /** An order whose checkout is attached, with no provider event yet. */
  ghost predicate Awaiting(s: Tables, i: nat) {
    && i < |s.orders| && s.orders[i].status.PaymentPending? && s.orders[i].paymentId.Some?
    && forall k :: 0 <= k < |s.events| ==> !Owns(s.orders[i], s.events[k])
  }

  predicate Requests(o: Order, e: Event, t: PaymentStatus) {
    AmountMatches(e, o) && Target(e.kind) == t
  }

  predicate Asks(o: Order, es: seq<Event>, t: PaymentStatus) {
    exists e <- es :: Requests(o, e, t)
  }

  ghost function Requested(o: Order, es: seq<Event>): set<PaymentStatus> {
    set t: PaymentStatus | Asks(o, es, t)
  }

  /** All matching captured events carry one fee. */
  predicate OneFee(o: Order, es: seq<Event>) {
    forall a <- es, b <- es :: Requests(o, a, Captured) && Requests(o, b, Captured) ==> a.fee == b.fee
  }

  /** What the table says after a batch for an awaiting order. */
  lemma ReceivedTargets(s: Tables, i: nat, ds: seq<Delivery>)
    requires Inv(s) && Awaiting(s, i) && Batch(s, i, EventsOf(ds))
    ensures var s' := Receive(s, ds);
            && i < |s'.orders| && SeenTargets(s'.events, s'.orders[i]) == Requested(s.orders[i], EventsOf(ds))
  {
    hide Inv;
    ReceiveStores(s, i, ds);
    hide Batch;
    var s', o, es := Receive(s, ds), s.orders[i], EventsOf(ds);
    var o' := s'.orders[i];
    assert forall e :: !Stored(s.events, o, e);
    forall t: PaymentStatus
      ensures Seen(s'.events, o', t) <==> Asks(o, es, t)
    {
      if Seen(s'.events, o', t) {
        var k :| 0 <= k < |s'.events| && Owns(o', s'.events[k]) && AmountMatches(s'.events[k].event, o')
                 && Target(s'.events[k].event.kind) == t;
        assert Stored(s'.events, o', s'.events[k].event);
        assert Requests(o, s'.events[k].event, t);
      }
      if e :| e in es && Requests(o, e, t) {
        assert Stored(s'.events, o', e);
        var k :| 0 <= k < |s'.events| && Owns(o', s'.events[k]) && s'.events[k].event == e;
        assert AmountMatches(s'.events[k].event, o');
      }
    }
  }

  lemma ReceivedFee(s: Tables, i: nat, ds: seq<Delivery>)
    requires Inv(s) && Awaiting(s, i) && Batch(s, i, EventsOf(ds))
    requires i < |Receive(s, ds).orders| && PastCapture(Receive(s, ds).orders[i].payment)
    ensures HasFee(s.orders[i], EventsOf(ds), Receive(s, ds).orders[i].fee)
  {
    hide Inv, Batch;
    ReceiveStores(s, i, ds);
    var s' := Receive(s, ds);
    FeeIsSeen(s', i);
    var o' := s'.orders[i];
    var k :| 0 <= k < |s'.events| && Owns(o', s'.events[k]) && AmountMatches(s'.events[k].event, o')
             && Target(s'.events[k].event.kind).Captured? && s'.events[k].event.fee == o'.fee;
    assert Stored(s'.events, o', s'.events[k].event);
    assert forall e :: !Stored(s.events, s.orders[i], e);
    assert Requests(s.orders[i], s'.events[k].event, Captured);
  }

  /** The contribution of an order, from its own columns and the recorded costs. */
  lemma ContributionOf(s: Tables, i: nat)
    requires Inv(s) && i < |s.orders|
    ensures Impact(s.entries, s.orders[i].id)
            == s.orders[i].collected - s.orders[i].fee - s.orders[i].refunded - ShownCosts(s.entries, s.orders[i].id)
    ensures forall c <- DIRECT_COST_CATEGORIES :: !s.orders[i].costsRecorded ==> DirectCosts(s.entries, s.orders[i].id)[c] == 0
    ensures forall r <- s.costs :: r.orderId == s.orders[i].id ==> DirectCosts(s.entries, s.orders[i].id) == r.costs
    ensures s.orders[i].costsRecorded ==> exists r <- s.costs :: r.orderId == s.orders[i].id
  {
    assert LedgerOk(s.entries, s.costs, s.orders[i]);
    ImpactByCategory(s.entries, s.orders[i].id);
    AllCategoriesListed();
  }

  lemma SameCostsShown(s1: Tables, s2: Tables, i: nat)
    requires Inv(s1) && Inv(s2) && i < |s1.orders| && i < |s2.orders| && s1.costs == s2.costs
    requires s1.orders[i].id == s2.orders[i].id && s1.orders[i].costsRecorded == s2.orders[i].costsRecorded
    ensures ShownCosts(s1.entries, s1.orders[i].id) == ShownCosts(s2.entries, s2.orders[i].id)
  {
    ContributionOf(s1, i);
    ContributionOf(s2, i);
    hide Inv;
    var id := s1.orders[i].id;
    if s1.orders[i].costsRecorded {
      var r :| r in s1.costs && r.orderId == id;
      assert DirectCosts(s1.entries, id) == r.costs == DirectCosts(s2.entries, id);
    } else {
      AllCategoriesListed();
      assert DirectCosts(s1.entries, id) == DirectCosts(s2.entries, id);
    }
  }

  /** The row of an awaiting order after a batch with compatible requests. */
  lemma CompatibleRow(s: Tables, i: nat, ds: seq<Delivery>)
    requires Inv(s) && Awaiting(s, i) && Batch(s, i, EventsOf(ds))
    requires Compatible(Requested(s.orders[i], EventsOf(ds)))
    ensures var s' := Receive(s, ds);
            && i < |s'.orders| && Inv(s') && s'.costs == s.costs
            && SameIdentity(s.orders[i], s'.orders[i]) && Early(s'.orders[i]) && RowOk(s'.orders[i])
            && s'.orders[i].payment == FinalStatus(Requested(s.orders[i], EventsOf(ds)))
  {
    hide Inv, Batch, Requested, SeenTargets, Stored;
    ReceiveStores(s, i, ds);
    ReceivedTargets(s, i, ds);
    var s' := Receive(s, ds);
    assert Early(s'.orders[i]);
    hide Awaiting;
    EventsDecideStatus(s', i);
    InvRow(s', i);
  }

  /** Before fulfilment the payment status and the fee determine the whole outcome. */
  lemma EarlyRowsAgree(o: Order, a: Order, b: Order)
    requires SameIdentity(o, a) && SameIdentity(o, b) && RowOk(a) && RowOk(b) && Early(a) && Early(b)
    requires a.payment == b.payment && (PastCapture(a.payment) ==> a.fee == b.fee)
    ensures a.status == b.status && a.collected == b.collected && a.fee == b.fee && a.refunded == b.refunded
  {
  }

  lemma OutcomesAgree(s: Tables, s1: Tables, s2: Tables, i: nat)
    requires Inv(s1) && Inv(s2) && i < |s.orders| && i < |s1.orders| && i < |s2.orders| && s1.costs == s2.costs
    requires SameIdentity(s.orders[i], s1.orders[i]) && SameIdentity(s.orders[i], s2.orders[i])
    requires Early(s1.orders[i]) && Early(s2.orders[i]) && s1.orders[i].payment == s2.orders[i].payment
    requires PastCapture(s1.orders[i].payment) ==> s1.orders[i].fee == s2.orders[i].fee
    ensures OutcomeOf(s1, i) == OutcomeOf(s2, i)
  {
    hide Inv;
    InvRow(s1, i);
    InvRow(s2, i);
    EarlyRowsAgree(s.orders[i], s1.orders[i], s2.orders[i]);
    ContributionOf(s1, i);
    ContributionOf(s2, i);
    SameCostsShown(s1, s2, i);
  }

  predicate HasFee(o: Order, es: seq<Event>, fee: int) {
    exists e <- es :: Requests(o, e, Captured) && e.fee == fee
  }

  lemma OneFeeIsShared(o: Order, e1: seq<Event>, e2: seq<Event>, a: int, b: int)
    requires OneFee(o, e1) && HasFee(o, e1, a) && HasFee(o, e2, b) && forall e :: e in e1 <==> e in e2
    ensures a == b
  {
  }

  /** The outcome of a batch for an awaiting order, when its requests are compatible and its captured fees agree. */
  lemma CompatibleOutcome(s: Tables, i: nat, d1: seq<Delivery>, d2: seq<Delivery>)
    requires Inv(s) && Awaiting(s, i) && Batch(s, i, EventsOf(d1)) && Batch(s, i, EventsOf(d2))
    requires forall e :: e in EventsOf(d1) <==> e in EventsOf(d2)
    requires Compatible(Requested(s.orders[i], EventsOf(d1))) && OneFee(s.orders[i], EventsOf(d1))
    ensures i < |Receive(s, d1).orders| && i < |Receive(s, d2).orders|
    ensures OutcomeOf(Receive(s, d1), i) == OutcomeOf(Receive(s, d2), i)
  {
    assert i < |s.orders|;
    hide Inv, Batch, Awaiting, OneFee, HasFee, Receive, OutcomeOf;
    var s1, s2 := Receive(s, d1), Receive(s, d2);
    assert Requested(s.orders[i], EventsOf(d1)) == Requested(s.orders[i], EventsOf(d2));
    hide Requested;
    CompatibleRow(s, i, d1);
    CompatibleRow(s, i, d2);
    if PastCapture(s1.orders[i].payment) {
      ReceivedFee(s, i, d1);
      ReceivedFee(s, i, d2);
      OneFeeIsShared(s.orders[i], EventsOf(d1), EventsOf(d2), s1.orders[i].fee, s2.orders[i].fee);
    }
    OutcomesAgree(s, s1, s2, i);
  }

  // ----- When arrival order matters -------------------------------------------------------------------

  /** However the events are ordered and stamped, the order ends up the same. */
  ghost predicate OrderIndependent(s: Tables, i: nat, es: seq<Event>) {
    forall d1, d2 :: multiset(EventsOf(d1)) == multiset(es) && multiset(EventsOf(d2)) == multiset(es)
                     && i < |Receive(s, d1).orders| && i < |Receive(s, d2).orders|
                     ==> OutcomeOf(Receive(s, d1), i) == OutcomeOf(Receive(s, d2), i)
  }

  function Stamped(es: seq<Event>): (ds: seq<Delivery>)
    ensures EventsOf(ds) == es
  {
    seq(|es|, k requires 0 <= k < |es| => Delivery(es[k], ""))
  }

  /** Any of the events can be delivered first. */
  lemma {:induction false} BringForward(es: seq<Event>, e: Event) returns (rest: seq<Event>)
    requires e in es
    ensures multiset([e] + rest) == multiset(es)
  {
    var k :| 0 <= k < |es| && es[k] == e;
    rest := es[..k] + es[k + 1..];
    assert es == es[..k] + [e] + es[k + 1..];
  }

  lemma BatchOfPermutation(s: Tables, i: nat, es: seq<Event>, es': seq<Event>)
    requires Batch(s, i, es) && multiset(es') <= multiset(es)
    ensures Batch(s, i, es')
    ensures forall e <- es' :: e in es
  {
    forall e <- es'
      ensures e in es
    {
      assert e in multiset(es');
    }
  }

  lemma {:induction false} ReceiveAppends(s: Tables, a: seq<Delivery>, b: seq<Delivery>)
    ensures Receive(s, a + b) == Receive(Receive(s, a), b)
    decreases |a|
  {
    if a == [] {
      assert a + b == b;
    } else {
      assert (a + b)[1..] == a[1..] + b;
      ReceiveAppends(Ingest(s, a[0].event, a[0].receivedAt).0, a[1..], b);
    }
  }

  /** The payment and fee that a compatible prefix leads to, and that later events cannot undo. */
  lemma PrefixDecides(s: Tables, i: nat, front: seq<Event>, rest: seq<Event>)
    requires Inv(s) && Awaiting(s, i) && Batch(s, i, front + rest) && Compatible(Requested(s.orders[i], front))
    ensures var s' := Receive(s, Stamped(front + rest));
            var p := FinalStatus(Requested(s.orders[i], front));
            && i < |s'.orders|
            && (p.Failed? || p.Refunded? || p.Disputed? ==> s'.orders[i].payment == p)
            && (PastCapture(p) ==> PastCapture(s'.orders[i].payment) && HasFee(s.orders[i], front, s'.orders[i].fee))
  {
    assert forall e <- front :: e in front + rest;
    assert forall e <- rest :: e in front + rest;
    var a, b := Stamped(front), Stamped(rest);
    assert Stamped(front + rest) == a + b;
    ReceiveAppends(s, a, b);
    ReceiveStores(s, i, a);
    ReceivedTargets(s, i, a);
    var s1 := Receive(s, a);
    EventsDecideStatus(s1, i);
    if PastCapture(s1.orders[i].payment) { ReceivedFee(s, i, a); }
    assert Batch(s1, i, rest) by { StoredBatch(s, s1, i, a, front, rest); }
    hide Inv;
    ReceiveStores(s1, i, b);
  }

  lemma StoredBatch(s: Tables, s1: Tables, i: nat, a: seq<Delivery>, front: seq<Event>, rest: seq<Event>)
    requires Inv(s) && Batch(s, i, front + rest) && s1 == Receive(s, a) && EventsOf(a) == front
    requires |s1.orders| == |s.orders| && SameIdentity(s.orders[i], s1.orders[i])
    ensures Batch(s1, i, rest)
  {
    assert forall e <- rest :: e in front + rest;
    assert forall e <- front :: e in front + rest;
    hide Inv;
    ReceiveStores(s, i, a);
  }

  /** Two prefixes that settle the order differently make a batch depend on its order. */
  lemma PrefixesDisagree(s: Tables, i: nat, es: seq<Event>, f1: seq<Event>, r1: seq<Event>, f2: seq<Event>, r2: seq<Event>)
    requires Inv(s) && Awaiting(s, i) && Batch(s, i, es)
    requires multiset(f1 + r1) == multiset(es) && multiset(f2 + r2) == multiset(es)
    requires Compatible(Requested(s.orders[i], f1)) && Compatible(Requested(s.orders[i], f2))
    requires var p1, p2 := FinalStatus(Requested(s.orders[i], f1)), FinalStatus(Requested(s.orders[i], f2));
             || (PastCapture(p1) && p2.Failed?)
             || (p1.Disputed? && p2.Refunded?)
             || (PastCapture(p1) && PastCapture(p2)
                 && forall fee :: HasFee(s.orders[i], f1, fee) ==> !HasFee(s.orders[i], f2, fee))
    ensures !OrderIndependent(s, i, es)
  {
    BatchOfPermutation(s, i, es, f1 + r1);
    BatchOfPermutation(s, i, es, f2 + r2);
    PrefixDecides(s, i, f1, r1);
    PrefixDecides(s, i, f2, r2);
    var d1, d2 := Stamped(f1 + r1), Stamped(f2 + r2);
    hide Inv;
    assert OutcomeOf(Receive(s, d1), i) != OutcomeOf(Receive(s, d2), i);
  }

  lemma RequestedByFew(o: Order, es: seq<Event>)
    ensures |es| == 1 && AmountMatches(es[0], o) ==> Requested(o, es) == {Target(es[0].kind)}
    ensures |es| == 2 && AmountMatches(es[0], o) && AmountMatches(es[1], o) ==>
              Requested(o, es) == {Target(es[0].kind), Target(es[1].kind)}
    ensures |es| == 3 && AmountMatches(es[0], o) && AmountMatches(es[1], o) && AmountMatches(es[2], o) ==>
              Requested(o, es) == {Target(es[0].kind), Target(es[1].kind), Target(es[2].kind)}
  {
    forall k | 0 <= k < |es| && AmountMatches(es[k], o)
      ensures Target(es[k].kind) in Requested(o, es)
    {
      assert es[k] in es && Requests(o, es[k], Target(es[k].kind));
    }
  }

  lemma FailureDepends(s: Tables, i: nat, es: seq<Event>, c: Event, f: Event)
    requires Inv(s) && Awaiting(s, i) && Batch(s, i, es) && c in es && f in es
    requires Requests(s.orders[i], c, Captured) && Requests(s.orders[i], f, Failed)
    ensures !OrderIndependent(s, i, es)
  {
    assert i < |s.orders|;
    hide Inv, OrderIndependent, Batch, Awaiting, Requested;
    var rc := BringForward(es, c);
    var rf := BringForward(es, f);
    RequestedByFew(s.orders[i], [c]);
    RequestedByFew(s.orders[i], [f]);
    PrefixesDisagree(s, i, es, [c], rc, [f], rf);
  }

  lemma BringTwoForward(es: seq<Event>, a: Event, b: Event) returns (rest: seq<Event>)
    requires a in es && b in es && a != b
    ensures multiset([a, b] + rest) == multiset(es)
  {
    var r1 := BringForward(es, a);
    InRest(es, a, r1, b);
    rest := BringForward(r1, b);
    assert [a, b] + rest == [a] + ([b] + rest);
  }

  lemma BringThreeForward(es: seq<Event>, a: Event, b: Event, c: Event) returns (rest: seq<Event>)
    requires a in es && b in es && c in es && a != b && a != c && b != c
    ensures multiset([a, b, c] + rest) == multiset(es)
  {
    var r1 := BringForward(es, a);
    InRest(es, a, r1, b);
    InRest(es, a, r1, c);
    rest := BringTwoForward(r1, b, c);
    assert [a, b, c] + rest == [a] + ([b, c] + rest);
  }

  lemma DisputeAndRefundCompete()
    ensures Compatible({Captured, Disputed}) && FinalStatus({Captured, Disputed}) == Disputed
    ensures Compatible({Captured, RefundPending, Refunded}) && FinalStatus({Captured, RefundPending, Refunded}) == Refunded
  {
  }

  lemma DisputeDepends(s: Tables, i: nat, es: seq<Event>, c: Event, d: Event, p: Event, r: Event)
    requires Inv(s) && Awaiting(s, i) && Batch(s, i, es) && c in es && d in es && p in es && r in es
    requires Requests(s.orders[i], c, Captured) && Requests(s.orders[i], d, Disputed)
    requires Requests(s.orders[i], p, RefundPending) && Requests(s.orders[i], r, Refunded)
    ensures !OrderIndependent(s, i, es)
  {
    assert i < |s.orders|;
    var o := s.orders[i];
    var disputes, refunds := [c, d], [c, p, r];
    RequestedByFew(o, disputes);
    RequestedByFew(o, refunds);
    DisputeAndRefundCompete();
    hide Inv, OrderIndependent, Batch, Awaiting, Requested, HasFee, Compatible, FinalStatus, AmountMatches;
    var disputedFirst := BringTwoForward(es, c, d);
    var refundedFirst := BringThreeForward(es, c, p, r);
    PrefixesDisagree(s, i, es, disputes, disputedFirst, refunds, refundedFirst);
  }

  lemma IncompatibleDepends(s: Tables, i: nat, es: seq<Event>)
    requires Inv(s) && Awaiting(s, i) && Batch(s, i, es) && !Compatible(Requested(s.orders[i], es))
    ensures !OrderIndependent(s, i, es)
  {
    hide Inv, OrderIndependent, Batch;
    var o := s.orders[i];
    assert Asks(o, es, Captured);
    var c :| c in es && Requests(o, c, Captured);
    if Asks(o, es, Failed) {
      var f :| f in es && Requests(o, f, Failed);
      FailureDepends(s, i, es, c, f);
    } else {
      assert Asks(o, es, Disputed) && Asks(o, es, RefundPending) && Asks(o, es, Refunded);
      var d :| d in es && Requests(o, d, Disputed);
      var p :| p in es && Requests(o, p, RefundPending);
      var r :| r in es && Requests(o, r, Refunded);
      DisputeDepends(s, i, es, c, d, p, r);
    }
  }

  lemma InRest(es: seq<Event>, e: Event, rest: seq<Event>, x: Event)
    requires multiset([e] + rest) == multiset(es) && x in es && x != e
    ensures x in rest
  {
    assert x in multiset(es);
    assert x in multiset([e] + rest);
  }

  lemma TwoFeesDepend(s: Tables, i: nat, es: seq<Event>)
    requires Inv(s) && Awaiting(s, i) && Batch(s, i, es) && !OneFee(s.orders[i], es)
    ensures !OrderIndependent(s, i, es)
  {
    hide Inv, OrderIndependent, Batch;
    var o := s.orders[i];
    var a, b :| a in es && b in es && Requests(o, a, Captured) && Requests(o, b, Captured) && a.fee != b.fee;
    var ra := BringForward(es, a);
    var rb := BringForward(es, b);
    RequestedByFew(o, [a]);
    RequestedByFew(o, [b]);
    PrefixesDisagree(s, i, es, [a], ra, [b], rb);
  }

  /**
   For an order waiting for its first event, a batch of events leads to one outcome for every
   order of arrival and every received_at exactly when the requested statuses are compatible
   and the captured fees agree.
   */
  lemma ArrivalOrderIndependence(s: Tables, i: nat, es: seq<Event>)
    requires Reachable(s) && Awaiting(s, i) && Batch(s, i, es)
    ensures OrderIndependent(s, i, es) <==> Compatible(Requested(s.orders[i], es)) && OneFee(s.orders[i], es)
  {
    ReachableInv(s);
    if Compatible(Requested(s.orders[i], es)) && OneFee(s.orders[i], es) {
      forall d1, d2 | multiset(EventsOf(d1)) == multiset(es) && multiset(EventsOf(d2)) == multiset(es)
        ensures i < |Receive(s, d1).orders| && i < |Receive(s, d2).orders|
        ensures OutcomeOf(Receive(s, d1), i) == OutcomeOf(Receive(s, d2), i)
      {
        hide Inv;
        SameMembers(EventsOf(d1), es);
        SameMembers(EventsOf(d2), es);
        BatchOfPermutation(s, i, es, EventsOf(d1));
        BatchOfPermutation(s, i, es, EventsOf(d2));
        assert Requested(s.orders[i], EventsOf(d1)) == Requested(s.orders[i], es);
        CompatibleOutcome(s, i, d1, d2);
      }
    } else if !Compatible(Requested(s.orders[i], es)) {
      IncompatibleDepends(s, i, es);
    } else {
      TwoFeesDepend(s, i, es);
    }
  }

  lemma SameMembers(a: seq<Event>, b: seq<Event>)
    requires multiset(a) == multiset(b)
    ensures forall e :: e in a <==> e in b
  {
    forall e
      ensures e in a <==> e in b
    {
      assert e in a <==> e in multiset(a);
      assert e in b <==> e in multiset(b);
    }
  }

  // ----- Whatever happens in between -------------------------------------------------------------------

  /** All matching captured events that the order has received carry one fee. */
  ghost predicate OneFeeStored(events: seq<EventRow>, o: Order) {
    forall a, b :: Stored(events, o, a) && Stored(events, o, b) && Requests(o, a, Captured) && Requests(o, b, Captured)
                   ==> a.fee == b.fee
  }

  /** The order has received the same events in both stores. */
  ghost predicate SameEvents(events1: seq<EventRow>, o1: Order, events2: seq<EventRow>, o2: Order) {
    && o1.quoted == o2.quoted && o1.currency == o2.currency
    && forall e: Event :: Stored(events1, o1, e) <==> Stored(events2, o2, e)
  }

  lemma SameEventsSameTargets(events1: seq<EventRow>, o1: Order, events2: seq<EventRow>, o2: Order, t: PaymentStatus)
    requires SameEvents(events1, o1, events2, o2) && Seen(events1, o1, t)
    ensures Seen(events2, o2, t)
  {
    var k :| 0 <= k < |events1| && Owns(o1, events1[k]) && AmountMatches(events1[k].event, o1) && Target(events1[k].event.kind) == t;
    var e := events1[k].event;
    assert Stored(events1, o1, e) && Stored(events2, o2, e);
    var m :| 0 <= m < |events2| && Owns(o2, events2[m]) && events2[m].event == e;
  }

  lemma SameTargets(events1: seq<EventRow>, o1: Order, events2: seq<EventRow>, o2: Order)
    requires SameEvents(events1, o1, events2, o2)
    ensures SeenTargets(events1, o1) == SeenTargets(events2, o2)
  {
    forall t: PaymentStatus ensures Seen(events1, o1, t) <==> Seen(events2, o2, t) {
      if Seen(events1, o1, t) { SameEventsSameTargets(events1, o1, events2, o2, t); }
      if Seen(events2, o2, t) { SameEventsSameTargets(events2, o2, events1, o1, t); }
    }
  }

  /** A captured order's fee is that of a stored event. */
  lemma FeeIsStored(s: Tables, i: nat) returns (e: Event)
    requires Inv(s) && i < |s.orders| && PastCapture(s.orders[i].payment)
    ensures Stored(s.events, s.orders[i], e) && Requests(s.orders[i], e, Captured) && e.fee == s.orders[i].fee
  {
    hide Inv, PastCapture;
    FeeIsSeen(s, i);
    var o := s.orders[i];
    var k :| 0 <= k < |s.events| && Owns(o, s.events[k]) && AmountMatches(s.events[k].event, o)
             && Target(s.events[k].event.kind).Captured? && s.events[k].event.fee == o.fee;
    e := s.events[k].event;
  }

  /**
   Any two runs, with the events of other orders, cost records and fulfilment anywhere between, that bring
   an order the same compatible events with one captured fee leave it with the same payment status and the
   same money: whatever was collected, refunded and paid in fees, and the contribution before direct costs.
   */
  lemma EventsDecideMoney(s1: Tables, i1: nat, s2: Tables, i2: nat)
    requires Reachable(s1) && Reachable(s2) && i1 < |s1.orders| && i2 < |s2.orders|
    requires SameEvents(s1.events, s1.orders[i1], s2.events, s2.orders[i2])
    requires Compatible(SeenTargets(s1.events, s1.orders[i1])) && OneFeeStored(s1.events, s1.orders[i1])
    ensures var o1, o2 := s1.orders[i1], s2.orders[i2];
            && o1.payment == o2.payment && o1.collected == o2.collected && o1.fee == o2.fee && o1.refunded == o2.refunded
            && (o1.status.PaymentFailed? <==> o2.status.PaymentFailed?)
            && Impact(s1.entries, o1.id) + ShownCosts(s1.entries, o1.id) == Impact(s2.entries, o2.id) + ShownCosts(s2.entries, o2.id)
  {
    hide Inv, Reachable, SeenTargets, SameEvents, OneFeeStored, ShownCosts;
    var o1, o2 := s1.orders[i1], s2.orders[i2];
    ReachableInv(s1);
    ReachableInv(s2);
    SameTargets(s1.events, o1, s2.events, o2);
    EventsDecideStatus(s1, i1);
    EventsDecideStatus(s2, i2);
    if PastCapture(o1.payment) { SameFee(s1, i1, s2, i2); }
    InvRow(s1, i1);
    InvRow(s2, i2);
    ContributionOf(s1, i1);
    ContributionOf(s2, i2);
    QuotesAgree(s1.events, o1, s2.events, o2);
  }

  lemma QuotesAgree(events1: seq<EventRow>, o1: Order, events2: seq<EventRow>, o2: Order)
    requires SameEvents(events1, o1, events2, o2)
    ensures o1.quoted == o2.quoted && o1.currency == o2.currency
  {
  }

  lemma SameFee(s1: Tables, i1: nat, s2: Tables, i2: nat)
    requires Inv(s1) && Inv(s2) && i1 < |s1.orders| && i2 < |s2.orders|
    requires SameEvents(s1.events, s1.orders[i1], s2.events, s2.orders[i2]) && OneFeeStored(s1.events, s1.orders[i1])
    requires PastCapture(s1.orders[i1].payment) && PastCapture(s2.orders[i2].payment)
    ensures s1.orders[i1].fee == s2.orders[i2].fee
  {
    hide Inv, Stored, PastCapture;
    var e1 := FeeIsStored(s1, i1);
    var e2 := FeeIsStored(s2, i2);
    assert Stored(s1.events, s1.orders[i1], e2) && Requests(s1.orders[i1], e2, Captured);
  }
}
