/** What an order looks like once one succeeded Stripe payment has been reconciled into it. */
module StripeOutcome {
  import opened Wrappers
  import opened CommerceStates
  import opened CommerceTables
  import opened CommerceTransactions
  import opened CommerceInvariant
  import opened CommerceSteps
  import opened CommerceRuns
  import opened CommerceArrival
  import opened StripeReplay

  /** Emitting a list of events is receiving them one by one. */
  function Deliveries(es: seq<Event>, received: nat -> string, k: nat): (ds: seq<Delivery>)
    ensures |ds| == |es|
    ensures EventsOf(ds) == es
  {
    if es == [] then [] else [Delivery(es[0], received(k))] + Deliveries(es[1..], received, k + 1)
  }

  lemma {:induction false} EmittedIsReceived(s: Tables, es: seq<Event>, received: nat -> string, k: nat)
    requires EmitAll(s, es, received, k).1
    ensures EmitAll(s, es, received, k).0 == Receive(s, Deliveries(es, received, k))
    decreases |es|
  {
    hide Ingest;
    if es != [] {
      var ds := Deliveries(es, received, k);
      assert ds[1..] == Deliveries(es[1..], received, k + 1);
      EmittedIsReceived(Ingest(s, es[0], received(k)).0, es[1..], received, k + 1);
    }
  }

  lemma IdsAreUnique(s: Tables, a: Event, b: Event)
    requires Inv(s) && OnFile(s, a) && OnFile(s, b) && a.id == b.id
    ensures a == b
  {
    hide OrdersOk, LedgersOk, TrailsOk, SupportsOk, AllQuiet, ValidEvent;
    var j :| 0 <= j < |s.events| && s.events[j].event == a;
    var k :| 0 <= k < |s.events| && s.events[k].event == b;
    assert j == k;
  }

  lemma AcceptedIsBatch(s: Tables, i: nat, es: seq<Event>, received: nat -> string)
    requires Inv(s) && i < |s.orders| && EmitAll(s, es, received, 0).1
    requires forall e <- es :: s.orders[i].paymentId == Some(e.paymentId) && s.orders[i].provider == e.provider
    ensures Batch(s, i, es)
  {
    hide Inv, EmitAll, OnFile, ValidEvent;
    EmittedAreOnFile(s, es, received, 0);
    var s' := EmitAll(s, es, received, 0).0;
    forall a, b | a in es && b in es && a.id == b.id ensures a == b {
      IdsAreUnique(s', a, b);
    }
    forall k, e | 0 <= k < |s.events| && e in es && s.events[k].event.id == e.id ensures s.events[k].event == e {
      StoredIsOnFile(s, k);
      IdsAreUnique(s', s.events[k].event, e);
    }
  }

  lemma StoredIsOnFile(s: Tables, k: nat)
    requires k < |s.events|
    ensures OnFile(s, s.events[k].event)
  {
  }

  /** The payment status that a charge calls for. */
  predicate ShowsCharge(c: Charge, p: PaymentStatus) {
    && (p.Disputed? <==> c.disputed)
    && (p.Refunded? <==> c.refunded && !c.disputed)
    && (p.Available? <==> c.fundsAvailable && !c.disputed && !c.refunded)
    && (p.Captured? <==> !c.fundsAvailable && !c.disputed && !c.refunded)
  }

  /** The kinds of event a charge calls for. */
  predicate Calls(c: Charge, kind: EventType) {
    match kind
    case PaymentCaptured => true
    case PaymentAvailable => c.fundsAvailable
    case PaymentDisputed => c.disputed
    case PaymentRefundPending => c.refunded && !c.disputed
    case PaymentRefunded => c.refunded && !c.disputed
    case PaymentFailure => false
  }

  predicate IsFor(e: Event, o: Order, c: Charge) {
    && e.amount == o.quoted && e.currency == o.currency && e.provider.Stripe?
    && e.paymentId == (if o.paymentId.Some? then o.paymentId.value else "")
    && Calls(c, e.kind) && (e.kind.PaymentCaptured? ==> e.fee == c.fee)
  }

  lemma ChainIsCalled(o: Order, environment: Environment, c: Charge, clock: Clock, name: Namer)
    ensures forall e <- Chain(o, environment, c, clock, name) :: IsFor(e, o, c)
  {
  }

  lemma CalledIsInChain(o: Order, environment: Environment, c: Charge, clock: Clock, name: Namer, kind: EventType)
    requires !FutureFunds(c, clock) && Calls(c, kind)
    ensures exists e <- Chain(o, environment, c, clock, name) :: e.kind == kind
  {
    var es := Chain(o, environment, c, clock, name);
    var n := |es|;
    match kind
    case PaymentCaptured => assert es[0] in es && es[0].kind == kind;
    case PaymentAvailable => assert es[1] in es && es[1].kind == kind;
    case PaymentDisputed => assert es[n - 1] in es && es[n - 1].kind == kind;
    case PaymentRefunded => assert es[n - 1] in es && es[n - 1].kind == kind;
    case PaymentRefundPending => assert es[n - 2] in es && es[n - 2].kind == kind;
  }

  lemma ChainRequests(o: Order, environment: Environment, c: Charge, clock: Clock, name: Namer)
    requires !FutureFunds(c, clock)
    ensures forall t: PaymentStatus :: t in Requested(o, Chain(o, environment, c, clock, name))
                                       <==> exists kind: EventType :: Target(kind) == t && Calls(c, kind)
  {
    hide Chain, Calls;
    var es := Chain(o, environment, c, clock, name);
    ChainIsCalled(o, environment, c, clock, name);
    forall t: PaymentStatus
      ensures Asks(o, es, t) <==> exists kind: EventType :: Target(kind) == t && Calls(c, kind)
    {
      if kind: EventType :| Target(kind) == t && Calls(c, kind) {
        CalledIsInChain(o, environment, c, clock, name, kind);
        var e :| e in es && e.kind == kind;
        assert Requests(o, e, t);
      }
      if e :| e in es && Requests(o, e, t) { assert Target(e.kind) == t && Calls(c, e.kind); }
    }
  }

  lemma CalledTargets(c: Charge, seen: set<PaymentStatus>)
    requires forall t: PaymentStatus :: t in seen <==> exists kind: EventType :: Target(kind) == t && Calls(c, kind)
    ensures Captured in seen && Failed !in seen && Pending !in seen
    ensures (Available in seen <==> c.fundsAvailable) && (Disputed in seen <==> c.disputed)
    ensures (RefundPending in seen <==> c.refunded && !c.disputed) && (Refunded in seen <==> c.refunded && !c.disputed)
  {
    forall kind: EventType | Calls(c, kind) ensures Target(kind) in seen { }
    assert Target(PaymentCaptured) == Captured && Calls(c, PaymentCaptured);
    if c.fundsAvailable { assert Calls(c, PaymentAvailable); }
    if c.disputed { assert Calls(c, PaymentDisputed); }
    if c.refunded && !c.disputed { assert Calls(c, PaymentRefundPending) && Calls(c, PaymentRefunded); }
  }

  lemma ChargeDecides(c: Charge, seen: set<PaymentStatus>)
    requires Captured in seen && Failed !in seen && Pending !in seen
    requires (Available in seen <==> c.fundsAvailable) && (Disputed in seen <==> c.disputed)
    requires (RefundPending in seen <==> c.refunded && !c.disputed) && (Refunded in seen <==> c.refunded && !c.disputed)
    ensures Compatible(seen) && ShowsCharge(c, FinalStatus(seen))
  {
  }

  /**
   An awaiting Stripe order whose charge has been reconciled, if that was accepted, shows the charge: captured,
   available, refunded or disputed as Stripe says, the quoted amount collected, Stripe's fee, and the whole
   amount refunded if it was; the order is queued for fulfilment.
   */
  lemma ReconciledOrderShowsCharge(s: Tables, i: nat, c: Charge, clock: Clock, name: Namer)
    requires Reachable(s) && Awaiting(s, i) && s.orders[i].provider.Stripe?
    requires ReconcileCharge(s, s.orders[i], c, clock, name).1
    ensures var s' := ReconcileCharge(s, s.orders[i], c, clock, name).0;
            && i < |s'.orders| && s'.orders[i].id == s.orders[i].id && s'.orders[i].status.Queued?
            && ShowsCharge(c, s'.orders[i].payment) && s'.orders[i].fee == c.fee
            && s'.orders[i].collected == s.orders[i].quoted
            && s'.orders[i].refunded == (if c.refunded && !c.disputed then s.orders[i].quoted else 0)
            && (c.fundsAvailable ==> c.availableOn <= clock.now)
  {
    hide Inv, Reachable, Chain, EmitAll, Receive, Batch, Requested, Compatible, FinalStatus;
    ReachableInv(s);
    var o := s.orders[i];
    var es := Chain(o, s.environment, c, clock, name);
    var ds := Deliveries(es, clock.received, 0);
    ChainIsCalled(o, s.environment, c, clock, name);
    ChainRequests(o, s.environment, c, clock, name);
    CalledTargets(c, Requested(o, es));
    AcceptedIsBatch(s, i, es, clock.received);
    EmittedIsReceived(s, es, clock.received, 0);
    ChargeDecides(c, Requested(o, es));
    CompatibleRow(s, i, ds);
    hide Awaiting;
    var s' := Receive(s, ds);
    ReceivedFee(s, i, ds);
    var e :| e in es && Requests(o, e, Captured) && e.fee == s'.orders[i].fee;
  }
}
