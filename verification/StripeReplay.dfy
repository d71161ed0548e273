/**
 The provider events that reconciling one Stripe payment emits, and what happens when the
 same payment is reconciled again.  An event identifier is a digest of the order, the event
 type, the provider reference and the fee; `name` stands for that digest.
 */
module StripeReplay {
  import opened Wrappers
  import opened CommerceStates
  import opened CommerceTables
  import opened CommerceTransactions
  import opened CommerceInvariant
  import opened CommerceSteps
  import opened CommerceRuns
  import opened CommerceStore

  type Namer = (OrderId, EventType, string, int) -> string

  /** What Stripe reports about a succeeded payment; `availableAt` is `availableOn` as a timestamp. */
  datatype Charge = Charge(
    balanceId: string, chargeId: string, fee: int, capturedAt: string,
    fundsAvailable: bool, availableOn: int, availableAt: string, disputed: bool, refunded: bool)

  /**
   The clock readings of a reconciliation: the time it is judged at, those that go into events, and the
   one taken for each ingestion.
   */
  datatype Clock = Clock(now: int, dispute: string, refundPending: string, refunded: string, received: nat -> string)

  function Emitted(o: Order, environment: Environment, kind: EventType, reference: string, fee: int, at: string,
                   name: Namer): Event
  {
    Event(environment, Stripe, name(o.id, kind, reference, fee), kind,
          if o.paymentId.Some? then o.paymentId.value else "",
          o.quoted, if kind.PaymentCaptured? then fee else 0, o.currency, at)
  }

  /** Stripe calls funds available that are available only later: the reconciliation is refused there. */
  predicate FutureFunds(c: Charge, clock: Clock) { c.fundsAvailable && c.availableOn > clock.now }

  /** The events of one reconciliation, in the order they are emitted. */
  function Chain(o: Order, environment: Environment, c: Charge, clock: Clock, name: Namer): seq<Event> {
    [Emitted(o, environment, PaymentCaptured, c.balanceId, c.fee, c.capturedAt, name)]
    + (if FutureFunds(c, clock) then []
       else
         (if c.fundsAvailable then [Emitted(o, environment, PaymentAvailable, c.balanceId, 0, c.availableAt, name)] else [])
         + (if c.disputed then [Emitted(o, environment, PaymentDisputed, c.chargeId, 0, clock.dispute, name)]
            else if c.refunded then
              [Emitted(o, environment, PaymentRefundPending, c.chargeId, 0, clock.refundPending, name),
               Emitted(o, environment, PaymentRefunded, c.chargeId, 0, clock.refunded, name)]
            else []))
  }

  /** Each event is ingested in its own transaction, with its own received_at; the first rejection ends the reconciliation. */
  function EmitAll(s: Tables, es: seq<Event>, received: nat -> string, k: nat): (Tables, bool)
    decreases |es|
  {
    if es == [] then (s, true)
    else
      var (s', r) := Ingest(s, es[0], received(k));
      if r.Err? then (s', false) else EmitAll(s', es[1..], received, k + 1)
  }

  /** The emitting part of a reconciliation, and whether it is accepted. */
  function ReconcileCharge(s: Tables, o: Order, c: Charge, clock: Clock, name: Namer): (Tables, bool) {
    var (s', ok) := EmitAll(s, Chain(o, s.environment, c, clock, name), clock.received, 0);
    (s', ok && !FutureFunds(c, clock))
  }

  /** One emission of a chain that has `rest` still to come. */
  method Emit(store: Store, ghost rest: seq<Event>, e: Event, received: nat -> string, k: nat) returns (accepted: bool)
    requires store.Valid() && rest != [] && rest[0] == e
    modifies store
    ensures store.Valid()
    ensures accepted ==> EmitAll(old(store.State()), rest, received, k) == EmitAll(store.State(), rest[1..], received, k + 1)
    ensures !accepted ==> EmitAll(old(store.State()), rest, received, k) == (store.State(), false)
  {
    hide Inv, Ingest;
    var reply := store.IngestProviderEvent(e, received(k));
    accepted := reply.Ok?;
  }

  /** The emitting part of `reconcile_order`, run against the store. */
  method ReconcileOrder(store: Store, o: Order, c: Charge, clock: Clock, name: Namer) returns (accepted: bool)
    requires store.Valid()
    modifies store
    ensures (store.State(), accepted) == ReconcileCharge(old(store.State()), o, c, clock, name)
    ensures store.Valid()
  {
    hide Inv, EmitAll, Emitted;
    var environment, k := store.environment, 1;
    ghost var rest := Chain(o, environment, c, clock, name);
    accepted := Emit(store, rest, Emitted(o, environment, PaymentCaptured, c.balanceId, c.fee, c.capturedAt, name), clock.received, 0);
    if !accepted { return; }
    rest := rest[1..];
    NothingLeft(store.State(), clock.received, k);
    if c.fundsAvailable {
      if c.availableOn > clock.now { return false; }
      accepted := Emit(store, rest, Emitted(o, environment, PaymentAvailable, c.balanceId, 0, c.availableAt, name), clock.received, k);
      if !accepted { return; }
      rest, k := rest[1..], k + 1;
    }
    if c.disputed {
      accepted := Emit(store, rest, Emitted(o, environment, PaymentDisputed, c.chargeId, 0, clock.dispute, name), clock.received, k);
      if !accepted { return; }
      rest, k := rest[1..], k + 1;
    } else if c.refunded {
      accepted := Emit(store, rest, Emitted(o, environment, PaymentRefundPending, c.chargeId, 0, clock.refundPending, name), clock.received, k);
      if !accepted { return; }
      rest, k := rest[1..], k + 1;
      accepted := Emit(store, rest, Emitted(o, environment, PaymentRefunded, c.chargeId, 0, clock.refunded, name), clock.received, k);
      if !accepted { return; }
      rest, k := rest[1..], k + 1;
    }
    NothingLeft(store.State(), clock.received, k);
    assert rest == [];
  }

  lemma NothingLeft(s: Tables, received: nat -> string, k: nat)
    ensures EmitAll(s, [], received, k) == (s, true)
  {
  }

  // ----- Stored events stay stored -----------------------------------------------------------

  /** Some row carries this event. */
  ghost predicate OnFile(s: Tables, e: Event) {
    exists k :: 0 <= k < |s.events| && s.events[k].event == e
  }

  lemma PerformIngests(s: Tables, e: Event, receivedAt: string)
    ensures Perform(s, OpIngest(e, receivedAt)) == Ingest(s, e, receivedAt)
  {
    hide Ingest;
  }

  lemma OthersKeepEvents(s: Tables, op: Op)
    requires !op.OpIngest?
    ensures Perform(s, op).0.events == s.events
  {
    hide ViewOf, ValidCosts, CostEntries, UpdateClashes;
  }

  /** Every transaction only appends event rows and never rewrites what an event said. */
  lemma PerformKeepsEvents(s: Tables, op: Op)
    requires Inv(s)
    ensures forall e :: OnFile(s, e) ==> OnFile(Perform(s, op).0, e)
  {
    hide Inv, Perform, Ingest;
    var s' := Perform(s, op).0;
    if op.OpIngest? {
      PerformIngests(s, op.event, op.receivedAt);
      IngestAppends(s, op.event, op.receivedAt);
    } else {
      OthersKeepEvents(s, op);
    }
    forall e | OnFile(s, e)
      ensures OnFile(s', e)
    {
      var k :| 0 <= k < |s.events| && s.events[k].event == e;
      assert s'.events[k].event == e;
    }
  }

  lemma IngestAppends(s: Tables, e: Event, receivedAt: string)
    requires Inv(s)
    ensures var (s', r) := Ingest(s, e, receivedAt);
            && |s.events| <= |s'.events| && (forall k :: 0 <= k < |s.events| ==> s'.events[k].event == s.events[k].event)
            && (r.Ok? ==> OnFile(s', e) && FindOrder(s'.orders, ByPayment(e.paymentId)).Some?)
            && (r.Err? ==> s' == s)
  {
    hide OrdersOk, LedgersOk, TrailsOk, EventsOk, SupportsOk, AllQuiet, QuietFor;
    var s' := Ingest(s, e, receivedAt).0;
    if s' != s {
      var i := FindOrder(s.orders, ByPayment(e.paymentId)).value;
      var row := EventRow(e, receivedAt, Waiting, None);
      var s1 := s.(events := s.events + [row]);
      InsertKeepsBase(s, i, row);
      DrainKeeps(s1, e.paymentId);
      hide Base;
      assert SameIdentity(s.orders[i], s'.orders[i]);
      assert HasKey(s'.orders[i], ByPayment(e.paymentId)) && s'.orders[i] in s'.orders;
      forall k | 0 <= k < |s'.events|
        ensures s'.events[k].event == s1.events[k].event
      {
        assert KeepsEvent(s1.events[k], s'.events[k], e.paymentId);
      }
      assert s'.events[|s.events|].event == e;
    }
  }

  lemma {:induction false} RunKeepsEvents(s: Tables, ops: seq<Op>)
    requires Inv(s)
    ensures Inv(Run(s, ops)) && forall e :: OnFile(s, e) ==> OnFile(Run(s, ops), e)
    decreases |ops|
  {
    hide Inv, OnFile, Perform;
    if ops != [] {
      PerformKeepsInv(s, ops[0]);
      PerformKeepsEvents(s, ops[0]);
      RunKeepsEvents(Perform(s, ops[0]).0, ops[1..]);
    }
  }

  lemma {:induction false} EmittedAreOnFile(s: Tables, es: seq<Event>, received: nat -> string, k: nat)
    requires Inv(s) && EmitAll(s, es, received, k).1
    ensures Inv(EmitAll(s, es, received, k).0)
    ensures forall e :: OnFile(s, e) || e in es ==> OnFile(EmitAll(s, es, received, k).0, e)
    ensures forall e <- es :: ValidEvent(s.environment, e)
    ensures EmitAll(s, es, received, k).0.environment == s.environment
    decreases |es|
  {
    hide Inv, OnFile, Ingest, ValidEvent, Perform;
    if es != [] {
      var receivedAt := received(k);
      var s1 := Ingest(s, es[0], receivedAt).0;
      IngestedIsValid(s, es[0], receivedAt);
      PerformIngests(s, es[0], receivedAt);
      PerformKeepsInv(s, OpIngest(es[0], receivedAt));
      PerformKeepsEvents(s, OpIngest(es[0], receivedAt));
      IngestAppends(s, es[0], receivedAt);
      IngestKeepsEnvironment(s, es[0], receivedAt);
      EmittedAreOnFile(s1, es[1..], received, k + 1);
      assert forall e <- es :: e == es[0] || e in es[1..];
    }
  }

  lemma IngestedIsValid(s: Tables, e: Event, receivedAt: string)
    requires Ingest(s, e, receivedAt).1.Ok?
    ensures ValidEvent(s.environment, e)
  {
  }

  lemma IngestKeepsEnvironment(s: Tables, e: Event, receivedAt: string)
    requires Inv(s)
    ensures Ingest(s, e, receivedAt).0.environment == s.environment
  {
    hide OrdersOk, LedgersOk, TrailsOk, EventsOk, SupportsOk, AllQuiet, QuietFor;
    if Ingest(s, e, receivedAt).0 != s {
      var row := EventRow(e, receivedAt, Waiting, None);
      InsertKeepsBase(s, FindOrder(s.orders, ByPayment(e.paymentId)).value, row);
      DrainKeeps(s.(events := s.events + [row]), e.paymentId);
    }
  }

  // ----- Emitting again ------------------------------------------------------------------------

  /** An event whose identifier is on file: accepted without effect if it says the same, refused otherwise. */
  lemma ReEmitOne(s: Tables, e: Event, e': Event, receivedAt: string)
    requires Inv(s) && OnFile(s, e) && e'.id == e.id && ValidEvent(s.environment, e')
    ensures Ingest(s, e', receivedAt).0 == s
    ensures Ingest(s, e', receivedAt).1.Ok? <==> e' == e
    ensures e' != e ==> Ingest(s, e', receivedAt).1 == Err(ProviderEventConflict)
  {
    hide LedgersOk, TrailsOk, SupportsOk, Quiet, ValidEvent, Drain, OrdersOk;
    var k :| 0 <= k < |s.events| && s.events[k].event == e;
    var found := FindEvent(s.events, e.id);
    assert s.events[k] in s.events;
    assert found.value == k;
    assert Owned(s.orders, s.events[k]);
    var i :| 0 <= i < |s.orders| && Owns(s.orders[i], s.events[k]);
    assert HasKey(s.orders[i], ByPayment(e.paymentId)) && s.orders[i] in s.orders;
  }

  /** Emitting a list again, each entry under the identifier it had before, changes no table. */
  lemma {:induction false} ReEmit(s: Tables, es: seq<Event>, es': seq<Event>, received: nat -> string, n: nat)
    requires Inv(s) && |es'| <= |es|
    requires forall k :: 0 <= k < |es'| ==> OnFile(s, es[k]) && es'[k].id == es[k].id && ValidEvent(s.environment, es'[k])
    ensures EmitAll(s, es', received, n) == (s, es' <= es)
    decreases |es|
  {
    hide Inv, OnFile, Ingest;
    if es' != [] {
      ReEmitOne(s, es[0], es'[0], received(n));
      if es'[0] == es[0] {
        assert es == [es[0]] + es[1..] && es' == [es'[0]] + es'[1..];
        assert forall k :: 0 <= k < |es'[1..]| ==> es'[1..][k] == es'[k + 1] && es[1..][k] == es[k + 1];
        ReEmit(s, es[1..], es'[1..], received, n + 1);
      }
    }
  }

  /** The clock readings that end up in events of this charge. */
  predicate SameStamps(c: Charge, a: Clock, b: Clock) {
    if c.disputed then a.dispute == b.dispute
    else c.refunded ==> a.refundPending == b.refundPending && a.refunded == b.refunded
  }

  /**
   Reconcile a charge, let any transactions happen, and reconcile the unchanged charge again:
   no table changes, so no ledger or history row is added.  The second reconciliation is
   accepted exactly when the clock-stamped events (dispute and refund) carry the same
   timestamps and its clock has not run back before the funds became available; a charge that
   is only captured or available is accepted again at any later time.
   */
  lemma ReplayChangesNothing(
    s: Tables, o: Order, c: Charge, first: Clock, second: Clock, ops: seq<Op>, name: Namer)
    requires Reachable(s) && ReconcileCharge(s, o, c, first, name).1
    ensures var s1 := Run(ReconcileCharge(s, o, c, first, name).0, ops);
            ReconcileCharge(s1, o, c, second, name)
            == (s1, (c.fundsAvailable ==> c.availableOn <= second.now) && SameStamps(c, first, second))
    ensures !c.disputed && !c.refunded && first.now <= second.now ==>
              (c.fundsAvailable ==> c.availableOn <= second.now) && SameStamps(c, first, second)
  {
    hide Inv, Reachable, Chain, OnFile, ValidEvent, EmitAll, Run;
    ReachableInv(s);
    var es, es' := Chain(o, s.environment, c, first, name), Chain(o, s.environment, c, second, name);
    var s0 := EmitAll(s, es, first.received, 0).0;
    EmittedAreOnFile(s, es, first.received, 0);
    RunKeepsEvents(s0, ops);
    RunKeepsEnvironment(s0, ops);
    assert forall k | 0 <= k < |es| :: es[k] in es;
    ChainsCompare(o, s.environment, c, first, second, name);
    ReEmit(Run(s0, ops), es, es', second.received, 0);
  }

  lemma PerformKeepsEnvironment(s: Tables, op: Op)
    requires Inv(s)
    ensures Perform(s, op).0.environment == s.environment
  {
    hide Inv, ViewOf, ValidReceipt, ValidCosts;
    match op
    case OpIngest(e, at) => IngestKeepsEnvironment(s, e, at);
    case _ =>
  }

  lemma {:induction false} RunKeepsEnvironment(s: Tables, ops: seq<Op>)
    requires Inv(s)
    ensures Run(s, ops).environment == s.environment
    decreases |ops|
  {
    hide Inv, Perform;
    if ops != [] {
      PerformKeepsInv(s, ops[0]);
      PerformKeepsEnvironment(s, ops[0]);
      RunKeepsEnvironment(Perform(s, ops[0]).0, ops[1..]);
    }
  }

  /** Two chains of one charge differ only in their clock stamps, so they agree on identifiers and on validity. */
  lemma ChainsCompare(o: Order, environment: Environment, c: Charge, a: Clock, b: Clock, name: Namer)
    requires !FutureFunds(c, a)
    ensures var x, y := Chain(o, environment, c, a, name), Chain(o, environment, c, b, name);
            && |y| <= |x| && (y <= x <==> FutureFunds(c, b) || SameStamps(c, a, b))
            && forall k :: 0 <= k < |y| ==> y[k].id == x[k].id && (ValidEvent(environment, x[k]) ==> ValidEvent(environment, y[k]))
  {
    var x, y := Chain(o, environment, c, a, name), Chain(o, environment, c, b, name);
    assert forall k :: 0 <= k < |y| ==> y[k] == x[k].(occurredAt := y[k].occurredAt);
    if !FutureFunds(c, b) && !SameStamps(c, a, b) {
      var n := |x|;
      if c.disputed {
        assert x[n - 1] != y[n - 1];
      } else {
        assert x[n - 1] != y[n - 1] || x[n - 2] != y[n - 2];
      }
    }
  }
}
