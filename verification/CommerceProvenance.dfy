/**
 Where the rows of a reachable store come from: every payment row of the history and every money entry of
 the ledger is the doing of one applied event, every applied event left its row, and every order was
 placed against a stored quote.
 */
module CommerceProvenance {
  import opened Wrappers
  import opened CommerceStates
  import opened CommerceTables
  import opened CommerceTransactions
  import opened CommerceInvariant
  import opened CommerceSteps
  import opened CommerceRuns
  import opened CommerceResults

  // ----- Events, history and ledger ------------------------------------------------------------

  /** What each kind of event says has happened to the payment. */
  predicate Reports(kind: EventType, p: PaymentStatus) {
    && (kind.PaymentCaptured? <==> p.Captured?)
    && (kind.PaymentAvailable? <==> p.Available?)
    && (kind.PaymentFailure? <==> p.Failed?)
    && (kind.PaymentRefundPending? <==> p.RefundPending?)
    && (kind.PaymentRefunded? <==> p.Refunded?)
    && (kind.PaymentDisputed? <==> p.Disputed?)
  }

  ghost predicate Holds(orders: seq<Order>, id: OrderId, pid: string) {
    exists i :: 0 <= i < |orders| && orders[i].id == id && orders[i].paymentId == Some(pid)
  }

  /** The history row says what the applied event did to the order that holds its payment. */
  ghost predicate Causes(orders: seq<Order>, row: EventRow, h: HistoryRow) {
    && row.status.Applied? && row.appliedAt == Some(row.event.occurredAt)
    && h.source == row.event.id && h.occurredAt == row.event.occurredAt
    && Holds(orders, h.orderId, row.event.paymentId)
    && match h.change
       case PaymentChange(_, now) => Reports(row.event.kind, now)
       case OrderChange(_, next) => if next.Queued? then row.event.kind.PaymentCaptured? else row.event.kind.PaymentFailure?
  }

  /** The ledger entry books the money of the applied event. */
  ghost predicate Books(orders: seq<Order>, row: EventRow, e: Entry) {
    && row.status.Applied? && e.source == row.event.id && e.recordedAt == row.event.occurredAt
    && Holds(orders, e.orderId, row.event.paymentId)
    && match e.category
       case GrossCollected => row.event.kind.PaymentCaptured? && e.amount == row.event.amount
       case ProcessingFee => row.event.kind.PaymentCaptured? && e.amount == row.event.fee
       case Refund => row.event.kind.PaymentRefunded? && e.amount == row.event.amount
       case DirectCost(_) => false
  }

  /** History rows that only a provider event writes. */
  predicate FromEvent(h: HistoryRow) {
    match h.change
    case PaymentChange(_, _) => true
    case OrderChange(_, next) => next.Queued? || next.PaymentFailed?
  }

  ghost predicate RowTraced(s: Tables, h: HistoryRow) {
    FromEvent(h) ==> exists k :: 0 <= k < |s.events| && Causes(s.orders, s.events[k], h)
  }

  ghost predicate EntryTraced(s: Tables, e: Entry) {
    !e.category.DirectCost? ==> exists k :: 0 <= k < |s.events| && Books(s.orders, s.events[k], e)
  }

  ghost predicate EventTraced(s: Tables, row: EventRow) {
    row.status.Applied? ==> exists h :: 0 <= h < |s.history| && s.history[h].change.PaymentChange? && Causes(s.orders, row, s.history[h])
  }

  /** An event has the time it took effect at once it has taken effect, and not before. */
  predicate Stamped(row: EventRow) {
    row.appliedAt == if row.status.Waiting? || row.status.RejectedAmountMismatch? then None else Some(row.event.occurredAt)
  }

  ghost predicate Traced(s: Tables) {
    && (forall h :: 0 <= h < |s.history| ==> RowTraced(s, s.history[h]))
    && (forall e :: 0 <= e < |s.entries| ==> EntryTraced(s, s.entries[e]))
    && (forall k :: 0 <= k < |s.events| ==> EventTraced(s, s.events[k]) && Stamped(s.events[k]))
  }

  /** Rows are only added, payments stay with their orders, and an applied event stays as it is. */
  ghost predicate Continues(s: Tables, s': Tables) {
    && s.history <= s'.history && s.entries <= s'.entries && |s.events| <= |s'.events| && |s.orders| <= |s'.orders|
    && (forall i :: 0 <= i < |s.orders| ==> s'.orders[i].id == s.orders[i].id
                                            && (s.orders[i].paymentId.Some? ==> s'.orders[i].paymentId == s.orders[i].paymentId))
    && (forall k :: 0 <= k < |s.events| && s.events[k].status.Applied? ==> s'.events[k] == s.events[k])
  }

  lemma ContinuesChains(a: Tables, b: Tables, c: Tables)
    requires Continues(a, b) && Continues(b, c)
    ensures Continues(a, c)
  {
    forall k | 0 <= k < |a.events| && a.events[k].status.Applied? ensures c.events[k] == a.events[k] {
      assert b.events[k] == a.events[k];
    }
    forall i | 0 <= i < |a.orders|
      ensures c.orders[i].id == a.orders[i].id && (a.orders[i].paymentId.Some? ==> c.orders[i].paymentId == a.orders[i].paymentId)
    {
      assert b.orders[i].id == a.orders[i].id;
    }
  }

  lemma StillHolds(s: Tables, s': Tables, id: OrderId, pid: string)
    requires Continues(s, s') && Holds(s.orders, id, pid)
    ensures Holds(s'.orders, id, pid)
  {
    var i :| 0 <= i < |s.orders| && s.orders[i].id == id && s.orders[i].paymentId == Some(pid);
    assert s'.orders[i].id == id && s'.orders[i].paymentId == Some(pid);
  }

  /** What was traced stays traced. */
  lemma StillTraced(s: Tables, s': Tables)
    requires Traced(s) && Continues(s, s')
    ensures forall h :: 0 <= h < |s.history| ==> RowTraced(s', s'.history[h])
    ensures forall e :: 0 <= e < |s.entries| ==> EntryTraced(s', s'.entries[e])
    ensures forall k :: 0 <= k < |s.events| && s.events[k].status.Applied? ==> EventTraced(s', s'.events[k])
  {
    forall h | 0 <= h < |s.history| && FromEvent(s.history[h]) ensures RowTraced(s', s'.history[h]) {
      assert RowTraced(s, s.history[h]);
      var k :| 0 <= k < |s.events| && Causes(s.orders, s.events[k], s.history[h]);
      StillHolds(s, s', s.history[h].orderId, s.events[k].event.paymentId);
      assert Causes(s'.orders, s'.events[k], s'.history[h]);
    }
    forall e | 0 <= e < |s.entries| && !s.entries[e].category.DirectCost? ensures EntryTraced(s', s'.entries[e]) {
      assert EntryTraced(s, s.entries[e]);
      var k :| 0 <= k < |s.events| && Books(s.orders, s.events[k], s.entries[e]);
      StillHolds(s, s', s.entries[e].orderId, s.events[k].event.paymentId);
      assert Books(s'.orders, s'.events[k], s'.entries[e]);
    }
    forall k | 0 <= k < |s.events| && s.events[k].status.Applied? ensures EventTraced(s', s'.events[k]) {
      assert EventTraced(s, s.events[k]);
      var h :| 0 <= h < |s.history| && s.history[h].change.PaymentChange? && Causes(s.orders, s.events[k], s.history[h]);
      StillHolds(s, s', s.history[h].orderId, s.events[k].event.paymentId);
      assert Causes(s'.orders, s'.events[k], s'.history[h]);
    }
  }

  /** Nothing but order rows to other statuses, cost entries and unapplied events was added. */
  lemma QuietlyTraced(s: Tables, s': Tables)
    requires Traced(s) && Continues(s, s')
    requires forall h :: |s.history| <= h < |s'.history| ==> !FromEvent(s'.history[h])
    requires forall e :: |s.entries| <= e < |s'.entries| ==> s'.entries[e].category.DirectCost?
    requires forall k :: 0 <= k < |s'.events| && s'.events[k].status.Applied? ==> k < |s.events| && s.events[k].status.Applied?
    requires forall k :: 0 <= k < |s'.events| ==> (k < |s.events| && s'.events[k] == s.events[k]) || Stamped(s'.events[k])
    ensures Traced(s')
  {
    StillTraced(s, s');
  }

  lemma StepContinues(s: Tables, k: nat)
    requires k < |s.events| && s.events[k].status.Waiting?
    ensures Continues(s, StepEvent(s, k))
  {
  }

  lemma MoveIsTraced(s: Tables, k: nat)
    requires Traced(s) && k < |s.events| && s.events[k].status.Waiting? && VerdictAt(s, k).Move?
    ensures Traced(StepEvent(s, k))
  {
    var s' := StepEvent(s, k);
    StepContinues(s, k);
    StillTraced(s, s');
    var e := s.events[k].event;
    var i := FindOrder(s.orders, ByPayment(e.paymentId)).value;
    assert Holds(s'.orders, s.orders[i].id, e.paymentId) by {
      assert s'.orders[i].id == s.orders[i].id && s'.orders[i].paymentId == Some(e.paymentId);
    }
    hide Traced, Continues, Holds;
    assert s'.events[k] == s.events[k].(status := Applied, appliedAt := Some(e.occurredAt));
    forall h | |s.history| <= h < |s'.history| ensures Causes(s'.orders, s'.events[k], s'.history[h]) {
      assert s'.history[h] == HistoryFor(s.orders[i], e)[h - |s.history|];
    }
    forall n | |s.entries| <= n < |s'.entries| ensures Books(s'.orders, s'.events[k], s'.entries[n]) {
      assert s'.entries[n] == EntriesFor(s.orders[i].id, e)[n - |s.entries|];
    }
    assert s'.history[|s.history|] == HistoryFor(s.orders[i], e)[0];
    TracedTogether(s, s', k);
  }

  lemma TracedTogether(s: Tables, s': Tables, k: nat)
    requires k < |s.events| == |s'.events| && |s.history| < |s'.history| && |s.entries| <= |s'.entries|
    requires forall h :: 0 <= h < |s.history| ==> RowTraced(s', s'.history[h])
    requires forall e :: 0 <= e < |s.entries| ==> EntryTraced(s', s'.entries[e])
    requires forall j :: 0 <= j < |s.events| && s.events[j].status.Applied? ==> EventTraced(s', s'.events[j])
    requires forall j :: 0 <= j < |s.events| && j != k ==> s'.events[j] == s.events[j]
    requires forall h :: |s.history| <= h < |s'.history| ==> Causes(s'.orders, s'.events[k], s'.history[h])
    requires forall e :: |s.entries| <= e < |s'.entries| ==> Books(s'.orders, s'.events[k], s'.entries[e])
    requires s'.history[|s.history|].change.PaymentChange?
    requires forall j :: 0 <= j < |s'.events| ==> Stamped(s'.events[j])
    ensures Traced(s')
  {
    hide Causes, Books;
  }

  lemma StepIsTraced(s: Tables, k: nat)
    requires Traced(s) && k < |s.events| && s.events[k].status.Waiting?
    ensures Traced(StepEvent(s, k)) && Continues(s, StepEvent(s, k))
  {
    StepContinues(s, k);
    if VerdictAt(s, k).Move? {
      MoveIsTraced(s, k);
    } else {
      SettledIsNotApplied(s, k);
      hide Traced, Continues, VerdictAt;
      QuietlyTraced(s, StepEvent(s, k));
    }
  }

  lemma SettledIsNotApplied(s: Tables, k: nat)
    requires k < |s.events| && s.events[k].status.Waiting? && !VerdictAt(s, k).Move? && Stamped(s.events[k])
    ensures var s' := StepEvent(s, k);
            && Stamped(s'.events[k])
            && s'.history == s.history && s'.entries == s.entries
            && forall j :: 0 <= j < |s'.events| && s'.events[j].status.Applied? ==> j < |s.events| && s.events[j].status.Applied?
  {
  }

  lemma {:induction false} PassIsTraced(s: Tables, todo: seq<nat>)
    requires Traced(s) && Todo(s, todo)
    ensures Traced(Pass(s, todo).0) && Continues(s, Pass(s, todo).0)
    decreases |todo|
  {
    if todo == [] {
      hide Traced;
    } else {
      hide Traced, Continues, StepEvent;
      HeadOfTodo(s, todo);
      StepIsTraced(s, todo[0]);
      PassIsTraced(StepEvent(s, todo[0]), todo[1..]);
      ContinuesChains(s, StepEvent(s, todo[0]), Pass(s, todo).0);
    }
  }

  lemma {:induction false} DrainIsTraced(s: Tables, pid: string)
    requires Traced(s)
    ensures Traced(Drain(s, pid)) && Continues(s, Drain(s, pid))
    decreases WaitingCount(s.events)
  {
    hide Traced, Continues, Pass;
    var todo := Queue(s.events, pid, |s.events|);
    var (s', progress) := Pass(s, todo);
    PassIsTraced(s, todo);
    PassConsumes(s, todo);
    if progress {
      DrainIsTraced(s', pid);
      ContinuesChains(s, s', Drain(s', pid));
    }
  }

  lemma IngestIsTraced(s: Tables, e: Event, receivedAt: string)
    requires Traced(s)
    ensures Traced(Ingest(s, e, receivedAt).0) && Continues(s, Ingest(s, e, receivedAt).0)
  {
    hide Traced, Drain, ViewOf;
    if Ingest(s, e, receivedAt).0 != s {
      var s1 := s.(events := s.events + [EventRow(e, receivedAt, Waiting, None)]);
      QuietlyTraced(s, s1);
      DrainIsTraced(s1, e.paymentId);
      ContinuesChains(s, s1, Drain(s1, e.paymentId));
    }
  }

  lemma CostEntriesAreCosts(id: OrderId, costs: map<CostCategory, int>, key: string, at: string, n: nat)
    requires n <= |DIRECT_COST_CATEGORIES| && ValidCosts(costs)
    ensures forall e <- CostEntries(id, costs, key, at, n) :: e.category.DirectCost?
  {
    hide ValidCosts;
  }

  lemma CostsAreTraced(s: Tables, id: OrderId, costs: map<CostCategory, int>, key: string, at: string)
    requires Traced(s)
    ensures Traced(RecordDirectCosts(s, id, costs, key, at).0) && Continues(s, RecordDirectCosts(s, id, costs, key, at).0)
  {
    hide Traced, ViewOf, ValidCosts;
    var s' := RecordDirectCosts(s, id, costs, key, at).0;
    if s' != s {
      CostEntriesAreCosts(id, costs, key, at, |DIRECT_COST_CATEGORIES|);
      hide CostEntries;
      QuietlyTraced(s, s');
    }
  }

  lemma AttachIsTraced(s: Tables, id: OrderId, checkoutId: string, payment: Option<string>, at: string)
    requires Inv(s) && Traced(s)
    ensures Traced(AttachCheckout(s, id, checkoutId, payment, at).0) && Continues(s, AttachCheckout(s, id, checkoutId, payment, at).0)
  {
    hide Inv, Traced, ViewOf, UpdateClashes, CheckoutPayment, UniqueOrders;
    var found := FindOrder(s.orders, ById(id));
    if found.Some? { InvRow(s, found.value); }
    QuietlyTraced(s, AttachCheckout(s, id, checkoutId, payment, at).0);
  }

  lemma CreationIsTraced(s: Tables, op: Op)
    requires Traced(s) && (op.OpCreateQuote? || op.OpCreateOrder?)
    ensures Traced(Perform(s, op).0) && Continues(s, Perform(s, op).0)
  {
    hide Traced, ViewOf, UpdateClashes, IsIdempotencyKey, IsBuyerReference;
    QuietlyTraced(s, Perform(s, op).0);
  }

  lemma BindingIsTraced(s: Tables, id: OrderId, paymentId: string, checkoutId: string, at: string)
    requires Traced(s)
    ensures Traced(BindProviderPayment(s, id, paymentId, checkoutId, at).0)
    ensures Continues(s, BindProviderPayment(s, id, paymentId, checkoutId, at).0)
  {
    hide Traced, ViewOf, UpdateClashes, IsStripePaymentId;
    QuietlyTraced(s, BindProviderPayment(s, id, paymentId, checkoutId, at).0);
  }

  lemma TransitionIsTraced(s: Tables, id: OrderId, target: OrderStatus, delivery: DeliveryStatus, source: string, at: string)
    requires Traced(s) && !target.Queued? && !target.PaymentFailed?
    ensures Traced(TransitionOrder(s, id, target, delivery, source, at).0)
    ensures Continues(s, TransitionOrder(s, id, target, delivery, source, at).0)
  {
    hide Traced, ViewOf, OrderMayMove;
    QuietlyTraced(s, TransitionOrder(s, id, target, delivery, source, at).0);
  }

  lemma DeliveryIsTraced(s: Tables, id: OrderId, receipt: Receipt, source: string, at: string)
    requires Traced(s)
    ensures Traced(Deliver(s, id, receipt, source, at).0) && Continues(s, Deliver(s, id, receipt, source, at).0)
  {
    hide Traced, ViewOf, UpdateClashes, ValidReceipt, OrderMayMove;
    QuietlyTraced(s, Deliver(s, id, receipt, source, at).0);
  }

  lemma PerformIsTraced(s: Tables, op: Op)
    requires Inv(s) && Traced(s)
    ensures Traced(Perform(s, op).0) && Continues(s, Perform(s, op).0)
  {
    hide Inv, Traced, Continues, Ingest, RecordDirectCosts, AttachCheckout, BindProviderPayment, TransitionOrder, Deliver;
    match op
    case OpIngest(e, receivedAt) => IngestIsTraced(s, e, receivedAt);
    case OpRecordCosts(id, costs, key, at) => CostsAreTraced(s, id, costs, key, at);
    case OpAttachCheckout(id, checkoutId, payment, at) => AttachIsTraced(s, id, checkoutId, payment, at);
    case OpBindPayment(id, paymentId, checkoutId, at) => BindingIsTraced(s, id, paymentId, checkoutId, at);
    case OpBegin(id, source, at) => TransitionIsTraced(s, id, Running, InProgress, source, at);
    case OpFail(id, source, at) => TransitionIsTraced(s, id, FulfillmentFailed, GivenUp, source, at);
    case OpDeliver(id, receipt, source, at) => DeliveryIsTraced(s, id, receipt, source, at);
    case _ => CreationIsTraced(s, op);
  }

  lemma {:induction false} RunIsTraced(s: Tables, ops: seq<Op>)
    requires Inv(s) && Traced(s)
    ensures Traced(Run(s, ops))
    decreases |ops|
  {
    hide Inv, Traced, Continues, Perform;
    if ops != [] {
      PerformKeepsInv(s, ops[0]);
      PerformIsTraced(s, ops[0]);
      RunIsTraced(Perform(s, ops[0]).0, ops[1..]);
    }
  }

  lemma ReachableIsTraced(s: Tables)
    requires Reachable(s)
    ensures Traced(s)
  {
    var environment: Environment, ops: seq<Op> :| s == Run(EmptyTables(environment), ops);
    RunIsTraced(EmptyTables(environment), ops);
  }

  // ----- Duplicates ----------------------------------------------------------------------------

  /** The payment of the row's order had already got where the event says, on some history row. */
  ghost predicate Repeats(s: Tables, row: EventRow) {
    exists h :: 0 <= h < |s.history| && s.history[h].change.PaymentChange? && Reports(row.event.kind, s.history[h].change.now)
                && Holds(s.orders, s.history[h].orderId, row.event.paymentId)
  }

  predicate SettledAsRepeat(row: EventRow) { row.status.AppliedDuplicateEffect? || row.status.RejectedEffectConflict? }

  ghost predicate RepeatsTraced(s: Tables) {
    forall k :: 0 <= k < |s.events| && SettledAsRepeat(s.events[k]) ==> Repeats(s, s.events[k])
  }

  lemma StillRepeats(s: Tables, s': Tables, row: EventRow)
    requires Repeats(s, row) && Continues(s, s')
    ensures Repeats(s', row)
  {
    var h :| 0 <= h < |s.history| && s.history[h].change.PaymentChange? && Reports(row.event.kind, s.history[h].change.now)
             && Holds(s.orders, s.history[h].orderId, row.event.paymentId);
    StillHolds(s, s', s.history[h].orderId, row.event.paymentId);
    assert s'.history[h] == s.history[h];
  }

  lemma {:induction false} ReachedOnSomeRow(history: seq<HistoryRow>, id: OrderId) returns (h: nat)
    requires !LastPayment(history, id).Pending?
    ensures h < |history| && history[h].orderId == id && history[h].change.PaymentChange? && history[h].change.now == LastPayment(history, id)
  {
    var n := |history| - 1;
    if history[n].orderId == id && history[n].change.PaymentChange? {
      h := n;
    } else {
      h := ReachedOnSomeRow(history[..n], id);
    }
  }

  lemma TrailOfOrder(s: Tables, i: nat)
    requires Base(s) && i < |s.orders|
    ensures LastPayment(s.history, s.orders[i].id) == s.orders[i].payment
  {
    hide OrdersOk, LedgersOk, EventsOk, SupportsOk;
    assert TrailOk(s.history, s.orders[i]);
  }

  lemma SettledRepeats(s: Tables, k: nat, status: EventStatus)
    requires Base(s) && k < |s.events| && VerdictAt(s, k) == Settle(status) && !status.RejectedAmountMismatch?
    ensures Repeats(s, s.events[k])
  {
    hide Base;
    var e := s.events[k].event;
    var i := FindOrder(s.orders, ByPayment(e.paymentId)).value;
    TrailOfOrder(s, i);
    var h := ReachedOnSomeRow(s.history, s.orders[i].id);
    assert Holds(s.orders, s.history[h].orderId, e.paymentId);
  }

  lemma StepKeepsRepeats(s: Tables, k: nat)
    requires Base(s) && RepeatsTraced(s) && k < |s.events| && s.events[k].status.Waiting?
    ensures RepeatsTraced(StepEvent(s, k))
  {
    hide Base, Repeats, Continues;
    var s' := StepEvent(s, k);
    StepContinues(s, k);
    forall j | 0 <= j < |s'.events| && SettledAsRepeat(s'.events[j]) ensures Repeats(s', s'.events[j]) {
      if j == k {
        SettledRepeats(s, k, s'.events[k].status);
        SameEventRepeats(s, s.events[k], s'.events[k]);
      }
      StillRepeats(s, s', s'.events[j]);
    }
  }

  lemma SameEventRepeats(s: Tables, row: EventRow, row': EventRow)
    requires Repeats(s, row) && row'.event == row.event
    ensures Repeats(s, row')
  {
  }

  lemma {:induction false} PassKeepsRepeats(s: Tables, todo: seq<nat>)
    requires Base(s) && RepeatsTraced(s) && Todo(s, todo)
    ensures RepeatsTraced(Pass(s, todo).0)
    decreases |todo|
  {
    hide Base, RepeatsTraced, StepEvent;
    if todo != [] {
      HeadOfTodo(s, todo);
      StepKeepsBase(s, todo[0]);
      StepKeepsRepeats(s, todo[0]);
      PassKeepsRepeats(StepEvent(s, todo[0]), todo[1..]);
    }
  }

  lemma {:induction false} DrainKeepsRepeats(s: Tables, pid: string)
    requires Base(s) && RepeatsTraced(s)
    ensures RepeatsTraced(Drain(s, pid))
    decreases WaitingCount(s.events)
  {
    hide Base, RepeatsTraced, Pass, OnlyPayment;
    var todo := Queue(s.events, pid, |s.events|);
    var (s', progress) := Pass(s, todo);
    PassKeepsRepeats(s, todo);
    PassKeeps(s, todo, pid);
    PassConsumes(s, todo);
    if progress { DrainKeepsRepeats(s', pid); }
  }

  lemma SameEventsKeepRepeats(s: Tables, s': Tables)
    requires RepeatsTraced(s) && Continues(s, s')
    requires forall k :: 0 <= k < |s'.events| && SettledAsRepeat(s'.events[k]) ==> k < |s.events| && s'.events[k] == s.events[k]
    ensures RepeatsTraced(s')
  {
    hide Continues, Repeats;
    forall k | 0 <= k < |s'.events| && SettledAsRepeat(s'.events[k]) ensures Repeats(s', s'.events[k]) {
      StillRepeats(s, s', s'.events[k]);
    }
  }

  lemma IngestKeepsRepeats(s: Tables, e: Event, receivedAt: string)
    requires Inv(s) && RepeatsTraced(s)
    ensures RepeatsTraced(Ingest(s, e, receivedAt).0)
  {
    hide OrdersOk, LedgersOk, TrailsOk, EventsOk, SupportsOk, AllQuiet, QuietFor, RepeatsTraced, ViewOf, Drain;
    if Ingest(s, e, receivedAt).0 != s {
      var row := EventRow(e, receivedAt, Waiting, None);
      var s1 := s.(events := s.events + [row]);
      InsertKeepsBase(s, FindOrder(s.orders, ByPayment(e.paymentId)).value, row);
      hide Base;
      SameEventsKeepRepeats(s, s1);
      DrainKeepsRepeats(s1, e.paymentId);
    }
  }

  lemma OtherEventsAreKept(s: Tables, op: Op)
    requires !op.OpIngest?
    ensures Perform(s, op).0.events == s.events
  {
    hide ViewOf, ValidCosts, CostEntries, UpdateClashes;
  }

  lemma PerformKeepsRepeats(s: Tables, op: Op)
    requires Inv(s) && Traced(s) && RepeatsTraced(s)
    ensures RepeatsTraced(Perform(s, op).0)
  {
    hide Inv, Traced, RepeatsTraced, Continues, Ingest, Perform, ViewOf;
    PerformIsTraced(s, op);
    if op.OpIngest? {
      IngestKeepsRepeats(s, op.event, op.receivedAt);
      PerformedIngest(s, op);
    } else {
      OtherEventsAreKept(s, op);
      SameEventsKeepRepeats(s, Perform(s, op).0);
    }
  }

  lemma PerformedIngest(s: Tables, op: Op)
    requires op.OpIngest?
    ensures Perform(s, op) == Ingest(s, op.event, op.receivedAt)
  {
    hide Ingest;
  }

  lemma {:induction false} RunKeepsRepeats(s: Tables, ops: seq<Op>)
    requires Inv(s) && Traced(s) && RepeatsTraced(s)
    ensures RepeatsTraced(Run(s, ops))
    decreases |ops|
  {
    hide Inv, Traced, RepeatsTraced, Continues, Perform;
    if ops != [] {
      PerformKeepsInv(s, ops[0]);
      PerformIsTraced(s, ops[0]);
      PerformKeepsRepeats(s, ops[0]);
      RunKeepsRepeats(Perform(s, ops[0]).0, ops[1..]);
    }
  }

  lemma ReachableRepeats(s: Tables)
    requires Reachable(s)
    ensures RepeatsTraced(s)
  {
    var environment: Environment, ops: seq<Op> :| s == Run(EmptyTables(environment), ops);
    RunKeepsRepeats(EmptyTables(environment), ops);
  }

  // ----- The time of an order ----------------------------------------------------------------------

  /** Order i is as it was, or carries the time of an event of its own that has been applied since. */
  ghost predicate Dated(s: Tables, s': Tables, i: nat)
    requires i < |s.orders| <= |s'.orders|
  {
    s'.orders[i] == s.orders[i]
    || exists k :: 0 <= k < |s'.events| && NewlyApplied(s.events, s'.events[k], k)
                   && s'.orders[i].paymentId == Some(s'.events[k].event.paymentId) && s'.orders[i].updatedAt == s'.events[k].event.occurredAt
  }

  predicate NewlyApplied(before: seq<EventRow>, row: EventRow, k: nat) {
    row.status.Applied? && (k < |before| ==> !before[k].status.Applied?)
  }

  ghost predicate AllDated(s: Tables, s': Tables) {
    && |s.orders| == |s'.orders| && |s.events| == |s'.events|
    && (forall k :: 0 <= k < |s.events| && s.events[k].status.Applied? ==> s'.events[k] == s.events[k])
    && (forall i :: 0 <= i < |s.orders| ==> s'.orders[i].paymentId == s.orders[i].paymentId && Dated(s, s', i))
  }

  lemma StepIsDated(s: Tables, k: nat)
    requires k < |s.events| && s.events[k].status.Waiting?
    ensures AllDated(s, StepEvent(s, k))
  {
    var s' := StepEvent(s, k);
    if VerdictAt(s, k).Move? {
      var i := FindOrder(s.orders, ByPayment(s.events[k].event.paymentId)).value;
      assert NewlyApplied(s.events, s'.events[k], k);
      assert Dated(s, s', i);
    }
  }

  lemma DatedChains(a: Tables, b: Tables, c: Tables)
    requires AllDated(a, b) && AllDated(b, c)
    ensures AllDated(a, c)
  {
    forall i | 0 <= i < |a.orders| ensures c.orders[i].paymentId == a.orders[i].paymentId && Dated(a, c, i) {
      assert Dated(a, b, i) && Dated(b, c, i) && c.orders[i].paymentId == b.orders[i].paymentId == a.orders[i].paymentId;
      if c.orders[i] != b.orders[i] {
        var k :| 0 <= k < |c.events| && NewlyApplied(b.events, c.events[k], k)
                 && c.orders[i].paymentId == Some(c.events[k].event.paymentId) && c.orders[i].updatedAt == c.events[k].event.occurredAt;
        assert NewlyApplied(a.events, c.events[k], k);
      } else if b.orders[i] != a.orders[i] {
        var k :| 0 <= k < |b.events| && NewlyApplied(a.events, b.events[k], k)
                 && b.orders[i].paymentId == Some(b.events[k].event.paymentId) && b.orders[i].updatedAt == b.events[k].event.occurredAt;
        assert NewlyApplied(a.events, c.events[k], k);
      }
    }
  }

  lemma {:induction false} PassIsDated(s: Tables, todo: seq<nat>)
    requires Todo(s, todo)
    ensures AllDated(s, Pass(s, todo).0)
    decreases |todo|
  {
    if todo != [] {
      hide AllDated, StepEvent;
      HeadOfTodo(s, todo);
      StepIsDated(s, todo[0]);
      PassIsDated(StepEvent(s, todo[0]), todo[1..]);
      DatedChains(s, StepEvent(s, todo[0]), Pass(s, todo).0);
    }
  }

  lemma {:induction false} DrainIsDated(s: Tables, pid: string)
    ensures AllDated(s, Drain(s, pid))
    decreases WaitingCount(s.events)
  {
    hide AllDated, Pass;
    var todo := Queue(s.events, pid, |s.events|);
    var (s', progress) := Pass(s, todo);
    PassIsDated(s, todo);
    PassConsumes(s, todo);
    if progress {
      DrainIsDated(s', pid);
      DatedChains(s, s', Drain(s', pid));
    }
  }

  /** An order that taking in an event has changed carries the time of one of its own events, applied by that. */
  lemma ChangedOrdersAreDated(s: Tables, e: Event, receivedAt: string, i: nat)
    requires i < |s.orders|
    ensures i < |Ingest(s, e, receivedAt).0.orders| && Dated(s, Ingest(s, e, receivedAt).0, i)
  {
    hide ViewOf, Drain, ValidEvent;
    if Ingest(s, e, receivedAt).0 != s {
      var s1 := s.(events := s.events + [EventRow(e, receivedAt, Waiting, None)]);
      var s' := Drain(s1, e.paymentId);
      DrainIsDated(s1, e.paymentId);
      assert Dated(s1, s', i);
      if s'.orders[i] != s.orders[i] {
        var k :| 0 <= k < |s'.events| && NewlyApplied(s1.events, s'.events[k], k)
                 && s'.orders[i].paymentId == Some(s'.events[k].event.paymentId) && s'.orders[i].updatedAt == s'.events[k].event.occurredAt;
        assert NewlyApplied(s.events, s'.events[k], k);
      }
    }
  }

  // ----- What a status means ---------------------------------------------------------------------

  /** The history has a payment row of the order written by this event. */
  ghost predicate Wrote(s: Tables, id: OrderId, e: Event) {
    exists h :: 0 <= h < |s.history| && s.history[h].orderId == id && s.history[h].source == e.id
                && s.history[h].change.PaymentChange? && Reports(e.kind, s.history[h].change.now)
  }

  /** The history has a payment row of the order to the status that the event reports. */
  ghost predicate Reached(s: Tables, id: OrderId, kind: EventType) {
    exists h :: 0 <= h < |s.history| && s.history[h].orderId == id
                && s.history[h].change.PaymentChange? && Reports(kind, s.history[h].change.now)
  }

  lemma HolderIsUnique(s: Tables, i: nat, id: OrderId, pid: string)
    requires OrdersOk(s.orders) && i < |s.orders| && s.orders[i].paymentId == Some(pid) && Holds(s.orders, id, pid)
    ensures s.orders[i].id == id
  {
    DistinctIds(s.orders, i);
  }

  /**
   The status of a stored event, in terms of its order's columns and history: refused for the amount exactly
   when amount or currency differ; applied exactly when it wrote a payment row; settled as a repeat only
   after another event had brought the payment there, with the captured fee if it is a duplicate and with
   another fee than the captured one if it is a conflict.
   */
  lemma EventStatusMeans(s: Tables, i: nat, k: nat)
    requires Reachable(s) && i < |s.orders| && k < |s.events| && s.orders[i].paymentId == Some(s.events[k].event.paymentId)
    ensures var o, row, e := s.orders[i], s.events[k], s.events[k].event;
            && (row.status.RejectedAmountMismatch? <==> e.amount != o.quoted || e.currency != o.currency)
            && (row.status.Applied? <==> Wrote(s, o.id, e))
            && (row.status.AppliedDuplicateEffect? ==>
                  Reached(s, o.id, e.kind) && !Wrote(s, o.id, e) && (e.kind.PaymentCaptured? ==> e.fee == o.fee))
            && (row.status.RejectedEffectConflict? ==>
                  Reached(s, o.id, e.kind) && !Wrote(s, o.id, e) && e.kind.PaymentCaptured? && e.fee != o.fee)
            && (row.status.Applied? && e.kind.PaymentCaptured? ==> e.fee == o.fee)
            && row.appliedAt == (if row.status.Waiting? || row.status.RejectedAmountMismatch? then None else Some(e.occurredAt))
  {
    ReachableInv(s);
    ReachableIsTraced(s);
    assert Stamped(s.events[k]);
    ReachableRepeats(s);
    FitMeans(s, i, k);
    AppliedWrote(s, i, k);
    hide Inv, Reachable, Traced;
    if SettledAsRepeat(s.events[k]) {
      assert Repeats(s, s.events[k]);
      RepeatIsReached(s, i, k);
    }
  }

  lemma FitMeans(s: Tables, i: nat, k: nat)
    requires Inv(s) && i < |s.orders| && k < |s.events| && s.orders[i].paymentId == Some(s.events[k].event.paymentId)
    ensures var o, row, e := s.orders[i], s.events[k], s.events[k].event;
            && (row.status.RejectedAmountMismatch? <==> e.amount != o.quoted || e.currency != o.currency)
            && (row.status.RejectedEffectConflict? ==> e.kind.PaymentCaptured? && e.fee != o.fee)
            && (row.status.Applied? || row.status.AppliedDuplicateEffect? ==> (e.kind.PaymentCaptured? ==> e.fee == o.fee))
  {
    hide Inv;
    StoredEventFits(s, i, k);
  }

  /** What the invariant says of an order and one of its events. */
  lemma StoredEventFits(s: Tables, i: nat, k: nat)
    requires Inv(s) && i < |s.orders| && k < |s.events| && s.orders[i].paymentId == Some(s.events[k].event.paymentId)
    ensures Fits(s.orders[i], s.events[k])
    ensures s.events[k].status.Waiting? ==> Stuck(s.orders[i], s.events[k].event)
  {
    hide OrdersOk, LedgersOk, TrailsOk, SupportsOk, Fits, Stuck;
    var o, row := s.orders[i], s.events[k];
    assert Owns(o, row);
    assert QuietFor(s.orders, s.events, row.event.paymentId);
    if row.status.Waiting? { assert WaitsFor(row, row.event.paymentId); }
  }

  /** What the invariant says of identifiers. */
  lemma IdentifiersAreUnique(s: Tables)
    requires Inv(s)
    ensures OrdersOk(s.orders) && LegalHistory(s.history)
    ensures forall j, k :: 0 <= j < k < |s.events| ==> s.events[j].event.id != s.events[k].event.id
  {
    hide OrdersOk, LedgersOk, SupportsOk, AllQuiet;
  }

  lemma RepeatIsReached(s: Tables, i: nat, k: nat)
    requires Inv(s) && i < |s.orders| && k < |s.events| && s.orders[i].paymentId == Some(s.events[k].event.paymentId)
    requires Repeats(s, s.events[k])
    ensures Reached(s, s.orders[i].id, s.events[k].event.kind)
  {
    var row := s.events[k];
    var h :| 0 <= h < |s.history| && s.history[h].change.PaymentChange? && Reports(row.event.kind, s.history[h].change.now)
             && Holds(s.orders, s.history[h].orderId, row.event.paymentId);
    HolderIsUnique(s, i, s.history[h].orderId, row.event.paymentId);
    hide Inv;
  }

  lemma AppliedWrote(s: Tables, i: nat, k: nat)
    requires Inv(s) && Traced(s) && i < |s.orders| && k < |s.events|
    requires s.orders[i].paymentId == Some(s.events[k].event.paymentId)
    ensures s.events[k].status.Applied? <==> Wrote(s, s.orders[i].id, s.events[k].event)
  {
    IdentifiersAreUnique(s);
    hide Inv, Traced, OrdersOk, LegalHistory, Wrote;
    if s.events[k].status.Applied? { AppliedLeftARow(s, i, k); }
    if Wrote(s, s.orders[i].id, s.events[k].event) { WriterIsApplied(s, s.orders[i].id, k); }
  }

  lemma AppliedLeftARow(s: Tables, i: nat, k: nat)
    requires OrdersOk(s.orders) && Traced(s) && i < |s.orders| && k < |s.events| && s.events[k].status.Applied?
    requires s.orders[i].paymentId == Some(s.events[k].event.paymentId)
    ensures Wrote(s, s.orders[i].id, s.events[k].event)
  {
    hide OrdersOk, RowTraced, EntryTraced, Holds;
    var row := s.events[k];
    assert EventTraced(s, row);
    hide Traced;
    var h :| 0 <= h < |s.history| && s.history[h].change.PaymentChange? && Causes(s.orders, row, s.history[h]);
    HolderIsUnique(s, i, s.history[h].orderId, row.event.paymentId);
  }

  lemma WriterIsApplied(s: Tables, id: OrderId, k: nat)
    requires Traced(s) && k < |s.events| && Wrote(s, id, s.events[k].event)
    requires forall a, b :: 0 <= a < b < |s.events| ==> s.events[a].event.id != s.events[b].event.id
    ensures s.events[k].status.Applied?
  {
    hide EntryTraced, EventTraced, Holds, Reports;
    var e := s.events[k].event;
    var h :| 0 <= h < |s.history| && s.history[h].orderId == id && s.history[h].source == e.id
             && s.history[h].change.PaymentChange? && Reports(e.kind, s.history[h].change.now);
    assert RowTraced(s, s.history[h]);
    hide Traced;
    var j :| 0 <= j < |s.events| && Causes(s.orders, s.events[j], s.history[h]);
    assert s.events[j].event.id == e.id;
    assert j == k;
  }

  // ----- One event per status ----------------------------------------------------------------------

  /** Payment rows of one order lead ever deeper, so no status is reached twice. */
  lemma {:induction false} RowsGoDeeper(history: seq<HistoryRow>, j: nat)
    requires LegalHistory(history) && j < |history| && history[j].change.PaymentChange?
    ensures PaymentDepth(history[j].change.now) <= PaymentDepth(LastPayment(history, history[j].orderId))
  {
    var n := |history| - 1;
    if j < n {
      RowsGoDeeper(history[..n], j);
      DepthsRise();
    }
  }

  lemma StatusesDiffer(history: seq<HistoryRow>, j: nat, k: nat)
    requires LegalHistory(history) && j < k < |history| && history[j].orderId == history[k].orderId
    requires history[j].change.PaymentChange? && history[k].change.PaymentChange?
    ensures history[j].change.now != history[k].change.now
  {
    LegalHistoryRows(history, k);
    LegalPrefix(history, k);
    assert history[..k][j] == history[j];
    RowsGoDeeper(history[..k], j);
    DepthsRise();
  }

  lemma {:induction false} LegalPrefix(history: seq<HistoryRow>, k: nat)
    requires LegalHistory(history) && k <= |history|
    ensures LegalHistory(history[..k])
  {
    if k < |history| {
      LegalPrefix(history[..|history| - 1], k);
      assert history[..|history| - 1][..k] == history[..k];
    } else {
      assert history[..k] == history;
    }
  }

  /** Every status of a payment is reached by one event: two applied events of a payment report different things. */
  lemma OneEventPerStatus(s: Tables, j: nat, k: nat)
    requires Reachable(s) && j < k < |s.events| && s.events[j].status.Applied? && s.events[k].status.Applied?
    requires s.events[j].event.paymentId == s.events[k].event.paymentId
    ensures s.events[j].event.kind != s.events[k].event.kind
  {
    hide Inv, Reachable, OrdersOk, LegalHistory, Traced, Holds, WrittenAt;
    ReachableInv(s);
    IdentifiersAreUnique(s);
    ReachableIsTraced(s);
    var i, g := WrittenRow(s, j);
    var i', h := WrittenRow(s, k);
    HoldersOfRow(s, i, j, g);
    HoldersOfRow(s, i', k, h);
    SameHolder(s, i, i', s.events[j].event.paymentId);
    WrittenRows(s, i, j, g, k, h);
  }

  /** History row g is the payment row of order i that event k wrote. */
  predicate WrittenAt(s: Tables, i: nat, k: nat, g: nat) {
    && i < |s.orders| && k < |s.events| && g < |s.history|
    && s.orders[i].paymentId == Some(s.events[k].event.paymentId) && s.history[g].orderId == s.orders[i].id
    && s.history[g].source == s.events[k].event.id
    && s.history[g].change.PaymentChange? && Reports(s.events[k].event.kind, s.history[g].change.now)
  }

  lemma WrittenRow(s: Tables, k: nat) returns (i: nat, g: nat)
    requires Traced(s) && k < |s.events| && s.events[k].status.Applied?
    ensures WrittenAt(s, i, k, g)
  {
    hide RowTraced, EntryTraced;
    var row := s.events[k];
    assert EventTraced(s, row);
    hide Traced;
    g :| 0 <= g < |s.history| && s.history[g].change.PaymentChange? && Causes(s.orders, row, s.history[g]);
    i :| 0 <= i < |s.orders| && s.orders[i].id == s.history[g].orderId && s.orders[i].paymentId == Some(row.event.paymentId);
  }

  lemma HoldersOfRow(s: Tables, i: nat, k: nat, g: nat)
    requires WrittenAt(s, i, k, g)
    ensures i < |s.orders| && k < |s.events| && s.orders[i].paymentId == Some(s.events[k].event.paymentId)
  {
  }

  lemma SameHolder(s: Tables, i: nat, j: nat, pid: string)
    requires OrdersOk(s.orders) && i < |s.orders| && j < |s.orders|
    requires s.orders[i].paymentId == s.orders[j].paymentId == Some(pid)
    ensures i == j
  {
    KeyIsFound(s.orders, i, ByPayment(pid));
    KeyIsFound(s.orders, j, ByPayment(pid));
  }

  lemma WrittenRows(s: Tables, i: nat, j: nat, g: nat, k: nat, h: nat)
    requires LegalHistory(s.history) && WrittenAt(s, i, j, g) && WrittenAt(s, i, k, h)
    requires s.events[j].event.id != s.events[k].event.id
    ensures s.events[j].event.kind != s.events[k].event.kind
  {
    if g < h { StatusesDiffer(s.history, g, h); } else { StatusesDiffer(s.history, h, g); }
  }

  /**
   Every collected amount, processing fee and refund in the ledger is the amount of one applied event of the
   order's own payment, booked under its identifier and time; and every payment row names such an event.
   */
  lemma MoneyIsTraced(s: Tables, n: nat)
    requires Reachable(s) && n < |s.entries| && !s.entries[n].category.DirectCost?
    ensures exists i, k :: 0 <= i < |s.orders| && 0 <= k < |s.events| && BookedFor(s.orders[i], s.events[k], s.entries[n])
  {
    hide Reachable, Inv, Causes, RowTraced, EventTraced;
    ReachableInv(s);
    EntryIsOk(s, n);
    ReachableIsTraced(s);
    var e := s.entries[n];
    assert EntryTraced(s, e);
    hide Traced;
    var k :| 0 <= k < |s.events| && Books(s.orders, s.events[k], e);
    var i :| 0 <= i < |s.orders| && s.orders[i].id == e.orderId && s.orders[i].paymentId == Some(s.events[k].event.paymentId);
    assert BookedFor(s.orders[i], s.events[k], e);
  }

  lemma EntryIsOk(s: Tables, n: nat)
    requires Inv(s) && n < |s.entries|
    ensures EntryOk(s.entries[n])
  {
    hide OrdersOk, TrailsOk, EventsOk, SupportsOk, AllQuiet;
  }

  predicate BookedFor(o: Order, row: EventRow, e: Entry) {
    && o.id == e.orderId && o.paymentId == Some(row.event.paymentId) && row.status.Applied?
    && row.event.id == e.source && row.event.occurredAt == e.recordedAt
    && (e.category.GrossCollected? ==> row.event.kind.PaymentCaptured? && e.amount == e.impact == row.event.amount)
    && (e.category.ProcessingFee? ==> row.event.kind.PaymentCaptured? && e.amount == -e.impact == row.event.fee)
    && (e.category.Refund? ==> row.event.kind.PaymentRefunded? && e.amount == -e.impact == row.event.amount)
  }

  lemma HistoryIsTraced(s: Tables, h: nat)
    requires Reachable(s) && h < |s.history| && FromEvent(s.history[h])
    ensures exists i, k :: 0 <= i < |s.orders| && 0 <= k < |s.events| && WrittenFor(s.orders[i], s.events[k], s.history[h])
  {
    hide Reachable, Books, EntryTraced, EventTraced;
    ReachableIsTraced(s);
    var row := s.history[h];
    assert RowTraced(s, row);
    hide Traced;
    var k :| 0 <= k < |s.events| && Causes(s.orders, s.events[k], row);
    var i :| 0 <= i < |s.orders| && s.orders[i].id == row.orderId && s.orders[i].paymentId == Some(s.events[k].event.paymentId);
    assert WrittenFor(s.orders[i], s.events[k], row);
  }

  predicate WrittenFor(o: Order, row: EventRow, h: HistoryRow) {
    && o.id == h.orderId && o.paymentId == Some(row.event.paymentId) && row.status.Applied?
    && row.event.id == h.source && row.event.occurredAt == h.occurredAt
    && (h.change.PaymentChange? ==> Reports(row.event.kind, h.change.now))
    && (h.change.OrderChange? && h.change.next.Queued? ==> row.event.kind.PaymentCaptured?)
    && (h.change.OrderChange? && h.change.next.PaymentFailed? ==> row.event.kind.PaymentFailure?)
  }
}
