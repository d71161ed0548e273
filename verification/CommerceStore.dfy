/**
 The store itself: an object whose fields are the tables and whose methods are the
 transactions.  Each method leaves the tables, and gives the reply, that the specification
 of its transaction names, and keeps the store invariant.
 */
module CommerceStore {
  import opened Wrappers
  import opened CommerceStates
  import opened CommerceTables
  import opened CommerceTransactions
  import opened CommerceInvariant
  import opened CommerceSteps
  import opened CommerceRuns

  class Store {
    const environment: Environment
    var quotes: seq<Quote>
    var orders: seq<Order>
    var events: seq<EventRow>
    var entries: seq<Entry>
    var costs: seq<CostRecord>
    var history: seq<HistoryRow>

    function State(): Tables
      reads this
    {
      Tables(environment, quotes, orders, events, entries, costs, history)
    }

    ghost predicate Valid()
      reads this
    {
      Inv(State())
    }

    constructor (environment: Environment)
      ensures State() == EmptyTables(environment) && Valid()
    {
      this.environment := environment;
      quotes, orders, events, entries, costs, history := [], [], [], [], [], [];
    }

    method CreateQuote(q: Quote, maxPrice: Option<nat>, liveCheckoutEnabled: bool) returns (r: Outcome)
      requires Valid()
      modifies this
      ensures (State(), r) == CommerceTransactions.CreateQuote(old(State()), q, maxPrice, liveCheckoutEnabled)
      ensures Valid()
    {
      CreateQuoteKeepsInv(State(), q, maxPrice, liveCheckoutEnabled);
      if (q.provider.Fake? && !environment.Sandbox?) || (environment.Live? && !(q.provider.Stripe? && liveCheckoutEnabled)) {
        return Err(LiveNotEnabled);
      }
      if maxPrice.None? { return Err(InvalidCommerceRequest); }
      if maxPrice.value < q.amount { return Ok(Declined); }
      var existing := FindQuote(quotes, q.id);
      if existing.Some? {
        return if quotes[existing.value] != q then Err(IdempotencyConflict) else Ok(Quoted(q));
      }
      quotes := quotes + [q];
      r := Ok(Quoted(q));
    }

    method CreateOrder(quoteId: string, key: string, buyer: string, now: int, at: string) returns (r: Outcome)
      requires Valid()
      modifies this
      ensures (State(), r) == CommerceTransactions.CreateOrder(old(State()), quoteId, key, buyer, now, at)
      ensures Valid()
    {
      hide Inv, ViewOf;
      CreateOrderKeepsInv(State(), quoteId, key, buyer, now, at);
      if !IsIdempotencyKey(key) || !IsBuyerReference(buyer) { return Err(InvalidCommerceRequest); }
      var existing := FindOrder(orders, ByIdempotency(key));
      if existing.Some? {
        if orders[existing.value].id != OrderId(quoteId, key, buyer) { return Err(IdempotencyConflict); }
        return Ok(Viewed(ViewOf(State(), existing.value)));
      }
      var found := FindQuote(quotes, quoteId);
      if found.None? { return Err(QuoteNotOrderable); }
      var q := quotes[found.value];
      if now >= q.expiresAt { return Err(QuoteExpired); }
      if environment.Live? && !q.provider.Stripe? { return Err(QuoteNotOrderable); }
      var o := NewOrder(q, OrderId(quoteId, key, buyer), at);
      if UpdateClashes(orders, |orders|, o) { return Err(QuoteAlreadyUsed); }
      orders := orders + [o];
      history := history + [HistoryRow(o.id, OrderChange(None, CheckoutPending), key, at)];
      r := Ok(Viewed(ViewOf(State(), |orders| - 1)));
    }

    method AttachCheckout(id: OrderId, checkoutId: string, paymentId: Option<string>, at: string) returns (r: Outcome)
      requires Valid()
      modifies this
      ensures (State(), r) == CommerceTransactions.AttachCheckout(old(State()), id, checkoutId, paymentId, at)
      ensures Valid()
    {
      hide Inv, ViewOf;
      AttachKeepsInv(State(), id, checkoutId, paymentId, at);
      var found := FindOrder(orders, ById(id));
      if found.None? { return Err(UnknownOrder); }
      var i, o := found.value, orders[found.value];
      var payment := CheckoutPayment(o, environment, checkoutId, paymentId);
      if payment.Err? { return Err(payment.error); }
      if o.checkoutId.Some? {
        if o.checkoutId.value != checkoutId || (payment.value.Some? && o.paymentId != payment.value) {
          return Err(IdempotencyConflict);
        }
        return Ok(Viewed(ViewOf(State(), i)));
      }
      if !OrderMayMove(o.status, PaymentPending) { return Err(InvalidTransition); }
      var o' := o.(checkoutId := Some(checkoutId), paymentId := payment.value, status := PaymentPending, updatedAt := at);
      if UpdateClashes(orders, i, o') { return Err(IdempotencyConflict); }
      orders := orders[i := o'];
      history := history + [HistoryRow(id, OrderChange(Some(o.status), PaymentPending), checkoutId, at)];
      r := Ok(Viewed(ViewOf(State(), i)));
    }

    method BindProviderPayment(id: OrderId, paymentId: string, checkoutId: string, at: string) returns (r: Outcome)
      requires Valid()
      modifies this
      ensures (State(), r) == CommerceTransactions.BindProviderPayment(old(State()), id, paymentId, checkoutId, at)
      ensures Valid()
    {
      hide Inv, ViewOf;
      BindKeepsInv(State(), id, paymentId, checkoutId, at);
      if !IsStripePaymentId(paymentId) { return Err(InvalidCommerceRequest); }
      var found := FindOrder(orders, ById(id));
      if found.None? { return Err(UnknownOrder); }
      var i, o := found.value, orders[found.value];
      if !o.provider.Stripe? || o.checkoutId != Some(checkoutId) { return Err(IdempotencyConflict); }
      if o.paymentId.Some? {
        if o.paymentId.value != paymentId { return Err(IdempotencyConflict); }
        return Ok(Viewed(ViewOf(State(), i)));
      }
      var o' := o.(paymentId := Some(paymentId), updatedAt := at);
      if UpdateClashes(orders, i, o') { return Err(IdempotencyConflict); }
      orders := orders[i := o'];
      r := Ok(Viewed(ViewOf(State(), i)));
    }

    /** The body of the reconciliation loop for one event row. */
    method ReconcileEvent(k: nat) returns (progress: bool)
      requires k < |events|
      modifies this
      ensures State() == StepEvent(old(State()), k)
      ensures progress == !VerdictAt(old(State()), k).Leave?
    {
      var e := events[k].event;
      var found := FindOrder(orders, ByPayment(e.paymentId));
      if found.None? { return false; }
      var i, o := found.value, orders[found.value];
      if e.amount != o.quoted || e.currency != o.currency {
        events := events[k := events[k].(status := RejectedAmountMismatch)];
        return true;
      }
      var target := Target(e.kind);
      if o.payment == target {
        var status := if EffectMatches(e, o) then AppliedDuplicateEffect else RejectedEffectConflict;
        events := events[k := events[k].(status := status, appliedAt := Some(e.occurredAt))];
        return true;
      }
      if !PaymentMayMove(o.payment, target) { return false; }
      if target.Captured? {
        if !o.status.PaymentPending? { return false; }
        orders := orders[i := o.(payment := target, status := Queued, collected := e.amount, fee := e.fee, updatedAt := e.occurredAt)];
        entries := entries + [Entry(o.id, GrossCollected, e.amount, e.amount, e.id, e.occurredAt),
                              Entry(o.id, ProcessingFee, e.fee, -e.fee, e.id, e.occurredAt)];
      } else if target.Failed? {
        orders := orders[i := o.(payment := target, status := PaymentFailed, updatedAt := e.occurredAt)];
      } else if target.Refunded? {
        orders := orders[i := o.(payment := target, refunded := e.amount, updatedAt := e.occurredAt)];
        entries := entries + [Entry(o.id, Refund, e.amount, -e.amount, e.id, e.occurredAt)];
      } else {
        orders := orders[i := o.(payment := target, updatedAt := e.occurredAt)];
      }
      var paid := HistoryRow(o.id, PaymentChange(o.payment, target), e.id, e.occurredAt);
      if target.Captured? || target.Failed? {
        history := history + [paid, HistoryRow(o.id, OrderChange(Some(o.status), orders[i].status), e.id, e.occurredAt)];
      } else {
        history := history + [paid];
      }
      events := events[k := events[k].(status := Applied, appliedAt := Some(e.occurredAt))];
      assert entries == old(entries) + EntriesFor(o.id, e);
      progress := true;
    }

    /** Passes over the waiting events of one payment until a pass makes no progress. */
    method ReconcilePayment(pid: string)
      modifies this
      ensures State() == Drain(old(State()), pid)
    {
      var progress := true;
      while progress
        invariant if progress then Drain(State(), pid) == Drain(old(State()), pid)
                  else State() == Drain(old(State()), pid)
        decreases progress, WaitingCount(events)
      {
        progress := false;
        ghost var before := State();
        var queue := Queue(events, pid, |events|);
        PassConsumes(before, queue);
        for q := 0 to |queue|
          invariant Todo(State(), queue[q..])
          invariant Pass(before, queue) == (Pass(State(), queue[q..]).0, progress || Pass(State(), queue[q..]).1)
        {
          assert queue[q..][0] == queue[q] && queue[q..][1..] == queue[q + 1..];
          HeadOfTodo(State(), queue[q..]);
          var moved := ReconcileEvent(queue[q]);
          progress := progress || moved;
        }
        assert (State(), progress) == Pass(before, queue);
      }
    }

    method IngestProviderEvent(e: Event, receivedAt: string) returns (r: Outcome)
      requires Valid()
      modifies this
      ensures (State(), r) == Ingest(old(State()), e, receivedAt)
      ensures Valid()
    {
      hide Inv, Drain, ViewOf;
      IngestKeepsInv(State(), e, receivedAt);
      if !ValidEvent(environment, e) { return Err(InvalidCommerceEvent); }
      var existing := FindEvent(events, e.id);
      var found := FindOrder(orders, ByPayment(e.paymentId));
      if existing.Some? {
        if events[existing.value].event != e { return Err(ProviderEventConflict); }
        if found.None? { return Err(UnknownOrder); }
        return Ok(Ingested(true, e.id, events[existing.value].status, ViewOf(State(), found.value)));
      }
      if found.None? { return Err(UnknownProviderPayment); }
      if orders[found.value].provider != e.provider { return Err(InvalidCommerceEvent); }
      var k := |events|;
      events := events + [EventRow(e, receivedAt, Waiting, None)];
      ReconcilePayment(e.paymentId);
      r := Ok(Ingested(false, e.id, State().events[k].status, ViewOf(State(), found.value)));
    }

    method RecordDirectCosts(id: OrderId, amounts: map<CostCategory, int>, key: string, at: string) returns (r: Outcome)
      requires Valid()
      modifies this
      ensures (State(), r) == CommerceTransactions.RecordDirectCosts(old(State()), id, amounts, key, at)
      ensures Valid()
    {
      hide Inv, ViewOf, ValidCosts, CostEntries, FindOrder, FindCosts;
      CostsKeepInv(State(), id, amounts, key, at);
      if !ValidCosts(amounts) || !IsIdempotencyKey(key) { return Err(InvalidCostRecord); }
      var found := FindOrder(orders, ById(id));
      if found.None? { return Err(UnknownOrder); }
      var i := found.value;
      var existing := FindCosts(costs, id, key);
      if existing.Some? {
        if costs[existing.value].costs != amounts { return Err(IdempotencyConflict); }
        return Ok(Viewed(ViewOf(State(), i)));
      }
      if orders[i].costsRecorded { return Err(CostsAlreadyRecorded); }
      costs := costs + [CostRecord(id, key, amounts, at)];
      ghost var before := entries;
      NoCostEntries(id, amounts, key, at);
      for n := 0 to |DIRECT_COST_CATEGORIES|
        invariant entries == before + CostEntries(id, amounts, key, at, n)
        invariant (quotes, orders, events, history) == old((quotes, orders, events, history))
        invariant costs == old(costs) + [CostRecord(id, key, amounts, at)]
      {
        var c := DIRECT_COST_CATEGORIES[n];
        OneMoreCostEntry(id, amounts, key, at, n);
        entries := entries + [Entry(id, DirectCost(c), amounts[c], -amounts[c], key, at)];
      }
      orders := orders[i := orders[i].(costsRecorded := true, updatedAt := at)];
      r := Ok(Viewed(ViewOf(State(), i)));
    }

    method TransitionOrder(id: OrderId, target: OrderStatus, delivery: DeliveryStatus, source: string, at: string)
      returns (r: Outcome)
      requires Valid() && (target.Running? || target.FulfillmentFailed?) && !delivery.Done?
      modifies this
      ensures (State(), r) == CommerceTransactions.TransitionOrder(old(State()), id, target, delivery, source, at)
      ensures Valid()
    {
      hide Inv, ViewOf;
      TransitionKeepsInv(State(), id, target, delivery, source, at);
      var found := FindOrder(orders, ById(id));
      if found.None? { return Err(UnknownOrder); }
      var i, o := found.value, orders[found.value];
      if o.status == target { return Ok(Viewed(ViewOf(State(), i))); }
      if !OrderMayMove(o.status, target) { return Err(InvalidTransition); }
      orders := orders[i := o.(status := target, delivery := delivery, updatedAt := at)];
      history := history + [HistoryRow(id, OrderChange(Some(o.status), target), source, at)];
      r := Ok(Viewed(ViewOf(State(), i)));
    }

    method BeginFulfillment(id: OrderId, source: string, at: string) returns (r: Outcome)
      requires Valid()
      modifies this
      ensures (State(), r) == CommerceTransactions.BeginFulfillment(old(State()), id, source, at) && Valid()
    {
      r := TransitionOrder(id, Running, InProgress, source, at);
    }

    method FailFulfillment(id: OrderId, source: string, at: string) returns (r: Outcome)
      requires Valid()
      modifies this
      ensures (State(), r) == CommerceTransactions.FailFulfillment(old(State()), id, source, at) && Valid()
    {
      r := TransitionOrder(id, FulfillmentFailed, GivenUp, source, at);
    }

    method Deliver(id: OrderId, receipt: Receipt, source: string, at: string) returns (r: Outcome)
      requires Valid()
      modifies this
      ensures (State(), r) == CommerceTransactions.Deliver(old(State()), id, receipt, source, at)
      ensures Valid()
    {
      hide Inv, ViewOf;
      DeliverKeepsInv(State(), id, receipt, source, at);
      if !ValidReceipt(receipt) { return Err(InvalidDelivery); }
      var found := FindOrder(orders, ById(id));
      if found.None? { return Err(UnknownOrder); }
      var i, o := found.value, orders[found.value];
      if !o.costsRecorded { return Err(CostRecordRequired); }
      if o.status.Delivered? {
        if o.receipt != Some(receipt) { return Err(IdempotencyConflict); }
        return Ok(Viewed(ViewOf(State(), i)));
      }
      if !OrderMayMove(o.status, Delivered) { return Err(InvalidTransition); }
      var o' := o.(status := Delivered, receipt := Some(receipt), delivery := Done, updatedAt := at);
      if UpdateClashes(orders, i, o') { return Err(IdempotencyConflict); }
      orders := orders[i := o'];
      history := history + [HistoryRow(id, OrderChange(Some(o.status), Delivered), source, at)];
      r := Ok(Viewed(ViewOf(State(), i)));
    }
  }
}
