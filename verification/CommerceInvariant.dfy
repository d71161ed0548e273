/**
 What every transaction keeps.  The invariant has two parts: `Base`, kept by every single
 reconciliation step, and `Quiet`, which reconciliation re-establishes before it returns.
 */
module CommerceInvariant {
  import opened Wrappers
  import opened CommerceStates
  import opened CommerceTables
  import opened CommerceTransactions

  // ----- Orders --------------------------------------------------------------------

  /** Order status and payment status move together, and the amounts follow the payment. */
  predicate RowOk(o: Order) {
    && (o.status.CheckoutPending? || o.status.PaymentPending? <==> o.payment.Pending?)
    && (o.status.PaymentFailed? <==> o.payment.Failed?)
    && (o.status in {Queued, Running, Delivered, FulfillmentFailed} <==> PastCapture(o.payment))
    && (o.checkoutId.None? <==> o.status.CheckoutPending?)
    && (o.checkoutId.None? ==> o.paymentId.None?)
    && (o.paymentId.None? ==> o.payment.Pending?)
    && o.collected == (if PastCapture(o.payment) then o.quoted else 0)
    && 0 <= o.fee <= o.collected
    && o.refunded == (if o.payment.Refunded? then o.collected else 0)
    && (o.receipt.Some? <==> o.status.Delivered?)
    && (o.receipt.Some? ==> o.costsRecorded && ValidReceipt(o.receipt.value))
    && (o.delivery.Done? <==> o.status.Delivered?)
  }

  ghost predicate UniqueOrders(orders: seq<Order>) {
    forall i, j :: 0 <= i < j < |orders| ==> !Clash(orders[i], orders[j])
  }

  ghost predicate OrdersOk(orders: seq<Order>) {
    && UniqueOrders(orders)
    && forall i :: 0 <= i < |orders| ==> RowOk(orders[i])
  }

  // ----- Ledger --------------------------------------------------------------------

  predicate EntryOk(e: Entry) {
    e.amount >= 0 && e.impact == if e.category.GrossCollected? then e.amount else -e.amount
  }

  /** The UNIQUE(order_id, category, source_reference) constraint, without its third column. */
  ghost predicate UniqueEntries(entries: seq<Entry>) {
    forall i, j :: 0 <= i < j < |entries| ==>
      entries[i].orderId != entries[j].orderId || entries[i].category != entries[j].category
  }

  ghost predicate Booked(entries: seq<Entry>, id: OrderId, c: Category) {
    exists k :: 0 <= k < |entries| && entries[k].orderId == id && entries[k].category == c
  }

  ghost predicate MayBeBooked(o: Order, c: Category) {
    match c
    case GrossCollected => PastCapture(o.payment)
    case ProcessingFee => PastCapture(o.payment)
    case Refund => o.payment.Refunded?
    case DirectCost(_) => o.costsRecorded
  }

  ghost predicate CostsMatch(entries: seq<Entry>, costs: seq<CostRecord>, o: Order) {
    && (!o.costsRecorded ==> (forall r <- costs :: r.orderId != o.id)
                             && forall c :: AmountOf(entries, o.id, DirectCost(c)) == 0)
    && (o.costsRecorded ==> exists r <- costs :: r.orderId == o.id)
    && (forall r <- costs :: r.orderId == o.id ==>
          ValidCosts(r.costs) && forall c <- r.costs.Keys :: AmountOf(entries, o.id, DirectCost(c)) == r.costs[c])
  }

  ghost predicate LedgerOk(entries: seq<Entry>, costs: seq<CostRecord>, o: Order) {
    && AmountOf(entries, o.id, GrossCollected) == o.collected
    && AmountOf(entries, o.id, ProcessingFee) == o.fee
    && AmountOf(entries, o.id, Refund) == o.refunded
    && CostsMatch(entries, costs, o)
    && forall c :: Booked(entries, o.id, c) ==> MayBeBooked(o, c)
  }

  ghost predicate Known(orders: seq<Order>, id: OrderId) {
    exists i :: 0 <= i < |orders| && orders[i].id == id
  }

  ghost predicate LedgersOk(orders: seq<Order>, entries: seq<Entry>, costs: seq<CostRecord>) {
    && (forall k :: 0 <= k < |entries| ==> EntryOk(entries[k]) && Known(orders, entries[k].orderId))
    && (forall k :: 0 <= k < |costs| ==> Known(orders, costs[k].orderId))
    && UniqueEntries(entries)
    && forall i :: 0 <= i < |orders| ==> LedgerOk(entries, costs, orders[i])
  }

  // ----- History ---------------------------------------------------------------------

  /** The order status that folding an order's history gives. */
  function LastOrder(history: seq<HistoryRow>, id: OrderId): Option<OrderStatus> {
    if history == [] then None
    else
      var n := |history| - 1;
      if history[n].orderId == id && history[n].change.OrderChange? then Some(history[n].change.next)
      else LastOrder(history[..n], id)
  }

  /** The payment status that folding an order's history gives. */
  function LastPayment(history: seq<HistoryRow>, id: OrderId): PaymentStatus {
    if history == [] then Pending
    else
      var n := |history| - 1;
      if history[n].orderId == id && history[n].change.PaymentChange? then history[n].change.now
      else LastPayment(history[..n], id)
  }

  /** A row that may follow `history`: it starts where the fold ends and takes a listed transition. */
  predicate LegalRow(history: seq<HistoryRow>, row: HistoryRow) {
    match row.change
    case OrderChange(prior, next) =>
      && prior == LastOrder(history, row.orderId)
      && (if prior.None? then next.CheckoutPending? else OrderMayMove(prior.value, next))
    case PaymentChange(was, now) =>
      was == LastPayment(history, row.orderId) && PaymentMayMove(was, now)
  }

  predicate LegalHistory(history: seq<HistoryRow>) {
    history == [] ||
    (LegalHistory(history[..|history| - 1]) && LegalRow(history[..|history| - 1], history[|history| - 1]))
  }

  predicate TrailOk(history: seq<HistoryRow>, o: Order) {
    LastOrder(history, o.id) == Some(o.status) && LastPayment(history, o.id) == o.payment
  }

  ghost predicate TrailsOk(orders: seq<Order>, history: seq<HistoryRow>) {
    && LegalHistory(history)
    && (forall k :: 0 <= k < |history| ==> Known(orders, history[k].orderId))
    && forall i :: 0 <= i < |orders| ==> TrailOk(history, orders[i])
  }

  // ----- Events ------------------------------------------------------------------------

  predicate Owns(o: Order, row: EventRow) {
    o.paymentId == Some(row.event.paymentId)
  }

  /** What the status of an event says about the payment of its order. */
  predicate Fits(o: Order, row: EventRow) {
    match row.status
    case Waiting => true
    case RejectedAmountMismatch => !AmountMatches(row.event, o)
    case RejectedEffectConflict =>
      AmountMatches(row.event, o) && PastCapture(o.payment) && Target(row.event.kind).Captured? && row.event.fee != o.fee
    case _ =>
      && AmountMatches(row.event, o) && Passed(Target(row.event.kind), o.payment)
      && (Target(row.event.kind).Captured? ==> row.event.fee == o.fee)
  }

  ghost predicate Owned(orders: seq<Order>, row: EventRow) {
    exists i :: 0 <= i < |orders| && Owns(orders[i], row)
  }

  ghost predicate EventsOk(environment: Environment, orders: seq<Order>, events: seq<EventRow>) {
    && (forall j, k :: 0 <= j < k < |events| ==> events[j].event.id != events[k].event.id)
    && (forall k :: 0 <= k < |events| ==> ValidEvent(environment, events[k].event) && Owned(orders, events[k]))
    && (forall i, k :: 0 <= i < |orders| && 0 <= k < |events| && Owns(orders[i], events[k]) ==>
          orders[i].provider == events[k].event.provider && Fits(orders[i], events[k]))
  }

  /** An applied event that took the payment of `o` to `t`. */
  ghost predicate Backed(events: seq<EventRow>, o: Order, t: PaymentStatus) {
    exists k :: 0 <= k < |events| && Backs(events[k], o, t)
  }

  predicate Backs(row: EventRow, o: Order, t: PaymentStatus) {
    && row.status.Applied? && Owns(o, row) && AmountMatches(row.event, o) && Target(row.event.kind) == t
    && (t.Captured? ==> row.event.fee == o.fee)
  }

  /** Every status the payment must have gone through was brought about by an applied event. */
  ghost predicate SupportOk(events: seq<EventRow>, o: Order) {
    && (!o.payment.Pending? ==> Backed(events, o, o.payment))
    && (PastCapture(o.payment) ==> Backed(events, o, Captured))
    && (o.payment.Refunded? ==> Backed(events, o, RefundPending))
  }

  ghost predicate SupportsOk(orders: seq<Order>, events: seq<EventRow>) {
    forall i :: 0 <= i < |orders| ==> SupportOk(events, orders[i])
  }

  // ----- The invariant -------------------------------------------------------------------

  ghost predicate Base(s: Tables) {
    && OrdersOk(s.orders) && LedgersOk(s.orders, s.entries, s.costs) && TrailsOk(s.orders, s.history)
    && EventsOk(s.environment, s.orders, s.events) && SupportsOk(s.orders, s.events)
  }

  /** A waiting event that reconciliation can do nothing with. */
  predicate Stuck(o: Order, e: Event) {
    AmountMatches(e, o) && o.payment != Target(e.kind) && !PaymentMayMove(o.payment, Target(e.kind))
  }

  ghost predicate QuietFor(orders: seq<Order>, events: seq<EventRow>, pid: string) {
    forall i, k :: 0 <= i < |orders| && 0 <= k < |events| && Owns(orders[i], events[k]) ==>
      WaitsFor(events[k], pid) ==> Stuck(orders[i], events[k].event)
  }

  ghost predicate AllQuiet(orders: seq<Order>, events: seq<EventRow>) {
    forall pid: string :: QuietFor(orders, events, pid)
  }

  ghost predicate Quiet(s: Tables) {
    AllQuiet(s.orders, s.events)
  }

  ghost predicate Inv(s: Tables) {
    Base(s) && Quiet(s)
  }

  // ----- Aggregates over an appended row ---------------------------------------------------

  lemma AmountAppends(entries: seq<Entry>, e: Entry, id: OrderId, c: Category)
    ensures AmountOf(entries + [e], id, c)
            == AmountOf(entries, id, c) + if e.orderId == id && e.category == c then e.amount else 0
  {
    assert (entries + [e])[..|entries|] == entries;
  }

  lemma AmountAppendsAll(entries: seq<Entry>, e: Entry)
    ensures forall id, c :: AmountOf(entries + [e], id, c)
                            == AmountOf(entries, id, c) + if e.orderId == id && e.category == c then e.amount else 0
  {
    forall id, c { AmountAppends(entries, e, id, c); }
  }

  lemma HistoryAppends(history: seq<HistoryRow>, row: HistoryRow)
    ensures forall id :: LastOrder(history + [row], id)
                         == if row.orderId == id && row.change.OrderChange? then Some(row.change.next) else LastOrder(history, id)
    ensures forall id :: LastPayment(history + [row], id)
                         == if row.orderId == id && row.change.PaymentChange? then row.change.now else LastPayment(history, id)
    ensures LegalHistory(history) && LegalRow(history, row) ==> LegalHistory(history + [row])
  {
    assert (history + [row])[..|history|] == history;
  }

  lemma UnknownHasNoHistory(history: seq<HistoryRow>, id: OrderId)
    requires forall k :: 0 <= k < |history| ==> history[k].orderId != id
    ensures LastOrder(history, id) == None && LastPayment(history, id) == Pending
  {
  }

  lemma UnbookedHasNoAmount(entries: seq<Entry>, id: OrderId, c: Category)
    requires !Booked(entries, id, c)
    ensures AmountOf(entries, id, c) == 0
  {
    if entries != [] {
      var n := |entries| - 1;
      assert forall k | 0 <= k < n :: entries[..n][k] == entries[k];
      assert entries[n] == entries[|entries| - 1];
      UnbookedHasNoAmount(entries[..n], id, c);
    }
  }
}
