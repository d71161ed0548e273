/**
 The tables of the commerce store, as sequences of rows in insertion order, and the
 queries the store runs on them.  Identifiers produced by SHA-256 are constructors
 (an order id) or the digested value itself (an event payload): hashing is injective.
 */
module CommerceTables {
  import opened Wrappers
  import opened CommerceStates

  datatype Environment = Sandbox | Live
  datatype Provider = Fake | Stripe

  datatype CostCategory =
    | Compute | ThirdParty | Hosting | Storage | Model
    | Network | Signing | Monitoring | DirectSupport | OtherVariable

  const DIRECT_COST_CATEGORIES: seq<CostCategory> :=
    [Compute, ThirdParty, Hosting, Storage, Model, Network, Signing, Monitoring, DirectSupport, OtherVariable]

  datatype Category = GrossCollected | ProcessingFee | Refund | DirectCost(cost: CostCategory)

  datatype EventType =
    | PaymentCaptured | PaymentAvailable | PaymentFailure
    | PaymentRefundPending | PaymentRefunded | PaymentDisputed

  function Target(t: EventType): PaymentStatus {
    match t
    case PaymentCaptured => Captured
    case PaymentAvailable => Available
    case PaymentFailure => Failed
    case PaymentRefundPending => RefundPending
    case PaymentRefunded => Refunded
    case PaymentDisputed => Disputed
  }

  datatype Quote = Quote(
    id: string, content: string, amount: nat, currency: string, expiresAt: int, provider: Provider)

  datatype OrderId = OrderId(quoteId: string, key: string, buyer: string)

  datatype Receipt = Receipt(id: string, sha256: string, envelopeSha256: string, signingKeyId: string)

  datatype DeliveryStatus = NotStarted | InProgress | Done | GivenUp

  datatype Order = Order(
    id: OrderId, provider: Provider, checkoutId: Option<string>, paymentId: Option<string>,
    status: OrderStatus, payment: PaymentStatus,
    quoted: nat, collected: int, refunded: int, fee: int, currency: string,
    costsRecorded: bool, receipt: Option<Receipt>, delivery: DeliveryStatus,
    createdAt: string, updatedAt: string)

  datatype Event = Event(
    environment: Environment, provider: Provider, id: string, kind: EventType, paymentId: string,
    amount: int, fee: int, currency: string, occurredAt: string)

  datatype EventStatus =
    | Waiting | Applied | AppliedDuplicateEffect | RejectedEffectConflict | RejectedAmountMismatch

  datatype EventRow = EventRow(event: Event, receivedAt: string, status: EventStatus, appliedAt: Option<string>)

  datatype Entry = Entry(
    orderId: OrderId, category: Category, amount: int, impact: int, source: string, recordedAt: string)

  datatype CostRecord = CostRecord(orderId: OrderId, key: string, costs: map<CostCategory, int>, recordedAt: string)

  datatype Change =
    | OrderChange(prior: Option<OrderStatus>, next: OrderStatus)
    | PaymentChange(was: PaymentStatus, now: PaymentStatus)

  datatype HistoryRow = HistoryRow(orderId: OrderId, change: Change, source: string, occurredAt: string)

  datatype Tables = Tables(
    environment: Environment, quotes: seq<Quote>, orders: seq<Order>, events: seq<EventRow>,
    entries: seq<Entry>, costs: seq<CostRecord>, history: seq<HistoryRow>)

  function EmptyTables(environment: Environment): Tables {
    Tables(environment, [], [], [], [], [], [])
  }

  // ----- Lookups ---------------------------------------------------------------

  datatype OrderKey = ById(id: OrderId) | ByIdempotency(key: string) | ByPayment(paymentId: string)

  predicate HasKey(o: Order, k: OrderKey) {
    match k
    case ById(id) => o.id == id
    case ByIdempotency(key) => o.id.key == key
    case ByPayment(pid) => o.paymentId == Some(pid)
  }

  function FindOrder(orders: seq<Order>, k: OrderKey): (r: Option<nat>)
    ensures r.Some? ==> r.value < |orders| && HasKey(orders[r.value], k)
    ensures r.None? ==> forall o <- orders :: !HasKey(o, k)
  {
    if orders == [] then None
    else
      var n := |orders| - 1;
      if HasKey(orders[n], k) then Some(n) else FindOrder(orders[..n], k)
  }

  function FindEvent(events: seq<EventRow>, id: string): (r: Option<nat>)
    ensures r.Some? ==> r.value < |events| && events[r.value].event.id == id
    ensures r.None? ==> forall row <- events :: row.event.id != id
  {
    if events == [] then None
    else
      var n := |events| - 1;
      if events[n].event.id == id then Some(n) else FindEvent(events[..n], id)
  }

  function FindQuote(quotes: seq<Quote>, id: string): (r: Option<nat>)
    ensures r.Some? ==> r.value < |quotes| && quotes[r.value].id == id
    ensures r.None? ==> forall q <- quotes :: q.id != id
  {
    if quotes == [] then None
    else
      var n := |quotes| - 1;
      if quotes[n].id == id then Some(n) else FindQuote(quotes[..n], id)
  }

  function FindCosts(costs: seq<CostRecord>, id: OrderId, key: string): (r: Option<nat>)
    ensures r.Some? ==> r.value < |costs| && costs[r.value].orderId == id && costs[r.value].key == key
    ensures r.None? ==> forall c <- costs :: c.orderId != id || c.key != key
  {
    if costs == [] then None
    else
      var n := |costs| - 1;
      if costs[n].orderId == id && costs[n].key == key then Some(n) else FindCosts(costs[..n], id, key)
  }

  /** Two order rows that a UNIQUE column of the orders table forbids side by side. */
  predicate Clash(a: Order, b: Order) {
    || a.id == b.id
    || a.id.quoteId == b.id.quoteId
    || a.id.key == b.id.key
    || (a.checkoutId.Some? && a.checkoutId == b.checkoutId)
    || (a.paymentId.Some? && a.paymentId == b.paymentId)
    || (a.receipt.Some? && b.receipt.Some? && a.receipt.value.id == b.receipt.value.id)
  }

  /** Replacing row `i` by `o` violates a UNIQUE constraint. */
  predicate UpdateClashes(orders: seq<Order>, i: nat, o: Order) {
    exists j | 0 <= j < |orders| :: j != i && Clash(orders[j], o)
  }

  // ----- Aggregates ------------------------------------------------------------

  /** SUM(contribution_impact_minor) over one order's entries. */
  function Impact(entries: seq<Entry>, id: OrderId): int {
    if entries == [] then 0
    else
      var n := |entries| - 1;
      Impact(entries[..n], id) + if entries[n].orderId == id then entries[n].impact else 0
  }

  /** SUM(amount_minor) over one order's entries of one category. */
  function AmountOf(entries: seq<Entry>, id: OrderId, category: Category): int {
    if entries == [] then 0
    else
      var n := |entries| - 1;
      AmountOf(entries[..n], id, category)
      + if entries[n].orderId == id && entries[n].category == category then entries[n].amount else 0
  }

  /** SUM(contribution_impact_minor) over the whole ledger. */
  function TotalImpact(entries: seq<Entry>): int {
    if entries == [] then 0 else TotalImpact(entries[..|entries| - 1]) + entries[|entries| - 1].impact
  }

  function CostSum(costs: map<CostCategory, int>, n: nat): int
    requires n <= |DIRECT_COST_CATEGORIES|
    requires forall k | 0 <= k < n :: DIRECT_COST_CATEGORIES[k] in costs
  {
    if n == 0 then 0 else CostSum(costs, n - 1) + costs[DIRECT_COST_CATEGORIES[n - 1]]
  }

  // ----- The queue of waiting events, ordered by (received_at, event_id) --------

  predicate TextLeq(a: string, b: string) {
    if a == "" then true
    else if b == "" then false
    else if a[0] != b[0] then a[0] < b[0]
    else TextLeq(a[1..], b[1..])
  }

  predicate Earlier(a: EventRow, b: EventRow) {
    if a.receivedAt != b.receivedAt then TextLeq(a.receivedAt, b.receivedAt)
    else TextLeq(a.event.id, b.event.id)
  }

  predicate WaitsFor(row: EventRow, pid: string) {
    row.status.Waiting? && row.event.paymentId == pid
  }

  function InsertByTime(events: seq<EventRow>, k: nat, queue: seq<nat>): (r: seq<nat>)
    requires k < |events| && forall q <- queue :: q < |events|
    ensures multiset(r) == multiset(queue) + multiset{k}
    ensures forall q :: q in r <==> q == k || q in queue
  {
    if queue == [] then [k]
    else
      assert queue == [queue[0]] + queue[1..] && queue[0] in queue;
      assert forall q <- queue[1..] :: q in queue;
      if Earlier(events[k], events[queue[0]]) then [k] + queue
      else [queue[0]] + InsertByTime(events, k, queue[1..])
  }

  /** SELECT ... WHERE provider_payment_id = pid AND status = 'pending', over the first n rows. */
  function Queue(events: seq<EventRow>, pid: string, n: nat): (r: seq<nat>)
    requires n <= |events|
    ensures forall q <- r :: q < n
    ensures forall k :: 0 <= k < |events| ==> (k in r <==> k < n && WaitsFor(events[k], pid))
    ensures forall k :: multiset(r)[k] <= 1
  {
    if n == 0 then []
    else
      var rest := Queue(events, pid, n - 1);
      if WaitsFor(events[n - 1], pid) then
        assert n - 1 !in rest;
        InsertByTime(events, n - 1, rest)
      else rest
  }

  function WaitingCount(events: seq<EventRow>): nat {
    if events == [] then 0
    else WaitingCount(events[..|events| - 1]) + if events[|events| - 1].status.Waiting? then 1 else 0
  }
}
