/**
 The effect of each store transaction on the tables.  A transaction that raises is rolled
 back, so every rejection returns the tables unchanged.
 */
module CommerceTransactions {
  import opened Wrappers
  import opened CommerceStates
  import opened CommerceTables

  datatype Error =
    | LiveNotEnabled | IdempotencyConflict | QuoteNotOrderable | QuoteExpired | QuoteAlreadyUsed
    | UnknownOrder | InvalidCommerceRequest | InvalidTransition
    | InvalidCommerceEvent | ProviderEventConflict | UnknownProviderPayment
    | InvalidCostRecord | CostsAlreadyRecorded | CostRecordRequired | InvalidDelivery

  datatype OrderView = OrderView(
    order: Order, directCosts: map<CostCategory, int>, contribution: int, pendingEvents: seq<(string, EventType)>)

  datatype Reply = Quoted(quote: Quote) | Declined | Viewed(view: OrderView)
                 | Ingested(duplicate: bool, eventId: string, eventStatus: EventStatus, view: OrderView)

  type Outcome = Result<Reply, Error>

  const MAX_AMOUNT := 10_000_000
  const CURRENCY := "usd"

  // ----- Identifier formats ------------------------------------------------------

  predicate IsHex(s: string) { forall c <- s :: '0' <= c <= '9' || 'a' <= c <= 'f' }

  predicate IsAlphanumeric(s: string) {
    forall c <- s :: '0' <= c <= '9' || 'a' <= c <= 'z' || 'A' <= c <= 'Z'
  }

  predicate IsUrlSafe(s: string) { forall c <- s :: IsAlphanumeric([c]) || c in "_-" }

  predicate IsIdempotencyKey(s: string) { 8 <= |s| <= 96 && IsUrlSafe(s) }

  predicate IsBuyerReference(s: string) {
    8 <= |s| <= 128 && forall c <- s :: IsAlphanumeric([c]) || c in "_.:@+-"
  }

  predicate IsEventId(s: string) {
    || (|s| == 28 && s[..4] == "evt_" && IsHex(s[4..]))
    || IsTestEventId(s)
  }

  predicate IsTestEventId(s: string) { |s| == 33 && s[..9] == "evt_test_" && IsHex(s[9..]) }

  predicate IsFakePaymentId(s: string) { |s| == 33 && s[..9] == "pay_test_" && IsHex(s[9..]) }

  predicate IsStripePaymentId(s: string) { 11 <= |s| <= 67 && s[..3] == "pi_" && IsAlphanumeric(s[3..]) }

  predicate IsStripeCheckoutId(s: string, environment: Environment) {
    && 16 <= |s| <= 136
    && s[..8] == (match environment case Sandbox => "cs_test_" case Live => "cs_live_")
    && IsAlphanumeric(s[8..])
  }

  predicate IsReceiptId(s: string) { |s| == 28 && s[..4] == "cpr_" && IsHex(s[4..]) }

  predicate IsSha256(s: string) { |s| == 64 && IsHex(s) }

  predicate IsKeyId(s: string) { |s| == 43 && IsUrlSafe(s) }

  // ----- Rows --------------------------------------------------------------------

  function WithHistory(s: Tables, id: OrderId, change: Change, source: string, at: string): Tables {
    s.(history := s.history + [HistoryRow(id, change, source, at)])
  }

  function WithOrder(s: Tables, i: nat, o: Order): Tables
    requires i < |s.orders|
  {
    s.(orders := s.orders[i := o])
  }

  function Marked(s: Tables, k: nat, status: EventStatus, appliedAt: Option<string>): Tables
    requires k < |s.events|
  {
    s.(events := s.events[k := s.events[k].(status := status, appliedAt := appliedAt)])
  }

  // ----- Views -------------------------------------------------------------------

  function DirectCosts(entries: seq<Entry>, id: OrderId): map<CostCategory, int> {
    map c: CostCategory | c in DIRECT_COST_CATEGORIES :: AmountOf(entries, id, DirectCost(c))
  }

  function EventNames(events: seq<EventRow>, queue: seq<nat>): seq<(string, EventType)>
    requires forall q <- queue :: q < |events|
  {
    seq(|queue|, k requires 0 <= k < |queue| =>
      assert queue[k] in queue; (events[queue[k]].event.id, events[queue[k]].event.kind))
  }

  function ViewOf(s: Tables, i: nat): OrderView
    requires i < |s.orders|
  {
    var o := s.orders[i];
    OrderView(
      o,
      DirectCosts(s.entries, o.id),
      Impact(s.entries, o.id),
      if o.paymentId.None? then [] else EventNames(s.events, Queue(s.events, o.paymentId.value, |s.events|)))
  }

  // ----- Quotes and orders ---------------------------------------------------------

  /** `maxPrice` is what the request is willing to pay, or nothing when the request is malformed. */
  function CreateQuote(s: Tables, q: Quote, maxPrice: Option<nat>, liveCheckoutEnabled: bool): (Tables, Outcome) {
    if q.provider.Fake? && !s.environment.Sandbox? then (s, Err(LiveNotEnabled))
    else if s.environment.Live? && !(q.provider.Stripe? && liveCheckoutEnabled) then (s, Err(LiveNotEnabled))
    else if maxPrice.None? then (s, Err(InvalidCommerceRequest))
    else if maxPrice.value < q.amount then (s, Ok(Declined))
    else
      match FindQuote(s.quotes, q.id)
      case Some(k) => (s, if s.quotes[k] != q then Err(IdempotencyConflict) else Ok(Quoted(q)))
      case None => (s.(quotes := s.quotes + [q]), Ok(Quoted(q)))
  }

  function NewOrder(q: Quote, id: OrderId, at: string): Order {
    Order(id, q.provider, None, None, CheckoutPending, Pending, q.amount, 0, 0, 0, q.currency,
          false, None, NotStarted, at, at)
  }

  function CreateOrder(s: Tables, quoteId: string, key: string, buyer: string, now: int, at: string)
    : (Tables, Outcome)
  {
    if !IsIdempotencyKey(key) || !IsBuyerReference(buyer) then (s, Err(InvalidCommerceRequest))
    else
      match FindOrder(s.orders, ByIdempotency(key))
      case Some(i) =>
        (s, if s.orders[i].id != OrderId(quoteId, key, buyer) then Err(IdempotencyConflict) else Ok(Viewed(ViewOf(s, i))))
      case None =>
        match FindQuote(s.quotes, quoteId)
        case None => (s, Err(QuoteNotOrderable))
        case Some(k) =>
          var q := s.quotes[k];
          var o := NewOrder(q, OrderId(quoteId, key, buyer), at);
          if now >= q.expiresAt then (s, Err(QuoteExpired))
          else if s.environment.Live? && !q.provider.Stripe? then (s, Err(QuoteNotOrderable))
          else if UpdateClashes(s.orders, |s.orders|, o) then (s, Err(QuoteAlreadyUsed))
          else
            var s' := WithHistory(
                        s.(orders := s.orders + [o]), o.id, OrderChange(None, CheckoutPending), key, at);
            (s', Ok(Viewed(ViewOf(s', |s.orders|))))
  }

  /** The payment id a checkout brings along, once the identities have been checked. */
  function CheckoutPayment(o: Order, environment: Environment, checkoutId: string, paymentId: Option<string>)
    : Result<Option<string>, Error>
  {
    match o.provider
    case Fake =>
      if !environment.Sandbox? || !IsFakePaymentId(checkoutId) || (paymentId.Some? && paymentId.value != checkoutId)
      then Err(InvalidCommerceRequest) else Ok(Some(checkoutId))
    case Stripe =>
      if !IsStripeCheckoutId(checkoutId, environment) || (paymentId.Some? && !IsStripePaymentId(paymentId.value))
      then Err(InvalidCommerceRequest) else Ok(paymentId)
  }

  function AttachCheckout(s: Tables, id: OrderId, checkoutId: string, paymentId: Option<string>, at: string)
    : (Tables, Outcome)
  {
    match FindOrder(s.orders, ById(id))
    case None => (s, Err(UnknownOrder))
    case Some(i) =>
      var o := s.orders[i];
      match CheckoutPayment(o, s.environment, checkoutId, paymentId)
      case Err(error) => (s, Err(error))
      case Ok(payment) =>
        var o' := o.(checkoutId := Some(checkoutId), paymentId := payment, status := PaymentPending, updatedAt := at);
        if o.checkoutId.Some? then
          (s, if o.checkoutId.value != checkoutId || (payment.Some? && o.paymentId != payment)
              then Err(IdempotencyConflict) else Ok(Viewed(ViewOf(s, i))))
        else if !OrderMayMove(o.status, PaymentPending) then (s, Err(InvalidTransition))
        else if UpdateClashes(s.orders, i, o') then (s, Err(IdempotencyConflict))
        else
          var s' := WithHistory(
                      WithOrder(s, i, o'), id, OrderChange(Some(o.status), PaymentPending), checkoutId, at);
          (s', Ok(Viewed(ViewOf(s', i))))
  }

  function BindProviderPayment(s: Tables, id: OrderId, paymentId: string, checkoutId: string, at: string)
    : (Tables, Outcome)
  {
    if !IsStripePaymentId(paymentId) then (s, Err(InvalidCommerceRequest))
    else
      match FindOrder(s.orders, ById(id))
      case None => (s, Err(UnknownOrder))
      case Some(i) =>
        var o := s.orders[i];
        var o' := o.(paymentId := Some(paymentId), updatedAt := at);
        if !o.provider.Stripe? || o.checkoutId != Some(checkoutId) then (s, Err(IdempotencyConflict))
        else if o.paymentId.Some? then
          (s, if o.paymentId.value != paymentId then Err(IdempotencyConflict) else Ok(Viewed(ViewOf(s, i))))
        else if UpdateClashes(s.orders, i, o') then (s, Err(IdempotencyConflict))
        else
          var s' := WithOrder(s, i, o');
          (s', Ok(Viewed(ViewOf(s', i))))
  }

  // ----- Provider events -----------------------------------------------------------

  predicate ValidEvent(environment: Environment, e: Event) {
    && e.environment == environment
    && IsEventId(e.id)
    && e.currency == CURRENCY
    && (e.provider.Fake? ==> environment.Sandbox? && IsTestEventId(e.id) && IsFakePaymentId(e.paymentId))
    && (e.provider.Stripe? ==> IsStripePaymentId(e.paymentId))
    && 0 <= e.amount <= MAX_AMOUNT && 0 <= e.fee <= e.amount
  }

  predicate AmountMatches(e: Event, o: Order) {
    e.amount == o.quoted && e.currency == o.currency
  }

  predicate EffectMatches(e: Event, o: Order) {
    && (Target(e.kind).Captured? ==> e.fee == o.fee)
    && (Target(e.kind).Refunded? ==> e.amount == o.refunded)
  }

  /** The order row after a matching event that may move the payment to its target. */
  function MovedOrder(o: Order, e: Event): Order {
    var o' := o.(payment := Target(e.kind), updatedAt := e.occurredAt);
    match Target(e.kind)
    case Captured => o'.(status := Queued, collected := e.amount, fee := e.fee)
    case Failed => o'.(status := PaymentFailed)
    case Refunded => o'.(refunded := e.amount)
    case _ => o'
  }

  /** The ledger entries a moved payment books. */
  function EntriesFor(id: OrderId, e: Event): seq<Entry> {
    match Target(e.kind)
    case Captured =>
      [Entry(id, GrossCollected, e.amount, e.amount, e.id, e.occurredAt),
       Entry(id, ProcessingFee, e.fee, -e.fee, e.id, e.occurredAt)]
    case Refunded => [Entry(id, Refund, e.amount, -e.amount, e.id, e.occurredAt)]
    case _ => []
  }

  /** The history rows a moved payment writes: the payment's own, then the order's if that moved too. */
  function HistoryFor(o: Order, e: Event): seq<HistoryRow> {
    var paid := HistoryRow(o.id, PaymentChange(o.payment, Target(e.kind)), e.id, e.occurredAt);
    match Target(e.kind)
    case Captured => [paid, HistoryRow(o.id, OrderChange(Some(o.status), Queued), e.id, e.occurredAt)]
    case Failed => [paid, HistoryRow(o.id, OrderChange(Some(o.status), PaymentFailed), e.id, e.occurredAt)]
    case _ => [paid]
  }

  /** What reconciliation decides for one waiting event, given the order as it stands. */
  datatype Verdict = Leave | Settle(status: EventStatus) | Move

  function Judge(o: Order, e: Event): Verdict {
    if !AmountMatches(e, o) then Settle(RejectedAmountMismatch)
    else if o.payment == Target(e.kind) then
      Settle(if EffectMatches(e, o) then AppliedDuplicateEffect else RejectedEffectConflict)
    else if !PaymentMayMove(o.payment, Target(e.kind)) then Leave
    else if Target(e.kind).Captured? && !o.status.PaymentPending? then Leave
    else Move
  }

  function VerdictAt(s: Tables, k: nat): Verdict
    requires k < |s.events|
  {
    match FindOrder(s.orders, ByPayment(s.events[k].event.paymentId))
    case None => Leave
    case Some(i) => Judge(s.orders[i], s.events[k].event)
  }

  function StepEvent(s: Tables, k: nat): (r: Tables)
    requires k < |s.events|
    ensures |r.events| == |s.events| && |r.orders| == |s.orders|
    ensures forall j | 0 <= j < |s.events| && j != k :: r.events[j] == s.events[j]
    ensures VerdictAt(s, k).Leave? ==> r == s
    ensures !VerdictAt(s, k).Leave? ==> !r.events[k].status.Waiting?
  {
    var e := s.events[k].event;
    match VerdictAt(s, k)
    case Leave => s
    case Settle(status) => Marked(s, k, status, if status.RejectedAmountMismatch? then s.events[k].appliedAt else Some(e.occurredAt))
    case Move =>
      var i := FindOrder(s.orders, ByPayment(e.paymentId)).value;
      var o := s.orders[i];
      s.(orders := s.orders[i := MovedOrder(o, e)],
         entries := s.entries + EntriesFor(o.id, e),
         history := s.history + HistoryFor(o, e),
         events := s.events[k := s.events[k].(status := Applied, appliedAt := Some(e.occurredAt))])
  }

  /** Row numbers that are all different and all still waiting. */
  ghost predicate Todo(s: Tables, todo: seq<nat>) {
    && (forall q <- todo :: q < |s.events| && s.events[q].status.Waiting?)
    && (forall k :: multiset(todo)[k] <= 1)
  }

  /** One pass over the snapshot `todo`; the flag says whether any event was consumed. */
  function Pass(s: Tables, todo: seq<nat>): (r: (Tables, bool))
    requires Todo(s, todo)
    ensures |r.0.events| == |s.events| && |r.0.orders| == |s.orders|
    decreases |todo|
  {
    if todo == [] then (s, false)
    else
      assert todo == [todo[0]] + todo[1..];
      assert todo[0] in todo && forall q <- todo[1..] :: q in todo;
      assert forall k :: multiset(todo)[k] == multiset{todo[0]}[k] + multiset(todo[1..])[k];
      assert todo[0] !in todo[1..];
      var rest := Pass(StepEvent(s, todo[0]), todo[1..]);
      (rest.0, rest.1 || !VerdictAt(s, todo[0]).Leave?)
  }

  lemma WaitingFalls(before: seq<EventRow>, after: seq<EventRow>)
    requires |before| == |after|
    requires forall j | 0 <= j < |before| :: after[j].status.Waiting? ==> before[j].status.Waiting?
    ensures WaitingCount(after) <= WaitingCount(before)
    ensures (exists j | 0 <= j < |before| :: before[j].status.Waiting? && !after[j].status.Waiting?)
            ==> WaitingCount(after) < WaitingCount(before)
  {
    if before != [] {
      var n := |before| - 1;
      WaitingFalls(before[..n], after[..n]);
      if j :| 0 <= j < |before| && before[j].status.Waiting? && !after[j].status.Waiting? {
        if j < n {
          assert before[..n][j].status.Waiting? && !after[..n][j].status.Waiting?;
        }
      }
    }
  }

  /** A pass only takes events off the queue, and takes at least one when it reports progress. */
  lemma {:induction false} PassConsumes(s: Tables, todo: seq<nat>)
    requires Todo(s, todo)
    ensures var (s', progress) := Pass(s, todo);
            && (progress ==> WaitingCount(s'.events) < WaitingCount(s.events))
            && WaitingCount(s'.events) <= WaitingCount(s.events)
    decreases |todo|
  {
    if todo != [] {
      assert todo == [todo[0]] + todo[1..];
      assert todo[0] in todo && forall q <- todo[1..] :: q in todo;
      assert forall k :: multiset(todo)[k] == multiset{todo[0]}[k] + multiset(todo[1..])[k];
      assert todo[0] !in todo[1..];
      var s1 := StepEvent(s, todo[0]);
      WaitingFalls(s.events, s1.events);
      PassConsumes(s1, todo[1..]);
    }
  }

  function Drain(s: Tables, pid: string): (r: Tables)
    ensures |r.events| == |s.events| && |r.orders| == |s.orders|
    decreases WaitingCount(s.events)
  {
    var todo := Queue(s.events, pid, |s.events|);
    var (s', progress) := Pass(s, todo);
    PassConsumes(s, todo);
    if progress then Drain(s', pid) else s'
  }

  function Ingest(s: Tables, e: Event, receivedAt: string): (Tables, Outcome) {
    if !ValidEvent(s.environment, e) then (s, Err(InvalidCommerceEvent))
    else
      match FindEvent(s.events, e.id)
      case Some(k) =>
        if s.events[k].event != e then (s, Err(ProviderEventConflict))
        else
          (match FindOrder(s.orders, ByPayment(e.paymentId))
           case None => (s, Err(UnknownOrder))
           case Some(i) => (s, Ok(Ingested(true, e.id, s.events[k].status, ViewOf(s, i)))))
      case None =>
        match FindOrder(s.orders, ByPayment(e.paymentId))
        case None => (s, Err(UnknownProviderPayment))
        case Some(i) =>
          if s.orders[i].provider != e.provider then (s, Err(InvalidCommerceEvent))
          else
            var s' := Drain(s.(events := s.events + [EventRow(e, receivedAt, Waiting, None)]), e.paymentId);
            (s', Ok(Ingested(false, e.id, s'.events[|s.events|].status, ViewOf(s', i))))
  }

  // ----- Costs and fulfilment --------------------------------------------------------

  predicate ValidCosts(costs: map<CostCategory, int>) {
    && costs.Keys == (set c | c in DIRECT_COST_CATEGORIES)
    && forall c <- costs.Keys :: 0 <= costs[c] <= MAX_AMOUNT
  }

  /** The entries that book the first n cost categories. */
  function CostEntries(id: OrderId, costs: map<CostCategory, int>, key: string, at: string, n: nat): seq<Entry>
    requires n <= |DIRECT_COST_CATEGORIES| && ValidCosts(costs)
  {
    if n == 0 then []
    else
      var c := DIRECT_COST_CATEGORIES[n - 1];
      assert c in DIRECT_COST_CATEGORIES;
      CostEntries(id, costs, key, at, n - 1) + [Entry(id, DirectCost(c), costs[c], -costs[c], key, at)]
  }

  function RecordDirectCosts(s: Tables, id: OrderId, costs: map<CostCategory, int>, key: string, at: string)
    : (Tables, Outcome)
  {
    if !ValidCosts(costs) || !IsIdempotencyKey(key) then (s, Err(InvalidCostRecord))
    else
      match FindOrder(s.orders, ById(id))
      case None => (s, Err(UnknownOrder))
      case Some(i) =>
        match FindCosts(s.costs, id, key)
        case Some(k) =>
          (s, if s.costs[k].costs != costs then Err(IdempotencyConflict) else Ok(Viewed(ViewOf(s, i))))
        case None =>
          if s.orders[i].costsRecorded then (s, Err(CostsAlreadyRecorded))
          else
            var s' := s.(costs := s.costs + [CostRecord(id, key, costs, at)],
                         entries := s.entries + CostEntries(id, costs, key, at, |DIRECT_COST_CATEGORIES|),
                         orders := s.orders[i := s.orders[i].(costsRecorded := true, updatedAt := at)]);
            (s', Ok(Viewed(ViewOf(s', i))))
  }

  function TransitionOrder(
    s: Tables, id: OrderId, target: OrderStatus, delivery: DeliveryStatus, source: string, at: string)
    : (Tables, Outcome)
  {
    match FindOrder(s.orders, ById(id))
    case None => (s, Err(UnknownOrder))
    case Some(i) =>
      var o := s.orders[i];
      if o.status == target then (s, Ok(Viewed(ViewOf(s, i))))
      else if !OrderMayMove(o.status, target) then (s, Err(InvalidTransition))
      else
        var s' := WithHistory(
                    WithOrder(s, i, o.(status := target, delivery := delivery, updatedAt := at)),
                    id, OrderChange(Some(o.status), target), source, at);
        (s', Ok(Viewed(ViewOf(s', i))))
  }

  function BeginFulfillment(s: Tables, id: OrderId, source: string, at: string): (Tables, Outcome) {
    TransitionOrder(s, id, Running, InProgress, source, at)
  }

  function FailFulfillment(s: Tables, id: OrderId, source: string, at: string): (Tables, Outcome) {
    TransitionOrder(s, id, FulfillmentFailed, GivenUp, source, at)
  }

  predicate ValidReceipt(r: Receipt) {
    IsReceiptId(r.id) && IsSha256(r.sha256) && IsSha256(r.envelopeSha256) && IsKeyId(r.signingKeyId)
  }

  function Deliver(s: Tables, id: OrderId, receipt: Receipt, source: string, at: string): (Tables, Outcome) {
    if !ValidReceipt(receipt) then (s, Err(InvalidDelivery))
    else
      match FindOrder(s.orders, ById(id))
      case None => (s, Err(UnknownOrder))
      case Some(i) =>
        var o := s.orders[i];
        var o' := o.(status := Delivered, receipt := Some(receipt), delivery := Done, updatedAt := at);
        if !o.costsRecorded then (s, Err(CostRecordRequired))
        else if o.status.Delivered? then
          (s, if o.receipt != Some(receipt) then Err(IdempotencyConflict) else Ok(Viewed(ViewOf(s, i))))
        else if !OrderMayMove(o.status, Delivered) then (s, Err(InvalidTransition))
        else if UpdateClashes(s.orders, i, o') then (s, Err(IdempotencyConflict))
        else
          var s' := WithHistory(WithOrder(s, i, o'), id, OrderChange(Some(o.status), Delivered), source, at);
          (s', Ok(Viewed(ViewOf(s', i))))
  }

  // ----- Runs --------------------------------------------------------------------------

  datatype Op =
    | OpCreateQuote(quote: Quote, maxPrice: Option<nat>, liveCheckoutEnabled: bool)
    | OpCreateOrder(quoteId: string, key: string, buyer: string, now: int, at: string)
    | OpAttachCheckout(id: OrderId, checkoutId: string, payment: Option<string>, at: string)
    | OpBindPayment(id: OrderId, paymentId: string, checkoutId: string, at: string)
    | OpIngest(event: Event, receivedAt: string)
    | OpRecordCosts(id: OrderId, costs: map<CostCategory, int>, key: string, at: string)
    | OpBegin(id: OrderId, source: string, at: string)
    | OpFail(id: OrderId, source: string, at: string)
    | OpDeliver(id: OrderId, receipt: Receipt, source: string, at: string)

  function Perform(s: Tables, op: Op): (Tables, Outcome) {
    match op
    case OpCreateQuote(q, maxPrice, enabled) => CreateQuote(s, q, maxPrice, enabled)
    case OpCreateOrder(quoteId, key, buyer, now, at) => CreateOrder(s, quoteId, key, buyer, now, at)
    case OpAttachCheckout(id, checkoutId, payment, at) => AttachCheckout(s, id, checkoutId, payment, at)
    case OpBindPayment(id, paymentId, checkoutId, at) => BindProviderPayment(s, id, paymentId, checkoutId, at)
    case OpIngest(e, receivedAt) => Ingest(s, e, receivedAt)
    case OpRecordCosts(id, costs, key, at) => RecordDirectCosts(s, id, costs, key, at)
    case OpBegin(id, source, at) => BeginFulfillment(s, id, source, at)
    case OpFail(id, source, at) => FailFulfillment(s, id, source, at)
    case OpDeliver(id, receipt, source, at) => Deliver(s, id, receipt, source, at)
  }

  function Run(s: Tables, ops: seq<Op>): Tables
    decreases |ops|
  {
    if ops == [] then s else Run(Perform(s, ops[0]).0, ops[1..])
  }

  /** The tables some sequence of transactions leads to, from an empty store. */
  ghost predicate Reachable(s: Tables) {
    exists environment: Environment, ops: seq<Op> :: s == Run(EmptyTables(environment), ops)
  }
}
