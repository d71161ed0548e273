/** Order and payment status, and the tables of transitions the store may take. */
module CommerceStates {
  datatype OrderStatus =
    | CheckoutPending | PaymentPending | Queued | Running
    | Delivered | PaymentFailed | FulfillmentFailed | Cancelled

  datatype PaymentStatus =
    | Pending | Captured | Available | RefundPending | Refunded | Disputed | Failed

  function OrderTransitions(current: OrderStatus): set<OrderStatus> {
    match current
    case CheckoutPending => {PaymentPending, Cancelled}
    case PaymentPending => {Queued, PaymentFailed, Cancelled}
    case Queued => {Running, FulfillmentFailed}
    case Running => {Delivered, FulfillmentFailed}
    case Delivered => {}
    case PaymentFailed => {}
    case FulfillmentFailed => {}
    case Cancelled => {}
  }

  function PaymentTransitions(current: PaymentStatus): set<PaymentStatus> {
    match current
    case Pending => {Captured, Failed}
    case Captured => {Available, RefundPending, Disputed}
    case Available => {RefundPending, Disputed}
    case RefundPending => {Refunded, Disputed}
    case Refunded => {}
    case Disputed => {}
    case Failed => {}
  }

  predicate OrderMayMove(current: OrderStatus, target: OrderStatus) {
    target in OrderTransitions(current)
  }

  predicate PaymentMayMove(current: PaymentStatus, target: PaymentStatus) {
    target in PaymentTransitions(current)
  }

  /** The money has been collected, whatever happened to it afterwards. */
  predicate PastCapture(p: PaymentStatus) {
    p.Captured? || p.Available? || p.RefundPending? || p.Refunded? || p.Disputed?
  }

  /** `p` is `t` or lies on a transition path out of `t`, so a payment at `p` may have been at `t`. */
  predicate Passed(t: PaymentStatus, p: PaymentStatus) {
    match t
    case Pending => true
    case Captured => PastCapture(p)
    case Available => PastCapture(p) && p != Captured
    case RefundPending => p.RefundPending? || p.Refunded? || p.Disputed?
    case Refunded => p.Refunded?
    case Disputed => p.Disputed?
    case Failed => p.Failed?
  }

  /** How many order-history rows an order in status `s` can have at most. */
  function OrderDepth(s: OrderStatus): nat {
    match s
    case CheckoutPending => 1
    case PaymentPending => 2
    case Cancelled => 3
    case Queued => 3
    case PaymentFailed => 3
    case Running => 4
    case Delivered => 5
    case FulfillmentFailed => 5
  }

  function PaymentDepth(p: PaymentStatus): nat {
    match p
    case Pending => 0
    case Captured => 1
    case Failed => 1
    case Available => 2
    case RefundPending => 3
    case Refunded => 4
    case Disputed => 4
  }

  /** How far along the way from checkout to delivery a status is. */
  function Stage(s: OrderStatus): nat {
    match s
    case CheckoutPending => 0
    case PaymentPending => 1
    case Queued => 2
    case Running => 3
    case Delivered => 4
    case _ => 9
  }

  /**
   An order moves one stage on; or it is cancelled before it is paid, its payment fails while that is pending, or
   its fulfilment fails once it is paid and not yet delivered.
   */
  lemma OrderMovesMean(a: OrderStatus, b: OrderStatus)
    ensures OrderMayMove(a, b)
            <==> || Stage(b) == Stage(a) + 1
                 || (b.Cancelled? && Stage(a) <= 1)
                 || (b.PaymentFailed? && a.PaymentPending?)
                 || (b.FulfillmentFailed? && 2 <= Stage(a) <= 3)
  {
  }

  /**
   A payment moves only to what lies ahead of it, which everything does that it may have been at before; it must be
   captured before anything else can happen to it but failure, and a refund must have been pending.
   */
  lemma PaymentMovesMean(p: PaymentStatus, q: PaymentStatus)
    ensures PaymentMayMove(p, q)
            <==> p != q && Passed(p, q)
                 && (p.Pending? ==> q.Captured? || q.Failed?)
                 && (q.Refunded? ==> p.RefundPending?)
  {
  }

  lemma DepthsRise()
    ensures forall a, b :: OrderMayMove(a, b) ==> OrderDepth(a) < OrderDepth(b) <= 5
    ensures forall a, b :: PaymentMayMove(a, b) ==> PaymentDepth(a) < PaymentDepth(b) <= 4
  {
  }

  lemma PassedIsKept(t: PaymentStatus, p: PaymentStatus, q: PaymentStatus)
    requires PaymentMayMove(p, q)
    ensures Passed(q, q)
    ensures Passed(t, p) ==> Passed(t, q)
  {
  }
}
