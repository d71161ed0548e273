/**
 What holds in every reachable store: statuses agree, every history row is a listed
 transition, the ledger balances, and no waiting event could be acted on.
 */
module CommerceResults {
  import opened Wrappers
  import opened CommerceStates
  import opened CommerceTables
  import opened CommerceTransactions
  import opened CommerceInvariant
  import opened CommerceSteps
  import opened CommerceRuns

  // ----- Statuses ----------------------------------------------------------------------------

  lemma StatusesAgree(s: Tables, i: nat)
    requires Reachable(s) && i < |s.orders|
    ensures var o := s.orders[i];
            && (o.status in {CheckoutPending, PaymentPending} <==> o.payment.Pending?)
            && (o.status.PaymentFailed? <==> o.payment.Failed?)
            && (o.status in {Queued, Running, Delivered, FulfillmentFailed} <==> PastCapture(o.payment))
            && !o.status.Cancelled?
            && (o.status.Delivered? ==> o.receipt.Some? && o.costsRecorded)
  {
    ReachableInv(s);
    InvRow(s, i);
  }

  // ----- History -----------------------------------------------------------------------------

  predicate IsOrderRow(row: HistoryRow, id: OrderId) { row.orderId == id && row.change.OrderChange? }

  predicate IsPaymentRow(row: HistoryRow, id: OrderId) { row.orderId == id && row.change.PaymentChange? }

  function CountOrderRows(history: seq<HistoryRow>, id: OrderId): nat {
    if history == [] then 0
    else CountOrderRows(history[..|history| - 1], id) + if IsOrderRow(history[|history| - 1], id) then 1 else 0
  }

  function CountPaymentRows(history: seq<HistoryRow>, id: OrderId): nat {
    if history == [] then 0
    else CountPaymentRows(history[..|history| - 1], id) + if IsPaymentRow(history[|history| - 1], id) then 1 else 0
  }

  /** A legal history is no longer than the deepest path through the transition tables. */
  lemma {:induction false} LegalHistoryIsShort(history: seq<HistoryRow>, id: OrderId)
    requires LegalHistory(history)
    ensures CountOrderRows(history, id)
            <= (match LastOrder(history, id) case None => 0 case Some(status) => OrderDepth(status)) <= 5
    ensures CountPaymentRows(history, id) <= PaymentDepth(LastPayment(history, id)) <= 4
  {
    DepthsRise();
    if history != [] {
      LegalHistoryIsShort(history[..|history| - 1], id);
    }
  }

  lemma {:induction false} LegalHistoryRows(history: seq<HistoryRow>, k: nat)
    requires LegalHistory(history) && k < |history|
    ensures LegalRow(history[..k], history[k])
  {
    var n := |history| - 1;
    if k < n {
      LegalHistoryRows(history[..n], k);
      assert history[..n][..k] == history[..k];
    }
  }

  /**
   Every history row of a reachable store, including the one the FAILED branch writes without
   consulting the table, is a listed transition from the status folded so far; folding the
   whole history gives the current statuses; and the history is bounded.
   */
  lemma HistoryIsFaithful(s: Tables, i: nat)
    requires Reachable(s) && i < |s.orders|
    ensures forall k :: 0 <= k < |s.history| ==> LegalRow(s.history[..k], s.history[k])
    ensures LastOrder(s.history, s.orders[i].id) == Some(s.orders[i].status)
    ensures LastPayment(s.history, s.orders[i].id) == s.orders[i].payment
    ensures CountOrderRows(s.history, s.orders[i].id) <= 5
    ensures CountPaymentRows(s.history, s.orders[i].id) <= 4
  {
    ReachableInv(s);
    assert TrailOk(s.history, s.orders[i]);
    LegalHistoryIsShort(s.history, s.orders[i].id);
    forall k | 0 <= k < |s.history| { LegalHistoryRows(s.history, k); }
  }

  // ----- Quiescence ----------------------------------------------------------------------------

  /** Between transactions a waiting event matches the order's amount, asks for another status, and may not move to it. */
  lemma StoreIsQuiescent(s: Tables, k: nat)
    requires Reachable(s) && k < |s.events| && s.events[k].status.Waiting?
    ensures exists i :: 0 <= i < |s.orders| && s.orders[i].paymentId == Some(s.events[k].event.paymentId)
    ensures forall i :: 0 <= i < |s.orders| && s.orders[i].paymentId == Some(s.events[k].event.paymentId) ==>
              && s.events[k].event.amount == s.orders[i].quoted
              && s.events[k].event.currency == s.orders[i].currency
              && s.orders[i].payment != Target(s.events[k].event.kind)
              && Target(s.events[k].event.kind) !in PaymentTransitions(s.orders[i].payment)
  {
    ReachableInv(s);
    var row := s.events[k];
    assert Owned(s.orders, row);
    var i :| 0 <= i < |s.orders| && Owns(s.orders[i], row);
    assert s.orders[i].paymentId == Some(row.event.paymentId);
    assert QuietFor(s.orders, s.events, row.event.paymentId);
    forall j | 0 <= j < |s.orders| && s.orders[j].paymentId == Some(row.event.paymentId)
      ensures Stuck(s.orders[j], row.event)
    {
      assert Owns(s.orders[j], row) && WaitsFor(row, row.event.paymentId);
    }
  }

  // ----- The queue is taken in order -------------------------------------------------------------

  lemma {:induction false} TextTotal(a: string, b: string)
    ensures TextLeq(a, b) || TextLeq(b, a)
    decreases |a|
  {
    if a != "" && b != "" && a[0] == b[0] { TextTotal(a[1..], b[1..]); }
  }

  lemma {:induction false} TextTransitive(a: string, b: string, c: string)
    requires TextLeq(a, b) && TextLeq(b, c)
    ensures TextLeq(a, c)
    decreases |a|
  {
    if a != "" && a[0] == b[0] == c[0] { TextTransitive(a[1..], b[1..], c[1..]); }
  }

  lemma {:induction false} TextAntisymmetric(a: string, b: string)
    requires TextLeq(a, b) && TextLeq(b, a)
    ensures a == b
    decreases |a|
  {
    if a != "" && b != "" {
      TextAntisymmetric(a[1..], b[1..]);
      assert a == [a[0]] + a[1..] && b == [b[0]] + b[1..];
    }
  }

  lemma EarlierTransitive(a: EventRow, b: EventRow, c: EventRow)
    requires Earlier(a, b) && Earlier(b, c)
    ensures Earlier(a, c)
  {
    if a.receivedAt == b.receivedAt == c.receivedAt {
      TextTransitive(a.event.id, b.event.id, c.event.id);
    } else if a.receivedAt != b.receivedAt && b.receivedAt != c.receivedAt {
      TextTransitive(a.receivedAt, b.receivedAt, c.receivedAt);
      if a.receivedAt == c.receivedAt { TextAntisymmetric(a.receivedAt, b.receivedAt); }
    }
  }

  ghost predicate InOrder(events: seq<EventRow>, queue: seq<nat>) {
    && (forall i :: 0 <= i < |queue| ==> queue[i] < |events|)
    && forall i, j :: 0 <= i < j < |queue| ==> Earlier(events[queue[i]], events[queue[j]])
  }

  /** Every event of the queue is behind a given one. */
  ghost predicate AllBehind(events: seq<EventRow>, head: nat, queue: seq<nat>) {
    head < |events| && forall q <- queue :: q < |events| && Earlier(events[head], events[q])
  }

  lemma PutFirst(events: seq<EventRow>, head: nat, queue: seq<nat>)
    requires AllBehind(events, head, queue) && InOrder(events, queue)
    ensures InOrder(events, [head] + queue)
  {
    hide Earlier;
    assert forall j | 0 <= j < |queue| :: queue[j] in queue;
  }

  lemma TailBehind(events: seq<EventRow>, queue: seq<nat>)
    requires queue != [] && InOrder(events, queue)
    ensures AllBehind(events, queue[0], queue[1..]) && InOrder(events, queue[1..])
  {
    hide Earlier;
    forall q | q in queue[1..]
      ensures q < |events| && Earlier(events[queue[0]], events[q])
    {
      var m :| 0 <= m < |queue[1..]| && queue[1..][m] == q;
      assert queue[m + 1] == q;
    }
  }

  lemma {:induction false} InsertKeepsOrder(events: seq<EventRow>, k: nat, queue: seq<nat>)
    requires k < |events| && InOrder(events, queue)
    ensures InOrder(events, InsertByTime(events, k, queue))
  {
    if queue != [] {
      var head, tail := queue[0], queue[1..];
      TailBehind(events, queue);
      assert queue == [head] + tail;
      if Earlier(events[k], events[head]) {
        forall q <- queue ensures Earlier(events[k], events[q]) {
          if q in tail { EarlierTransitive(events[k], events[head], events[q]); }
        }
        PutFirst(events, k, queue);
      } else {
        InsertKeepsOrder(events, k, tail);
        TextTotal(events[k].receivedAt, events[head].receivedAt);
        TextTotal(events[k].event.id, events[head].event.id);
        PutFirst(events, head, InsertByTime(events, k, tail));
      }
    }
  }

  lemma NothingIsInOrder(events: seq<EventRow>)
    ensures InOrder(events, [])
  {
  }

  /** The queue a pass works through is the waiting events of the payment by (received_at, event_id). */
  lemma {:induction false} QueueIsOrdered(events: seq<EventRow>, pid: string, n: nat)
    requires n <= |events|
    ensures InOrder(events, Queue(events, pid, n))
    ensures forall k :: 0 <= k < |events| ==> (k in Queue(events, pid, n) <==> k < n && WaitsFor(events[k], pid))
  {
    hide InOrder, InsertByTime;
    if n == 0 {
      assert InOrder(events, []) by { NothingIsInOrder(events); }
    } else {
      QueueIsOrdered(events, pid, n - 1);
      if WaitsFor(events[n - 1], pid) { InsertKeepsOrder(events, n - 1, Queue(events, pid, n - 1)); }
    }
  }

  /** The order of texts: at the first difference the smaller character, or the end, comes first. */
  lemma {:induction false} TextOrder(a: string, b: string)
    ensures TextLeq(a, b)
            <==> a <= b || exists n: nat :: n < |a| && n < |b| && a[..n] == b[..n] && a[n] < b[n]
    decreases |a|
  {
    if a != "" && b != "" {
      var x, y := a[1..], b[1..];
      TextOrder(x, y);
      assert a == [a[0]] + x && b == [b[0]] + y;
      if a[0] != b[0] {
        assert a[..0] == b[..0];
        forall n: nat | n < |a| && n < |b| && a[..n] == b[..n] ensures n == 0 {
          if n > 0 { SameFirst(a, b, n); }
        }
      } else {
        OneMoreCharacter(a, b);
      }
    }
  }

  lemma SameFirst(a: string, b: string, n: nat)
    requires 0 < n <= |a| && n <= |b| && a[..n] == b[..n]
    ensures a[0] == b[0]
  {
    assert a[0] == a[..n][0] && b[0] == b[..n][0];
  }

  lemma OneMoreCharacter(a: string, b: string)
    requires a != "" && b != "" && a[0] == b[0]
    ensures a <= b <==> a[1..] <= b[1..]
    ensures (exists n: nat :: n < |a| && n < |b| && a[..n] == b[..n] && a[n] < b[n])
            <==> exists n: nat :: n < |a[1..]| && n < |b[1..]| && a[1..][..n] == b[1..][..n] && a[1..][n] < b[1..][n]
  {
    var x, y := a[1..], b[1..];
    assert a == [a[0]] + x && b == [b[0]] + y;
    if x <= y { assert a[1..] == b[1..|a|]; }
    if a <= b { assert x == y[..|x|]; }
    if n: nat :| n < |a| && n < |b| && a[..n] == b[..n] && a[n] < b[n] {
      assert n > 0;
      assert x[..n - 1] == a[..n][1..] == b[..n][1..] == y[..n - 1];
      assert x[n - 1] < y[n - 1];
    }
    if n: nat :| n < |x| && n < |y| && x[..n] == y[..n] && x[n] < y[n] {
      assert a[..n + 1] == [a[0]] + x[..n] && b[..n + 1] == [b[0]] + y[..n];
      assert a[n + 1] < b[n + 1];
    }
  }

  /** What is in front in the queue was received first, or at the same time with the smaller identifier. */
  lemma FirstReceivedFirst(events: seq<EventRow>, pid: string, i: nat, j: nat)
    requires i < j < |Queue(events, pid, |events|)|
    ensures var queue := Queue(events, pid, |events|);
            assert queue[i] in queue && queue[j] in queue;
            var a, b := events[queue[i]], events[queue[j]];
            TextLeq(a.receivedAt, b.receivedAt) && (a.receivedAt == b.receivedAt ==> TextLeq(a.event.id, b.event.id))
  {
    var queue := Queue(events, pid, |events|);
    QueueIsOrdered(events, pid, |events|);
    hide Queue, TextLeq;
    assert Earlier(events[queue[i]], events[queue[j]]);
    TextTotal(events[queue[i]].receivedAt, events[queue[i]].receivedAt);
  }

  /** A pass takes its events one after the other, from the front. */
  lemma {:induction false} PassTakesInOrder(s: Tables, todo: seq<nat>, n: nat)
    requires Todo(s, todo) && n <= |todo|
    ensures Todo(s, todo[..n]) && Todo(Pass(s, todo[..n]).0, todo[n..])
    ensures Pass(s, todo).0 == Pass(Pass(s, todo[..n]).0, todo[n..]).0
    ensures |todo| == 1 ==> Pass(s, todo).0 == StepEvent(s, todo[0])
    decreases |todo|
  {
    hide StepEvent, Todo;
    FrontOfTodo(s, todo, n);
    if |todo| == 1 { OneTaken(s, todo); }
    if n == 0 {
      assert todo[..0] == [] && todo[0..] == todo;
    } else {
      HeadOfTodo(s, todo);
      PassTakesInOrder(StepEvent(s, todo[0]), todo[1..], n - 1);
      assert todo[..n][1..] == todo[1..][..n - 1] && todo[1..][n - 1..] == todo[n..] && todo[..n][0] == todo[0];
    }
  }

  lemma OneTaken(s: Tables, todo: seq<nat>)
    requires Todo(s, todo) && |todo| == 1
    ensures Pass(s, todo).0 == StepEvent(s, todo[0])
  {
    hide StepEvent;
    HeadOfTodo(s, todo);
    assert todo[1..] == [];
  }

  lemma FrontOfTodo(s: Tables, todo: seq<nat>, n: nat)
    requires Todo(s, todo) && n <= |todo|
    ensures Todo(s, todo[..n])
  {
    assert todo == todo[..n] + todo[n..];
    assert forall q <- todo[..n] :: q in todo;
    assert forall k :: multiset(todo)[k] == multiset(todo[..n])[k] + multiset(todo[n..])[k];
  }

  // ----- The ledger ------------------------------------------------------------------------------

  lemma {:induction false} CostSumStep(m: map<CostCategory, int>, m': map<CostCategory, int>, c: CostCategory, a: int, n: nat)
    requires n <= |DIRECT_COST_CATEGORIES| && (forall x <- DIRECT_COST_CATEGORIES :: x in m && x in m')
    requires forall x <- DIRECT_COST_CATEGORIES :: m'[x] == m[x] + if x == c then a else 0
    ensures CostSum(m', n) == CostSum(m, n) + if c in DIRECT_COST_CATEGORIES[..n] then a else 0
  {
    if n > 0 {
      CostSumStep(m, m', c, a, n - 1);
      NextCategory(n);
      assert DIRECT_COST_CATEGORIES[n - 1] in DIRECT_COST_CATEGORIES;
    }
  }

  function ShownCosts(entries: seq<Entry>, id: OrderId): int {
    AllCategoriesListed();
    CostSum(DirectCosts(entries, id), |DIRECT_COST_CATEGORIES|)
  }

  /** Signed impacts add up category by category. */
  lemma {:induction false} ImpactByCategory(entries: seq<Entry>, id: OrderId)
    requires forall k :: 0 <= k < |entries| ==> EntryOk(entries[k])
    ensures Impact(entries, id) == AmountOf(entries, id, GrossCollected) - AmountOf(entries, id, ProcessingFee)
                                   - AmountOf(entries, id, Refund) - ShownCosts(entries, id)
  {
    AllCategoriesListed();
    if entries == [] {
      CostSumOfZeros(DirectCosts([], id), |DIRECT_COST_CATEGORIES|);
    } else {
      var n := |entries| - 1;
      var e := entries[n];
      ImpactByCategory(entries[..n], id);
      var before, after := DirectCosts(entries[..n], id), DirectCosts(entries, id);
      assert DIRECT_COST_CATEGORIES[..|DIRECT_COST_CATEGORIES|] == DIRECT_COST_CATEGORIES;
      if e.orderId == id && e.category.DirectCost? {
        CostSumStep(before, after, e.category.cost, e.amount, |DIRECT_COST_CATEGORIES|);
      } else {
        CostSumStep(before, after, Compute, 0, |DIRECT_COST_CATEGORIES|);
      }
    }
  }

  lemma {:induction false} CostSumOfZeros(m: map<CostCategory, int>, n: nat)
    requires n <= |DIRECT_COST_CATEGORIES| && (forall x <- DIRECT_COST_CATEGORIES :: x in m && m[x] == 0)
    ensures CostSum(m, n) == 0
  {
    if n > 0 {
      CostSumOfZeros(m, n - 1);
      assert DIRECT_COST_CATEGORIES[n - 1] in DIRECT_COST_CATEGORIES;
    }
  }

  /** What the invariant says of one order's ledger. */
  lemma LedgerRow(s: Tables, i: nat)
    requires Inv(s) && i < |s.orders|
    ensures LedgerOk(s.entries, s.costs, s.orders[i])
    ensures Impact(s.entries, s.orders[i].id)
            == s.orders[i].collected - s.orders[i].fee - s.orders[i].refunded - ShownCosts(s.entries, s.orders[i].id)
  {
    hide OrdersOk, TrailsOk, EventsOk, SupportsOk, Quiet, CostsMatch, UniqueEntries, ShownCosts, Impact;
    assert LedgerOk(s.entries, s.costs, s.orders[i]);
    ImpactByCategory(s.entries, s.orders[i].id);
  }

  /** The costs in an order's ledger are the ones on record. */
  lemma RecordedCosts(s: Tables, i: nat)
    requires i < |s.orders| && LedgerOk(s.entries, s.costs, s.orders[i])
    ensures var o, shown := s.orders[i], DirectCosts(s.entries, s.orders[i].id);
            && (!o.costsRecorded ==> ShownCosts(s.entries, o.id) == 0)
            && (o.costsRecorded ==> exists r <- s.costs :: r.orderId == o.id && shown == r.costs)
            && forall r <- s.costs :: r.orderId == o.id ==> shown == r.costs
  {
    var o := s.orders[i];
    AllCategoriesListed();
    hide AmountOf;
    forall r | r in s.costs && r.orderId == o.id
      ensures DirectCosts(s.entries, o.id) == r.costs
    {
    }
    if !o.costsRecorded { CostSumOfZeros(DirectCosts(s.entries, o.id), |DIRECT_COST_CATEGORIES|); }
  }

  /** The view of an order balances, and its direct costs are the ones that were recorded. */
  lemma LedgerBalances(s: Tables, i: nat)
    requires Reachable(s) && i < |s.orders|
    ensures var o := s.orders[i];
            && ViewOf(s, i).contribution == o.collected - o.fee - o.refunded - ShownCosts(s.entries, o.id)
            && o.collected == (if PastCapture(o.payment) then o.quoted else 0)
            && o.refunded == (if o.payment.Refunded? then o.collected else 0)
            && 0 <= o.fee <= o.collected
    ensures !s.orders[i].costsRecorded ==> ShownCosts(s.entries, s.orders[i].id) == 0
    ensures s.orders[i].costsRecorded ==>
              exists r <- s.costs :: r.orderId == s.orders[i].id && ViewOf(s, i).directCosts == r.costs
    ensures forall r <- s.costs :: r.orderId == s.orders[i].id ==> ViewOf(s, i).directCosts == r.costs
  {
    hide Inv, Reachable, Impact, LedgerOk, ShownCosts, DirectCosts, Queue, EventNames;
    ReachableInv(s);
    InvRow(s, i);
    LedgerRow(s, i);
    RecordedCosts(s, i);
  }

  /** The UNIQUE(order_id, category, source_reference) key of the ledger is never violated. */
  lemma LedgerKeyIsUnique(s: Tables, i: nat, j: nat)
    requires Reachable(s) && i < j < |s.entries|
    ensures s.entries[i].orderId != s.entries[j].orderId || s.entries[i].category != s.entries[j].category
            || s.entries[i].source != s.entries[j].source
    ensures s.entries[i].amount >= 0
  {
    ReachableInv(s);
    assert EntryOk(s.entries[i]);
  }

  // ----- The financial summary ---------------------------------------------------------------------

  datatype Summary = Summary(
    environment: Environment, orders: nat, collected: int, refunded: int, fees: int, contribution: int, pending: nat)

  datatype AmountField = CollectedField | RefundedField | FeeField | CostField

  function FieldOf(entries: seq<Entry>, o: Order, f: AmountField): int {
    match f
    case CollectedField => o.collected
    case RefundedField => o.refunded
    case FeeField => o.fee
    case CostField => ShownCosts(entries, o.id)
  }

  function SumOver(entries: seq<Entry>, orders: seq<Order>, f: AmountField): int {
    if orders == [] then 0
    else SumOver(entries, orders[..|orders| - 1], f) + FieldOf(entries, orders[|orders| - 1], f)
  }

  function SumImpacts(entries: seq<Entry>, orders: seq<Order>): int {
    if orders == [] then 0
    else SumImpacts(entries, orders[..|orders| - 1]) + Impact(entries, orders[|orders| - 1].id)
  }

  function GetFinancialSummary(s: Tables): Summary {
    Summary(s.environment, |s.orders|,
            SumOver(s.entries, s.orders, CollectedField), SumOver(s.entries, s.orders, RefundedField),
            SumOver(s.entries, s.orders, FeeField), TotalImpact(s.entries), WaitingCount(s.events))
  }

  lemma {:induction false} EntryCountsOnce(entries: seq<Entry>, e: Entry, orders: seq<Order>)
    requires UniqueOrders(orders)
    ensures SumImpacts(entries + [e], orders) == SumImpacts(entries, orders) + if Known(orders, e.orderId) then e.impact else 0
  {
    if orders != [] {
      var n := |orders| - 1;
      EntryCountsOnce(entries, e, orders[..n]);
      assert (entries + [e])[..|entries|] == entries;
      if orders[n].id == e.orderId {
        assert Known(orders, e.orderId);
        assert !Known(orders[..n], e.orderId) by {
          assert forall a | 0 <= a < n :: !Clash(orders[a], orders[n]);
        }
      } else if Known(orders, e.orderId) {
        var a :| 0 <= a < |orders| && orders[a].id == e.orderId;
        assert orders[..n][a].id == e.orderId;
      }
    }
  }

  lemma {:induction false} TotalIsSumOfImpacts(entries: seq<Entry>, orders: seq<Order>)
    requires UniqueOrders(orders)
    requires forall k :: 0 <= k < |entries| ==> Known(orders, entries[k].orderId)
    ensures TotalImpact(entries) == SumImpacts(entries, orders)
  {
    if entries == [] {
      NoEntriesNoImpact(orders);
    } else {
      var n := |entries| - 1;
      TotalIsSumOfImpacts(entries[..n], orders);
      EntryCountsOnce(entries[..n], entries[n], orders);
      assert entries == entries[..n] + [entries[n]];
      assert Known(orders, entries[n].orderId);
    }
  }

  lemma NoEntriesNoImpact(orders: seq<Order>)
    ensures SumImpacts([], orders) == 0
  {
  }

  lemma {:induction false} ImpactsByField(s: Tables, n: nat)
    requires Inv(s) && n <= |s.orders|
    ensures SumImpacts(s.entries, s.orders[..n])
            == SumOver(s.entries, s.orders[..n], CollectedField) - SumOver(s.entries, s.orders[..n], FeeField)
               - SumOver(s.entries, s.orders[..n], RefundedField) - SumOver(s.entries, s.orders[..n], CostField)
  {
    hide Inv, Impact, ShownCosts, LedgerOk;
    if n > 0 {
      ImpactsByField(s, n - 1);
      assert s.orders[..n][..n - 1] == s.orders[..n - 1];
      LedgerRow(s, n - 1);
    }
  }

  /** The summary's ledger contribution is the sum of the order contributions, and balances against its other columns. */
  lemma SummaryBalances(s: Tables)
    requires Reachable(s)
    ensures var sum := GetFinancialSummary(s);
            && sum.contribution == SumImpacts(s.entries, s.orders)
            && sum.contribution == sum.collected - sum.fees - sum.refunded - SumOver(s.entries, s.orders, CostField)
  {
    ReachableInv(s);
    TotalIsSumOfImpacts(s.entries, s.orders);
    ImpactsByField(s, |s.orders|);
    assert s.orders[..|s.orders|] == s.orders;
  }
}
