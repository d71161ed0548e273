/**
 Recording the direct costs of an order and fulfilling it: when each call is accepted, what it leaves, and
 that a captured order can be started, costed and delivered.
 */
module CommerceFulfilment {
  import opened Wrappers
  import opened CommerceStates
  import opened CommerceTables
  import opened CommerceTransactions
  import opened CommerceInvariant
  import opened CommerceSteps
  import opened CommerceRuns
  import opened CommerceResults

  // ----- Direct costs ------------------------------------------------------------------------------

  /** Every category has an amount, none is negative or above ten million. */
  predicate CostsInRange(costs: map<CostCategory, int>) {
    forall c: CostCategory :: c in costs && 0 <= costs[c] <= 10_000_000
  }

  function TotalOf(costs: map<CostCategory, int>): int
    requires CostsInRange(costs)
  {
    costs[Compute] + costs[ThirdParty] + costs[Hosting] + costs[Storage] + costs[Model]
    + costs[Network] + costs[Signing] + costs[Monitoring] + costs[DirectSupport] + costs[OtherVariable]
  }

  lemma RangeIsValid(costs: map<CostCategory, int>)
    ensures ValidCosts(costs) <==> CostsInRange(costs)
  {
    AllCategoriesListed();
  }

  lemma TotalIsSum(costs: map<CostCategory, int>)
    requires CostsInRange(costs)
    ensures CostSum(costs, |DIRECT_COST_CATEGORIES|) == TotalOf(costs)
  {
    assert CostSum(costs, 1) == costs[Compute];
    assert CostSum(costs, 2) == CostSum(costs, 1) + costs[ThirdParty];
    assert CostSum(costs, 3) == CostSum(costs, 2) + costs[Hosting];
    assert CostSum(costs, 4) == CostSum(costs, 3) + costs[Storage];
    assert CostSum(costs, 5) == CostSum(costs, 4) + costs[Model];
    assert CostSum(costs, 6) == CostSum(costs, 5) + costs[Network];
    assert CostSum(costs, 7) == CostSum(costs, 6) + costs[Signing];
    assert CostSum(costs, 8) == CostSum(costs, 7) + costs[Monitoring];
    assert CostSum(costs, 9) == CostSum(costs, 8) + costs[DirectSupport];
  }

  predicate Recorded(r: CostRecord, id: OrderId, key: string, costs: map<CostCategory, int>) {
    r.orderId == id && r.key == key && r.costs == costs
  }

  /** One category of one order is booked as given; the ledgers of the others stay as they are. */
  lemma CostImpacts(entries: seq<Entry>, id: OrderId, costs: map<CostCategory, int>, key: string, at: string, other: OrderId)
    requires CostsInRange(costs) && ValidCosts(costs)
    ensures var after := entries + CostEntries(id, costs, key, at, |DIRECT_COST_CATEGORIES|);
            Impact(after, other) == Impact(entries, other) - if other == id then TotalOf(costs) else 0
  {
    CostImpact(entries, id, costs, key, at, other, |DIRECT_COST_CATEGORIES|);
    TotalIsSum(costs);
  }

  lemma {:induction false} CostImpact(
    entries: seq<Entry>, id: OrderId, costs: map<CostCategory, int>, key: string, at: string, other: OrderId, n: nat)
    requires n <= |DIRECT_COST_CATEGORIES| && CostsInRange(costs) && ValidCosts(costs)
    ensures Impact(entries + CostEntries(id, costs, key, at, n), other)
            == Impact(entries, other) - if other == id then CostSum(costs, n) else 0
  {
    hide CostEntries, ValidCosts, Impact;
    if n == 0 {
      NoCostEntries(id, costs, key, at);
      assert entries + [] == entries;
    } else {
      CostImpact(entries, id, costs, key, at, other, n - 1);
      NextImpact(entries, id, costs, key, at, other, n - 1);
    }
  }

  lemma NextImpact(
    entries: seq<Entry>, id: OrderId, costs: map<CostCategory, int>, key: string, at: string, other: OrderId, n: nat)
    requires n < |DIRECT_COST_CATEGORIES| && CostsInRange(costs) && ValidCosts(costs)
    ensures Impact(entries + CostEntries(id, costs, key, at, n + 1), other)
            == Impact(entries + CostEntries(id, costs, key, at, n), other)
               - if other == id then costs[DIRECT_COST_CATEGORIES[n]] else 0
  {
    hide CostEntries, ValidCosts, Impact, CostSum;
    OneMoreCostEntry(id, costs, key, at, n);
    var c := DIRECT_COST_CATEGORIES[n];
    var e := Entry(id, DirectCost(c), costs[c], -costs[c], key, at);
    var before := entries + CostEntries(id, costs, key, at, n);
    assert entries + CostEntries(id, costs, key, at, n + 1) == before + [e];
    ImpactAppends(before, e, other);
  }

  lemma ImpactAppends(entries: seq<Entry>, e: Entry, id: OrderId)
    ensures Impact(entries + [e], id) == Impact(entries, id) + if e.orderId == id then e.impact else 0
  {
    assert (entries + [e])[..|entries|] == entries;
  }

  lemma RecordingSucceeds(s: Tables, i: nat, costs: map<CostCategory, int>, key: string, at: string)
    requires i < |s.orders| && UniqueOrders(s.orders) && ValidCosts(costs) && IsIdempotencyKey(key)
    requires !s.orders[i].costsRecorded && forall r <- s.costs :: r.orderId != s.orders[i].id
    ensures RecordDirectCosts(s, s.orders[i].id, costs, key, at)
            == (WithCosts(s, i, costs, key, at), Ok(Viewed(ViewOf(WithCosts(s, i, costs, key, at), i))))
  {
    hide ValidCosts, CostEntries, ViewOf, IsIdempotencyKey, UniqueOrders;
    KeyIsFound(s.orders, i, ById(s.orders[i].id));
  }

  lemma RecordingRepeats(s: Tables, i: nat, costs: map<CostCategory, int>, key: string, at: string)
    requires i < |s.orders| && UniqueOrders(s.orders) && ValidCosts(costs) && IsIdempotencyKey(key) && s.orders[i].costsRecorded
    requires forall a, b :: a in s.costs && b in s.costs && a.orderId == b.orderId == s.orders[i].id ==> a.costs == b.costs
    ensures var (s', r) := RecordDirectCosts(s, s.orders[i].id, costs, key, at);
            && s' == s && (r.Ok? <==> exists x <- s.costs :: Recorded(x, s.orders[i].id, key, costs))
            && (r.Ok? ==> r.value == Viewed(ViewOf(s, i)))
  {
    hide ValidCosts, CostEntries, ViewOf, IsIdempotencyKey, UniqueOrders;
    KeyIsFound(s.orders, i, ById(s.orders[i].id));
    var found := FindCosts(s.costs, s.orders[i].id, key);
    if found.Some? { assert s.costs[found.value] in s.costs; }
  }

  lemma NoCostsBefore(s: Tables, i: nat)
    requires Inv(s) && i < |s.orders|
    ensures !s.orders[i].costsRecorded ==> forall r <- s.costs :: r.orderId != s.orders[i].id
    ensures forall a, b :: a in s.costs && b in s.costs && a.orderId == b.orderId == s.orders[i].id ==> a.costs == b.costs
  {
    hide Inv, Impact, AmountOf, ValidCosts, ShownCosts;
    LedgerRow(s, i);
    RecordedCosts(s, i);
  }

  /**
   Recording costs in a reachable store leaves them exactly as given: one record holds them, the view shows
   them, the first recording lowers the order's contribution by their sum, and no other order's changes.  A
   recording that is accepted for an order with costs is the one that was made, and changes nothing.
   */
  lemma CostsAreBookedAsGiven(s: Tables, i: nat, costs: map<CostCategory, int>, key: string, at: string)
    requires Reachable(s) && i < |s.orders| && RecordDirectCosts(s, s.orders[i].id, costs, key, at).1.Ok?
    ensures CostsInRange(costs)
    ensures var (s', r) := RecordDirectCosts(s, s.orders[i].id, costs, key, at);
            && |s'.orders| == |s.orders| && s'.orders[i].costsRecorded
            && r.value.Viewed? && r.value.view.directCosts == costs
            && (exists x <- s'.costs :: Recorded(x, s.orders[i].id, key, costs))
            && r.value.view.contribution == Impact(s'.entries, s.orders[i].id)
            && Impact(s'.entries, s.orders[i].id)
               == Impact(s.entries, s.orders[i].id) - (if s.orders[i].costsRecorded then 0 else TotalOf(costs))
            && (forall id :: id != s.orders[i].id ==> Impact(s'.entries, id) == Impact(s.entries, id))
            && (s.orders[i].costsRecorded ==> s' == s)
            && (!s.orders[i].costsRecorded ==>
                  && s'.orders == s.orders[i := s.orders[i].(costsRecorded := true, updatedAt := at)]
                  && s'.costs == s.costs + [CostRecord(s.orders[i].id, key, costs, at)]
                  && s.entries <= s'.entries && |s'.entries| == |s.entries| + 10
                  && forall n :: |s.entries| <= n < |s'.entries| ==> BooksCost(s'.entries[n], s.orders[i].id, costs, key, at))
  {
    ReachableInv(s);
    RangeIsValid(costs);
    hide Reachable, Inv, Impact, UniqueOrders, ValidCosts, CostEntries, IsIdempotencyKey, CostsInRange, DirectCosts, EventNames, Queue,
         RecordDirectCosts, WithCosts, BooksCost;
    var id, s' := s.orders[i].id, RecordDirectCosts(s, s.orders[i].id, costs, key, at).0;
    InvRow(s, i);
    NoCostsBefore(s, i);
    CostsKeepInv(s, id, costs, key, at);
    AcceptedCostsAreValid(s, id, costs, key, at);
    if s.orders[i].costsRecorded {
      RecordingRepeats(s, i, costs, key, at);
      ShownAsRecorded(s, i, costs, key);
    } else {
      RecordingSucceeds(s, i, costs, key, at);
      RecordedTables(s, i, costs, key, at);
      ShownAsRecorded(s', i, costs, key);
    }
  }

  /** The entry books one of the costs, under the key and time of the recording. */
  predicate BooksCost(e: Entry, id: OrderId, costs: map<CostCategory, int>, key: string, at: string) {
    && e.orderId == id && e.source == key && e.recordedAt == at
    && e.category.DirectCost? && e.category.cost in costs && e.amount == costs[e.category.cost] && e.impact == -e.amount
  }

  lemma {:induction false} EntriesBookCosts(id: OrderId, costs: map<CostCategory, int>, key: string, at: string, n: nat)
    requires n <= |DIRECT_COST_CATEGORIES| && ValidCosts(costs)
    ensures |CostEntries(id, costs, key, at, n)| == n
    ensures forall k :: 0 <= k < n ==> BooksCost(CostEntries(id, costs, key, at, n)[k], id, costs, key, at)
  {
    hide ValidCosts;
    if n > 0 {
      EntriesBookCosts(id, costs, key, at, n - 1);
      OneMoreCostEntry(id, costs, key, at, n - 1);
      hide CostEntries;
    }
  }

  lemma RecordedTables(s: Tables, i: nat, costs: map<CostCategory, int>, key: string, at: string)
    requires i < |s.orders| && ValidCosts(costs) && CostsInRange(costs)
    ensures var id, s' := s.orders[i].id, WithCosts(s, i, costs, key, at);
            && |s'.orders| == |s.orders| && s'.orders[i].id == id && s'.orders[i].costsRecorded
            && (exists x <- s'.costs :: Recorded(x, id, key, costs))
            && Impact(s'.entries, id) == Impact(s.entries, id) - TotalOf(costs)
            && (forall other :: other != id ==> Impact(s'.entries, other) == Impact(s.entries, other))
            && s'.orders == s.orders[i := s.orders[i].(costsRecorded := true, updatedAt := at)]
            && s'.costs == s.costs + [CostRecord(id, key, costs, at)]
            && s.entries <= s'.entries && |s'.entries| == |s.entries| + 10
            && forall n :: |s.entries| <= n < |s'.entries| ==> BooksCost(s'.entries[n], id, costs, key, at)
  {
    EntriesBookCosts(s.orders[i].id, costs, key, at, |DIRECT_COST_CATEGORIES|);
    hide BooksCost;
    hide Impact, ValidCosts, CostEntries, CostsInRange;
    var id, s' := s.orders[i].id, WithCosts(s, i, costs, key, at);
    assert s'.costs[|s.costs|] in s'.costs && Recorded(s'.costs[|s.costs|], id, key, costs);
    forall other ensures Impact(s'.entries, other) == Impact(s.entries, other) - if other == id then TotalOf(costs) else 0 {
      CostImpacts(s.entries, id, costs, key, at, other);
    }
  }

  lemma AcceptedCostsAreValid(s: Tables, id: OrderId, costs: map<CostCategory, int>, key: string, at: string)
    requires RecordDirectCosts(s, id, costs, key, at).1.Ok?
    ensures ValidCosts(costs) && IsIdempotencyKey(key)
  {
    hide ValidCosts, CostEntries, ViewOf, IsIdempotencyKey;
  }

  lemma ShownAsRecorded(s: Tables, i: nat, costs: map<CostCategory, int>, key: string)
    requires Inv(s) && i < |s.orders| && exists x <- s.costs :: Recorded(x, s.orders[i].id, key, costs)
    ensures ViewOf(s, i).directCosts == costs
  {
    hide Inv, Impact, AmountOf, ValidCosts, ShownCosts, DirectCosts, Queue, EventNames;
    LedgerRow(s, i);
    RecordedCosts(s, i);
  }

  /** Costs in range are accepted for an order exactly if it has none yet or has these, under this key. */
  lemma CostsAreAccepted(s: Tables, i: nat, costs: map<CostCategory, int>, key: string, at: string)
    requires Reachable(s) && i < |s.orders|
    ensures RecordDirectCosts(s, s.orders[i].id, costs, key, at).1.Ok?
            <==> CostsInRange(costs) && IsIdempotencyKey(key)
                 && (!s.orders[i].costsRecorded || exists x <- s.costs :: Recorded(x, s.orders[i].id, key, costs))
  {
    ReachableInv(s);
    RangeIsValid(costs);
    hide Reachable, Inv, UniqueOrders, ValidCosts, CostEntries, IsIdempotencyKey, CostsInRange, ViewOf, RecordDirectCosts, WithCosts;
    InvRow(s, i);
    NoCostsBefore(s, i);
    if ValidCosts(costs) && IsIdempotencyKey(key) {
      if s.orders[i].costsRecorded {
        RecordingRepeats(s, i, costs, key, at);
      } else {
        RecordingSucceeds(s, i, costs, key, at);
      }
    } else if RecordDirectCosts(s, s.orders[i].id, costs, key, at).1.Ok? {
      AcceptedCostsAreValid(s, s.orders[i].id, costs, key, at);
    }
  }

  /** Why costs are refused: their range or key, other costs under this key, or costs recorded under another key. */
  lemma CostRejections(s: Tables, i: nat, costs: map<CostCategory, int>, key: string, at: string)
    requires Reachable(s) && i < |s.orders|
    ensures var o, r := s.orders[i], RecordDirectCosts(s, s.orders[i].id, costs, key, at).1;
            var proper := CostsInRange(costs) && IsIdempotencyKey(key);
            && (r == Err(InvalidCostRecord) <==> !proper)
            && (r == Err(IdempotencyConflict)
                <==> proper && exists x <- s.costs :: x.orderId == o.id && x.key == key && x.costs != costs)
            && (r == Err(CostsAlreadyRecorded)
                <==> proper && o.costsRecorded && forall x <- s.costs :: x.orderId == o.id ==> x.key != key)
  {
    ReachableInv(s);
    RangeIsValid(costs);
    hide Reachable, Inv, UniqueOrders, ValidCosts, CostEntries, IsIdempotencyKey, CostsInRange, ViewOf;
    InvRow(s, i);
    NoCostsBefore(s, i);
    KeyIsFound(s.orders, i, ById(s.orders[i].id));
    var found := FindCosts(s.costs, s.orders[i].id, key);
    if found.Some? { assert s.costs[found.value] in s.costs; }
  }

  // ----- Fulfilment ----------------------------------------------------------------------------------

  /** Begun from the queue, again while running, and from nowhere else. */
  lemma BeginningIsAccepted(s: Tables, i: nat, source: string, at: string)
    requires Reachable(s) && i < |s.orders|
    ensures var o, (s', r) := s.orders[i], BeginFulfillment(s, s.orders[i].id, source, at);
            && (r.Ok? <==> o.status.Queued? || o.status.Running?)
            && (o.status.Queued? ==>
                  s' == s.(orders := s.orders[i := o.(status := Running, delivery := InProgress, updatedAt := at)],
                           history := s.history + [HistoryRow(o.id, OrderChange(Some(Queued), Running), source, at)]))
            && (!o.status.Queued? ==> s' == s)
  {
    hide Reachable, Inv, ViewOf, UniqueOrders;
    ReachableInv(s);
    InvRow(s, i);
    KeyIsFound(s.orders, i, ById(s.orders[i].id));
  }

  /** Fulfilment fails from the queue or while running, once and for all. */
  lemma FailingIsAccepted(s: Tables, i: nat, source: string, at: string)
    requires Reachable(s) && i < |s.orders|
    ensures var o, (s', r) := s.orders[i], FailFulfillment(s, s.orders[i].id, source, at);
            && (r.Ok? <==> o.status.Queued? || o.status.Running? || o.status.FulfillmentFailed?)
            && (o.status.Queued? || o.status.Running? ==>
                  s' == s.(orders := s.orders[i := o.(status := FulfillmentFailed, delivery := GivenUp, updatedAt := at)],
                           history := s.history + [HistoryRow(o.id, OrderChange(Some(o.status), FulfillmentFailed), source, at)]))
            && (!o.status.Queued? && !o.status.Running? ==> s' == s)
  {
    hide Reachable, Inv, ViewOf, UniqueOrders;
    ReachableInv(s);
    InvRow(s, i);
    KeyIsFound(s.orders, i, ById(s.orders[i].id));
  }

  predicate HasReceiptId(o: Order, receiptId: string) { o.receipt.Some? && o.receipt.value.id == receiptId }

  lemma ReceiptClashes(orders: seq<Order>, i: nat, o': Order)
    requires UniqueOrders(orders) && i < |orders| && o'.id == orders[i].id && o'.receipt.Some?
    requires o'.checkoutId == orders[i].checkoutId && o'.paymentId == orders[i].paymentId
    ensures UpdateClashes(orders, i, o') <==> exists j :: 0 <= j < |orders| && j != i && HasReceiptId(orders[j], o'.receipt.value.id)
  {
    forall j | 0 <= j < |orders| && j != i
      ensures Clash(orders[j], o') <==> HasReceiptId(orders[j], o'.receipt.value.id)
    {
      if j < i { assert !Clash(orders[j], orders[i]); } else { assert !Clash(orders[i], orders[j]); }
    }
  }

  /**
   A well-formed receipt is accepted for an order whose costs are recorded, while it runs and no other order
   has a receipt of that identifier, and again for the order that was delivered with it.
   */
  lemma DeliveryIsAccepted(s: Tables, i: nat, receipt: Receipt, source: string, at: string)
    requires Reachable(s) && i < |s.orders|
    ensures var o, (s', r) := s.orders[i], Deliver(s, s.orders[i].id, receipt, source, at);
            && (r.Ok? <==> ValidReceipt(receipt) && o.costsRecorded
                           && (o.receipt == Some(receipt)
                               || (o.status.Running? && forall j :: 0 <= j < |s.orders| && j != i ==> !HasReceiptId(s.orders[j], receipt.id))))
            && (r.Ok? && o.status.Running? ==>
                  s' == s.(orders := s.orders[i := o.(status := Delivered, receipt := Some(receipt), delivery := Done, updatedAt := at)],
                           history := s.history + [HistoryRow(o.id, OrderChange(Some(Running), Delivered), source, at)]))
            && (r.Err? || !o.status.Running? ==> s' == s)
  {
    hide Reachable, Inv, ViewOf, UniqueOrders, ValidReceipt, UpdateClashes;
    ReachableInv(s);
    InvRow(s, i);
    var o := s.orders[i];
    KeyIsFound(s.orders, i, ById(o.id));
    ReceiptClashes(s.orders, i, o.(status := Delivered, receipt := Some(receipt), delivery := Done, updatedAt := at));
  }

  /**
   A paid order can be fulfilled: from the queue, without costs yet, with costs in range and a fresh
   receipt, beginning, recording and delivering are all accepted, and leave it delivered with that receipt
   and those costs, its payment untouched, its contribution lower by the costs.
   */
  lemma QueuedOrderCanBeDelivered(
    s: Tables, i: nat, costs: map<CostCategory, int>, key: string, receipt: Receipt, source: string, at: string)
    requires Reachable(s) && i < |s.orders| && s.orders[i].status.Queued? && !s.orders[i].costsRecorded
    requires CostsInRange(costs) && IsIdempotencyKey(key) && ValidReceipt(receipt)
    requires forall o <- s.orders :: !HasReceiptId(o, receipt.id)
    ensures var id := s.orders[i].id;
            var s' := Run(s, [OpBegin(id, source, at), OpRecordCosts(id, costs, key, at), OpDeliver(id, receipt, source, at)]);
            && |s'.orders| == |s.orders| && s'.orders[i].status.Delivered? && s'.orders[i].receipt == Some(receipt)
            && s'.orders[i].payment == s.orders[i].payment && s'.orders[i].collected == s.orders[i].collected
            && (exists x <- s'.costs :: Recorded(x, id, key, costs))
            && Impact(s'.entries, id) == Impact(s.entries, id) - TotalOf(costs)
            && forall j :: 0 <= j < |s.orders| && j != i ==> s'.orders[j] == s.orders[j]
  {
    hide Reachable, Inv, ViewOf, UniqueOrders, ValidReceipt, UpdateClashes, CostEntries, IsIdempotencyKey, RecordDirectCosts,
         BeginFulfillment, Deliver, Impact, CostsInRange, Recorded;
    var id := s.orders[i].id;
    var begin, record, deliver := OpBegin(id, source, at), OpRecordCosts(id, costs, key, at), OpDeliver(id, receipt, source, at);
    var s1 := Perform(s, begin).0;
    var s2 := Perform(s1, record).0;
    ThreeCalls(s, begin, record, deliver);
    assert s.orders[i] in s.orders;
    BeginningIsAccepted(s, i, source, at);
    StepReaches(s, begin);
    CostsAreAccepted(s1, i, costs, key, at);
    CostsAreBookedAsGiven(s1, i, costs, key, at);
    CostsTouchOneRow(s1, i, costs, key, at);
    StepReaches(s1, record);
    forall j | 0 <= j < |s2.orders| && j != i ensures !HasReceiptId(s2.orders[j], receipt.id) {
      assert s.orders[j] in s.orders;
    }
    DeliveryIsAccepted(s2, i, receipt, source, at);
  }

  /** Why a delivery is refused: the receipt's format, costs not recorded, the order's status, or a receipt that is bound elsewhere. */
  lemma DeliveryRejections(s: Tables, i: nat, receipt: Receipt, source: string, at: string)
    requires Reachable(s) && i < |s.orders|
    ensures var o, r := s.orders[i], Deliver(s, s.orders[i].id, receipt, source, at).1;
            var ready := ValidReceipt(receipt) && o.costsRecorded;
            && (r == Err(InvalidDelivery) <==> !ValidReceipt(receipt))
            && (r == Err(CostRecordRequired) <==> ValidReceipt(receipt) && !o.costsRecorded)
            && (r == Err(InvalidTransition) <==> ready && !o.status.Running? && !o.status.Delivered?)
            && (r == Err(IdempotencyConflict)
                <==> ready && ((o.status.Delivered? && o.receipt != Some(receipt))
                               || (o.status.Running?
                                   && exists j :: 0 <= j < |s.orders| && j != i && HasReceiptId(s.orders[j], receipt.id))))
  {
    hide Reachable, Inv, ViewOf, UniqueOrders, ValidReceipt, UpdateClashes;
    ReachableInv(s);
    InvRow(s, i);
    var o := s.orders[i];
    KeyIsFound(s.orders, i, ById(o.id));
    ReceiptClashes(s.orders, i, o.(status := Delivered, receipt := Some(receipt), delivery := Done, updatedAt := at));
  }

  /** Calls about an order that does not exist are refused as such. */
  lemma UnknownOrders(s: Tables, id: OrderId, receipt: Receipt, checkoutId: string, paymentId: string, source: string, at: string)
    requires forall o <- s.orders :: o.id != id
    ensures BeginFulfillment(s, id, source, at) == FailFulfillment(s, id, source, at) == (s, Err(UnknownOrder))
    ensures AttachCheckout(s, id, checkoutId, None, at) == (s, Err(UnknownOrder))
    ensures ValidReceipt(receipt) ==> Deliver(s, id, receipt, source, at) == (s, Err(UnknownOrder))
    ensures IsStripePaymentId(paymentId) ==> BindProviderPayment(s, id, paymentId, checkoutId, at) == (s, Err(UnknownOrder))
  {
    hide ViewOf, ValidReceipt, IsStripePaymentId, UpdateClashes;
    forall i | 0 <= i < |s.orders| ensures s.orders[i].id != id { assert s.orders[i] in s.orders; }
    assert FindOrder(s.orders, ById(id)).None?;
  }

  lemma ThreeCalls(s: Tables, a: Op, b: Op, c: Op)
    ensures Run(s, [a, b, c]) == Perform(Perform(Perform(s, a).0, b).0, c).0
  {
    hide Perform;
    assert [a, b, c][1..] == [b, c] && [b, c][1..] == [c] && [c][1..] == [];
    assert Run(s, [a, b, c]) == Run(Perform(s, a).0, [b, c]);
    assert Run(Perform(s, a).0, [b, c]) == Run(Perform(Perform(s, a).0, b).0, [c]);
  }

  lemma {:induction false} RunAppends(s: Tables, ops: seq<Op>, op: Op)
    ensures Run(s, ops + [op]) == Perform(Run(s, ops), op).0
    decreases |ops|
  {
    hide Perform;
    if ops == [] {
      assert ops + [op] == [op] && [op][1..] == [];
    } else {
      assert (ops + [op])[1..] == ops[1..] + [op];
      RunAppends(Perform(s, ops[0]).0, ops[1..], op);
    }
  }

  lemma StepReaches(s: Tables, op: Op)
    requires Reachable(s)
    ensures Reachable(Perform(s, op).0)
  {
    hide Perform, Run;
    var environment: Environment, ops: seq<Op> :| s == Run(EmptyTables(environment), ops);
    RunAppends(EmptyTables(environment), ops, op);
  }

  lemma CostsTouchOneRow(s: Tables, i: nat, costs: map<CostCategory, int>, key: string, at: string)
    requires Reachable(s) && i < |s.orders| && !s.orders[i].costsRecorded && CostsInRange(costs) && IsIdempotencyKey(key)
    ensures RecordDirectCosts(s, s.orders[i].id, costs, key, at).0.orders
            == s.orders[i := s.orders[i].(costsRecorded := true, updatedAt := at)]
  {
    ReachableInv(s);
    RangeIsValid(costs);
    hide Reachable, Inv, UniqueOrders, ValidCosts, CostEntries, IsIdempotencyKey, CostsInRange, ViewOf;
    InvRow(s, i);
    NoCostsBefore(s, i);
    RecordingSucceeds(s, i, costs, key, at);
  }

  // ----- The view and the summary ----------------------------------------------------------------------

  /** The view of an order names its waiting events, each with its kind, and no others. */
  lemma ViewShowsWaiting(s: Tables, i: nat, id: string, kind: EventType)
    requires i < |s.orders|
    ensures (id, kind) in ViewOf(s, i).pendingEvents
            <==> exists k :: 0 <= k < |s.events| && s.events[k].status.Waiting? && s.orders[i].paymentId == Some(s.events[k].event.paymentId)
                             && s.events[k].event.id == id && s.events[k].event.kind == kind
  {
    hide Impact, DirectCosts;
    var o := s.orders[i];
    if o.paymentId.Some? {
      var queue := Queue(s.events, o.paymentId.value, |s.events|);
      var names := EventNames(s.events, queue);
      if (id, kind) in names {
        var q :| 0 <= q < |names| && names[q] == (id, kind);
        assert queue[q] in queue;
      }
      if k :| 0 <= k < |s.events| && WaitsFor(s.events[k], o.paymentId.value) && s.events[k].event.id == id && s.events[k].event.kind == kind {
        assert k in queue;
        var q :| 0 <= q < |queue| && queue[q] == k;
        assert names[q] == (id, kind);
      }
    }
  }

  /** SUM(amount_minor) over all entries of a category. */
  function CategoryTotal(entries: seq<Entry>, c: Category): int {
    if entries == [] then 0
    else CategoryTotal(entries[..|entries| - 1], c) + if entries[|entries| - 1].category == c then entries[|entries| - 1].amount else 0
  }

  function SumAmounts(entries: seq<Entry>, orders: seq<Order>, c: Category): int {
    if orders == [] then 0
    else SumAmounts(entries, orders[..|orders| - 1], c) + AmountOf(entries, orders[|orders| - 1].id, c)
  }

  lemma {:induction false} AmountCountsOnce(entries: seq<Entry>, e: Entry, orders: seq<Order>, c: Category)
    requires UniqueOrders(orders)
    ensures SumAmounts(entries + [e], orders, c)
            == SumAmounts(entries, orders, c) + if Known(orders, e.orderId) && e.category == c then e.amount else 0
  {
    if orders != [] {
      var n := |orders| - 1;
      AmountCountsOnce(entries, e, orders[..n], c);
      AmountAppends(entries, e, orders[n].id, c);
      if orders[n].id == e.orderId {
        assert Known(orders, e.orderId);
        assert !Known(orders[..n], e.orderId) by {
          assert forall a | 0 <= a < n :: !Clash(orders[a], orders[n]);
        }
      } else if Known(orders, e.orderId) {
        var a :| 0 <= a < |orders| && orders[a].id == e.orderId;
        assert orders[..n][a].id == e.orderId;
      }
    }
  }

  lemma {:induction false} CategoryIsSumOfAmounts(entries: seq<Entry>, orders: seq<Order>, c: Category)
    requires UniqueOrders(orders)
    requires forall k :: 0 <= k < |entries| ==> Known(orders, entries[k].orderId)
    ensures CategoryTotal(entries, c) == SumAmounts(entries, orders, c)
  {
    if entries == [] {
      NothingBooked(orders, c);
    } else {
      var n := |entries| - 1;
      CategoryIsSumOfAmounts(entries[..n], orders, c);
      AmountCountsOnce(entries[..n], entries[n], orders, c);
      assert entries == entries[..n] + [entries[n]];
      assert Known(orders, entries[n].orderId);
    }
  }

  lemma NothingBooked(orders: seq<Order>, c: Category)
    ensures SumAmounts([], orders, c) == 0
  {
  }

  lemma {:induction false} ColumnsByCategory(s: Tables, n: nat)
    requires Inv(s) && n <= |s.orders|
    ensures SumOver(s.entries, s.orders[..n], CollectedField) == SumAmounts(s.entries, s.orders[..n], GrossCollected)
    ensures SumOver(s.entries, s.orders[..n], FeeField) == SumAmounts(s.entries, s.orders[..n], ProcessingFee)
    ensures SumOver(s.entries, s.orders[..n], RefundedField) == SumAmounts(s.entries, s.orders[..n], Refund)
  {
    hide Inv, Impact, ShownCosts, AmountOf, CostsMatch, Booked;
    if n > 0 {
      ColumnsByCategory(s, n - 1);
      assert s.orders[..n][..n - 1] == s.orders[..n - 1];
      LedgerRow(s, n - 1);
    }
  }

  function WaitingRows(events: seq<EventRow>): set<nat> {
    set k: nat | k < |events| && events[k].status.Waiting?
  }

  /** Each column of the summary is the total of its ledger category, and the waiting events are counted one by one. */
  lemma SummaryMatchesLedger(s: Tables)
    requires Reachable(s)
    ensures var sum := GetFinancialSummary(s);
            && sum.orders == |s.orders|
            && sum.collected == CategoryTotal(s.entries, GrossCollected)
            && sum.fees == CategoryTotal(s.entries, ProcessingFee)
            && sum.refunded == CategoryTotal(s.entries, Refund)
            && sum.pending == |WaitingRows(s.events)|
  {
    ReachableInv(s);
    CategoryIsSumOfAmounts(s.entries, s.orders, GrossCollected);
    CategoryIsSumOfAmounts(s.entries, s.orders, ProcessingFee);
    CategoryIsSumOfAmounts(s.entries, s.orders, Refund);
    ColumnsByCategory(s, |s.orders|);
    assert s.orders[..|s.orders|] == s.orders;
    WaitingAreCounted(s.events);
  }

  lemma {:induction false} WaitingAreCounted(events: seq<EventRow>)
    ensures WaitingCount(events) == |WaitingRows(events)|
  {
    if events == [] {
      assert WaitingRows(events) == {};
    } else {
      var n := |events| - 1;
      WaitingAreCounted(events[..n]);
      assert WaitingRows(events) == WaitingRows(events[..n]) + if events[n].status.Waiting? then {n} else {};
    }
  }
}
