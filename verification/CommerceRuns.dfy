/** Every transaction keeps the store invariant, so every reachable store satisfies it. */
module CommerceRuns {
  import opened Wrappers
  import opened CommerceStates
  import opened CommerceTables
  import opened CommerceTransactions
  import opened CommerceInvariant
  import opened CommerceSteps

  // ----- Updating an order row without touching its payment ---------------------------------

  /** Payment, amounts and cost flag are as before; a payment id may be filled in, not changed. */
  predicate SamePayment(o: Order, o': Order) {
    && o'.id == o.id && o'.provider == o.provider && o'.payment == o.payment && o'.quoted == o.quoted
    && o'.collected == o.collected && o'.refunded == o.refunded && o'.fee == o.fee && o'.currency == o.currency
    && (o'.paymentId == o.paymentId || o.paymentId.None?)
  }

  lemma UpdateKeepsOrders(orders: seq<Order>, i: nat, o': Order)
    requires OrdersOk(orders) && i < |orders| && !UpdateClashes(orders, i, o') && RowOk(o')
    ensures OrdersOk(orders[i := o'])
  {
    var orders' := orders[i := o'];
    forall a, b | 0 <= a < b < |orders'|
      ensures !Clash(orders'[a], orders'[b])
    {
      assert !Clash(orders[a], orders[b]);
      if a == i { assert !Clash(orders[b], o'); }
      if b == i { assert !Clash(orders[a], o'); }
    }
  }

  /** A row that `o'` owns was already owned by the row it replaces. */
  lemma OwnsBefore(orders: seq<Order>, events: seq<EventRow>, i: nat, k: nat, o': Order)
    requires i < |orders| && k < |events| && Owned(orders, events[k]) && SamePayment(orders[i], o')
    requires !UpdateClashes(orders, i, o') && Owns(o', events[k])
    ensures Owns(orders[i], events[k])
  {
    var a :| 0 <= a < |orders| && Owns(orders[a], events[k]);
    if a != i { assert Clash(orders[a], o'); }
  }

  lemma UpdateKeepsEvents(environment: Environment, orders: seq<Order>, events: seq<EventRow>, i: nat, o': Order)
    requires EventsOk(environment, orders, events) && i < |orders|
    requires SamePayment(orders[i], o') && !UpdateClashes(orders, i, o')
    ensures EventsOk(environment, orders[i := o'], events)
    ensures AllQuiet(orders, events) ==> AllQuiet(orders[i := o'], events)
  {
    var orders' := orders[i := o'];
    forall k | 0 <= k < |events|
      ensures Owned(orders', events[k])
      ensures Owns(o', events[k]) ==> Owns(orders[i], events[k])
    {
      var a :| 0 <= a < |orders| && Owns(orders[a], events[k]);
      assert Owns(orders'[a], events[k]);
      if Owns(o', events[k]) { OwnsBefore(orders, events, i, k, o'); }
    }
    forall pid | QuietFor(orders, events, pid)
      ensures QuietFor(orders', events, pid)
    {
    }
  }

  lemma UpdateKeepsSupports(orders: seq<Order>, events: seq<EventRow>, i: nat, o': Order)
    requires SupportsOk(orders, events) && i < |orders| && SamePayment(orders[i], o') && RowOk(orders[i])
    ensures SupportsOk(orders[i := o'], events)
  {
    var o := orders[i];
    assert SupportOk(events, o);
    forall t | Backed(events, o, t)
      ensures Backed(events, o', t)
    {
      var k :| 0 <= k < |events| && Backs(events[k], o, t);
      assert Backs(events[k], o', t);
    }
    assert SupportOk(events, o');
  }

  lemma UpdateKeepsInv(s: Tables, i: nat, o': Order)
    requires Inv(s) && i < |s.orders| && RowOk(o') && SamePayment(s.orders[i], o')
    requires !UpdateClashes(s.orders, i, o') && o'.costsRecorded == s.orders[i].costsRecorded
    ensures OrdersOk(s.orders[i := o']) && LedgersOk(s.orders[i := o'], s.entries, s.costs)
    ensures EventsOk(s.environment, s.orders[i := o'], s.events) && SupportsOk(s.orders[i := o'], s.events)
    ensures AllQuiet(s.orders[i := o'], s.events)
  {
    assert RowOk(s.orders[i]);
    hide OrdersOk, LedgersOk, TrailsOk, EventsOk, SupportsOk, AllQuiet, UpdateClashes;
    UpdateKeepsOrders(s.orders, i, o');
    NoEntryKeepsLedgers(s.orders, s.entries, s.costs, i, o');
    UpdateKeepsEvents(s.environment, s.orders, s.events, i, o');
    UpdateKeepsSupports(s.orders, s.events, i, o');
  }

  /** An update that also moves the order status, recorded in the history. */
  lemma StatusUpdateKeepsInv(s: Tables, i: nat, o': Order, source: string, at: string)
    requires Inv(s) && i < |s.orders| && RowOk(o') && SamePayment(s.orders[i], o')
    requires !UpdateClashes(s.orders, i, o') && o'.costsRecorded == s.orders[i].costsRecorded
    requires OrderMayMove(s.orders[i].status, o'.status)
    ensures Inv(WithHistory(WithOrder(s, i, o'), o'.id, OrderChange(Some(s.orders[i].status), o'.status), source, at))
  {
    var row := HistoryRow(o'.id, OrderChange(Some(s.orders[i].status), o'.status), source, at);
    assert TrailOk(s.history, s.orders[i]);
    hide LedgersOk, TrailsOk, EventsOk, SupportsOk, AllQuiet, UpdateClashes;
    UpdateKeepsInv(s, i, o');
    HistoryAppends(s.history, row);
    RowKeepsTrails(s.orders, s.history, i, o', row);
  }

  // ----- Creating an order -------------------------------------------------------------------

  lemma NewOrderIsClean(s: Tables, o: Order)
    requires OrdersOk(s.orders) && LedgersOk(s.orders, s.entries, s.costs) && TrailsOk(s.orders, s.history)
    requires !UpdateClashes(s.orders, |s.orders|, o)
    ensures !Known(s.orders, o.id)
    ensures forall c :: !Booked(s.entries, o.id, c)
    ensures forall k :: 0 <= k < |s.history| ==> s.history[k].orderId != o.id
    ensures forall r <- s.costs :: r.orderId != o.id
  {
    assert forall j | 0 <= j < |s.orders| :: !Clash(s.orders[j], o);
  }

  lemma CreateKeepsLedgers(s: Tables, o: Order)
    requires OrdersOk(s.orders) && LedgersOk(s.orders, s.entries, s.costs) && TrailsOk(s.orders, s.history)
    requires !UpdateClashes(s.orders, |s.orders|, o)
    requires o.collected == o.fee == o.refunded == 0 && !o.costsRecorded
    ensures LedgersOk(s.orders + [o], s.entries, s.costs)
  {
    NewOrderIsClean(s, o);
    KnownExtends(s.orders, o);
    forall c { UnbookedHasNoAmount(s.entries, o.id, c); }
    assert LedgerOk(s.entries, s.costs, o);
  }

  lemma KnownExtends(orders: seq<Order>, o: Order)
    ensures forall id :: Known(orders, id) || id == o.id ==> Known(orders + [o], id)
  {
    forall id | Known(orders, id) || id == o.id
      ensures Known(orders + [o], id)
    {
      if id == o.id {
        assert (orders + [o])[|orders|].id == id;
      } else {
        var a :| 0 <= a < |orders| && orders[a].id == id;
        assert (orders + [o])[a].id == id;
      }
    }
  }

  lemma CreateKeepsTrails(s: Tables, o: Order, row: HistoryRow)
    requires OrdersOk(s.orders) && LedgersOk(s.orders, s.entries, s.costs) && TrailsOk(s.orders, s.history)
    requires !UpdateClashes(s.orders, |s.orders|, o) && o.status.CheckoutPending? && o.payment.Pending?
    requires row.orderId == o.id && row.change == OrderChange(None, CheckoutPending)
    ensures TrailsOk(s.orders + [o], s.history + [row])
  {
    NewOrderIsClean(s, o);
    KnownExtends(s.orders, o);
    UnknownHasNoHistory(s.history, o.id);
    HistoryAppends(s.history, row);
    forall j | 0 <= j < |s.orders|
      ensures TrailOk(s.history + [row], s.orders[j])
    {
      assert TrailOk(s.history, s.orders[j]);
      assert s.orders[j].id != o.id;
    }
  }

  lemma CreateKeepsOrders(orders: seq<Order>, o: Order)
    requires OrdersOk(orders) && !UpdateClashes(orders, |orders|, o) && RowOk(o)
    ensures OrdersOk(orders + [o])
  {
    var orders' := orders + [o];
    forall a, b | 0 <= a < b < |orders'|
      ensures !Clash(orders'[a], orders'[b])
    {
      if b < |orders| { assert !Clash(orders[a], orders[b]); }
    }
  }

  lemma CreateKeepsEvents(environment: Environment, orders: seq<Order>, events: seq<EventRow>, o: Order)
    requires EventsOk(environment, orders, events) && SupportsOk(orders, events) && AllQuiet(orders, events)
    requires o.paymentId.None? && o.payment.Pending?
    ensures EventsOk(environment, orders + [o], events) && SupportsOk(orders + [o], events) && AllQuiet(orders + [o], events)
  {
    var orders' := orders + [o];
    forall k | 0 <= k < |events|
      ensures Owned(orders', events[k])
    {
      var a :| 0 <= a < |orders| && Owns(orders[a], events[k]);
      assert Owns(orders'[a], events[k]);
    }
    forall pid
      ensures QuietFor(orders', events, pid)
    {
      assert QuietFor(orders, events, pid);
    }
    assert SupportOk(events, o);
  }

  lemma CreateKeepsInv(s: Tables, o: Order, source: string, at: string)
    requires Inv(s) && !UpdateClashes(s.orders, |s.orders|, o) && RowOk(o)
    requires o.status.CheckoutPending? && !o.costsRecorded
    ensures Inv(WithHistory(s.(orders := s.orders + [o]), o.id, OrderChange(None, CheckoutPending), source, at))
  {
    hide OrdersOk, LedgersOk, TrailsOk, EventsOk, SupportsOk, AllQuiet, UpdateClashes;
    CreateKeepsOrders(s.orders, o);
    CreateKeepsLedgers(s, o);
    CreateKeepsTrails(s, o, HistoryRow(o.id, OrderChange(None, CheckoutPending), source, at));
    CreateKeepsEvents(s.environment, s.orders, s.events, o);
  }

  // ----- Recording costs -----------------------------------------------------------------------

  predicate IsCostOf(c: Category, n: nat)
    requires n <= |DIRECT_COST_CATEGORIES|
  {
    c.DirectCost? && c.cost in DIRECT_COST_CATEGORIES[..n]
  }

  lemma NextCategory(n: nat)
    requires 0 < n <= |DIRECT_COST_CATEGORIES|
    ensures DIRECT_COST_CATEGORIES[..n] == DIRECT_COST_CATEGORIES[..n - 1] + [DIRECT_COST_CATEGORIES[n - 1]]
    ensures DIRECT_COST_CATEGORIES[n - 1] !in DIRECT_COST_CATEGORIES[..n - 1]
  {
  }

  lemma NoCostEntries(id: OrderId, costs: map<CostCategory, int>, key: string, at: string)
    requires ValidCosts(costs)
    ensures CostEntries(id, costs, key, at, 0) == []
  {
  }

  lemma OneMoreCostEntry(id: OrderId, costs: map<CostCategory, int>, key: string, at: string, n: nat)
    requires n < |DIRECT_COST_CATEGORIES| && ValidCosts(costs)
    ensures var c := DIRECT_COST_CATEGORIES[n];
            && c in costs
            && CostEntries(id, costs, key, at, n + 1)
               == CostEntries(id, costs, key, at, n) + [Entry(id, DirectCost(c), costs[c], -costs[c], key, at)]
  {
    assert DIRECT_COST_CATEGORIES[n] in DIRECT_COST_CATEGORIES;
  }

  lemma {:induction false} CostAmounts(
    entries: seq<Entry>, id: OrderId, costs: map<CostCategory, int>, key: string, at: string, n: nat)
    requires n <= |DIRECT_COST_CATEGORIES| && ValidCosts(costs)
    ensures forall id', c :: AmountOf(entries + CostEntries(id, costs, key, at, n), id', c)
              == AmountOf(entries, id', c) + if id' == id && IsCostOf(c, n) then costs[c.cost] else 0
  {
    if n == 0 {
      assert entries + [] == entries;
    } else {
      CostAmounts(entries, id, costs, key, at, n - 1);
      NextCategory(n);
      var before := entries + CostEntries(id, costs, key, at, n - 1);
      var c := DIRECT_COST_CATEGORIES[n - 1];
      var e := Entry(id, DirectCost(c), costs[c], -costs[c], key, at);
      AmountAppendsAll(before, e);
      assert entries + CostEntries(id, costs, key, at, n) == before + [e];
    }
  }

  lemma {:induction false} CostsBooked(
    entries: seq<Entry>, id: OrderId, costs: map<CostCategory, int>, key: string, at: string, n: nat)
    requires n <= |DIRECT_COST_CATEGORIES| && ValidCosts(costs)
    requires UniqueEntries(entries) && forall c: Category :: c.DirectCost? ==> !Booked(entries, id, c)
    ensures UniqueEntries(entries + CostEntries(id, costs, key, at, n))
    ensures forall id', c :: Booked(entries + CostEntries(id, costs, key, at, n), id', c)
              ==> Booked(entries, id', c) || (id' == id && IsCostOf(c, n))
    ensures forall k :: 0 <= k < |CostEntries(id, costs, key, at, n)|
              ==> CostEntries(id, costs, key, at, n)[k].orderId == id && EntryOk(CostEntries(id, costs, key, at, n)[k])
  {
    if n == 0 {
      assert entries + [] == entries;
    } else {
      CostsBooked(entries, id, costs, key, at, n - 1);
      NextCategory(n);
      hide Booked, UniqueEntries;
      var before := entries + CostEntries(id, costs, key, at, n - 1);
      var c := DIRECT_COST_CATEGORIES[n - 1];
      assert c in DIRECT_COST_CATEGORIES;
      var e := Entry(id, DirectCost(c), costs[c], -costs[c], key, at);
      EntryKeepsUnique(before, e);
      assert entries + CostEntries(id, costs, key, at, n) == before + [e];
    }
  }

  lemma AllCategoriesListed()
    ensures forall c: CostCategory :: c in DIRECT_COST_CATEGORIES
  {
    forall c: CostCategory
      ensures c in DIRECT_COST_CATEGORIES
    {
      match c
      case Compute => assert DIRECT_COST_CATEGORIES[0] == c;
      case ThirdParty => assert DIRECT_COST_CATEGORIES[1] == c;
      case Hosting => assert DIRECT_COST_CATEGORIES[2] == c;
      case Storage => assert DIRECT_COST_CATEGORIES[3] == c;
      case Model => assert DIRECT_COST_CATEGORIES[4] == c;
      case Network => assert DIRECT_COST_CATEGORIES[5] == c;
      case Signing => assert DIRECT_COST_CATEGORIES[6] == c;
      case Monitoring => assert DIRECT_COST_CATEGORIES[7] == c;
      case DirectSupport => assert DIRECT_COST_CATEGORIES[8] == c;
      case OtherVariable => assert DIRECT_COST_CATEGORIES[9] == c;
    }
  }

  /** The ledger of one order, before and after the costs of order `o` were recorded. */
  lemma CostsKeepLedger(
    entries: seq<Entry>, records: seq<CostRecord>, o: Order, other: Order, costs: map<CostCategory, int>, key: string, at: string)
    requires LedgerOk(entries, records, other) && ValidCosts(costs)
    requires UniqueEntries(entries) && forall c: Category :: c.DirectCost? ==> !Booked(entries, o.id, c)
    requires other.id == o.id ==> !other.costsRecorded
    ensures LedgerOk(entries + CostEntries(o.id, costs, key, at, |DIRECT_COST_CATEGORIES|), records + [CostRecord(o.id, key, costs, at)],
                     if other.id == o.id then other.(costsRecorded := true, updatedAt := at) else other)
  {
    var records' := records + [CostRecord(o.id, key, costs, at)];
    CostAmounts(entries, o.id, costs, key, at, |DIRECT_COST_CATEGORIES|);
    CostsBooked(entries, o.id, costs, key, at, |DIRECT_COST_CATEGORIES|);
    AllCategoriesListed();
    assert DIRECT_COST_CATEGORIES[..|DIRECT_COST_CATEGORIES|] == DIRECT_COST_CATEGORIES;
    hide AmountOf, Booked, CostEntries, UniqueEntries;
    assert records'[|records|] in records';
    assert forall r :: r in records' <==> r in records || r == CostRecord(o.id, key, costs, at);
  }

  lemma CostsKeepLedgers(s: Tables, i: nat, costs: map<CostCategory, int>, key: string, at: string)
    requires UniqueOrders(s.orders) && LedgersOk(s.orders, s.entries, s.costs)
    requires i < |s.orders| && ValidCosts(costs) && !s.orders[i].costsRecorded
    ensures LedgersOk(
              s.orders[i := s.orders[i].(costsRecorded := true, updatedAt := at)],
              s.entries + CostEntries(s.orders[i].id, costs, key, at, |DIRECT_COST_CATEGORIES|),
              s.costs + [CostRecord(s.orders[i].id, key, costs, at)])
  {
    var o := s.orders[i];
    assert LedgerOk(s.entries, s.costs, o);
    assert forall c: Category :: c.DirectCost? ==> !Booked(s.entries, o.id, c);
    KnownIsKept(s.orders, i, o.(costsRecorded := true, updatedAt := at));
    assert Known(s.orders, o.id);
    DistinctIds(s.orders, i);
    CostsBooked(s.entries, o.id, costs, key, at, |DIRECT_COST_CATEGORIES|);
    hide LedgerOk, Booked, ValidCosts, CostEntries, UniqueEntries, Known, UniqueOrders;
    forall j | 0 <= j < |s.orders| {
      CostsKeepLedger(s.entries, s.costs, o, s.orders[j], costs, key, at);
    }
  }

  // ----- The transactions ------------------------------------------------------------------------

  /** A row that keeps every unique column cannot clash. */
  lemma SameColumnsDoNotClash(orders: seq<Order>, i: nat, o': Order)
    requires UniqueOrders(orders) && i < |orders|
    requires o'.id == orders[i].id && o'.checkoutId == orders[i].checkoutId
    requires o'.paymentId == orders[i].paymentId && o'.receipt == orders[i].receipt
    ensures !UpdateClashes(orders, i, o')
  {
    forall j | 0 <= j < |orders| && j != i
      ensures !Clash(orders[j], o')
    {
      if j < i { assert !Clash(orders[j], orders[i]); } else { assert !Clash(orders[i], orders[j]); }
    }
  }

  lemma InvRow(s: Tables, i: nat)
    requires Inv(s) && i < |s.orders|
    ensures RowOk(s.orders[i]) && UniqueOrders(s.orders)
  {
  }

  lemma AttachKeepsInv(s: Tables, id: OrderId, checkoutId: string, paymentId: Option<string>, at: string)
    requires Inv(s)
    ensures Inv(AttachCheckout(s, id, checkoutId, paymentId, at).0)
  {
    hide Inv, UpdateClashes;
    var found := FindOrder(s.orders, ById(id));
    if found.Some? && AttachCheckout(s, id, checkoutId, paymentId, at).0 != s {
      var o := s.orders[found.value];
      InvRow(s, found.value);
      var payment := CheckoutPayment(o, s.environment, checkoutId, paymentId).value;
      StatusUpdateKeepsInv(
        s, found.value,
        o.(checkoutId := Some(checkoutId), paymentId := payment, status := PaymentPending, updatedAt := at), checkoutId, at);
    }
  }

  /** Rewriting an order row without a history row is fine when no status changes. */
  lemma SilentUpdateKeepsTrails(orders: seq<Order>, history: seq<HistoryRow>, i: nat, o': Order)
    requires TrailsOk(orders, history) && i < |orders|
    requires o'.id == orders[i].id && o'.status == orders[i].status && o'.payment == orders[i].payment
    ensures TrailsOk(orders[i := o'], history)
  {
    assert TrailOk(history, orders[i]);
    KnownIsKept(orders, i, o');
  }

  lemma BindKeepsInv(s: Tables, id: OrderId, paymentId: string, checkoutId: string, at: string)
    requires Inv(s)
    ensures Inv(BindProviderPayment(s, id, paymentId, checkoutId, at).0)
  {
    var found := FindOrder(s.orders, ById(id));
    if found.Some? && BindProviderPayment(s, id, paymentId, checkoutId, at).0 != s {
      var i, o := found.value, s.orders[found.value];
      assert RowOk(o);
      hide OrdersOk, LedgersOk, TrailsOk, EventsOk, SupportsOk, AllQuiet, UpdateClashes;
      UpdateKeepsInv(s, i, o.(paymentId := Some(paymentId), updatedAt := at));
      SilentUpdateKeepsTrails(s.orders, s.history, i, o.(paymentId := Some(paymentId), updatedAt := at));
    }
  }

  lemma TransitionKeepsInv(s: Tables, id: OrderId, target: OrderStatus, delivery: DeliveryStatus, source: string, at: string)
    requires Inv(s) && (target.Running? || target.FulfillmentFailed?) && !delivery.Done?
    ensures Inv(TransitionOrder(s, id, target, delivery, source, at).0)
  {
    hide Inv, UpdateClashes, UniqueOrders;
    var found := FindOrder(s.orders, ById(id));
    if found.Some? && TransitionOrder(s, id, target, delivery, source, at).0 != s {
      var i, o := found.value, s.orders[found.value];
      var o' := o.(status := target, delivery := delivery, updatedAt := at);
      InvRow(s, i);
      SameColumnsDoNotClash(s.orders, i, o');
      StatusUpdateKeepsInv(s, i, o', source, at);
    }
  }

  lemma DeliverKeepsInv(s: Tables, id: OrderId, receipt: Receipt, source: string, at: string)
    requires Inv(s)
    ensures Inv(Deliver(s, id, receipt, source, at).0)
  {
    hide Inv, UpdateClashes, UniqueOrders;
    var found := FindOrder(s.orders, ById(id));
    if found.Some? && Deliver(s, id, receipt, source, at).0 != s {
      var o := s.orders[found.value];
      InvRow(s, found.value);
      StatusUpdateKeepsInv(
        s, found.value,
        o.(status := Delivered, receipt := Some(receipt), delivery := Done, updatedAt := at), source, at);
    }
  }

  /** The tables after the costs of order i were recorded. */
  function WithCosts(s: Tables, i: nat, costs: map<CostCategory, int>, key: string, at: string): Tables
    requires i < |s.orders| && ValidCosts(costs)
  {
    s.(costs := s.costs + [CostRecord(s.orders[i].id, key, costs, at)],
       entries := s.entries + CostEntries(s.orders[i].id, costs, key, at, |DIRECT_COST_CATEGORIES|),
       orders := s.orders[i := s.orders[i].(costsRecorded := true, updatedAt := at)])
  }

  lemma RecordedCostsKeepInv(s: Tables, i: nat, costs: map<CostCategory, int>, key: string, at: string)
    requires Inv(s) && i < |s.orders| && ValidCosts(costs) && !s.orders[i].costsRecorded
    ensures Inv(WithCosts(s, i, costs, key, at))
  {
    hide OrdersOk, LedgersOk, TrailsOk, EventsOk, SupportsOk, AllQuiet, UpdateClashes, UniqueOrders, ValidCosts, CostEntries;
    var o' := s.orders[i].(costsRecorded := true, updatedAt := at);
    InvRow(s, i);
    SameColumnsDoNotClash(s.orders, i, o');
    CostsKeepLedgers(s, i, costs, key, at);
    UpdateKeepsOrders(s.orders, i, o');
    UpdateKeepsEvents(s.environment, s.orders, s.events, i, o');
    UpdateKeepsSupports(s.orders, s.events, i, o');
    SilentUpdateKeepsTrails(s.orders, s.history, i, o');
  }

  lemma CostsKeepInv(s: Tables, id: OrderId, costs: map<CostCategory, int>, key: string, at: string)
    requires Inv(s)
    ensures Inv(RecordDirectCosts(s, id, costs, key, at).0)
  {
    hide Inv, ValidCosts, CostEntries;
    var found := FindOrder(s.orders, ById(id));
    if found.Some? && RecordDirectCosts(s, id, costs, key, at).0 != s {
      RecordedCostsKeepInv(s, found.value, costs, key, at);
    }
  }

  lemma InsertKeepsEvents(environment: Environment, orders: seq<Order>, events: seq<EventRow>, i: nat, row: EventRow)
    requires UniqueOrders(orders) && EventsOk(environment, orders, events)
    requires i < |orders| && Owns(orders[i], row) && row.status.Waiting?
    requires ValidEvent(environment, row.event) && orders[i].provider == row.event.provider
    requires forall r <- events :: r.event.id != row.event.id
    ensures EventsOk(environment, orders, events + [row])
  {
    DistinctIds(orders, i);
    assert Owned(orders, row);
  }

  lemma InsertKeepsSupports(orders: seq<Order>, events: seq<EventRow>, row: EventRow)
    requires SupportsOk(orders, events)
    ensures SupportsOk(orders, events + [row])
  {
    forall j | 0 <= j < |orders|
      ensures SupportOk(events + [row], orders[j])
    {
      assert SupportOk(events, orders[j]);
      forall t | Backed(events, orders[j], t)
        ensures Backed(events + [row], orders[j], t)
      {
        var k :| 0 <= k < |events| && Backs(events[k], orders[j], t);
        assert Backs((events + [row])[k], orders[j], t);
      }
    }
  }

  /** A fresh event row keeps `Base`, and disturbs no other payment's queue. */
  lemma InsertKeepsBase(s: Tables, i: nat, row: EventRow)
    requires Base(s) && i < |s.orders| && Owns(s.orders[i], row) && row.status.Waiting?
    requires ValidEvent(s.environment, row.event) && s.orders[i].provider == row.event.provider
    requires forall r <- s.events :: r.event.id != row.event.id
    ensures Base(s.(events := s.events + [row]))
  {
    hide LedgersOk, TrailsOk, EventsOk, SupportsOk;
    InsertKeepsEvents(s.environment, s.orders, s.events, i, row);
    InsertKeepsSupports(s.orders, s.events, row);
  }

  lemma DrainKeepsQuiet(s: Tables, row: EventRow, s': Tables)
    requires AllQuiet(s.orders, s.events) && OnlyPayment(s.(events := s.events + [row]), s', row.event.paymentId)
    requires QuietFor(s'.orders, s'.events, row.event.paymentId)
    ensures AllQuiet(s'.orders, s'.events)
  {
    var events := s.events + [row];
    forall p | p != row.event.paymentId
      ensures QuietFor(s'.orders, s'.events, p)
    {
      assert QuietFor(s.orders, s.events, p);
      forall i, k | 0 <= i < |s'.orders| && 0 <= k < |s'.events| && Owns(s'.orders[i], s'.events[k]) && WaitsFor(s'.events[k], p)
        ensures Stuck(s'.orders[i], s'.events[k].event)
      {
        assert SameIdentity(s.orders[i], s'.orders[i]) && KeepsEvent(events[k], s'.events[k], row.event.paymentId);
        assert k < |s.events| && events[k] == s.events[k];
        assert Owns(s.orders[i], s.events[k]) && WaitsFor(s.events[k], p);
      }
    }
  }

  lemma IngestKeepsInv(s: Tables, e: Event, receivedAt: string)
    requires Inv(s)
    ensures Inv(Ingest(s, e, receivedAt).0)
  {
    if Ingest(s, e, receivedAt).0 != s {
      var i := FindOrder(s.orders, ByPayment(e.paymentId)).value;
      var row := EventRow(e, receivedAt, Waiting, None);
      var s1 := s.(events := s.events + [row]);
      hide OrdersOk, LedgersOk, TrailsOk, EventsOk, SupportsOk, AllQuiet, QuietFor, OnlyPayment;
      InsertKeepsBase(s, i, row);
      DrainKeeps(s1, e.paymentId);
      DrainKeepsQuiet(s, row, Drain(s1, e.paymentId));
    }
  }

  lemma CreateOrderKeepsInv(s: Tables, quoteId: string, key: string, buyer: string, now: int, at: string)
    requires Inv(s)
    ensures Inv(CreateOrder(s, quoteId, key, buyer, now, at).0)
  {
    hide Inv;
    if CreateOrder(s, quoteId, key, buyer, now, at).0 != s {
      var q := s.quotes[FindQuote(s.quotes, quoteId).value];
      CreateKeepsInv(s, NewOrder(q, OrderId(quoteId, key, buyer), at), key, at);
    }
  }

  lemma CreateQuoteKeepsInv(s: Tables, q: Quote, maxPrice: Option<nat>, enabled: bool)
    requires Inv(s)
    ensures Inv(CreateQuote(s, q, maxPrice, enabled).0)
  {
    hide OrdersOk, LedgersOk, TrailsOk, EventsOk, SupportsOk, AllQuiet;
  }

  lemma PerformKeepsInv(s: Tables, op: Op)
    requires Inv(s)
    ensures Inv(Perform(s, op).0)
  {
    hide Inv;
    match op
    case OpCreateQuote(q, maxPrice, enabled) => CreateQuoteKeepsInv(s, q, maxPrice, enabled);
    case OpCreateOrder(quoteId, key, buyer, now, at) => CreateOrderKeepsInv(s, quoteId, key, buyer, now, at);
    case OpAttachCheckout(id, checkoutId, payment, at) => AttachKeepsInv(s, id, checkoutId, payment, at);
    case OpBindPayment(id, paymentId, checkoutId, at) => BindKeepsInv(s, id, paymentId, checkoutId, at);
    case OpIngest(e, receivedAt) => IngestKeepsInv(s, e, receivedAt);
    case OpRecordCosts(id, costs, key, at) => CostsKeepInv(s, id, costs, key, at);
    case OpBegin(id, source, at) => TransitionKeepsInv(s, id, Running, InProgress, source, at);
    case OpFail(id, source, at) => TransitionKeepsInv(s, id, FulfillmentFailed, GivenUp, source, at);
    case OpDeliver(id, receipt, source, at) => DeliverKeepsInv(s, id, receipt, source, at);
  }

  lemma {:induction false} RunKeepsInv(s: Tables, ops: seq<Op>)
    requires Inv(s)
    ensures Inv(Run(s, ops))
    decreases |ops|
  {
    if ops != [] {
      PerformKeepsInv(s, ops[0]);
      RunKeepsInv(Perform(s, ops[0]).0, ops[1..]);
    }
  }

  lemma ReachableInv(s: Tables)
    requires Reachable(s)
    ensures Inv(s)
  {
    var environment: Environment, ops: seq<Op> :| s == Run(EmptyTables(environment), ops);
    RunKeepsInv(EmptyTables(environment), ops);
  }
}
