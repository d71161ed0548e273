/** Reconciliation keeps `Base` at every step, and when it stops the queue of the payment is stuck. */
module CommerceSteps {
  import opened Wrappers
  import opened CommerceStates
  import opened CommerceTables
  import opened CommerceTransactions
  import opened CommerceInvariant

  lemma DistinctIds(orders: seq<Order>, i: nat)
    requires UniqueOrders(orders) && i < |orders|
    ensures forall j :: 0 <= j < |orders| && j != i ==> orders[j].id != orders[i].id
    ensures forall j, pid :: 0 <= j < |orders| && j != i && orders[i].paymentId == Some(pid) ==> orders[j].paymentId != Some(pid)
  {
    forall j | 0 <= j < |orders| && j != i
      ensures !Clash(orders[j], orders[i]) || !Clash(orders[i], orders[j])
    {
      if j < i { assert !Clash(orders[j], orders[i]); } else { assert !Clash(orders[i], orders[j]); }
    }
  }

  lemma KeyIsFound(orders: seq<Order>, i: nat, k: OrderKey)
    requires UniqueOrders(orders) && i < |orders| && HasKey(orders[i], k)
    ensures FindOrder(orders, k) == Some(i)
  {
    assert orders[i] in orders;
    var j := FindOrder(orders, k).value;
    if j < i { assert Clash(orders[j], orders[i]); }
    if i < j { assert Clash(orders[i], orders[j]); }
  }

  /** Replacing a row by one with the same identity keeps every UNIQUE column. */
  lemma IdentityKeepsUnique(orders: seq<Order>, i: nat, o: Order)
    requires UniqueOrders(orders) && i < |orders| && SameIdentity(orders[i], o)
    ensures UniqueOrders(orders[i := o])
  {
    var orders' := orders[i := o];
    forall a, b | 0 <= a < b < |orders'|
      ensures !Clash(orders'[a], orders'[b])
    {
      assert !Clash(orders[a], orders[b]);
    }
  }

  lemma KnownIsKept(orders: seq<Order>, i: nat, o: Order)
    requires i < |orders| && o.id == orders[i].id
    ensures forall id :: Known(orders, id) ==> Known(orders[i := o], id)
  {
    forall id | Known(orders, id)
      ensures Known(orders[i := o], id)
    {
      var a :| 0 <= a < |orders| && orders[a].id == id;
      assert orders[i := o][a].id == id;
    }
  }

  // ----- Settling an event: only its status changes -----------------------------------------

  lemma MarkKeepsEvents(environment: Environment, orders: seq<Order>, events: seq<EventRow>, i: nat, k: nat, row: EventRow)
    requires UniqueOrders(orders) && EventsOk(environment, orders, events)
    requires i < |orders| && k < |events| && Owns(orders[i], events[k])
    requires row.event == events[k].event && Fits(orders[i], row)
    ensures EventsOk(environment, orders, events[k := row])
  {
    var events' := events[k := row];
    DistinctIds(orders, i);
    forall r | 0 <= r < |events'|
      ensures Owned(orders, events'[r])
    {
      var a :| 0 <= a < |orders| && Owns(orders[a], events[r]);
      assert Owns(orders[a], events'[r]);
    }
    forall a, r | 0 <= a < |orders| && 0 <= r < |events'| && Owns(orders[a], events'[r])
      ensures orders[a].provider == events'[r].event.provider && Fits(orders[a], events'[r])
    {
      assert Owns(orders[a], events[r]);
    }
  }

  lemma MarkKeepsSupport(events: seq<EventRow>, k: nat, row: EventRow, o: Order)
    requires k < |events| && !events[k].status.Applied? && SupportOk(events, o)
    ensures SupportOk(events[k := row], o)
  {
    forall t | Backed(events, o, t)
      ensures Backed(events[k := row], o, t)
    {
      var j :| 0 <= j < |events| && Backs(events[j], o, t);
      assert events[k := row][j] == events[j];
    }
  }

  lemma SettleKeepsBase(s: Tables, k: nat, status: EventStatus)
    requires Base(s) && k < |s.events| && s.events[k].status.Waiting?
    requires VerdictAt(s, k) == Settle(status)
    ensures Base(StepEvent(s, k))
  {
    var s' := StepEvent(s, k);
    var i := FindOrder(s.orders, ByPayment(s.events[k].event.paymentId)).value;
    MarkKeepsEvents(s.environment, s.orders, s.events, i, k, s'.events[k]);
    forall j | 0 <= j < |s.orders|
      ensures SupportOk(s'.events, s.orders[j])
    {
      assert SupportOk(s.events, s.orders[j]);
      MarkKeepsSupport(s.events, k, s'.events[k], s.orders[j]);
    }
  }

  // ----- Moving a payment ---------------------------------------------------------------------

  lemma MoveKeepsRow(o: Order, e: Event)
    requires RowOk(o) && Judge(o, e).Move? && o.paymentId == Some(e.paymentId) && 0 <= e.fee <= e.amount
    ensures RowOk(MovedOrder(o, e)) && SameIdentity(o, MovedOrder(o, e))
    ensures OrderMayMove(o.status, MovedOrder(o, e).status) || MovedOrder(o, e).status == o.status
  {
  }

  /** What identifies an order row and stays fixed while a payment is reconciled. */
  predicate SameIdentity(o: Order, o': Order) {
    && o'.id == o.id && o'.provider == o.provider && o'.checkoutId == o.checkoutId && o'.paymentId == o.paymentId
    && o'.quoted == o.quoted && o'.currency == o.currency && o'.receipt == o.receipt
    && o'.costsRecorded == o.costsRecorded && o'.delivery == o.delivery && o'.createdAt == o.createdAt
  }

  lemma MoveKeepsOrders(orders: seq<Order>, i: nat, o': Order)
    requires OrdersOk(orders) && i < |orders| && SameIdentity(orders[i], o') && RowOk(o')
    ensures OrdersOk(orders[i := o'])
  {
    IdentityKeepsUnique(orders, i, o');
  }

  lemma EntryKeepsUnique(entries: seq<Entry>, e: Entry)
    requires UniqueEntries(entries) && !Booked(entries, e.orderId, e.category)
    ensures UniqueEntries(entries + [e])
    ensures forall id, c :: Booked(entries + [e], id, c) ==> Booked(entries, id, c) || (id == e.orderId && c == e.category)
  {
    forall id, c | Booked(entries + [e], id, c)
      ensures Booked(entries, id, c) || (id == e.orderId && c == e.category)
    {
      var k :| 0 <= k < |entries + [e]| && (entries + [e])[k].orderId == id && (entries + [e])[k].category == c;
      if k < |entries| { assert entries[k].orderId == id && entries[k].category == c; }
    }
  }

  /** Appending one new entry for order `i`, whose row becomes `o'`, leaves every other ledger as it was. */
  lemma EntryKeepsLedgers(
    orders: seq<Order>, entries: seq<Entry>, costs: seq<CostRecord>, i: nat, o': Order, added: Entry)
    requires UniqueOrders(orders) && LedgersOk(orders, entries, costs) && i < |orders|
    requires o'.id == orders[i].id == added.orderId && EntryOk(added)
    requires !Booked(entries, added.orderId, added.category)
    requires o'.costsRecorded == orders[i].costsRecorded && !added.category.DirectCost?
    requires o'.collected == orders[i].collected + (if added.category.GrossCollected? then added.amount else 0)
    requires o'.fee == orders[i].fee + (if added.category.ProcessingFee? then added.amount else 0)
    requires o'.refunded == orders[i].refunded + (if added.category.Refund? then added.amount else 0)
    requires MayBeBooked(o', added.category)
    requires forall c :: MayBeBooked(orders[i], c) ==> MayBeBooked(o', c)
    ensures LedgersOk(orders[i := o'], entries + [added], costs)
    ensures forall c :: Booked(entries + [added], o'.id, c) ==> Booked(entries, o'.id, c) || c == added.category
  {
    AmountAppendsAll(entries, added);
    EntryKeepsUnique(entries, added);
    KnownIsKept(orders, i, o');
    DistinctIds(orders, i);
    assert Known(orders, o'.id);
    assert LedgerOk(entries, costs, orders[i]);
    assert LedgerOk(entries + [added], costs, o');
    forall j | 0 <= j < |orders| && j != i
      ensures LedgerOk(entries + [added], costs, orders[j])
    {
      assert LedgerOk(entries, costs, orders[j]);
    }
  }

  lemma NoEntryKeepsLedgers(orders: seq<Order>, entries: seq<Entry>, costs: seq<CostRecord>, i: nat, o': Order)
    requires LedgersOk(orders, entries, costs) && i < |orders|
    requires o'.id == orders[i].id && o'.costsRecorded == orders[i].costsRecorded
    requires o'.collected == orders[i].collected && o'.fee == orders[i].fee && o'.refunded == orders[i].refunded
    requires forall c :: MayBeBooked(orders[i], c) ==> MayBeBooked(o', c)
    ensures LedgersOk(orders[i := o'], entries, costs)
  {
    KnownIsKept(orders, i, o');
    assert LedgerOk(entries, costs, orders[i]);
    assert LedgerOk(entries, costs, o');
  }

  lemma CaptureKeepsLedgers(orders: seq<Order>, entries: seq<Entry>, costs: seq<CostRecord>, i: nat, e: Event)
    requires OrdersOk(orders) && LedgersOk(orders, entries, costs) && i < |orders|
    requires Judge(orders[i], e).Move? && 0 <= e.fee <= e.amount && Target(e.kind).Captured?
    ensures LedgersOk(orders[i := MovedOrder(orders[i], e)], entries + EntriesFor(orders[i].id, e), costs)
  {
    var o := orders[i];
    var o' := MovedOrder(o, e);
    var added := EntriesFor(o.id, e);
    var half := o.(payment := Captured, collected := e.amount);
    assert RowOk(o) && LedgerOk(entries, costs, o);
    EntryKeepsLedgers(orders, entries, costs, i, half, added[0]);
    IdentityKeepsUnique(orders, i, half);
    EntryKeepsLedgers(orders[i := half], entries + [added[0]], costs, i, o', added[1]);
    assert orders[i := half][i := o'] == orders[i := o'];
    assert entries + added == entries + [added[0]] + [added[1]];
  }

  lemma MoveKeepsLedgers(orders: seq<Order>, entries: seq<Entry>, costs: seq<CostRecord>, i: nat, e: Event)
    requires OrdersOk(orders) && LedgersOk(orders, entries, costs) && i < |orders|
    requires Judge(orders[i], e).Move? && 0 <= e.fee <= e.amount
    ensures LedgersOk(orders[i := MovedOrder(orders[i], e)], entries + EntriesFor(orders[i].id, e), costs)
  {
    var added := EntriesFor(orders[i].id, e);
    var o' := MovedOrder(orders[i], e);
    assert RowOk(orders[i]);
    if Target(e.kind).Captured? {
      CaptureKeepsLedgers(orders, entries, costs, i, e);
    } else if Target(e.kind).Refunded? {
      assert LedgerOk(entries, costs, orders[i]);
      EntryKeepsLedgers(orders, entries, costs, i, o', added[0]);
    } else {
      assert entries + added == entries;
      NoEntryKeepsLedgers(orders, entries, costs, i, o');
    }
  }

  /** Appending one legal history row for order `i` whose row becomes `o'`. */
  lemma RowKeepsTrails(orders: seq<Order>, history: seq<HistoryRow>, i: nat, o': Order, row: HistoryRow)
    requires UniqueOrders(orders) && TrailsOk(orders, history) && i < |orders|
    requires o'.id == orders[i].id == row.orderId && LegalRow(history, row) && TrailOk(history + [row], o')
    ensures TrailsOk(orders[i := o'], history + [row])
  {
    HistoryAppends(history, row);
    KnownIsKept(orders, i, o');
    DistinctIds(orders, i);
    assert Known(orders, row.orderId);
    forall j | 0 <= j < |orders| && j != i
      ensures TrailOk(history + [row], orders[j])
    {
      assert TrailOk(history, orders[j]);
    }
  }

  lemma MoveKeepsTrails(orders: seq<Order>, history: seq<HistoryRow>, i: nat, e: Event)
    requires OrdersOk(orders) && TrailsOk(orders, history) && i < |orders|
    requires Judge(orders[i], e).Move? && 0 <= e.fee <= e.amount && orders[i].paymentId == Some(e.paymentId)
    ensures TrailsOk(orders[i := MovedOrder(orders[i], e)], history + HistoryFor(orders[i], e))
  {
    var o := orders[i];
    var o' := MovedOrder(o, e);
    var rows := HistoryFor(o, e);
    var half := o.(payment := o'.payment);
    assert TrailOk(history, o);
    MoveKeepsRow(o, e);
    HistoryAppends(history, rows[0]);
    if |rows| == 1 {
      assert history + rows == history + [rows[0]];
      RowKeepsTrails(orders, history, i, o', rows[0]);
    } else {
      RowKeepsTrails(orders, history, i, half, rows[0]);
      assert orders[i := half][i := o'] == orders[i := o'];
      assert history + rows == history + [rows[0]] + [rows[1]];
      HistoryAppends(history + [rows[0]], rows[1]);
      IdentityKeepsUnique(orders, i, half);
      RowKeepsTrails(orders[i := half], history + [rows[0]], i, o', rows[1]);
    }
  }

  lemma MoveKeepsEvents(environment: Environment, orders: seq<Order>, events: seq<EventRow>, i: nat, k: nat, row: EventRow)
    requires OrdersOk(orders) && EventsOk(environment, orders, events)
    requires i < |orders| && k < |events| && Owns(orders[i], events[k]) && Judge(orders[i], events[k].event).Move?
    requires row.event == events[k].event && row.status.Applied?
    ensures EventsOk(environment, orders[i := MovedOrder(orders[i], row.event)], events[k := row])
  {
    var o, o' := orders[i], MovedOrder(orders[i], row.event);
    var orders', events' := orders[i := o'], events[k := row];
    DistinctIds(orders, i);
    forall r | 0 <= r < |events'|
      ensures Owned(orders', events'[r])
    {
      var a :| 0 <= a < |orders| && Owns(orders[a], events[r]);
      assert Owns(orders'[a], events'[r]);
    }
    forall a, r | 0 <= a < |orders'| && 0 <= r < |events'| && Owns(orders'[a], events'[r])
      ensures orders'[a].provider == events'[r].event.provider && Fits(orders'[a], events'[r])
    {
      assert Owns(orders[a], events[r]) && Fits(orders[a], events[r]);
      if a == i { PassedIsKept(Target(events[r].event.kind), o.payment, o'.payment); }
    }
  }

  lemma MoveKeepsSupports(orders: seq<Order>, events: seq<EventRow>, i: nat, k: nat, row: EventRow)
    requires OrdersOk(orders) && SupportsOk(orders, events)
    requires i < |orders| && k < |events| && Owns(orders[i], events[k]) && Judge(orders[i], events[k].event).Move?
    requires events[k].status.Waiting? && row.event == events[k].event && row.status.Applied?
    ensures SupportsOk(orders[i := MovedOrder(orders[i], row.event)], events[k := row])
  {
    var o, o' := orders[i], MovedOrder(orders[i], row.event);
    var events' := events[k := row];
    assert RowOk(o) && SupportOk(events, o);
    assert Backs(events'[k], o', o'.payment);
    forall t | Backed(events, o, t) && (t != Captured || o'.fee == o.fee)
      ensures Backed(events', o', t)
    {
      var j :| 0 <= j < |events| && Backs(events[j], o, t);
      assert Backs(events'[j], o', t);
    }
    assert SupportOk(events', o');
    forall j | 0 <= j < |orders| && j != i
      ensures SupportOk(events', orders[j])
    {
      assert SupportOk(events, orders[j]);
      MarkKeepsSupport(events, k, row, orders[j]);
    }
  }

  lemma MoveKeepsBase(s: Tables, k: nat, i: nat, row: EventRow)
    requires Base(s) && k < |s.events| && s.events[k].status.Waiting?
    requires i < |s.orders| && Owns(s.orders[i], s.events[k]) && Judge(s.orders[i], s.events[k].event).Move?
    requires row.event == s.events[k].event && row.status.Applied?
    ensures OrdersOk(s.orders[i := MovedOrder(s.orders[i], row.event)])
    ensures LedgersOk(s.orders[i := MovedOrder(s.orders[i], row.event)], s.entries + EntriesFor(s.orders[i].id, row.event), s.costs)
    ensures TrailsOk(s.orders[i := MovedOrder(s.orders[i], row.event)], s.history + HistoryFor(s.orders[i], row.event))
    ensures EventsOk(s.environment, s.orders[i := MovedOrder(s.orders[i], row.event)], s.events[k := row])
    ensures SupportsOk(s.orders[i := MovedOrder(s.orders[i], row.event)], s.events[k := row])
  {
    var e := row.event;
    assert ValidEvent(s.environment, e) && RowOk(s.orders[i]);
    MoveKeepsRow(s.orders[i], e);
    MoveKeepsOrders(s.orders, i, MovedOrder(s.orders[i], e));
    MoveKeepsLedgers(s.orders, s.entries, s.costs, i, e);
    MoveKeepsTrails(s.orders, s.history, i, e);
    MoveKeepsEvents(s.environment, s.orders, s.events, i, k, row);
    MoveKeepsSupports(s.orders, s.events, i, k, row);
  }

  lemma StepKeepsBase(s: Tables, k: nat)
    requires Base(s) && k < |s.events| && s.events[k].status.Waiting?
    ensures Base(StepEvent(s, k))
  {
    match VerdictAt(s, k)
    case Leave =>
    case Settle(status) => SettleKeepsBase(s, k, status);
    case Move =>
      var e := s.events[k].event;
      var i := FindOrder(s.orders, ByPayment(e.paymentId)).value;
      MoveKeepsBase(s, k, i, s.events[k].(status := Applied, appliedAt := Some(e.occurredAt)));
  }

  // ----- What reconciliation leaves alone ---------------------------------------------------

  /** Rows keep their identity; only the order and the events of payment `pid` change. */
  ghost predicate OnlyPayment(s: Tables, s': Tables, pid: string) {
    && s'.environment == s.environment && s'.quotes == s.quotes && s'.costs == s.costs
    && |s'.orders| == |s.orders| && |s'.events| == |s.events|
    && (forall i :: 0 <= i < |s.orders| ==> SameIdentity(s.orders[i], s'.orders[i]) && Follows(s.orders[i], s'.orders[i]))
    && (forall i :: 0 <= i < |s.orders| && s.orders[i].paymentId != Some(pid) ==> s'.orders[i] == s.orders[i])
    && (forall k :: 0 <= k < |s.events| ==> KeepsEvent(s.events[k], s'.events[k], pid))
  }

  /** Before fulfilment has touched the order. */
  predicate Early(o: Order) { o.status.PaymentPending? || o.status.Queued? || o.status.PaymentFailed? }

  /** Where reconciliation can take an order: final payment statuses stay, a captured fee stays. */
  predicate Follows(o: Order, o': Order) {
    && (o.payment.Failed? || o.payment.Refunded? || o.payment.Disputed? ==> o'.payment == o.payment)
    && (PastCapture(o.payment) ==> PastCapture(o'.payment) && o'.fee == o.fee)
    && (Early(o) ==> Early(o'))
  }

  predicate KeepsEvent(row: EventRow, row': EventRow, pid: string) {
    && row'.event == row.event && row'.receivedAt == row.receivedAt
    && (row.event.paymentId != pid ==> row' == row)
    && (row'.status.Waiting? ==> row == row')
  }

  lemma StepIsLocal(s: Tables, k: nat)
    requires k < |s.events| && s.events[k].status.Waiting?
    ensures OnlyPayment(s, StepEvent(s, k), s.events[k].event.paymentId)
  {
    match VerdictAt(s, k)
    case Leave =>
    case Settle(_) =>
    case Move =>
      var e := s.events[k].event;
      var i := FindOrder(s.orders, ByPayment(e.paymentId)).value;
      assert StepEvent(s, k).orders == s.orders[i := MovedOrder(s.orders[i], e)];
      assert SameIdentity(s.orders[i], MovedOrder(s.orders[i], e)) && Follows(s.orders[i], MovedOrder(s.orders[i], e));
  }

  lemma LeaveMeansStuck(s: Tables, i: nat, k: nat)
    requires OrdersOk(s.orders) && i < |s.orders| && k < |s.events| && Owns(s.orders[i], s.events[k])
    requires VerdictAt(s, k).Leave?
    ensures Stuck(s.orders[i], s.events[k].event)
  {
    KeyIsFound(s.orders, i, ByPayment(s.events[k].event.paymentId));
    assert RowOk(s.orders[i]);
  }

  lemma HeadOfTodo(s: Tables, todo: seq<nat>)
    requires Todo(s, todo) && todo != []
    ensures todo[0] < |s.events| && s.events[todo[0]].status.Waiting?
    ensures Todo(StepEvent(s, todo[0]), todo[1..])
    ensures forall q <- todo :: q == todo[0] || q in todo[1..]
    ensures forall q <- todo[1..] :: q in todo
  {
    assert todo == [todo[0]] + todo[1..] && todo[0] in todo;
    assert forall q <- todo[1..] :: q in todo;
    assert forall k :: multiset(todo)[k] == multiset{todo[0]}[k] + multiset(todo[1..])[k];
    assert todo[0] !in todo[1..];
  }

  lemma LocalChains(a: Tables, b: Tables, c: Tables, pid: string)
    requires OnlyPayment(a, b, pid) && OnlyPayment(b, c, pid)
    ensures OnlyPayment(a, c, pid)
  {
    forall i | 0 <= i < |a.orders|
      ensures SameIdentity(a.orders[i], c.orders[i]) && Follows(a.orders[i], c.orders[i])
      ensures a.orders[i].paymentId != Some(pid) ==> c.orders[i] == a.orders[i]
    {
      assert SameIdentity(a.orders[i], b.orders[i]) && SameIdentity(b.orders[i], c.orders[i]);
      assert Follows(a.orders[i], b.orders[i]) && Follows(b.orders[i], c.orders[i]);
    }
    forall k | 0 <= k < |a.events|
      ensures KeepsEvent(a.events[k], c.events[k], pid)
    {
      assert KeepsEvent(a.events[k], b.events[k], pid) && KeepsEvent(b.events[k], c.events[k], pid);
    }
  }

  /** A pass keeps the invariant; a pass that consumed nothing changed nothing and left every event. */
  lemma {:induction false} PassKeeps(s: Tables, todo: seq<nat>, pid: string)
    requires Base(s) && Todo(s, todo)
    requires forall q <- todo :: s.events[q].event.paymentId == pid
    ensures Base(Pass(s, todo).0) && OnlyPayment(s, Pass(s, todo).0, pid)
    ensures !Pass(s, todo).1 ==> Pass(s, todo).0 == s && forall q <- todo :: VerdictAt(s, q).Leave?
    decreases |todo|
  {
    hide Base, VerdictAt, StepEvent;
    if todo != [] {
      HeadOfTodo(s, todo);
      var s1 := StepEvent(s, todo[0]);
      StepKeepsBase(s, todo[0]);
      StepIsLocal(s, todo[0]);
      forall q <- todo[1..]
        ensures s1.events[q].event.paymentId == pid
      {
        assert KeepsEvent(s.events[q], s1.events[q], pid);
      }
      PassKeeps(s1, todo[1..], pid);
      LocalChains(s, s1, Pass(s1, todo[1..]).0, pid);
    }
  }

  lemma {:induction false} DrainKeeps(s: Tables, pid: string)
    requires Base(s)
    ensures Base(Drain(s, pid)) && OnlyPayment(s, Drain(s, pid), pid)
    ensures QuietFor(Drain(s, pid).orders, Drain(s, pid).events, pid)
    decreases WaitingCount(s.events)
  {
    assert OrdersOk(s.orders);
    hide Base, Pass, OnlyPayment;
    var todo := Queue(s.events, pid, |s.events|);
    var (s', progress) := Pass(s, todo);
    PassKeeps(s, todo, pid);
    PassConsumes(s, todo);
    if progress {
      DrainKeeps(s', pid);
      LocalChains(s, s', Drain(s', pid), pid);
    } else {
      forall i, k | 0 <= i < |s.orders| && 0 <= k < |s.events| && Owns(s.orders[i], s.events[k]) && WaitsFor(s.events[k], pid)
        ensures Stuck(s.orders[i], s.events[k].event)
      {
        assert k in todo;
        LeaveMeansStuck(s, i, k);
      }
    }
  }
}
