/**
 Which calls a reachable store accepts, and what an accepted call leaves in the columns: placing an order,
 attaching its checkout, taking in an event, recording costs, and fulfilling the order.
 */
module CommerceCalls {
  import opened Wrappers
  import opened CommerceStates
  import opened CommerceTables
  import opened CommerceTransactions
  import opened CommerceInvariant
  import opened CommerceSteps
  import opened CommerceRuns
  import opened CommerceResults

  // ----- Orders come from quotes -------------------------------------------------------------------

  predicate Sells(q: Quote, o: Order) {
    q.id == o.id.quoteId && q.amount == o.quoted && q.currency == o.currency && q.provider == o.provider
  }

  ghost predicate Placed(quotes: seq<Quote>, o: Order) { exists q <- quotes :: Sells(q, o) }

  predicate Prefixed(text: string, prefix: string) { |text| > |prefix| && text[..|prefix|] == prefix }

  /** Test payments occur in the sandbox only, and a checkout carries the mark of its environment. */
  predicate Named(environment: Environment, o: Order) {
    && (o.provider.Fake? ==> environment.Sandbox? && o.checkoutId == o.paymentId
                             && (o.checkoutId.Some? ==> Prefixed(o.checkoutId.value, "pay_test_")))
    && (o.provider.Stripe? && o.checkoutId.Some? ==>
          Prefixed(o.checkoutId.value, if environment.Live? then "cs_live_" else "cs_test_"))
    && (o.provider.Stripe? && o.paymentId.Some? ==> Prefixed(o.paymentId.value, "pi_"))
  }

  ghost predicate QuotesOk(environment: Environment, quotes: seq<Quote>) {
    && (forall j, k :: 0 <= j < k < |quotes| ==> quotes[j].id != quotes[k].id)
    && (environment.Live? ==> forall q <- quotes :: q.provider.Stripe?)
  }

  ghost predicate Sourced(s: Tables) {
    && QuotesOk(s.environment, s.quotes)
    && forall i :: 0 <= i < |s.orders| ==> Placed(s.quotes, s.orders[i]) && Named(s.environment, s.orders[i])
  }

  lemma QuoteKeepsSourced(s: Tables, q: Quote, maxPrice: Option<nat>, enabled: bool)
    requires Sourced(s)
    ensures Sourced(CreateQuote(s, q, maxPrice, enabled).0)
  {
    var s' := CreateQuote(s, q, maxPrice, enabled).0;
    assert s.quotes <= s'.quotes;
    forall i | 0 <= i < |s'.orders| ensures Placed(s'.quotes, s'.orders[i]) {
      assert Placed(s.quotes, s.orders[i]);
      var q0 :| q0 in s.quotes && Sells(q0, s.orders[i]);
      assert q0 in s'.quotes;
    }
  }

  lemma OrderKeepsSourced(s: Tables, quoteId: string, key: string, buyer: string, now: int, at: string)
    requires Sourced(s)
    ensures Sourced(CreateOrder(s, quoteId, key, buyer, now, at).0)
  {
    hide UpdateClashes, ViewOf, IsIdempotencyKey, IsBuyerReference;
    var s' := CreateOrder(s, quoteId, key, buyer, now, at).0;
    if s' != s {
      var q := s.quotes[FindQuote(s.quotes, quoteId).value];
      assert q in s.quotes && Sells(q, s'.orders[|s.orders|]);
    }
  }

  /** Replacing a row by one with the same quote and proper names. */
  lemma RowKeepsSourced(s: Tables, i: nat, o': Order)
    requires Sourced(s) && i < |s.orders| && Named(s.environment, o')
    requires o'.id == s.orders[i].id && o'.quoted == s.orders[i].quoted
    requires o'.currency == s.orders[i].currency && o'.provider == s.orders[i].provider
    ensures Sourced(s.(orders := s.orders[i := o']))
  {
    hide Named;
    var q :| q in s.quotes && Sells(q, s.orders[i]);
    assert Sells(q, o');
  }

  lemma CheckoutIsNamed(o: Order, environment: Environment, checkoutId: string, paymentId: Option<string>, o': Order)
    requires Named(environment, o) && CheckoutPayment(o, environment, checkoutId, paymentId).Ok?
    requires o'.provider == o.provider && o'.checkoutId == Some(checkoutId)
    requires o'.paymentId == CheckoutPayment(o, environment, checkoutId, paymentId).value
    ensures Named(environment, o')
  {
  }

  lemma AttachKeepsSourced(s: Tables, id: OrderId, checkoutId: string, paymentId: Option<string>, at: string)
    requires Sourced(s)
    ensures Sourced(AttachCheckout(s, id, checkoutId, paymentId, at).0)
  {
    hide Sourced, UpdateClashes, ViewOf, CheckoutPayment, Named;
    var s', found := AttachCheckout(s, id, checkoutId, paymentId, at).0, FindOrder(s.orders, ById(id));
    if s' != s {
      var i, o, o' := found.value, s.orders[found.value], s'.orders[found.value];
      NamesOf(s, i);
      CheckoutIsNamed(o, s.environment, checkoutId, paymentId, o');
      RowKeepsSourced(s, i, o');
      SameSourced(s.(orders := s.orders[i := o']), s');
    }
  }

  lemma NamesOf(s: Tables, i: nat)
    requires Sourced(s) && i < |s.orders|
    ensures Named(s.environment, s.orders[i])
  {
  }

  lemma SameSourced(a: Tables, b: Tables)
    requires Sourced(a) && b.environment == a.environment && b.quotes == a.quotes && b.orders == a.orders
    ensures Sourced(b)
  {
  }

  lemma BindKeepsSourced(s: Tables, id: OrderId, paymentId: string, checkoutId: string, at: string)
    requires Sourced(s)
    ensures Sourced(BindProviderPayment(s, id, paymentId, checkoutId, at).0)
  {
    hide Sourced, UpdateClashes, ViewOf;
    var s', found := BindProviderPayment(s, id, paymentId, checkoutId, at).0, FindOrder(s.orders, ById(id));
    if s' != s {
      NamesOf(s, found.value);
      RowKeepsSourced(s, found.value, s'.orders[found.value]);
    }
  }

  /** Rows keep what identifies them. */
  ghost predicate SameRows(s: Tables, s': Tables) {
    && s'.environment == s.environment && s'.quotes == s.quotes && |s'.orders| == |s.orders|
    && forall i :: 0 <= i < |s.orders| ==> IsSameOrder(s.orders[i], s'.orders[i])
  }

  predicate IsSameOrder(o: Order, o': Order) {
    && o'.id == o.id && o'.quoted == o.quoted && o'.currency == o.currency && o'.provider == o.provider
    && o'.checkoutId == o.checkoutId && o'.paymentId == o.paymentId
  }

  lemma SameRowsKeepSourced(s: Tables, s': Tables)
    requires Sourced(s) && SameRows(s, s')
    ensures Sourced(s')
  {
    forall i | 0 <= i < |s.orders| ensures Placed(s'.quotes, s'.orders[i]) && Named(s'.environment, s'.orders[i]) {
      var q :| q in s.quotes && Sells(q, s.orders[i]);
      assert IsSameOrder(s.orders[i], s'.orders[i]) && Sells(q, s'.orders[i]);
    }
  }

  lemma IngestKeepsRows(s: Tables, e: Event, receivedAt: string)
    requires Inv(s)
    ensures SameRows(s, Ingest(s, e, receivedAt).0)
  {
    hide OrdersOk, LedgersOk, TrailsOk, EventsOk, SupportsOk, AllQuiet, QuietFor, ViewOf;
    var s' := Ingest(s, e, receivedAt).0;
    if s' != s {
      var row := EventRow(e, receivedAt, Waiting, None);
      InsertKeepsBase(s, FindOrder(s.orders, ByPayment(e.paymentId)).value, row);
      DrainKeeps(s.(events := s.events + [row]), e.paymentId);
      hide Base;
      forall i | 0 <= i < |s.orders| ensures IsSameOrder(s.orders[i], s'.orders[i]) {
        assert SameIdentity(s.orders[i], s'.orders[i]);
      }
    }
  }

  lemma LateCallsKeepRows(s: Tables, op: Op)
    requires op.OpRecordCosts? || op.OpBegin? || op.OpFail? || op.OpDeliver?
    ensures SameRows(s, Perform(s, op).0)
  {
    hide ViewOf, ValidCosts, CostEntries, UpdateClashes, ValidReceipt, IsIdempotencyKey, OrderMayMove;
  }

  lemma PerformKeepsSourced(s: Tables, op: Op)
    requires Inv(s) && Sourced(s)
    ensures Sourced(Perform(s, op).0)
  {
    hide Inv, Sourced, SameRows, Ingest, AttachCheckout, BindProviderPayment, CreateOrder, CreateQuote;
    match op
    case OpCreateQuote(q, maxPrice, enabled) => QuoteKeepsSourced(s, q, maxPrice, enabled);
    case OpCreateOrder(quoteId, key, buyer, now, at) => OrderKeepsSourced(s, quoteId, key, buyer, now, at);
    case OpAttachCheckout(id, checkoutId, payment, at) => AttachKeepsSourced(s, id, checkoutId, payment, at);
    case OpBindPayment(id, paymentId, checkoutId, at) => BindKeepsSourced(s, id, paymentId, checkoutId, at);
    case OpIngest(e, receivedAt) =>
      IngestKeepsRows(s, e, receivedAt);
      SameRowsKeepSourced(s, Perform(s, op).0);
    case _ =>
      hide Perform;
      LateCallsKeepRows(s, op);
      SameRowsKeepSourced(s, Perform(s, op).0);
  }

  lemma {:induction false} RunKeepsSourced(s: Tables, ops: seq<Op>)
    requires Inv(s) && Sourced(s)
    ensures Sourced(Run(s, ops))
    decreases |ops|
  {
    hide Inv, Sourced, Perform;
    if ops != [] {
      PerformKeepsInv(s, ops[0]);
      PerformKeepsSourced(s, ops[0]);
      RunKeepsSourced(Perform(s, ops[0]).0, ops[1..]);
    }
  }

  /**
   Every order of a reachable store sells a stored quote at its price, for its provider; quote identifiers
   are unique; a live store has quotes of Stripe only; and checkouts and payments are named as their provider
   and environment name them.
   */
  lemma OrdersAreSourced(s: Tables)
    requires Reachable(s)
    ensures forall o <- s.orders :: Named(s.environment, o) && exists q <- s.quotes :: Sells(q, o)
    ensures forall j, k :: 0 <= j < k < |s.quotes| ==> s.quotes[j].id != s.quotes[k].id
    ensures s.environment.Live? ==> forall q <- s.quotes :: q.provider.Stripe?
  {
    hide Named;
    var environment: Environment, ops: seq<Op> :| s == Run(EmptyTables(environment), ops);
    RunKeepsSourced(EmptyTables(environment), ops);
    forall o <- s.orders ensures Named(s.environment, o) && Placed(s.quotes, o) {
      var i :| 0 <= i < |s.orders| && s.orders[i] == o;
    }
  }

  lemma QuoteIsFound(quotes: seq<Quote>, q: Quote)
    requires (forall j, k :: 0 <= j < k < |quotes| ==> quotes[j].id != quotes[k].id) && q in quotes
    ensures FindQuote(quotes, q.id).Some? && quotes[FindQuote(quotes, q.id).value] == q
  {
    hide FindQuote;
    var k :| 0 <= k < |quotes| && quotes[k] == q;
    var found := FindQuote(quotes, q.id);
    assert found.Some?;
    assert quotes[found.value].id == quotes[k].id;
    assert found.value == k;
  }

  predicate IsOffered(q: Quote, quoteId: string, now: int) { q.id == quoteId && now < q.expiresAt }

  /** Nothing an order is told apart by has been used. */
  predicate Unused(o: Order, quoteId: string, key: string) { o.id.key != key && o.id.quoteId != quoteId }

  /**
   An order is accepted for well-formed texts exactly when it was placed before, or when neither its key
   nor its quote has been used and the quote is still on offer.
   */
  lemma OrderIsAccepted(s: Tables, quoteId: string, key: string, buyer: string, now: int, at: string)
    requires Reachable(s)
    ensures CreateOrder(s, quoteId, key, buyer, now, at).1.Ok?
            <==> IsIdempotencyKey(key) && IsBuyerReference(buyer)
                 && ((exists o <- s.orders :: o.id == OrderId(quoteId, key, buyer))
                     || ((forall o <- s.orders :: Unused(o, quoteId, key)) && exists q <- s.quotes :: IsOffered(q, quoteId, now)))
  {
    hide Inv, Reachable, ViewOf, IsIdempotencyKey, IsBuyerReference, Named, UpdateClashes, UniqueOrders;
    ReachableInv(s);
    OrdersAreSourced(s);
    var existing, found := FindOrder(s.orders, ByIdempotency(key)), FindQuote(s.quotes, quoteId);
    if existing.Some? {
      OneOrderPerKey(s, existing.value, OrderId(quoteId, key, buyer));
      assert s.orders[existing.value] in s.orders;
    } else {
      forall o | o in s.orders ensures o.id.key != key { assert !HasKey(o, ByIdempotency(key)); }
      if found.Some? {
        NewOrderClashes(s.orders, NewOrder(s.quotes[found.value], OrderId(quoteId, key, buyer), at));
        if q :| q in s.quotes && IsOffered(q, quoteId, now) { QuoteIsFound(s.quotes, q); }
        assert s.quotes[found.value] in s.quotes;
      }
    }
  }

  lemma OneOrderPerKey(s: Tables, i: nat, id: OrderId)
    requires Inv(s) && i < |s.orders| && s.orders[i].id.key == id.key
    ensures s.orders[i].id == id <==> exists o <- s.orders :: o.id == id
    ensures !Unused(s.orders[i], id.quoteId, id.key)
  {
    if o :| o in s.orders && o.id == id {
      var j :| 0 <= j < |s.orders| && s.orders[j] == o;
      InvRow(s, i);
      hide Inv;
      KeyIsFound(s.orders, i, ByIdempotency(id.key));
      KeyIsFound(s.orders, j, ByIdempotency(id.key));
    }
  }

  lemma NewOrderClashes(orders: seq<Order>, o: Order)
    requires o.checkoutId.None? && o.paymentId.None? && o.receipt.None? && forall x <- orders :: x.id.key != o.id.key
    ensures UpdateClashes(orders, |orders|, o) <==> exists x <- orders :: x.id.quoteId == o.id.quoteId
  {
    if x :| x in orders && x.id.quoteId == o.id.quoteId {
      var j :| 0 <= j < |orders| && orders[j] == x;
      assert j != |orders| && Clash(orders[j], o);
    }
  }

  /** Why an order is refused: its format, its key, its quote missing, expired or used, in that order. */
  lemma OrderRejections(s: Tables, quoteId: string, key: string, buyer: string, now: int, at: string)
    requires Reachable(s)
    ensures var r := CreateOrder(s, quoteId, key, buyer, now, at).1;
            var proper := IsIdempotencyKey(key) && IsBuyerReference(buyer);
            var unused := proper && forall o <- s.orders :: o.id.key != key;
            && (r == Err(InvalidCommerceRequest) <==> !proper)
            && (r == Err(IdempotencyConflict) <==> proper && exists o <- s.orders :: o.id.key == key && o.id != OrderId(quoteId, key, buyer))
            && (r == Err(QuoteNotOrderable) <==> unused && forall q <- s.quotes :: q.id != quoteId)
            && (r == Err(QuoteExpired) <==> unused && exists q <- s.quotes :: q.id == quoteId && q.expiresAt <= now)
            && (r == Err(QuoteAlreadyUsed)
                <==> unused && (exists q <- s.quotes :: IsOffered(q, quoteId, now)) && exists o <- s.orders :: o.id.quoteId == quoteId)
  {
    hide Inv, Reachable, ViewOf, IsIdempotencyKey, IsBuyerReference, Named, UpdateClashes, UniqueOrders;
    ReachableInv(s);
    OrdersAreSourced(s);
    var existing, found := FindOrder(s.orders, ByIdempotency(key)), FindQuote(s.quotes, quoteId);
    if existing.Some? {
      assert s.orders[existing.value] in s.orders;
      OneKey(s, existing.value, key);
    } else {
      forall o | o in s.orders ensures o.id.key != key { assert !HasKey(o, ByIdempotency(key)); }
      if found.Some? {
        assert s.quotes[found.value] in s.quotes;
        NewOrderClashes(s.orders, NewOrder(s.quotes[found.value], OrderId(quoteId, key, buyer), at));
        forall q | q in s.quotes && q.id == quoteId ensures q == s.quotes[found.value] { QuoteIsFound(s.quotes, q); }
      }
    }
  }

  lemma OneKey(s: Tables, i: nat, key: string)
    requires Inv(s) && i < |s.orders| && s.orders[i].id.key == key
    ensures forall o <- s.orders :: o.id.key == key ==> o == s.orders[i]
  {
    InvRow(s, i);
    hide Inv;
    forall o | o in s.orders && o.id.key == key ensures o == s.orders[i] {
      var j :| 0 <= j < |s.orders| && s.orders[j] == o;
      KeyIsFound(s.orders, i, ByIdempotency(key));
      KeyIsFound(s.orders, j, ByIdempotency(key));
    }
  }

  /** A new order begins with the terms of its quote, unpaid and without checkout; nothing else changes. */
  lemma OrderBegins(s: Tables, quoteId: string, key: string, buyer: string, now: int, at: string)
    requires CreateOrder(s, quoteId, key, buyer, now, at).0 != s
    ensures var s' := CreateOrder(s, quoteId, key, buyer, now, at).0;
            && |s'.orders| == |s.orders| + 1 && s'.orders[..|s.orders|] == s.orders
            && s' == s.(orders := s'.orders,
                        history := s.history + [HistoryRow(OrderId(quoteId, key, buyer), OrderChange(None, CheckoutPending), key, at)])
            && var o := s'.orders[|s.orders|];
               && o.id == OrderId(quoteId, key, buyer) && o.status.CheckoutPending? && o.payment.Pending?
               && o.collected == o.fee == o.refunded == 0 && !o.costsRecorded
               && o.checkoutId.None? && o.paymentId.None? && o.receipt.None? && o.delivery.NotStarted?
               && exists q <- s.quotes :: Sells(q, o) && now < q.expiresAt
  {
    hide ViewOf, IsIdempotencyKey, IsBuyerReference, UpdateClashes;
    var q := s.quotes[FindQuote(s.quotes, quoteId).value];
    assert q in s.quotes && Sells(q, NewOrder(q, OrderId(quoteId, key, buyer), at));
  }

  /**
   A quote is stored only if its price was accepted, and in a live store only for Stripe with live
   checkout enabled; a stored quote never changes.
   */
  lemma QuoteIsKept(s: Tables, q: Quote, maxPrice: Option<nat>, enabled: bool)
    ensures var (s', r) := CreateQuote(s, q, maxPrice, enabled);
            && s.quotes <= s'.quotes && s' == s.(quotes := s'.quotes)
            && (s' != s ==> r == Ok(Quoted(q)) && s'.quotes == s.quotes + [q] && forall x <- s.quotes :: x.id != q.id)
            && (r == Ok(Quoted(q)) ==>
                  q in s'.quotes && maxPrice.Some? && q.amount <= maxPrice.value
                  && (s.environment.Live? ==> q.provider.Stripe? && enabled))
            && (r == Ok(Declined) ==> maxPrice.Some? && maxPrice.value < q.amount)
  {
  }

  /** In a reachable store a quote is accepted exactly if its gates and its price allow it and its identifier has not been given another. */
  lemma QuoteIsAccepted(s: Tables, q: Quote, maxPrice: Option<nat>, enabled: bool)
    requires Reachable(s)
    ensures CreateQuote(s, q, maxPrice, enabled).1 == Ok(Quoted(q))
            <==> (s.environment.Live? ==> q.provider.Stripe? && enabled)
                 && maxPrice.Some? && q.amount <= maxPrice.value
                 && forall x <- s.quotes :: x.id == q.id ==> x == q
  {
    hide Reachable, Named, Sells;
    OrdersAreSourced(s);
    var found := FindQuote(s.quotes, q.id);
    if found.Some? { assert s.quotes[found.value] in s.quotes; }
    if q in s.quotes { QuoteIsFound(s.quotes, q); }
    forall x | x in s.quotes && x.id == q.id ensures found.Some? && s.quotes[found.value] == x { QuoteIsFound(s.quotes, x); }
  }

  /** Lower-case hexadecimal text of n characters. */
  predicate IsHexOf(text: string, n: nat) {
    |text| == n && forall c <- text :: '0' <= c <= '9' || 'a' <= c <= 'f'
  }

  predicate IsLetterOrDigit(c: char) { '0' <= c <= '9' || 'a' <= c <= 'z' || 'A' <= c <= 'Z' }

  lemma AlphanumericMeans(s: string)
    ensures IsAlphanumeric(s) <==> forall c <- s :: IsLetterOrDigit(c)
  {
  }

  lemma OneAlphanumeric(c: char)
    ensures IsAlphanumeric([c]) <==> IsLetterOrDigit(c)
  {
    assert c in [c];
  }

  /** The formats of keys, buyers, payments and events. */
  lemma FormatsMean(s: string)
    ensures IsIdempotencyKey(s) <==> 8 <= |s| <= 96 && forall c <- s :: IsLetterOrDigit(c) || c == '_' || c == '-'
    ensures IsBuyerReference(s)
            <==> 8 <= |s| <= 128 && forall c <- s :: IsLetterOrDigit(c) || c in {'_', '.', ':', '@', '+', '-'}
    ensures IsFakePaymentId(s) <==> Prefixed(s, "pay_test_") && IsHexOf(s[9..], 24)
    ensures IsStripePaymentId(s) <==> Prefixed(s, "pi_") && 8 <= |s[3..]| <= 64 && forall c <- s[3..] :: IsLetterOrDigit(c)
    ensures IsEventId(s) <==> (Prefixed(s, "evt_") && IsHexOf(s[4..], 24)) || (Prefixed(s, "evt_test_") && IsHexOf(s[9..], 24))
  {
    hide IsAlphanumeric;
    forall c | c in s ensures IsAlphanumeric([c]) <==> IsLetterOrDigit(c) { OneAlphanumeric(c); }
    if |s| >= 3 { AlphanumericMeans(s[3..]); }
    hide IsLetterOrDigit;
  }

  /** A Stripe checkout carries its environment and at least eight letters and digits. */
  lemma CheckoutFormat(s: string, environment: Environment)
    ensures IsStripeCheckoutId(s, environment)
            <==> Prefixed(s, if environment.Live? then "cs_live_" else "cs_test_")
                 && 8 <= |s[8..]| <= 128 && forall c <- s[8..] :: IsLetterOrDigit(c)
  {
    if |s| >= 8 { AlphanumericMeans(s[8..]); }
  }

  /** The formats in which a stored order is identified, and its receipt if it has one. */
  lemma StoredFormats(s: Tables, i: nat)
    requires Reachable(s) && i < |s.orders| && s.orders[i].receipt.Some?
    ensures var r := s.orders[i].receipt.value;
            && Prefixed(r.id, "cpr_") && IsHexOf(r.id[4..], 24)
            && IsHexOf(r.sha256, 64) && IsHexOf(r.envelopeSha256, 64)
            && |r.signingKeyId| == 43
            && forall c <- r.signingKeyId :: '0' <= c <= '9' || 'a' <= c <= 'z' || 'A' <= c <= 'Z' || c == '_' || c == '-'
  {
    hide Inv, Reachable, UniqueOrders, ValidReceipt, IsHexOf, Prefixed;
    ReachableInv(s);
    InvRow(s, i);
    ReceiptFormat(s.orders[i].receipt.value);
  }

  lemma ReceiptFormat(r: Receipt)
    requires ValidReceipt(r)
    ensures Prefixed(r.id, "cpr_") && IsHexOf(r.id[4..], 24) && IsHexOf(r.sha256, 64) && IsHexOf(r.envelopeSha256, 64)
    ensures |r.signingKeyId| == 43
    ensures forall c <- r.signingKeyId :: '0' <= c <= '9' || 'a' <= c <= 'z' || 'A' <= c <= 'Z' || c == '_' || c == '-'
  {
    var key := r.signingKeyId;
    forall c <- key ensures '0' <= c <= '9' || 'a' <= c <= 'z' || 'A' <= c <= 'Z' || c == '_' || c == '-' {
      assert IsAlphanumeric([c]) || c in "_-";
      if IsAlphanumeric([c]) { assert c in [c]; }
    }
  }

  // ----- Checkouts ------------------------------------------------------------------------------------

  /** An attached checkout stays: attaching it again is accepted and changes nothing, attaching another is refused. */
  lemma CheckoutIsFinal(s: Tables, id: OrderId, checkoutId: string, paymentId: Option<string>, at: string, other: string, later: string)
    requires Reachable(s) && AttachCheckout(s, id, checkoutId, paymentId, at).1.Ok?
    ensures var s' := AttachCheckout(s, id, checkoutId, paymentId, at).0;
            && AttachCheckout(s', id, checkoutId, paymentId, later).0 == s'
            && AttachCheckout(s', id, checkoutId, paymentId, later).1.Ok?
            && (other != checkoutId ==> AttachCheckout(s', id, other, paymentId, later).0 == s'
                                        && AttachCheckout(s', id, other, paymentId, later).1.Err?)
            && (exists o <- s'.orders :: o.id == id && o.checkoutId == Some(checkoutId) && (paymentId.Some? ==> o.paymentId == paymentId)
                                         && !o.status.CheckoutPending?)
            && (s' != s ==> s'.history == s.history + [HistoryRow(id, OrderChange(Some(CheckoutPending), PaymentPending), checkoutId, at)])
  {
    hide Inv, Reachable, ViewOf, UpdateClashes, IsFakePaymentId, IsStripeCheckoutId, IsStripePaymentId, UniqueOrders;
    ReachableInv(s);
    var i := FindOrder(s.orders, ById(id)).value;
    InvRow(s, i);
    var s' := AttachCheckout(s, id, checkoutId, paymentId, at).0;
    AttachKeepsInv(s, id, checkoutId, paymentId, at);
    InvRow(s', i);
    KeyIsFound(s'.orders, i, ById(id));
    assert s'.orders[i] in s'.orders;
  }

  predicate SharesCheckout(o: Order, checkoutId: string, payment: Option<string>) {
    o.checkoutId == Some(checkoutId) || (payment.Some? && o.paymentId == payment)
  }

  /** A Stripe order without checkout takes any well-formed one that no other order has, with its payment if that is known. */
  lemma StripeCheckoutIsAccepted(s: Tables, i: nat, checkoutId: string, paymentId: Option<string>, at: string)
    requires Reachable(s) && i < |s.orders| && s.orders[i].provider.Stripe? && s.orders[i].checkoutId.None?
    ensures AttachCheckout(s, s.orders[i].id, checkoutId, paymentId, at).1.Ok?
            <==> IsStripeCheckoutId(checkoutId, s.environment) && (paymentId.Some? ==> IsStripePaymentId(paymentId.value))
                 && forall j :: 0 <= j < |s.orders| && j != i ==> !SharesCheckout(s.orders[j], checkoutId, paymentId)
  {
    hide Inv, Reachable, ViewOf, IsStripeCheckoutId, IsStripePaymentId, UpdateClashes, UniqueOrders;
    ReachableInv(s);
    InvRow(s, i);
    var o := s.orders[i];
    KeyIsFound(s.orders, i, ById(o.id));
    CheckoutClashes(s.orders, i, o.(checkoutId := Some(checkoutId), paymentId := paymentId, status := PaymentPending, updatedAt := at));
  }

  lemma CheckoutClashes(orders: seq<Order>, i: nat, o': Order)
    requires UniqueOrders(orders) && i < |orders| && o'.id == orders[i].id && o'.receipt == orders[i].receipt && o'.checkoutId.Some?
    ensures UpdateClashes(orders, i, o')
            <==> exists j :: 0 <= j < |orders| && j != i && SharesCheckout(orders[j], o'.checkoutId.value, o'.paymentId)
  {
    forall j | 0 <= j < |orders| && j != i
      ensures Clash(orders[j], o') <==> SharesCheckout(orders[j], o'.checkoutId.value, o'.paymentId)
    {
      if j < i { assert !Clash(orders[j], orders[i]); } else { assert !Clash(orders[i], orders[j]); }
    }
  }

  /** A payment is bound once: to a Stripe order with that checkout, if no other order has it, and for good. */
  lemma PaymentIsBoundOnce(s: Tables, i: nat, paymentId: string, checkoutId: string, at: string)
    requires Reachable(s) && i < |s.orders|
    ensures var (s', r) := BindProviderPayment(s, s.orders[i].id, paymentId, checkoutId, at);
            && (r.Ok? <==> IsStripePaymentId(paymentId) && s.orders[i].provider.Stripe? && s.orders[i].checkoutId == Some(checkoutId)
                           && s.orders[i].paymentId in {None, Some(paymentId)}
                           && forall j :: 0 <= j < |s.orders| && j != i ==> s.orders[j].paymentId != Some(paymentId))
            && (r.Ok? ==> |s'.orders| == |s.orders| && s'.orders[i].paymentId == Some(paymentId)
                          && forall j :: 0 <= j < |s.orders| && j != i ==> s'.orders[j] == s.orders[j])
            && (r.Err? ==> s' == s)
  {
    hide Inv, Reachable, ViewOf, IsStripePaymentId, UpdateClashes, UniqueOrders;
    ReachableInv(s);
    InvRow(s, i);
    var o := s.orders[i];
    KeyIsFound(s.orders, i, ById(o.id));
    DistinctIds(s.orders, i);
    PaymentClashes(s.orders, i, o.(paymentId := Some(paymentId), updatedAt := at));
  }

  lemma PaymentClashes(orders: seq<Order>, i: nat, o': Order)
    requires UniqueOrders(orders) && i < |orders| && o'.id == orders[i].id && o'.receipt == orders[i].receipt
    requires o'.checkoutId == orders[i].checkoutId && o'.paymentId.Some?
    ensures UpdateClashes(orders, i, o') <==> exists j :: 0 <= j < |orders| && j != i && orders[j].paymentId == o'.paymentId
  {
    forall j | 0 <= j < |orders| && j != i
      ensures Clash(orders[j], o') <==> orders[j].paymentId == o'.paymentId
    {
      if j < i { assert !Clash(orders[j], orders[i]); } else { assert !Clash(orders[i], orders[j]); }
    }
  }

  // ----- Events ----------------------------------------------------------------------------------------

  predicate IsKnown(row: EventRow, e: Event) { row.event.id == e.id }

  /**
   A well-formed event is accepted exactly when it is for the payment of an order of its provider and its
   identifier is not on file for another event; the reply tells whether it was on file, and its stored status.
   */
  lemma EventIsAccepted(s: Tables, e: Event, receivedAt: string)
    requires Reachable(s) && ValidEvent(s.environment, e)
    ensures var (s', r) := Ingest(s, e, receivedAt);
            && (r.Ok? <==> (exists o <- s.orders :: o.paymentId == Some(e.paymentId) && o.provider == e.provider)
                           && forall row <- s.events :: IsKnown(row, e) ==> row.event == e)
            && (r.Ok? ==> r.value.Ingested? && r.value.eventId == e.id
                          && (r.value.duplicate <==> exists row <- s.events :: IsKnown(row, e))
                          && (r.value.duplicate ==> s' == s)
                          && exists row <- s'.events :: row.event == e && row.status == r.value.eventStatus
                                                        && (!r.value.duplicate ==> row.receivedAt == receivedAt))
            && (r.Err? ==> s' == s)
  {
    hide Inv, Reachable, ViewOf, ValidEvent, Drain, UniqueOrders;
    ReachableInv(s);
    var known, found := FindEvent(s.events, e.id), FindOrder(s.orders, ByPayment(e.paymentId));
    if o :| o in s.orders && o.paymentId == Some(e.paymentId) && o.provider == e.provider {
      var i :| 0 <= i < |s.orders| && s.orders[i] == o;
      InvRow(s, i);
      KeyIsFound(s.orders, i, ByPayment(e.paymentId));
    }
    if found.Some? { assert s.orders[found.value] in s.orders; }
    if known.Some? {
      assert s.events[known.value] in s.events && IsKnown(s.events[known.value], e);
      KnownEvent(s, known.value, e);
    } else {
      assert forall row <- s.events :: !IsKnown(row, e);
      if found.Some? && s.orders[found.value].provider == e.provider { FreshEvent(s, found.value, e, receivedAt); }
    }
  }

  /** Why an event is refused: what it says, its identifier, its payment, or its provider. */
  lemma EventRejections(s: Tables, e: Event, receivedAt: string)
    requires Reachable(s)
    ensures var r := Ingest(s, e, receivedAt).1;
            var known := exists row <- s.events :: IsKnown(row, e);
            var paid := exists o <- s.orders :: o.paymentId == Some(e.paymentId);
            && (r == Err(ProviderEventConflict)
                <==> ValidEvent(s.environment, e) && exists row <- s.events :: IsKnown(row, e) && row.event != e)
            && (r == Err(UnknownProviderPayment) <==> ValidEvent(s.environment, e) && !known && !paid)
            && (r == Err(InvalidCommerceEvent)
                <==> !ValidEvent(s.environment, e)
                     || (!known && exists o <- s.orders :: o.paymentId == Some(e.paymentId) && o.provider != e.provider))
            && r != Err(UnknownOrder)
  {
    hide Inv, Reachable, ViewOf, ValidEvent, Drain, UniqueOrders;
    ReachableInv(s);
    var known, found := FindEvent(s.events, e.id), FindOrder(s.orders, ByPayment(e.paymentId));
    if found.Some? {
      assert s.orders[found.value] in s.orders;
      OnePayment(s, found.value, e.paymentId);
    } else {
      forall o | o in s.orders ensures o.paymentId != Some(e.paymentId) { assert !HasKey(o, ByPayment(e.paymentId)); }
    }
    if known.Some? {
      assert s.events[known.value] in s.events && IsKnown(s.events[known.value], e);
      KnownEvent(s, known.value, e);
      OneEvent(s, known.value);
    } else {
      assert forall row <- s.events :: !IsKnown(row, e);
    }
  }

  lemma OnePayment(s: Tables, i: nat, pid: string)
    requires Inv(s) && i < |s.orders| && s.orders[i].paymentId == Some(pid)
    ensures forall o <- s.orders :: o.paymentId == Some(pid) ==> o == s.orders[i]
  {
    InvRow(s, i);
    hide Inv;
    forall o | o in s.orders && o.paymentId == Some(pid) ensures o == s.orders[i] {
      var j :| 0 <= j < |s.orders| && s.orders[j] == o;
      KeyIsFound(s.orders, i, ByPayment(pid));
      KeyIsFound(s.orders, j, ByPayment(pid));
    }
  }

  lemma OneEvent(s: Tables, k: nat)
    requires Inv(s) && k < |s.events|
    ensures forall row <- s.events :: row.event.id == s.events[k].event.id ==> row == s.events[k]
  {
    hide OrdersOk, LedgersOk, TrailsOk, SupportsOk, AllQuiet, ValidEvent, Fits;
    forall row | row in s.events && row.event.id == s.events[k].event.id ensures row == s.events[k] {
      var j :| 0 <= j < |s.events| && s.events[j] == row;
      assert j == k;
    }
  }

  lemma KnownEvent(s: Tables, k: nat, e: Event)
    requires Inv(s) && k < |s.events| && s.events[k].event.id == e.id
    ensures s.events[k].event == e ==> forall row <- s.events :: IsKnown(row, e) ==> row.event == e
    ensures s.events[k].event == e ==> exists o <- s.orders :: o.paymentId == Some(e.paymentId) && o.provider == e.provider
  {
    hide OrdersOk, LedgersOk, TrailsOk, SupportsOk, AllQuiet, ValidEvent, Fits;
    forall row | row in s.events && IsKnown(row, e) ensures row == s.events[k] {
      var j :| 0 <= j < |s.events| && s.events[j] == row;
      assert j == k;
    }
    assert Owned(s.orders, s.events[k]);
    var i :| 0 <= i < |s.orders| && Owns(s.orders[i], s.events[k]);
    assert s.orders[i] in s.orders;
  }

  lemma FreshEvent(s: Tables, i: nat, e: Event, receivedAt: string)
    requires Inv(s) && i < |s.orders| && ValidEvent(s.environment, e) && s.orders[i].provider == e.provider
    requires s.orders[i].paymentId == Some(e.paymentId) && forall r <- s.events :: r.event.id != e.id
    ensures var s' := Drain(s.(events := s.events + [EventRow(e, receivedAt, Waiting, None)]), e.paymentId);
            |s'.events| == |s.events| + 1 && s'.events[|s.events|].event == e && s'.events[|s.events|].receivedAt == receivedAt
  {
    hide OrdersOk, LedgersOk, TrailsOk, EventsOk, SupportsOk, AllQuiet, QuietFor, ValidEvent;
    var row := EventRow(e, receivedAt, Waiting, None);
    InsertKeepsBase(s, i, row);
    DrainKeeps(s.(events := s.events + [row]), e.paymentId);
    hide Base;
    var s' := Drain(s.(events := s.events + [row]), e.paymentId);
    assert KeepsEvent(row, s'.events[|s.events|], e.paymentId);
  }

  /** Every event on file is of the store's environment and currency and within the amounts, and belongs to an order of its provider. */
  lemma StoredEventsAreValid(s: Tables, k: nat)
    requires Reachable(s) && k < |s.events|
    ensures var e := s.events[k].event;
            && e.environment == s.environment && e.currency == "usd" && 0 <= e.fee <= e.amount <= 10_000_000
            && Prefixed(e.id, "evt_") && (e.provider.Fake? ==> s.environment.Sandbox? && Prefixed(e.id, "evt_test_"))
            && Prefixed(e.paymentId, if e.provider.Fake? then "pay_test_" else "pi_")
            && exists o <- s.orders :: o.paymentId == Some(e.paymentId) && o.provider == e.provider
  {
    hide Reachable, Inv;
    ReachableInv(s);
    KnownEvent(s, k, s.events[k].event);
    EventOnFile(s, k);
    assert s.events[k].event.id[..4] == s.events[k].event.id[..9][..4] by { assert |s.events[k].event.id| >= 9; }
  }

  lemma EventOnFile(s: Tables, k: nat)
    requires Inv(s) && k < |s.events|
    ensures ValidEvent(s.environment, s.events[k].event)
  {
    hide OrdersOk, LedgersOk, TrailsOk, SupportsOk, AllQuiet, ValidEvent;
  }
}
