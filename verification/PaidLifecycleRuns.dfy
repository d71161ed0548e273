/**
 Runs of the commerce store and the lifecycle store together: what the publication log
 always satisfies, that withdrawals are irrevocable, and that drafts can be published.
 */
module PaidLifecycleRuns {
  import opened Wrappers
  import T = CommerceTables
  import X = CommerceTransactions
  import I = CommerceInvariant
  import S = CommerceSteps
  import R = CommerceRuns
  import opened Lifecycle
  import opened PaidLifecycle

  // ----- Runs ----------------------------------------------------------------------------------

  datatype World = World(tables: T.Tables, life: Life)

  datatype Step = Trade(op: X.Op) | Publishing(envelope: Envelope, root: Jwk, observed: int)

  function OrdersOf(w: World): seq<Delivered> { DeliveredOrders(w.tables.orders) }

  ghost function Take(w: World, step: Step): World {
    match step
    case Trade(op) => w.(tables := X.Perform(w.tables, op).0)
    case Publishing(e, root, observed) => w.(life := Publish(w.life, OrdersOf(w), e, root, observed).0)
  }

  ghost function RunWorld(w: World, steps: seq<Step>): World
    decreases |steps|
  {
    if steps == [] then w else RunWorld(Take(w, steps[0]), steps[1..])
  }

  ghost predicate ReachableWorld(w: World) {
    exists environment: T.Environment, steps: seq<Step> ::
      w == RunWorld(World(T.EmptyTables(environment), Life(None, [], map[])), steps)
  }

  // ----- The delivered orders of a commerce store ---------------------------------------------------

  ghost predicate DeliveredOk(orders: seq<Delivered>) {
    && (forall d <- orders :: IsReceiptName(d.receipt.id))
    && (forall a, b :: a in orders && b in orders && (a.receipt.id == b.receipt.id || a.orderId == b.orderId) ==> a == b)
  }

  lemma UniqueOrdersDeliverOnce(orders: seq<T.Order>, a: Delivered, b: Delivered)
    requires I.UniqueOrders(orders) && a in DeliveredOrders(orders) && b in DeliveredOrders(orders)
    requires a.receipt.id == b.receipt.id || a.orderId == b.orderId
    ensures a == b
  {
    var oa :| oa in orders && oa.receipt == Some(a.receipt) && oa.id == a.orderId;
    var ob :| ob in orders && ob.receipt == Some(b.receipt) && ob.id == b.orderId;
    var i :| 0 <= i < |orders| && orders[i] == oa;
    var j :| 0 <= j < |orders| && orders[j] == ob;
    assert (i < j ==> !T.Clash(orders[i], orders[j])) && (j < i ==> !T.Clash(orders[j], orders[i]));
  }

  lemma ReceiptIsNamed(o: T.Order)
    requires I.RowOk(o) && o.receipt.Some?
    ensures IsReceiptName(o.receipt.value.id)
  {
  }

  lemma StoreDelivers(s: T.Tables)
    requires I.Inv(s)
    ensures DeliveredOk(DeliveredOrders(s.orders))
  {
    hide I.Inv, I.UniqueOrders, I.RowOk, IsReceiptName;
    var orders := DeliveredOrders(s.orders);
    forall d <- orders
      ensures IsReceiptName(d.receipt.id)
    {
      var o :| o in s.orders && o.receipt == Some(d.receipt);
      var k :| 0 <= k < |s.orders| && s.orders[k] == o;
      R.InvRow(s, k);
      ReceiptIsNamed(s.orders[k]);
    }
    forall a, b | a in orders && b in orders && (a.receipt.id == b.receipt.id || a.orderId == b.orderId)
      ensures a == b
    {
      assert s.orders != [];
      R.InvRow(s, 0);
      UniqueOrdersDeliverOnce(s.orders, a, b);
    }
  }

  /** A delivered order keeps its receipt through every transaction. */
  ghost predicate KeepsReceipts(orders: seq<T.Order>, orders': seq<T.Order>) {
    && |orders| <= |orders'|
    && forall i :: 0 <= i < |orders| && orders[i].receipt.Some? ==>
         orders'[i].receipt == orders[i].receipt && orders'[i].id == orders[i].id
  }

  lemma PerformKeepsReceipts(s: T.Tables, op: X.Op)
    requires I.Inv(s)
    ensures KeepsReceipts(s.orders, X.Perform(s, op).0.orders)
  {
    hide I.Inv, X.Ingest, X.Deliver, X.ViewOf, X.ValidCosts, X.CostEntries, T.UpdateClashes, X.IsBuyerReference,
         X.IsStripePaymentId, X.CheckoutPayment, X.IsIdempotencyKey;
    match op
    case OpCreateQuote(q, maxPrice, enabled) =>
    case OpCreateOrder(quoteId, key, buyer, now, at) =>
    case OpAttachCheckout(id, checkoutId, payment, at) =>
    case OpBindPayment(id, paymentId, checkoutId, at) =>
    case OpIngest(e, at) => IngestKeepsReceipts(s, e, at);
    case OpRecordCosts(id, costs, key, at) =>
    case OpBegin(id, source, at) =>
    case OpFail(id, source, at) =>
    case OpDeliver(id, receipt, source, at) => DeliverKeepsReceipts(s, id, receipt, source, at);
  }

  lemma DeliverKeepsReceipts(s: T.Tables, id: T.OrderId, receipt: T.Receipt, source: string, at: string)
    requires I.Inv(s)
    ensures KeepsReceipts(s.orders, X.Deliver(s, id, receipt, source, at).0.orders)
  {
    hide I.Inv, X.ViewOf, X.ValidReceipt;
    var found := T.FindOrder(s.orders, T.ById(id));
    if found.Some? { R.InvRow(s, found.value); }
  }

  lemma IngestKeepsReceipts(s: T.Tables, e: T.Event, at: string)
    requires I.Inv(s)
    ensures KeepsReceipts(s.orders, X.Ingest(s, e, at).0.orders)
  {
    hide I.OrdersOk, I.LedgersOk, I.TrailsOk, I.EventsOk, I.SupportsOk, I.AllQuiet, I.QuietFor, X.ViewOf;
    if X.Ingest(s, e, at).0 != s {
      var row := T.EventRow(e, at, T.Waiting, None);
      R.InsertKeepsBase(s, T.FindOrder(s.orders, T.ByPayment(e.paymentId)).value, row);
      S.DrainKeeps(s.(events := s.events + [row]), e.paymentId);
      hide I.Base;
      assert forall i :: 0 <= i < |s.orders| ==> S.SameIdentity(s.orders[i], X.Ingest(s, e, at).0.orders[i]);
    }
  }

  lemma DeliveredGrow(s: T.Tables, s': T.Tables)
    requires I.Inv(s') && KeepsReceipts(s.orders, s'.orders)
    ensures forall d <- DeliveredOrders(s.orders) :: d in DeliveredOrders(s'.orders)
  {
    hide I.Inv, I.UniqueOrders;
    forall d <- DeliveredOrders(s.orders)
      ensures d in DeliveredOrders(s'.orders)
    {
      var o :| o in s.orders && o.receipt == Some(d.receipt) && o.id == d.orderId;
      var i :| 0 <= i < |s.orders| && s.orders[i] == o;
      R.InvRow(s', i);
      assert s'.orders[i] in s'.orders;
    }
  }

  // ----- The publication log ---------------------------------------------------------------------------

  /** A record as the status table remembers it: null and absent members coincide. */
  function Normal(r: Record): Record {
    r.(supersededBy := Loaded(Stored(r.supersededBy)), reason := Loaded(Stored(r.reason)))
  }

  /** How a feed may follow another. */
  ghost predicate FeedFollows(prior: Feed, next: Feed) {
    && (forall r <- prior.receipts :: exists r' <- next.receipts ::
          r'.receiptId == r.receiptId && (!r.status.Current? ==> Normal(r') == Normal(r)))
    && (forall r' <- next.receipts :: !r'.status.Current? ==> r'.receiptId in RecordIds(prior.receipts))
    && (forall k <- prior.issuers :: exists k' <- next.issuers ::
          k'.keyId == k.keyId && IssuerMayBecome(k.status, k'.status))
  }

  /** Signed by the root under its own key identifier, within the sizes of a publication. */
  predicate SignedBy(e: Envelope, root: Jwk) {
    && e.signer == root && e.keyId == root.x
    && 1 <= e.size <= 1_100_000 && 1 <= |e.payload.text| <= 1_000_000
  }

  /** Valid for at most seven days, and published inside that period, give or take five minutes and the cut to whole seconds. */
  predicate InTime(feed: Feed, publishedAt: int) {
    && feed.generatedAt < feed.expiresAt <= feed.generatedAt + 7 * 24 * 3600 * MICROS
    && feed.generatedAt < publishedAt + (5 * 60 + 1) * MICROS && publishedAt < feed.expiresAt
  }

  /** A current record has nothing more to say, a superseded one names another receipt of the feed, a revoked one its reason. */
  predicate RecordSound(r: Record, listed: set<string>) {
    match r.status
    case Current => r.supersededBy.Absent? && r.reason.Absent?
    case Superseded => r.supersededBy.Has? && r.supersededBy.text in listed && r.supersededBy.text != r.receiptId
    case RevokedEvaluatorDefect => r.supersededBy.Absent? && r.reason.Has?
    case RevokedKeyCompromise => r.supersededBy.Absent? && r.reason.Has?
  }

  ghost predicate RecordsSound(feed: Feed) {
    forall r <- feed.receipts :: RecordSound(r, RecordIds(feed.receipts))
  }

  ghost predicate PublicationOk(p: Publication) {
    && p.payload == p.envelope.payload && VerifyLifecycleEnvelope(p.envelope, p.root) == Ok(p.payload)
    && FeedOk(p.payload.feed)
    && SignedBy(p.envelope, p.root) && InTime(p.payload.feed, p.publishedAt) && RecordsSound(p.payload.feed)
  }

  ghost predicate LogOk(publications: seq<Publication>) {
    && (forall i :: 0 <= i < |publications| ==>
          PublicationOk(publications[i]) && publications[i].payload.feed.sequence == i + 1
          && publications[i].root == publications[0].root)
    && (publications != [] ==> forall r <- publications[0].payload.feed.receipts :: r.status.Current?)
    && (forall i :: 0 < i < |publications| ==>
          FeedFollows(publications[i - 1].payload.feed, publications[i].payload.feed))
  }

  // ----- The status table ---------------------------------------------------------------------------------

  /** A row that would pass the transition checks again, unchanged. */
  predicate RowSound(id: string, row: StatusRow, delivered: set<string>) {
    match row.status
    case Current => row.supersededBy.None? && row.reason.None?
    case Superseded => row.supersededBy.Some? && row.supersededBy.value in delivered && row.supersededBy.value != id
    case _ => row.reason.Some?
  }

  ghost predicate RowMatches(row: StatusRow, r: Record, sequence: int) {
    RecordFromRow(r.receiptId, row) == Normal(r) && row.sequence == sequence
  }

  ghost predicate StatusOk(life: Life) {
    if life.publications == [] then life.status == map[]
    else
      var feed := LatestFeed(life).value;
      && life.status.Keys == RecordIds(feed.receipts)
      && forall r <- feed.receipts :: r.receiptId in life.status && RowMatches(life.status[r.receiptId], r, feed.sequence)
  }

  ghost predicate RowsOk(life: Life, orders: seq<Delivered>) {
    forall id <- life.status.Keys ::
      RowSound(id, life.status[id], ReceiptIds(orders)) && BelongsTo(life.status[id], id, orders)
  }

  ghost predicate LifeInv(life: Life, orders: seq<Delivered>) {
    && LogOk(life.publications)
    && (life.root == if life.publications == [] then None else Some(life.publications[0].root))
    && StatusOk(life) && RowsOk(life, orders)
  }

  lemma MoreOrdersKeepRows(life: Life, orders: seq<Delivered>, orders': seq<Delivered>)
    requires RowsOk(life, orders) && forall d <- orders :: d in orders'
    ensures RowsOk(life, orders')
  {
    assert ReceiptIds(orders) <= ReceiptIds(orders');
  }

  // ----- Importing a feed ------------------------------------------------------------------------------------

  lemma {:induction false} NoTransitionError(records: seq<Record>, status: map<string, StatusRow>, delivered: set<string>)
    requires TransitionsError(records, status, delivered).None?
    ensures forall r <- records :: TransitionError(RowOf(status, r.receiptId), r, delivered).None?
  {
    if records != [] {
      NoTransitionError(records[1..], status, delivered);
      assert forall r <- records :: r == records[0] || r in records[1..];
    }
  }

  lemma {:induction false} AllTransitionsPass(records: seq<Record>, status: map<string, StatusRow>, delivered: set<string>)
    requires forall r <- records :: TransitionError(RowOf(status, r.receiptId), r, delivered).None?
    ensures TransitionsError(records, status, delivered).None?
  {
    if records != [] {
      assert forall r <- records[1..] :: r in records;
      assert records[0] in records;
      AllTransitionsPass(records[1..], status, delivered);
    }
  }

  /** Splitting off the last record of a list. */
  lemma LastRecord(records: seq<Record>)
    requires records != []
    ensures var n := |records| - 1;
            && RecordIds(records) == RecordIds(records[..n]) + {records[n].receiptId}
            && (forall x :: x in records <==> x == records[n] || x in records[..n])
            && (UniqueRecords(records) ==> UniqueRecords(records[..n]) && records[n].receiptId !in RecordIds(records[..n]))
  {
    var n := |records| - 1;
    assert records == records[..n] + [records[n]];
    if UniqueRecords(records) {
      forall x <- records[..n]
        ensures x.receiptId != records[n].receiptId
      {
        var k :| 0 <= k < n && records[k] == x;
      }
    }
  }

  /** The upserts write one row per record and nothing else. */
  lemma {:induction false} UpsertsAreExact(
    status: map<string, StatusRow>, records: seq<Record>, orders: seq<Delivered>, sequence: int, at: int)
    requires RecordIds(records) <= ReceiptIds(orders) && UniqueRecords(records)
    ensures var after := UpsertAll(status, records, orders, sequence, at);
            && after.Keys == status.Keys + RecordIds(records)
            && (forall r <- records :: r.receiptId in after && RowMatches(after[r.receiptId], r, sequence)
                                       && after[r.receiptId].status == r.status)
  {
    if records != [] {
      var n := |records| - 1;
      LastRecord(records);
      UpsertsAreExact(status, records[..n], orders, sequence, at);
      hide UniqueRecords;
      var before := UpsertAll(status, records[..n], orders, sequence, at);
      var row := Upserted(before, records[n], orders, sequence, at);
      assert RowMatches(row, records[n], sequence);
      assert forall x <- records[..n] :: x.receiptId in RecordIds(records[..n]);
      hide RowMatches, Upserted;
      assert UpsertAll(status, records, orders, sequence, at) == before[records[n].receiptId := row];
    }
  }

  /** Row `id` belongs to an order delivered with receipt `id`. */
  ghost predicate BelongsTo(row: StatusRow, id: string, orders: seq<Delivered>) {
    exists d <- orders :: d.receipt.id == id && d.orderId == row.orderId
  }

  lemma {:induction false} UpsertsKeepOwners(
    status: map<string, StatusRow>, records: seq<Record>, orders: seq<Delivered>, sequence: int, at: int)
    requires RecordIds(records) <= ReceiptIds(orders)
    requires forall id <- status.Keys :: BelongsTo(status[id], id, orders)
    ensures forall id <- UpsertAll(status, records, orders, sequence, at).Keys ::
              BelongsTo(UpsertAll(status, records, orders, sequence, at)[id], id, orders)
  {
    if records != [] {
      var n := |records| - 1;
      LastRecord(records);
      UpsertsKeepOwners(status, records[..n], orders, sequence, at);
      var before := UpsertAll(status, records[..n], orders, sequence, at);
      var row := Upserted(before, records[n], orders, sequence, at);
      assert records[n].receiptId in RecordIds(records);
      assert BelongsTo(row, records[n].receiptId, orders) by {
        if records[n].receiptId !in before { assert OrderOf(orders, records[n].receiptId).Some?; }
      }
      hide BelongsTo, Upserted;
      assert UpsertAll(status, records, orders, sequence, at) == before[records[n].receiptId := row];
    }
  }

  /** An admitted feed follows the latest one. */
  lemma AdmittedFollows(life: Life, orders: seq<Delivered>, payload: Payload, root: Jwk)
    requires LifeInv(life, orders) && FeedOk(payload.feed) && life.publications != []
    requires Admit(life, orders, payload, root) == Ok(true)
    requires RecordIds(payload.feed.receipts) == ReceiptIds(orders)
    ensures FeedFollows(LatestFeed(life).value, payload.feed)
  {
    var prior, next := LatestFeed(life).value, payload.feed;
    NoTransitionError(next.receipts, life.status, ReceiptIds(orders));
    hide LogOk;
    forall r <- prior.receipts
      ensures exists r' <- next.receipts ::
                r'.receiptId == r.receiptId && (!r.status.Current? ==> Normal(r') == Normal(r))
    {
      assert r.receiptId in life.status && RowMatches(life.status[r.receiptId], r, prior.sequence);
      assert r.receiptId in ReceiptIds(orders);
      assert r.receiptId in RecordIds(next.receipts);
      var r' :| r' in next.receipts && r'.receiptId == r.receiptId;
      assert TransitionError(RowOf(life.status, r'.receiptId), r', ReceiptIds(orders)).None?;
    }
    forall r' <- next.receipts | !r'.status.Current?
      ensures r'.receiptId in RecordIds(prior.receipts)
    {
      assert TransitionError(RowOf(life.status, r'.receiptId), r', ReceiptIds(orders)).None?;
    }
    forall k <- prior.issuers
      ensures exists k' <- next.issuers :: k'.keyId == k.keyId && IssuerMayBecome(k.status, k'.status)
    {
      var found := FindIssuer(next.issuers, k.keyId);
      assert found.Some?;
      assert found.value in next.issuers;
    }
  }

  lemma FirstFeedIsCurrent(life: Life, orders: seq<Delivered>, payload: Payload, root: Jwk)
    requires LifeInv(life, orders) && life.publications == [] && Admit(life, orders, payload, root) == Ok(true)
    ensures payload.feed.sequence == 1 && forall r <- payload.feed.receipts :: r.status.Current?
  {
    NoTransitionError(payload.feed.receipts, life.status, ReceiptIds(orders));
    forall r <- payload.feed.receipts
      ensures r.status.Current?
    {
      assert TransitionError(RowOf(life.status, r.receiptId), r, ReceiptIds(orders)).None?;
    }
  }

  lemma RecordPasses(prior: Option<StatusRow>, r: Record, delivered: set<string>)
    requires TransitionError(prior, r, delivered).None? && RecordOk(r)
    ensures RecordSound(r, delivered)
  {
  }

  /** What the checks of a publication come to for the feed itself. */
  lemma CheckedIsOk(life: Life, orders: seq<Delivered>, e: Envelope, root: Jwk, observed: int)
    requires CheckEnvelope(orders, e, root, observed) == Ok(e.payload) && Admit(life, orders, e.payload, root) == Ok(true)
    ensures PublicationOk(Publication(root, e.payload, e, FormatTime(observed)))
  {
    var feed := e.payload.feed;
    hide IssuersMoveForward, RecordSound, TransitionError;
    NoTransitionError(feed.receipts, life.status, ReceiptIds(orders));
    hide TransitionsError, UniqueIssuers, UniqueRecords;
    forall r <- feed.receipts ensures RecordSound(r, RecordIds(feed.receipts)) {
      RecordPasses(RowOf(life.status, r.receiptId), r, ReceiptIds(orders));
    }
  }

  lemma ImportKeepsLog(life: Life, orders: seq<Delivered>, e: Envelope, root: Jwk, observed: int)
    requires LifeInv(life, orders) && CheckEnvelope(orders, e, root, observed) == Ok(e.payload)
    requires Admit(life, orders, e.payload, root) == Ok(true)
    ensures LogOk(Import(life, orders, e, root, observed).publications)
    ensures Import(life, orders, e, root, observed).root == Some(Import(life, orders, e, root, observed).publications[0].root)
  {
    var p := Publication(root, e.payload, e, FormatTime(observed));
    var after := life.publications + [p];
    CheckedIsOk(life, orders, e, root, observed);
    if life.publications == [] {
      FirstFeedIsCurrent(life, orders, e.payload, root);
    } else {
      AdmittedFollows(life, orders, e.payload, root);
      hide FeedFollows, PublicationOk, StatusOk, RowsOk;
      assert LatestFeed(life).value.sequence == |life.publications|;
      assert after[|life.publications| - 1] == life.publications[|life.publications| - 1];
    }
  }

  lemma RecordIsSound(prior: Option<StatusRow>, r: Record, row: StatusRow, delivered: set<string>)
    requires TransitionError(prior, r, delivered).None? && RecordFromRow(r.receiptId, row) == Normal(r)
    ensures RowSound(r.receiptId, row, delivered)
  {
  }

  lemma ImportKeepsStatus(life: Life, orders: seq<Delivered>, feed: Feed, at: int)
    requires UniqueRecords(feed.receipts) && RecordIds(feed.receipts) == ReceiptIds(orders)
    requires RowsOk(life, orders)
    ensures var status' := UpsertAll(life.status, feed.receipts, orders, feed.sequence, at);
            && status'.Keys == RecordIds(feed.receipts)
            && forall r <- feed.receipts :: r.receiptId in status' && RowMatches(status'[r.receiptId], r, feed.sequence)
  {
    hide RowMatches, RowSound;
    forall id <- life.status.Keys
      ensures id in ReceiptIds(orders)
    {
      assert BelongsTo(life.status[id], id, orders);
    }
    UpsertsAreExact(life.status, feed.receipts, orders, feed.sequence, at);
  }

  lemma ImportKeepsRows(life: Life, orders: seq<Delivered>, feed: Feed, at: int)
    requires UniqueRecords(feed.receipts) && RecordIds(feed.receipts) == ReceiptIds(orders)
    requires RowsOk(life, orders) && TransitionsError(feed.receipts, life.status, ReceiptIds(orders)).None?
    ensures var status' := UpsertAll(life.status, feed.receipts, orders, feed.sequence, at);
            forall id <- status'.Keys :: RowSound(id, status'[id], ReceiptIds(orders)) && BelongsTo(status'[id], id, orders)
  {
    var status' := UpsertAll(life.status, feed.receipts, orders, feed.sequence, at);
    ImportKeepsStatus(life, orders, feed, at);
    UpsertsKeepOwners(life.status, feed.receipts, orders, feed.sequence, at);
    NoTransitionError(feed.receipts, life.status, ReceiptIds(orders));
    hide UpsertAll, TransitionsError, TransitionError, RowSound, BelongsTo, ReceiptIds, RowsOk, UniqueRecords;
    forall id <- status'.Keys
      ensures RowSound(id, status'[id], ReceiptIds(orders))
    {
      var r :| r in feed.receipts && r.receiptId == id;
      RecordIsSound(RowOf(life.status, id), r, status'[id], ReceiptIds(orders));
    }
  }

  lemma ImportKeepsTables(life: Life, orders: seq<Delivered>, e: Envelope, root: Jwk, observed: int)
    requires LifeInv(life, orders) && CheckEnvelope(orders, e, root, observed) == Ok(e.payload)
    requires Admit(life, orders, e.payload, root) == Ok(true)
    ensures StatusOk(Import(life, orders, e, root, observed)) && RowsOk(Import(life, orders, e, root, observed), orders)
  {
    hide LogOk, RowMatches, RowSound, BelongsTo, UpsertAll, TransitionsError, RecordIds, ReceiptIds;
    var life' := Import(life, orders, e, root, observed);
    ImportKeepsStatus(life, orders, e.payload.feed, FormatTime(observed));
    ImportKeepsRows(life, orders, e.payload.feed, FormatTime(observed));
    assert LatestFeed(life') == Some(e.payload.feed);
  }

  lemma PublishKeepsInv(life: Life, orders: seq<Delivered>, e: Envelope, root: Jwk, observed: int)
    requires LifeInv(life, orders) && DeliveredOk(orders)
    ensures LifeInv(Publish(life, orders, e, root, observed).0, orders)
    ensures life.publications <= Publish(life, orders, e, root, observed).0.publications
  {
    hide LogOk, StatusOk, RowsOk, DeliveredOk, Admit;
    if Publish(life, orders, e, root, observed).0 != life {
      assert CheckEnvelope(orders, e, root, observed) == Ok(e.payload);
      ImportKeepsLog(life, orders, e, root, observed);
      ImportKeepsTables(life, orders, e, root, observed);
    }
  }

  // ----- Reachable worlds -------------------------------------------------------------------------------------

  ghost predicate WorldInv(w: World) {
    I.Inv(w.tables) && LifeInv(w.life, OrdersOf(w)) && DeliveredOk(OrdersOf(w))
  }

  lemma TakeKeepsInv(w: World, step: Step)
    requires WorldInv(w)
    ensures WorldInv(Take(w, step)) && w.life.publications <= Take(w, step).life.publications
  {
    hide I.Inv, LogOk, StatusOk, RowsOk, DeliveredOk;
    match step
    case Trade(op) =>
      var s' := X.Perform(w.tables, op).0;
      R.PerformKeepsInv(w.tables, op);
      PerformKeepsReceipts(w.tables, op);
      DeliveredGrow(w.tables, s');
      StoreDelivers(s');
      MoreOrdersKeepRows(w.life, OrdersOf(w), OrdersOf(Take(w, step)));
    case Publishing(e, root, observed) =>
      PublishKeepsInv(w.life, OrdersOf(w), e, root, observed);
  }

  lemma {:induction false} RunWorldKeepsInv(w: World, steps: seq<Step>)
    requires WorldInv(w)
    ensures WorldInv(RunWorld(w, steps)) && w.life.publications <= RunWorld(w, steps).life.publications
    decreases |steps|
  {
    hide WorldInv, Take;
    if steps != [] {
      TakeKeepsInv(w, steps[0]);
      RunWorldKeepsInv(Take(w, steps[0]), steps[1..]);
    }
  }

  lemma ReachableWorldInv(w: World)
    requires ReachableWorld(w)
    ensures WorldInv(w)
  {
    var environment: T.Environment, steps: seq<Step> :|
      w == RunWorld(World(T.EmptyTables(environment), Life(None, [], map[])), steps);
    var start := World(T.EmptyTables(environment), Life(None, [], map[]));
    assert OrdersOf(start) == [];
    RunWorldKeepsInv(start, steps);
  }
}
