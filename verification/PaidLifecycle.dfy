/**
 Drafting and publishing the lifecycle feed of paid receipts.  The delivered orders come
 from the commerce store; the publications and the status table are this store's own.
 */
module PaidLifecycle {
  import opened Wrappers
  import T = CommerceTables
  import opened Lifecycle

  const MICROS := 1_000_000
  const MAX_FEED_LIFETIME := 7 * 24 * 3600 * MICROS
  const CLOCK_SKEW := 5 * 60 * MICROS
  const MAX_PUBLISH_BYTES := 1_100_000
  const MAX_CHANGES := 100_000

  datatype Delivered = Delivered(orderId: T.OrderId, receipt: T.Receipt)

  datatype StatusRow = StatusRow(
    orderId: T.OrderId, status: ReceiptStatus, supersededBy: Option<string>, reason: Option<string>,
    sequence: int, updatedAt: int)

  datatype Publication = Publication(root: Jwk, payload: Payload, envelope: Envelope, publishedAt: int)

  /** Publications in order of sequence; the status row of each receipt; the root bound by the first publication. */
  datatype Life = Life(root: Option<Jwk>, publications: seq<Publication>, status: map<string, StatusRow>)

  datatype Change = Change(status: ReceiptStatus, supersededBy: Field, reason: Field)

  /** Times are written to the feed in whole seconds. */
  function FormatTime(t: int): int { t - t % MICROS }

  function LatestFeed(life: Life): Option<Feed> {
    if life.publications == [] then None else Some(life.publications[|life.publications| - 1].payload.feed)
  }

  // ----- Delivered orders ----------------------------------------------------------------------

  function InsertByReceipt(d: Delivered, rest: seq<Delivered>): (r: seq<Delivered>)
    ensures forall x :: x in r <==> x == d || x in rest
    ensures |r| == |rest| + 1
  {
    if rest == [] then [d]
    else
      assert rest == [rest[0]] + rest[1..];
      if T.TextLeq(d.receipt.id, rest[0].receipt.id) then [d] + rest
      else [rest[0]] + InsertByReceipt(d, rest[1..])
  }

  /** SELECT ... WHERE order_status = 'delivered' ORDER BY receipt_id. */
  function DeliveredOrders(orders: seq<T.Order>): (r: seq<Delivered>)
    ensures forall d <- r :: exists o <- orders :: o.status.Delivered? && o.receipt == Some(d.receipt) && o.id == d.orderId
    ensures forall o <- orders :: o.status.Delivered? && o.receipt.Some? ==> Delivered(o.id, o.receipt.value) in r
  {
    if orders == [] then []
    else
      var n := |orders| - 1;
      assert orders == orders[..n] + [orders[n]] && orders[n] in orders;
      assert forall o <- orders[..n] :: o in orders;
      assert forall o <- orders :: o in orders[..n] || o == orders[n];
      var rest := DeliveredOrders(orders[..n]);
      if orders[n].status.Delivered? && orders[n].receipt.Some?
      then InsertByReceipt(Delivered(orders[n].id, orders[n].receipt.value), rest)
      else rest
  }

  function ReceiptIds(orders: seq<Delivered>): set<string> { set d <- orders :: d.receipt.id }

  function SignerIds(orders: seq<Delivered>): set<string> { set d <- orders :: d.receipt.signingKeyId }

  function RecordIds(receipts: seq<Record>): set<string> { set r <- receipts :: r.receiptId }

  function IssuerIds(issuers: seq<Issuer>): set<string> { set k <- issuers :: k.keyId }

  // ----- Checks ----------------------------------------------------------------------------------

  function Stored(f: Field): Option<string> {
    if f.Has? then Some(f.text) else None
  }

  function Loaded(o: Option<string>): Field {
    if o.Some? then Has(o.value) else Absent
  }

  function RecordFromRow(receiptId: string, row: StatusRow): Record {
    Record(receiptId, row.status, Loaded(row.supersededBy), Loaded(row.reason))
  }

  function TransitionError(prior: Option<StatusRow>, record: Record, delivered: set<string>): Option<Error> {
    if record.status.Current? && (!record.reason.Absent? || !record.supersededBy.Absent?) then Some(InvalidFeed)
    else if record.status.Superseded?
         && (!record.supersededBy.Has? || record.supersededBy.text !in delivered || record.supersededBy.text == record.receiptId)
    then Some(InvalidFeed)
    else if (record.status.RevokedEvaluatorDefect? || record.status.RevokedKeyCompromise?) && !record.reason.Has?
    then Some(InvalidFeed)
    else if prior.None? then (if record.status.Current? then None else Some(InvalidFeed))
    else
      var before := RecordFromRow(record.receiptId, prior.value);
      if !before.status.Current? && before != record then Some(Rollback)
      else if before.status.Current? && record.status.Current? && before != record then Some(Equivocation)
      else None
  }

  function RowOf(status: map<string, StatusRow>, receiptId: string): Option<StatusRow> {
    if receiptId in status then Some(status[receiptId]) else None
  }

  function TransitionsError(records: seq<Record>, status: map<string, StatusRow>, delivered: set<string>): Option<Error> {
    if records == [] then None
    else
      var first := TransitionError(RowOf(status, records[0].receiptId), records[0], delivered);
      if first.Some? then first else TransitionsError(records[1..], status, delivered)
  }

  predicate IssuerMayBecome(prior: IssuerStatus, now: IssuerStatus) {
    (prior.Compromised? ==> now.Compromised?) && (prior.Retired? ==> !now.Active?)
  }

  /** No key of the prior feed is dropped or restored. */
  predicate IssuersMoveForward(feed: Feed, prior: Option<Feed>) {
    prior.None? ||
    forall k <- prior.value.issuers ::
      var now := FindIssuer(feed.issuers, k.keyId);
      now.Some? && IssuerMayBecome(k.status, now.value.status)
  }

  // ----- Drafting ------------------------------------------------------------------------------------

  function DraftRecord(d: Delivered, status: map<string, StatusRow>, requested: map<string, Change>): Record {
    var id := d.receipt.id;
    if id in requested then Record(id, requested[id].status, requested[id].supersededBy, requested[id].reason)
    else if id in status then RecordFromRow(id, status[id])
    else Record(id, Current, Absent, Absent)
  }

  function DraftRecords(orders: seq<Delivered>, status: map<string, StatusRow>, requested: map<string, Change>): (r: seq<Record>)
    ensures |r| == |orders|
    ensures forall k :: 0 <= k < |r| ==> r[k] == DraftRecord(orders[k], status, requested)
  {
    if orders == [] then []
    else [DraftRecord(orders[0], status, requested)] + DraftRecords(orders[1..], status, requested)
  }

  function DeriveRecords(orders: seq<Delivered>, status: map<string, StatusRow>, requested: map<string, Change>)
    : Result<seq<Record>, Error>
  {
    if !(requested.Keys <= ReceiptIds(orders)) then Err(Coverage)
    else
      var records := DraftRecords(orders, status, requested);
      match TransitionsError(records, status, ReceiptIds(orders))
      case Some(error) => Err(error)
      case None => Ok(records)
  }

  ghost function BuildDraft(life: Life, orders: seq<Delivered>, issuers: seq<Issuer>, generatedAt: int, expiresAt: int,
                            requested: map<string, Change>): Result<Feed, Error>
  {
    if expiresAt <= generatedAt || expiresAt - generatedAt > MAX_FEED_LIFETIME then Err(InvalidFeed)
    else if |requested| > MAX_CHANGES then Err(InvalidFeed)
    else if orders == [] then Err(LifecycleEmpty)
    else
      match DeriveRecords(orders, life.status, requested)
      case Err(error) => Err(error)
      case Ok(records) =>
        var latest := LatestFeed(life);
        var feed := Feed(if latest.Some? then latest.value.sequence + 1 else 1,
                         FormatTime(generatedAt), FormatTime(expiresAt), issuers, records);
        if !FeedOk(feed) then Err(InvalidFeed)
        else if SignerIds(orders) != IssuerIds(issuers) then Err(Coverage)
        else if !IssuersMoveForward(feed, latest) then Err(Rollback)
        else Ok(feed)
  }

  // ----- Publishing ----------------------------------------------------------------------------------

  function OrderOf(orders: seq<Delivered>, receiptId: string): (r: Option<T.OrderId>)
    ensures r.Some? ==> exists d <- orders :: d.receipt.id == receiptId && d.orderId == r.value
    ensures r.None? ==> receiptId !in ReceiptIds(orders)
  {
    if orders == [] then None
    else
      assert orders == [orders[0]] + orders[1..];
      assert forall d <- orders :: d == orders[0] || d in orders[1..];
      if orders[0].receipt.id == receiptId then Some(orders[0].orderId)
      else OrderOf(orders[1..], receiptId)
  }

  /** The upserted row: an existing row keeps its order id. */
  function Upserted(status: map<string, StatusRow>, r: Record, orders: seq<Delivered>, sequence: int, at: int): StatusRow
    requires r.receiptId in ReceiptIds(orders)
  {
    StatusRow(if r.receiptId in status then status[r.receiptId].orderId else OrderOf(orders, r.receiptId).value,
              r.status, Stored(r.supersededBy), Stored(r.reason), sequence, at)
  }

  function UpsertAll(status: map<string, StatusRow>, records: seq<Record>, orders: seq<Delivered>, sequence: int, at: int)
    : map<string, StatusRow>
    requires RecordIds(records) <= ReceiptIds(orders)
  {
    if records == [] then status
    else
      var n := |records| - 1;
      assert records[n] in records && forall r <- records[..n] :: r in records;
      assert forall x <- RecordIds(records[..n]) :: x in RecordIds(records);
      assert records[n].receiptId in RecordIds(records);
      var before := UpsertAll(status, records[..n], orders, sequence, at);
      before[records[n].receiptId := Upserted(before, records[n], orders, sequence, at)]
  }

  /** Everything `publish` checks before it opens its write transaction. */
  ghost function CheckEnvelope(orders: seq<Delivered>, e: Envelope, root: Jwk, observed: int): Result<Payload, Error> {
    if !(1 <= e.size <= MAX_PUBLISH_BYTES) then Err(InvalidFeed)
    else
      match VerifyLifecycleEnvelope(e, root)
      case Err(error) => Err(error)
      case Ok(payload) =>
        var feed := payload.feed;
        if feed.generatedAt > observed + CLOCK_SKEW || feed.expiresAt <= observed
           || feed.expiresAt - feed.generatedAt > MAX_FEED_LIFETIME then Err(InvalidFeed)
        else if orders == [] then Err(LifecycleEmpty)
        else if SignerIds(orders) != IssuerIds(feed.issuers) then Err(Coverage)
        else if RecordIds(feed.receipts) != ReceiptIds(orders) then Err(Coverage)
        else Ok(payload)
  }

  /** The checks inside the write transaction; `Ok(false)` means the feed is already published. */
  function Admit(life: Life, orders: seq<Delivered>, payload: Payload, root: Jwk): Result<bool, Error> {
    var feed, latest := payload.feed, LatestFeed(life);
    if life.root.Some? && life.root.value != root then Err(UntrustedKey)
    else if latest.Some? && feed.sequence < latest.value.sequence then Err(Rollback)
    else if latest.Some? && feed.sequence == latest.value.sequence then
      (if life.publications[|life.publications| - 1].payload != payload then Err(Equivocation) else Ok(false))
    else if feed.sequence != (if latest.Some? then latest.value.sequence + 1 else 1) then Err(Rollback)
    else if !IssuersMoveForward(feed, latest) then Err(Rollback)
    else
      match TransitionsError(feed.receipts, life.status, ReceiptIds(orders))
      case Some(error) => Err(error)
      case None => Ok(true)
  }

  function Import(life: Life, orders: seq<Delivered>, e: Envelope, root: Jwk, observed: int): Life
    requires RecordIds(e.payload.feed.receipts) <= ReceiptIds(orders)
  {
    var feed := e.payload.feed;
    Life(Some(root),
         life.publications + [Publication(root, e.payload, e, FormatTime(observed))],
         UpsertAll(life.status, feed.receipts, orders, feed.sequence, FormatTime(observed)))
  }

  /** Publication as one atomic step on the delivered orders and the lifecycle tables. */
  ghost function Publish(life: Life, orders: seq<Delivered>, e: Envelope, root: Jwk, observed: int): (Life, Result<int, Error>)
  {
    match CheckEnvelope(orders, e, root, observed)
    case Err(error) => (life, Err(error))
    case Ok(payload) =>
      match Admit(life, orders, payload, root)
      case Err(error) => (life, Err(error))
      case Ok(isNew) =>
        (if isNew then Import(life, orders, e, root, observed) else life, Ok(payload.feed.sequence))
  }
}
