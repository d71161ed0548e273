/** The lifecycle store as an object beside the commerce store it reads delivered orders from. */
module PaidLifecycleStore {
  import opened Wrappers
  import CommerceStore
  import opened Lifecycle
  import opened PaidLifecycle

  method VerifyLifecycle(e: Envelope, root: Jwk) returns (r: Result<Payload, Error>)
    ensures r == VerifyLifecycleEnvelope(e, root)
  {
    r := VerifyEnvelope(e, root);
    if r.Ok? {
      var ok := ValidateLifecycleFeed(r.value.feed);
      if !ok { r := Err(InvalidFeed); }
    }
  }

  class PaidReceiptLifecycleStore {
    const store: CommerceStore.Store
    var root: Option<Jwk>
    var publications: seq<Publication>
    var status: map<string, StatusRow>

    function State(): Life
      reads this
    {
      Life(root, publications, status)
    }

    function Orders(): seq<Delivered>
      reads store
    {
      DeliveredOrders(store.orders)
    }

    constructor (store: CommerceStore.Store)
      ensures this.store == store && State() == Life(None, [], map[])
    {
      this.store := store;
      root, publications, status := None, [], map[];
    }

    method BuildDraft(issuers: seq<Issuer>, generatedAt: int, expiresAt: int, requested: map<string, Change>)
      returns (r: Result<Feed, Error>)
      ensures r == PaidLifecycle.BuildDraft(State(), Orders(), issuers, generatedAt, expiresAt, requested)
    {
      if expiresAt <= generatedAt || expiresAt - generatedAt > MAX_FEED_LIFETIME || |requested| > MAX_CHANGES {
        return Err(InvalidFeed);
      }
      var orders := Orders();
      if orders == [] { return Err(LifecycleEmpty); }
      var records := DeriveRecords(orders, status, requested);
      if records.Err? { return Err(records.error); }
      var latest := LatestFeed(State());
      var feed := Feed(if latest.Some? then latest.value.sequence + 1 else 1,
                       FormatTime(generatedAt), FormatTime(expiresAt), issuers, records.value);
      var ok := ValidateLifecycleFeed(feed);
      if !ok { return Err(InvalidFeed); }
      if SignerIds(orders) != IssuerIds(issuers) { return Err(Coverage); }
      if !IssuersMoveForward(feed, latest) { return Err(Rollback); }
      r := Ok(feed);
    }

    /** Checks the envelope, then imports the feed in one transaction. */
    method Publish(e: Envelope, trustedRoot: Jwk, observed: int) returns (r: Result<int, Error>)
      modifies this
      ensures (State(), r) == PaidLifecycle.Publish(old(State()), Orders(), e, trustedRoot, observed)
    {
      if !(1 <= e.size <= MAX_PUBLISH_BYTES) { return Err(InvalidFeed); }
      var verified := VerifyLifecycle(e, trustedRoot);
      if verified.Err? { return Err(verified.error); }
      var feed := verified.value.feed;
      if feed.generatedAt > observed + CLOCK_SKEW || feed.expiresAt <= observed
         || feed.expiresAt - feed.generatedAt > MAX_FEED_LIFETIME {
        return Err(InvalidFeed);
      }
      var orders := Orders();
      if orders == [] { return Err(LifecycleEmpty); }
      if SignerIds(orders) != IssuerIds(feed.issuers) { return Err(Coverage); }
      if RecordIds(feed.receipts) != ReceiptIds(orders) { return Err(Coverage); }
      var admitted := Admit(State(), orders, verified.value, trustedRoot);
      if admitted.Err? { return Err(admitted.error); }
      if !admitted.value { return Ok(feed.sequence); }
      var at := FormatTime(observed);
      publications := publications + [Publication(trustedRoot, verified.value, e, at)];
      root := Some(trustedRoot);
      ghost var before := status;
      for n := 0 to |feed.receipts|
        invariant RecordIds(feed.receipts[..n]) <= ReceiptIds(orders)
        invariant status == UpsertAll(before, feed.receipts[..n], orders, feed.sequence, at)
        invariant root == Some(trustedRoot)
        invariant publications == old(publications) + [Publication(trustedRoot, verified.value, e, at)]
      {
        var record := feed.receipts[n];
        assert record.receiptId in RecordIds(feed.receipts);
        assert feed.receipts[..n + 1][..n] == feed.receipts[..n];
        assert feed.receipts[..n + 1] == feed.receipts[..n] + [record];
        var orderId := if record.receiptId in status then status[record.receiptId].orderId
                       else OrderOf(orders, record.receiptId).value;
        status := status[record.receiptId := StatusRow(orderId, record.status, Stored(record.supersededBy),
                                                       Stored(record.reason), feed.sequence, at)];
      }
      assert feed.receipts[..|feed.receipts|] == feed.receipts;
      r := Ok(feed.sequence);
    }
  }
}
