/** What the publication log guarantees to the readers of receipts and to the offline signer. */
module PaidLifecycleResults {
  import opened Wrappers
  import T = CommerceTables
  import I = CommerceInvariant
  import R = CommerceRuns
  import opened Lifecycle
  import opened PaidLifecycle
  import opened PaidLifecycleRuns

  function FeedAt(publications: seq<Publication>, i: nat): Feed
    requires i < |publications|
  {
    publications[i].payload.feed
  }

  // ----- The log ------------------------------------------------------------------------------

  /** A receipt once published stays published; once withdrawn its record never changes. */
  lemma {:induction false} RecordsPersist(publications: seq<Publication>, i: nat, j: nat, r: Record)
    requires LogOk(publications) && i <= j < |publications| && r in FeedAt(publications, i).receipts
    ensures exists r' <- FeedAt(publications, j).receipts ::
              r'.receiptId == r.receiptId && (!r.status.Current? ==> Normal(r') == Normal(r))
    decreases j
  {
    if i < j {
      RecordsPersist(publications, i, j - 1, r);
      assert FeedFollows(FeedAt(publications, j - 1), FeedAt(publications, j));
      hide LogOk;
      var before :| before in FeedAt(publications, j - 1).receipts && before.receiptId == r.receiptId
                    && (!r.status.Current? ==> Normal(before) == Normal(r));
      var after :| after in FeedAt(publications, j).receipts && after.receiptId == before.receiptId
                   && (!before.status.Current? ==> Normal(after) == Normal(before));
    }
  }

  /** An issuer key is never dropped, and moves only from active to retired to compromised. */
  lemma {:induction false} IssuersPersist(publications: seq<Publication>, i: nat, j: nat, k: Issuer)
    requires LogOk(publications) && i <= j < |publications| && k in FeedAt(publications, i).issuers
    ensures exists k' <- FeedAt(publications, j).issuers :: k'.keyId == k.keyId && IssuerMayBecome(k.status, k'.status)
    decreases j
  {
    if i < j {
      IssuersPersist(publications, i, j - 1, k);
      assert FeedFollows(FeedAt(publications, j - 1), FeedAt(publications, j));
      hide LogOk;
      var before :| before in FeedAt(publications, j - 1).issuers && before.keyId == k.keyId
                    && IssuerMayBecome(k.status, before.status);
      var after :| after in FeedAt(publications, j).issuers && after.keyId == before.keyId
                   && IssuerMayBecome(before.status, after.status);
    }
  }

  /** A receipt that a feed withdraws was listed as current by the first feed that listed it. */
  lemma {:induction false} FirstListedAsCurrent(publications: seq<Publication>, j: nat, r: Record)
    requires LogOk(publications) && j < |publications| && r in FeedAt(publications, j).receipts
    ensures exists i :: 0 <= i <= j && ListsAsCurrent(FeedAt(publications, i), r.receiptId)
                        && forall h :: 0 <= h < i ==> r.receiptId !in RecordIds(FeedAt(publications, h).receipts)
    decreases j
  {
    if j == 0 {
      assert ListsAsCurrent(FeedAt(publications, 0), r.receiptId);
    } else if r.receiptId in RecordIds(FeedAt(publications, j - 1).receipts) {
      var before :| before in FeedAt(publications, j - 1).receipts && before.receiptId == r.receiptId;
      FirstListedAsCurrent(publications, j - 1, before);
    } else {
      assert FeedFollows(FeedAt(publications, j - 1), FeedAt(publications, j));
      assert ListsAsCurrent(FeedAt(publications, j), r.receiptId);
      forall h | 0 <= h < j
        ensures r.receiptId !in RecordIds(FeedAt(publications, h).receipts)
      {
        if r.receiptId in RecordIds(FeedAt(publications, h).receipts) {
          var x :| x in FeedAt(publications, h).receipts && x.receiptId == r.receiptId;
          RecordsPersist(publications, h, j - 1, x);
        }
      }
    }
  }

  ghost predicate ListsAsCurrent(feed: Feed, receiptId: string) {
    exists r <- feed.receipts :: r.receiptId == receiptId && r.status.Current?
  }

  lemma ReachableLog(w: World)
    requires ReachableWorld(w)
    ensures LogOk(w.life.publications) && StatusOk(w.life) && RowsOk(w.life, OrdersOf(w)) && DeliveredOk(OrdersOf(w))
    ensures w.life.root == if w.life.publications == [] then None else Some(w.life.publications[0].root)
  {
    hide I.Inv;
    ReachableWorldInv(w);
  }

  /** Sequences are 1..n under the bound root, payloads are pairwise distinct, and the status table is the latest feed. */
  lemma PublicationLog(w: World, i: nat)
    requires ReachableWorld(w) && i < |w.life.publications|
    ensures FeedAt(w.life.publications, i).sequence == i + 1 && w.life.root == Some(w.life.publications[i].root)
    ensures forall j :: 0 <= j < i ==> w.life.publications[j].payload != w.life.publications[i].payload
    ensures w.life.status.Keys == RecordIds(LatestFeed(w.life).value.receipts)
    ensures forall r <- LatestFeed(w.life).value.receipts :: r.receiptId in w.life.status
              && RecordFromRow(r.receiptId, w.life.status[r.receiptId]) == Normal(r)
              && w.life.status[r.receiptId].sequence == |w.life.publications|
    ensures forall id <- w.life.status.Keys :: exists d <- OrdersOf(w) ::
              d.receipt.id == id && d.orderId == w.life.status[id].orderId
    ensures forall a, b :: a in w.life.status && b in w.life.status && a != b ==>
              w.life.status[a].orderId != w.life.status[b].orderId
  {
    ReachableLog(w);
    hide ReachableWorld, FeedFollows;
    assert forall j :: 0 <= j < i ==> FeedAt(w.life.publications, j).sequence == j + 1;
    assert forall id <- w.life.status.Keys :: BelongsTo(w.life.status[id], id, OrdersOf(w));
    forall a, b | a in w.life.status && b in w.life.status && a != b
      ensures w.life.status[a].orderId != w.life.status[b].orderId
    {
      assert BelongsTo(w.life.status[a], a, OrdersOf(w)) && BelongsTo(w.life.status[b], b, OrdersOf(w));
    }
  }

  /** A publication that goes in covers exactly the receipts and signers delivered at that moment; a rejected one changes nothing. */
  lemma PublicationCovers(life: Life, orders: seq<Delivered>, e: Envelope, root: Jwk, observed: int)
    ensures var (life', r) := Publish(life, orders, e, root, observed);
            && (life' != life ==>
                  && r.Ok? && life'.publications == life.publications + [Publication(root, e.payload, e, FormatTime(observed))]
                  && RecordIds(e.payload.feed.receipts) == ReceiptIds(orders)
                  && IssuerIds(e.payload.feed.issuers) == SignerIds(orders))
            && (r.Ok? && life' == life ==> life.publications != [] && life.publications[|life.publications| - 1].payload == e.payload)
  {
  }

  // ----- Irrevocability --------------------------------------------------------------------------

  /** A feed in which the receipt is revoked or superseded, or its signing key is compromised. */
  ghost predicate Withdraws(feed: Feed, receipt: ReceiptEnvelope) {
    || (exists r <- feed.receipts :: r.receiptId == receipt.receiptId && !r.status.Current?)
    || (exists k <- feed.issuers :: k.keyId == receipt.keyId && k.status.Compromised?)
  }

  ghost predicate Revokes(feed: Feed, receipt: ReceiptEnvelope) {
    || (exists r <- feed.receipts :: r.receiptId == receipt.receiptId && !r.status.Current? && !r.status.Superseded?)
    || (exists k <- feed.issuers :: k.keyId == receipt.keyId && k.status.Compromised?)
  }

  lemma WithdrawalPersists(publications: seq<Publication>, i: nat, j: nat, receipt: ReceiptEnvelope)
    requires LogOk(publications) && i <= j < |publications|
    ensures Withdraws(FeedAt(publications, i), receipt) ==> Withdraws(FeedAt(publications, j), receipt)
    ensures Revokes(FeedAt(publications, i), receipt) ==> Revokes(FeedAt(publications, j), receipt)
  {
    var before, after := FeedAt(publications, i), FeedAt(publications, j);
    forall r | r in before.receipts && r.receiptId == receipt.receiptId && !r.status.Current?
      ensures exists r' <- after.receipts :: r'.receiptId == receipt.receiptId && r'.status == r.status
    {
      RecordsPersist(publications, i, j, r);
      hide LogOk;
      var r' :| r' in after.receipts && r'.receiptId == r.receiptId && Normal(r') == Normal(r);
      assert r'.status == r.status;
    }
    forall k | k in before.issuers && k.keyId == receipt.keyId && k.status.Compromised?
      ensures exists k' <- after.issuers :: k'.keyId == receipt.keyId && k'.status.Compromised?
    {
      IssuersPersist(publications, i, j, k);
    }
  }

  /** What a feed that withdraws a receipt says about it at any moment. */
  lemma WithdrawnIsNotCurrent(feed: Feed, issuer: Issuer, receipt: ReceiptEnvelope, now: int)
    requires FeedOk(feed) && Withdraws(feed, receipt) && FindIssuer(feed.issuers, receipt.keyId) == Some(issuer)
    ensures StateOf(feed, issuer, receipt.receiptId, receipt.expiresAt, now) != CURRENT
    ensures Revokes(feed, receipt) ==>
              StateOf(feed, issuer, receipt.receiptId, receipt.expiresAt, now) in {REVOKED_KEY_COMPROMISE, REVOKED_EVALUATOR_DEFECT}
  {
    forall r | r in feed.receipts && r.receiptId == receipt.receiptId
      ensures FindRecord(feed.receipts, receipt.receiptId) == Some(r)
    {
      RecordIsFound(feed.receipts, r);
    }
    forall k | k in feed.issuers && k.keyId == receipt.keyId
      ensures k == issuer
    {
      IssuerIsFound(feed.issuers, k);
    }
  }

  /**
   Once publication i withdraws a receipt, evaluating it against publication i or any later
   one, with any trusted key, clock and minimum sequence, never answers CURRENT; if it was
   revoked, or its key compromised, the answer is a revocation, an unknown, or a rejection.
   */
  lemma WithdrawalIsIrrevocable(
    w: World, i: nat, j: nat, receipt: ReceiptEnvelope, root: Jwk, now: int, minimumSequence: int)
    requires ReachableWorld(w) && i <= j < |w.life.publications|
    requires Withdraws(FeedAt(w.life.publications, i), receipt)
    ensures var r := EvaluateReceiptLifecycle(receipt, w.life.publications[j].envelope, root, now, minimumSequence);
            r.Ok? ==>
              && r.value.state != CURRENT
              && (Revokes(FeedAt(w.life.publications, i), receipt) ==>
                    r.value.state in {REVOKED_KEY_COMPROMISE, REVOKED_EVALUATOR_DEFECT, UNKNOWN})
  {
    hide ReachableWorld, Revokes, Withdraws;
    ReachableLog(w);
    WithdrawalPersists(w.life.publications, i, j, receipt);
    var feed := FeedAt(w.life.publications, j);
    assert PublicationOk(w.life.publications[j]);
    hide LogOk, StatusOk, RowsOk, DeliveredOk;
    var issuer := FindIssuer(feed.issuers, receipt.keyId);
    if issuer.Some? { WithdrawnIsNotCurrent(feed, issuer.value, receipt, now); }
  }

  /** Publications are only ever appended, whatever else happens in either store. */
  lemma LogOnlyGrows(w: World, steps: seq<Step>)
    requires ReachableWorld(w)
    ensures ReachableWorld(RunWorld(w, steps))
    ensures w.life.publications <= RunWorld(w, steps).life.publications
  {
    hide WorldInv;
    ReachableWorldInv(w);
    RunWorldKeepsInv(w, steps);
    var environment: T.Environment, before: seq<Step> :|
      w == RunWorld(World(T.EmptyTables(environment), Life(None, [], map[])), before);
    RunWorldAppends(World(T.EmptyTables(environment), Life(None, [], map[])), before, steps);
  }

  lemma {:induction false} RunWorldAppends(w: World, a: seq<Step>, b: seq<Step>)
    ensures RunWorld(w, a + b) == RunWorld(RunWorld(w, a), b)
    decreases |a|
  {
    if a == [] {
      assert a + b == b;
    } else {
      assert (a + b)[1..] == a[1..] + b;
      RunWorldAppends(Take(w, a[0]), a[1..], b);
    }
  }

  // ----- Evaluating the receipt of an order -----------------------------------------------------------

  /** `evaluate_order_receipt`: the receipt must be the order's, and is judged by the latest publication. */
  ghost function EvaluateOrderReceipt(w: World, i: nat, receipt: ReceiptEnvelope, root: Jwk, now: int): Result<Evaluation, Error>
    requires i < |w.tables.orders|
  {
    var o := w.tables.orders[i];
    if !o.delivery.Done? || o.receipt.None? then Err(InvalidDelivery)
    else if receipt.sha256 != o.receipt.value.envelopeSha256 then Err(InvalidDelivery)
    else if w.life.publications == [] then Err(LifecycleMissing)
    else
      match EvaluateReceiptLifecycle(receipt, w.life.publications[|w.life.publications| - 1].envelope, root, now, 0)
      case Err(error) => Err(error)
      case Ok(e) => if e.receiptId != Some(o.receipt.value.id) then Err(InvalidDelivery) else Ok(e)
  }

  /** A feed gives CURRENT to the receipts it lists as current, under an uncompromised key, until they expire. */
  lemma CurrentMeans(feed: Feed, issuer: Issuer, receipt: ReceiptEnvelope, now: int)
    requires FeedOk(feed) && FindIssuer(feed.issuers, receipt.keyId) == Some(issuer)
    ensures StateOf(feed, issuer, receipt.receiptId, receipt.expiresAt, now) == CURRENT
            <==> now < receipt.expiresAt
                 && (exists k <- feed.issuers :: k.keyId == receipt.keyId && !k.status.Compromised?)
                 && ListsAsCurrent(feed, receipt.receiptId)
  {
    forall k | k in feed.issuers && k.keyId == receipt.keyId
      ensures issuer == k
    {
      IssuerIsFound(feed.issuers, k);
    }
    forall r | r in feed.receipts && r.receiptId == receipt.receiptId
      ensures FindRecord(feed.receipts, receipt.receiptId) == Some(r)
    {
      RecordIsFound(feed.receipts, r);
    }
  }

  /**
   The state an order's evaluation reports, characterised: a feed that is future-dated or
   expired is a rejection rather than an answer, and CURRENT means the latest feed lists the
   order's receipt as current under an uncompromised key, inside both validity periods.
   */
  lemma OrderEvaluationMeans(w: World, i: nat, receipt: ReceiptEnvelope, root: Jwk, now: int)
    requires ReachableWorld(w) && i < |w.tables.orders| && EvaluateOrderReceipt(w, i, receipt, root, now).Ok?
    ensures var e, feed := EvaluateOrderReceipt(w, i, receipt, root, now).value, LatestFeed(w.life).value;
            && w.life.publications != [] && w.life.root == Some(root)
            && feed.generatedAt <= now < feed.expiresAt
            && e.feedSequence == |w.life.publications|
            && (e.state == CURRENT <==>
                  && now < receipt.expiresAt
                  && (exists k <- feed.issuers :: k.keyId == receipt.keyId && !k.status.Compromised?)
                  && ListsAsCurrent(feed, receipt.receiptId))
  {
    hide ReachableWorld, I.Inv, FeedOk, StateOf, FindIssuer, ListsAsCurrent, StatusOk, RowsOk, DeliveredOk;
    ReachableLog(w);
    var feed := LatestFeed(w.life).value;
    var n := |w.life.publications| - 1;
    assert PublicationOk(w.life.publications[n]) && w.life.publications[n].root == w.life.publications[0].root;
    CurrentMeans(feed, FindIssuer(feed.issuers, receipt.keyId).value, receipt, now);
  }

  /** The receipt is the order's, intact, and signed by an issuer of the feed. */
  ghost predicate AnswersForOrder(o: T.Order, receipt: ReceiptEnvelope, feed: Feed) {
    && o.delivery.Done? && o.receipt.Some?
    && receipt.sha256 == o.receipt.value.envelopeSha256 && receipt.receiptId == o.receipt.value.id && receipt.intact
    && exists k <- feed.issuers :: k.keyId == receipt.keyId && k.jwk == receipt.signer
  }

  /**
   When an order evaluation answers: for a sound receipt of a delivered order, asked under the bound root,
   exactly while the latest feed is in its validity period.  Before and after it the evaluation is rejected.
   */
  lemma OrderIsAnsweredInPeriod(w: World, i: nat, receipt: ReceiptEnvelope, root: Jwk, now: int)
    requires ReachableWorld(w) && i < |w.tables.orders| && w.life.root == Some(root) && w.life.publications != []
    requires AnswersForOrder(w.tables.orders[i], receipt, LatestFeed(w.life).value)
    ensures var r, feed := EvaluateOrderReceipt(w, i, receipt, root, now), LatestFeed(w.life).value;
            && (r.Ok? <==> feed.generatedAt <= now < feed.expiresAt)
            && (r.Err? ==> r.error == InvalidDelivery)
  {
    hide ReachableWorld, I.Inv, FeedOk, StateOf, FindIssuer, StatusOk, RowsOk, DeliveredOk;
    ReachableLog(w);
    var feed := LatestFeed(w.life).value;
    var n := |w.life.publications| - 1;
    assert PublicationOk(w.life.publications[n]) && w.life.publications[n].root == w.life.publications[0].root;
    var k :| k in feed.issuers && k.keyId == receipt.keyId && k.jwk == receipt.signer;
    IssuerOfFeed(feed, k);
  }

  lemma IssuerOfFeed(feed: Feed, k: Issuer)
    requires FeedOk(feed) && k in feed.issuers
    ensures FindIssuer(feed.issuers, k.keyId) == Some(k)
  {
    IssuerIsFound(feed.issuers, k);
  }

  /** After a withdrawal no later moment of any run evaluates an order with that receipt as CURRENT. */
  lemma WithdrawnOrderIsNeverCurrent(
    w: World, p: nat, steps: seq<Step>, i: nat, receipt: ReceiptEnvelope, root: Jwk, now: int)
    requires ReachableWorld(w) && p < |w.life.publications| && Withdraws(FeedAt(w.life.publications, p), receipt)
    requires i < |RunWorld(w, steps).tables.orders|
    ensures var r := EvaluateOrderReceipt(RunWorld(w, steps), i, receipt, root, now);
            r.Ok? ==>
              && r.value.state != CURRENT
              && (Revokes(FeedAt(w.life.publications, p), receipt) ==>
                    r.value.state in {REVOKED_KEY_COMPROMISE, REVOKED_EVALUATOR_DEFECT, UNKNOWN})
  {
    hide ReachableWorld, Withdraws, Revokes, Publish, Take, RunWorld, OrdersOf;
    LogOnlyGrows(w, steps);
    var w' := RunWorld(w, steps);
    assert w'.life.publications[p] == w.life.publications[p];
    hide EvaluateReceiptLifecycle;
    WithdrawalIsIrrevocable(w', p, |w'.life.publications| - 1, receipt, root, now, 0);
  }

  // ----- Drafting and publishing agree --------------------------------------------------------------------

  /** A row of the status table passes the transition checks unchanged. */
  lemma SoundRowPasses(id: string, row: StatusRow, delivered: set<string>)
    requires RowSound(id, row, delivered)
    ensures TransitionError(Some(row), RecordFromRow(id, row), delivered).None?
  {
  }

  lemma NewRecordPasses(record: Record, delivered: set<string>)
    requires record.status.Current? && record.supersededBy.Absent? && record.reason.Absent?
    ensures TransitionError(None, record, delivered).None?
  {
  }

  /** A draft that asks for no change never fails a transition check. */
  lemma UnchangedDraftPasses(w: World)
    requires ReachableWorld(w)
    ensures DeriveRecords(OrdersOf(w), w.life.status, map[]).Ok?
  {
    hide ReachableWorld, LogOk, StatusOk, DeliveredOk, TransitionError;
    ReachableLog(w);
    var orders, status := OrdersOf(w), w.life.status;
    var records := DraftRecords(orders, status, map[]);
    forall r <- records
      ensures TransitionError(RowOf(status, r.receiptId), r, ReceiptIds(orders)).None?
    {
      var k :| 0 <= k < |records| && records[k] == r;
      if orders[k].receipt.id in status {
        SoundRowPasses(r.receiptId, status[r.receiptId], ReceiptIds(orders));
      } else {
        NewRecordPasses(r, ReceiptIds(orders));
      }
    }
    AllTransitionsPass(records, status, ReceiptIds(orders));
  }

  lemma DraftCovers(orders: seq<Delivered>, status: map<string, StatusRow>, requested: map<string, Change>)
    ensures RecordIds(DraftRecords(orders, status, requested)) == ReceiptIds(orders)
  {
    var records := DraftRecords(orders, status, requested);
    forall k | 0 <= k < |orders|
      ensures records[k].receiptId == orders[k].receipt.id && records[k] in records && orders[k] in orders
    {
    }
    assert forall id <- ReceiptIds(orders) :: id in RecordIds(records);
  }

  /** Writing times in whole seconds cannot stretch a lifetime past seven days. */
  lemma TruncationKeepsLifetime(generatedAt: int, expiresAt: int)
    requires expiresAt - generatedAt <= MAX_FEED_LIFETIME
    ensures FormatTime(expiresAt) - FormatTime(generatedAt) <= MAX_FEED_LIFETIME
  {
    var a, b := generatedAt / MICROS, expiresAt / MICROS;
    assert FormatTime(generatedAt) == a * MICROS && FormatTime(expiresAt) == b * MICROS;
    assert (b - a) * MICROS < (7 * 24 * 3600 + 1) * MICROS;
  }

  /** `e` is the draft signed by `root` with a payload the signer accepts. */
  predicate SignedDraft(e: Envelope, feed: Feed, root: Jwk) {
    e.payload.feed == feed && e.signer == root && e.keyId == JwkThumbprint(root) && 1 <= |e.payload.text| <= MAX_PAYLOAD_BYTES
  }

  predicate InWindow(feed: Feed, observed: int) {
    feed.generatedAt <= observed + CLOCK_SKEW && observed < feed.expiresAt
  }

  /**
   A draft of a reachable store, signed by the bound root (or by the first root) and published
   with nothing in between and the clock in its window, is published exactly when its envelope
   is within the publication size limit; and then it becomes the next publication.
   */
  lemma DraftIsPublishable(
    w: World, issuers: seq<Issuer>, generatedAt: int, expiresAt: int, requested: map<string, Change>, feed: Feed,
    e: Envelope, root: Jwk, observed: int)
    requires ReachableWorld(w) && BuildDraft(w.life, OrdersOf(w), issuers, generatedAt, expiresAt, requested) == Ok(feed)
    requires SignedDraft(e, feed, root) && InWindow(feed, observed) && (w.life.root.Some? ==> w.life.root.value == root)
    ensures var (life', r) := Publish(w.life, OrdersOf(w), e, root, observed);
            && (r.Ok? <==> 1 <= e.size <= MAX_PUBLISH_BYTES)
            && (r.Ok? ==>
                  && r.value == |w.life.publications| + 1
                  && life'.publications == w.life.publications + [Publication(root, e.payload, e, FormatTime(observed))])
  {
    hide ReachableWorld;
    ReachableLog(w);
    TruncationKeepsLifetime(generatedAt, expiresAt);
    DraftCovers(OrdersOf(w), w.life.status, requested);
    if w.life.publications != [] {
      assert FeedAt(w.life.publications, |w.life.publications| - 1).sequence == |w.life.publications|;
    }
    hide LogOk, StatusOk, RowsOk, DeliveredOk, UpsertAll, TransitionsError, IssuersMoveForward, DraftRecords, FormatTime, OrdersOf;
    assert VerifyEnvelope(e, root) == if 1 <= e.size <= MAX_ENVELOPE_BYTES then Ok(e.payload) else Err(InvalidEnvelope);
  }

  /** The envelope carries the text of its payload in base64. */
  predicate CarriesText(e: Envelope) { e.size >= 4 * ((|e.payload.text| + 2) / 3) }

  /** The longest payload text whose envelope can be published. */
  const MAX_PUBLISHABLE_TEXT := 825_000

  /**
   The signer takes any text of the draft up to a million bytes, but base64 makes its envelope a third
   larger: beyond 825,000 bytes the draft of a reachable store, signed by the right root in its window, is
   refused for its size, and nothing changes.
   */
  lemma LargeDraftsCannotBePublished(
    w: World, issuers: seq<Issuer>, generatedAt: int, expiresAt: int, requested: map<string, Change>, feed: Feed,
    e: Envelope, root: Jwk, observed: int)
    requires ReachableWorld(w) && BuildDraft(w.life, OrdersOf(w), issuers, generatedAt, expiresAt, requested) == Ok(feed)
    requires SignedDraft(e, feed, root) && InWindow(feed, observed) && (w.life.root.Some? ==> w.life.root.value == root)
    requires CarriesText(e) && |e.payload.text| > MAX_PUBLISHABLE_TEXT
    ensures Publish(w.life, OrdersOf(w), e, root, observed) == (w.life, Err(InvalidFeed))
  {
  }

  function Blanks(n: nat): (text: string)
    ensures |text| == n
  {
    seq(n, _ => ' ')
  }

  /** What is taken from the JSON parser: blanks behind a document do not change what it says. */
  ghost predicate IgnoresBlanks(parse: string -> Option<Feed>) {
    forall text: string, n: nat :: parse(text).Some? ==> parse(text + Blanks(n)) == parse(text)
  }

  /**
   The text is the signer's choice, so every draft that can be published has a signed form that cannot:
   the same text with blanks behind it, up to the million bytes the signer takes.
   */
  lemma EveryDraftHasALargeForm(
    w: World, issuers: seq<Issuer>, generatedAt: int, expiresAt: int, requested: map<string, Change>, feed: Feed,
    e: Envelope, root: Jwk, observed: int, parse: string -> Option<Feed>) returns (large: Envelope)
    requires ReachableWorld(w) && BuildDraft(w.life, OrdersOf(w), issuers, generatedAt, expiresAt, requested) == Ok(feed)
    requires SignedDraft(e, feed, root) && InWindow(feed, observed) && (w.life.root.Some? ==> w.life.root.value == root)
    requires CarriesText(e) && 1 <= e.size <= MAX_PUBLISH_BYTES
    requires IgnoresBlanks(parse) && parse(e.payload.text) == Some(feed)
    ensures Publish(w.life, OrdersOf(w), e, root, observed).1 == Ok(|w.life.publications| + 1)
    ensures SignedDraft(large, feed, root) && CarriesText(large) && parse(large.payload.text) == Some(feed)
    ensures Publish(w.life, OrdersOf(w), large, root, observed) == (w.life, Err(InvalidFeed))
  {
    hide ReachableWorld, BuildDraft, Publish, InWindow;
    var text := e.payload.text + Blanks(MAX_PAYLOAD_BYTES - |e.payload.text|);
    large := Envelope(e.keyId, root, Payload(feed, text), 4 * ((|text| + 2) / 3));
    LargeDraftsCannotBePublished(w, issuers, generatedAt, expiresAt, requested, feed, large, root, observed);
    DraftIsPublishable(w, issuers, generatedAt, expiresAt, requested, feed, e, root, observed);
  }
}
