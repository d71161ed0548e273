/**
 What publications, evaluations and drafts say, in terms of their own members: every publication is signed
 by the root and well formed, each state of an evaluation has its exact condition, a draft carries the
 changes it was asked for, and a publication is accepted exactly under stated conditions.
 */
module PaidLifecycleMeaning {
  import opened Wrappers
  import T = CommerceTables
  import opened Lifecycle
  import opened PaidLifecycle
  import opened PaidLifecycleRuns
  import opened PaidLifecycleResults
  import G = PaidLifecycleGap
  import C = CommerceResults

  // ----- Publications ------------------------------------------------------------------------------

  /** Every record names a receipt, and nothing but a superseded one a successor; reasons are short. */
  ghost predicate WellFormedRecords(receipts: seq<Record>) {
    forall r <- receipts ::
      && |r.receiptId| >= 4 && r.receiptId[..4] == "cpr_"
      && (r.status.Superseded? ==> r.supersededBy.Has? && |r.supersededBy.text| >= 4 && r.supersededBy.text[..4] == "cpr_")
      && (!r.status.Superseded? ==> r.supersededBy == Absent)
      && (r.reason.Has? ==> 1 <= |r.reason.text| <= 500)
  }

  ghost predicate WellFormed(feed: Feed) {
    && feed.sequence > 0 && feed.generatedAt < feed.expiresAt
    && 1 <= |feed.issuers| <= 100 && |IssuerIds(feed.issuers)| == |feed.issuers|
    && (forall k <- feed.issuers :: k.keyId == k.jwk.x)
    && |feed.receipts| <= 100_000 && |RecordIds(feed.receipts)| == |feed.receipts| && WellFormedRecords(feed.receipts)
  }

  lemma {:induction false} DistinctNames(names: seq<string>)
    ensures (forall i, j :: 0 <= i < j < |names| ==> names[i] != names[j]) <==> |set x | x in names| == |names|
    ensures |set x | x in names| <= |names|
  {
    var all := set x | x in names;
    if names != [] {
      var n := |names| - 1;
      var front := names[..n];
      DistinctNames(front);
      var before := set x | x in front;
      assert names == front + [names[n]];
      assert all == before + {names[n]};
      if names[n] in front {
        assert all == before;
        var k :| 0 <= k < n && front[k] == names[n];
        assert names[k] == names[n];
      } else {
        assert forall i | 0 <= i < n :: names[i] == front[i] && front[i] in front;
      }
    } else {
      assert all == {};
    }
  }

  function IssuerNames(issuers: seq<Issuer>): seq<string> { seq(|issuers|, i requires 0 <= i < |issuers| => issuers[i].keyId) }

  function RecordNames(receipts: seq<Record>): seq<string> { seq(|receipts|, i requires 0 <= i < |receipts| => receipts[i].receiptId) }

  lemma IssuersAreDistinct(issuers: seq<Issuer>)
    ensures UniqueIssuers(issuers) <==> |IssuerIds(issuers)| == |issuers|
  {
    var names := IssuerNames(issuers);
    DistinctNames(names);
    assert forall i | 0 <= i < |issuers| :: names[i] == issuers[i].keyId && issuers[i] in issuers;
    assert (set x | x in names) == IssuerIds(issuers);
  }

  lemma RecordsAreDistinct(receipts: seq<Record>)
    ensures UniqueRecords(receipts) <==> |RecordIds(receipts)| == |receipts|
  {
    var names := RecordNames(receipts);
    DistinctNames(names);
    assert forall i | 0 <= i < |receipts| :: names[i] == receipts[i].receiptId && receipts[i] in receipts;
    assert (set x | x in names) == RecordIds(receipts);
  }

  lemma RecordsAreWellFormed(receipts: seq<Record>)
    ensures (forall r <- receipts :: RecordOk(r)) <==> WellFormedRecords(receipts)
  {
  }

  /** Which feeds pass validation. */
  lemma FeedsAreWellFormed(feed: Feed)
    ensures FeedOk(feed) <==> WellFormed(feed)
  {
    hide UniqueIssuers, UniqueRecords, RecordOk, WellFormedRecords;
    IssuersAreDistinct(feed.issuers);
    RecordsAreDistinct(feed.receipts);
    RecordsAreWellFormed(feed.receipts);
  }

  /** A publication: the i-th, signed by the root, well formed, in time, and sound record by record. */
  ghost predicate SoundPublication(p: Publication, root: Jwk, i: nat) {
    && p.root == root && p.envelope.signer == root && p.envelope.keyId == root.x && p.envelope.payload == p.payload
    && 1 <= p.envelope.size <= 1_100_000 && 1 <= |p.payload.text| <= 1_000_000
    && p.payload.feed.sequence == i + 1 && WellFormed(p.payload.feed)
    && InTime(p.payload.feed, p.publishedAt) && RecordsSound(p.payload.feed)
  }

  /** In every reachable world every publication is signed by the bound root and is sound. */
  lemma PublicationsAreSound(w: World, i: nat)
    requires ReachableWorld(w) && i < |w.life.publications|
    ensures w.life.root.Some? && SoundPublication(w.life.publications[i], w.life.root.value, i)
  {
    hide ReachableWorld, StatusOk, RowsOk, DeliveredOk, FeedFollows, InTime, RecordsSound, WellFormed, FeedOk;
    ReachableLog(w);
    assert PublicationOk(w.life.publications[i]);
    FeedsAreWellFormed(w.life.publications[i].payload.feed);
  }

  /** The same when deliveries and publications come between reading the orders and writing. */
  lemma GapPublicationsAreSound(w: G.GapWorld, i: nat)
    requires G.GapReachable(w) && i < |w.life.publications|
    ensures w.life.root.Some? && SoundPublication(w.life.publications[i], w.life.root.value, i)
  {
    hide G.GapReachable, RowsOk, G.IssuersChain, G.RecordsAgree, G.AllRemembered, InTime, RecordsSound, WellFormed, FeedOk;
    G.GapReachableInv(w);
    assert PublicationOk(w.life.publications[i]);
    FeedsAreWellFormed(w.life.publications[i].payload.feed);
  }

  // ----- Evaluations ---------------------------------------------------------------------------------

  /** The feed has the receipt with this status. */
  ghost predicate Lists(feed: Feed, receiptId: string, status: ReceiptStatus) {
    exists r <- feed.receipts :: r.receiptId == receiptId && r.status == status
  }

  ghost predicate KeyCompromised(feed: Feed, keyId: string) {
    exists k <- feed.issuers :: k.keyId == keyId && k.status.Compromised?
  }

  /** Every state a feed can give a receipt, with its exact condition. */
  lemma StatesMean(feed: Feed, issuer: Issuer, receiptId: string, expiresAt: int, now: int)
    requires FeedOk(feed) && issuer in feed.issuers
    ensures var state, bad := StateOf(feed, issuer, receiptId, expiresAt, now), KeyCompromised(feed, issuer.keyId);
            && (state == REVOKED_KEY_COMPROMISE <==> bad || Lists(feed, receiptId, RevokedKeyCompromise))
            && (state == REVOKED_EVALUATOR_DEFECT <==> !bad && Lists(feed, receiptId, RevokedEvaluatorDefect))
            && (state == EXPIRED <==> !bad && expiresAt <= now
                                      && (Lists(feed, receiptId, Current) || Lists(feed, receiptId, Superseded)))
            && (state == SUPERSEDED <==> !bad && now < expiresAt && Lists(feed, receiptId, Superseded))
            && (state == CURRENT <==> !bad && now < expiresAt && Lists(feed, receiptId, Current))
            && (state == UNKNOWN <==> !bad && forall r <- feed.receipts :: r.receiptId != receiptId)
  {
    forall k | k in feed.issuers && k.keyId == issuer.keyId ensures k == issuer {
      IssuerIsFound(feed.issuers, issuer);
      IssuerIsFound(feed.issuers, k);
    }
    forall r | r in feed.receipts && r.receiptId == receiptId ensures FindRecord(feed.receipts, receiptId) == Some(r) {
      RecordIsFound(feed.receipts, r);
    }
  }

  /** The receipt is intact and was signed by the key that the feed lists under the receipt's key identifier. */
  ghost predicate IssuedUnder(feed: Feed, receipt: ReceiptEnvelope) {
    receipt.intact && exists k <- feed.issuers :: k.keyId == receipt.keyId && k.jwk == receipt.signer
  }

  /** The envelope is one the root signed, of a well-formed feed, within the sizes of an envelope. */
  ghost predicate SignedFeed(e: Envelope, root: Jwk) {
    && e.signer == root && e.keyId == root.x && 1 <= e.size <= 2_000_000 && 1 <= |e.payload.text| <= 1_000_000
    && WellFormed(e.payload.feed)
  }

  /**
   An evaluation is answered exactly for a feed that the root signed and an intact receipt that one of its
   issuers signed.  The answer is UNKNOWN without a receipt below the minimum sequence or outside the period
   of the feed; otherwise it is the state of the receipt.
   */
  lemma EvaluationIsAnswered(receipt: ReceiptEnvelope, lifecycle: Envelope, root: Jwk, now: int, minimumSequence: int)
    ensures var r, feed := EvaluateReceiptLifecycle(receipt, lifecycle, root, now, minimumSequence), lifecycle.payload.feed;
            && (r.Ok? <==> SignedFeed(lifecycle, root) && IssuedUnder(feed, receipt))
            && (r.Ok? ==>
                  && r.value.feedSequence == feed.sequence
                  && (r.value.receiptId == None
                      <==> feed.sequence < minimumSequence || now < feed.generatedAt || feed.expiresAt <= now)
                  && (r.value.receiptId == None ==> r.value.state == UNKNOWN)
                  && (r.value.receiptId != None ==>
                        && r.value.receiptId == Some(receipt.receiptId)
                        && exists k <- feed.issuers :: k.keyId == receipt.keyId && k.jwk == receipt.signer
                             && r.value.state == StateOf(feed, k, receipt.receiptId, receipt.expiresAt, now)))
  {
    hide FeedOk, WellFormed, StateOf;
    var feed := lifecycle.payload.feed;
    FeedsAreWellFormed(feed);
    if FeedOk(feed) {
      if k :| k in feed.issuers && k.keyId == receipt.keyId && k.jwk == receipt.signer { IssuerOfFeed(feed, k); }
    }
  }

  /**
   An order's evaluation is answered exactly for its own intact receipt, signed by an issuer of the latest
   feed, under the bound root, while that feed is in its period.
   */
  lemma OrderIsAnswered(w: World, i: nat, receipt: ReceiptEnvelope, root: Jwk, now: int)
    requires ReachableWorld(w) && i < |w.tables.orders|
    ensures EvaluateOrderReceipt(w, i, receipt, root, now).Ok?
            <==> w.life.root == Some(root) && LatestFeed(w.life).Some?
                 && AnswersForOrder(w.tables.orders[i], receipt, LatestFeed(w.life).value)
                 && LatestFeed(w.life).value.generatedAt <= now < LatestFeed(w.life).value.expiresAt
  {
    hide ReachableWorld, EvaluateReceiptLifecycle, WellFormed, InTime, RecordsSound;
    if w.life.publications != [] {
      var n := |w.life.publications| - 1;
      PublicationsAreSound(w, n);
      FirstFeedIsPositive(LatestFeed(w.life).value);
      EvaluationIsAnswered(receipt, w.life.publications[n].envelope, root, now, 0);
    }
  }

  lemma FirstFeedIsPositive(feed: Feed)
    requires WellFormed(feed)
    ensures feed.sequence > 0
  {
  }

  // ----- Drafts ------------------------------------------------------------------------------------------

  predicate FieldIs(f: Field, value: Option<string>) { f == if value.Some? then Has(value.value) else Absent }

  /** The record of a receipt that a draft was not asked to change. */
  predicate IsAsBefore(r: Record, status: map<string, StatusRow>) {
    if r.receiptId in status then
      && r.status == status[r.receiptId].status && FieldIs(r.supersededBy, status[r.receiptId].supersededBy)
      && FieldIs(r.reason, status[r.receiptId].reason)
    else r.status.Current? && r.supersededBy.Absent? && r.reason.Absent?
  }

  /** The record is the requested change, or as before if none was requested. */
  predicate IsDrafted(r: Record, status: map<string, StatusRow>, requested: map<string, Change>) {
    if r.receiptId in requested then
      && r.status == requested[r.receiptId].status && r.supersededBy == requested[r.receiptId].supersededBy
      && r.reason == requested[r.receiptId].reason
    else IsAsBefore(r, status)
  }

  /** t in whole seconds. */
  predicate IsCutTo(t: int, seconds: int) { seconds % 1_000_000 == 0 && seconds <= t < seconds + 1_000_000 }

  /**
   A draft has one record for each delivered receipt and no others: the requested change where one was asked
   for, the record of the status table where there is one, and a plain current record for the rest.  It is the
   next feed, with the given issuers and the times in whole seconds.
   */
  lemma DraftCarriesRequests(
    w: World, issuers: seq<Issuer>, generatedAt: int, expiresAt: int, requested: map<string, Change>, feed: Feed)
    requires ReachableWorld(w) && BuildDraft(w.life, OrdersOf(w), issuers, generatedAt, expiresAt, requested) == Ok(feed)
    ensures feed.sequence == |w.life.publications| + 1 && feed.issuers == issuers
    ensures IsCutTo(generatedAt, feed.generatedAt) && IsCutTo(expiresAt, feed.expiresAt)
    ensures |feed.receipts| == |OrdersOf(w)| && (forall d <- OrdersOf(w) :: d.receipt.id in RecordIds(feed.receipts))
    ensures forall r <- feed.receipts :: IsDrafted(r, w.life.status, requested)
    ensures forall id <- requested.Keys :: exists r <- feed.receipts ::
              r.receiptId == id && r.status == requested[id].status
              && r.supersededBy == requested[id].supersededBy && r.reason == requested[id].reason
  {
    hide ReachableWorld, OrdersOf, DraftRecords, BuildDraft;
    DraftHeader(w, issuers, generatedAt, expiresAt, requested, feed);
    var orders, status := OrdersOf(w), w.life.status;
    DraftCovers(orders, status, requested);
    DraftedRecords(orders, status, requested);
    forall id | id in requested.Keys
      ensures exists r <- feed.receipts :: r.receiptId == id && r.status == requested[id].status
                                           && r.supersededBy == requested[id].supersededBy && r.reason == requested[id].reason
    {
      assert id in RecordIds(feed.receipts);
      var r :| r in feed.receipts && r.receiptId == id;
      assert IsDrafted(r, status, requested);
    }
  }

  lemma DraftedRecords(orders: seq<Delivered>, status: map<string, StatusRow>, requested: map<string, Change>)
    ensures forall r <- DraftRecords(orders, status, requested) :: IsDrafted(r, status, requested)
  {
    var records := DraftRecords(orders, status, requested);
    forall r | r in records ensures IsDrafted(r, status, requested) {
      var k :| 0 <= k < |records| && records[k] == r;
      assert r == DraftRecord(orders[k], status, requested);
    }
  }

  lemma DraftHeader(
    w: World, issuers: seq<Issuer>, generatedAt: int, expiresAt: int, requested: map<string, Change>, feed: Feed)
    requires ReachableWorld(w) && BuildDraft(w.life, OrdersOf(w), issuers, generatedAt, expiresAt, requested) == Ok(feed)
    ensures feed.sequence == |w.life.publications| + 1 && feed.issuers == issuers
    ensures IsCutTo(generatedAt, feed.generatedAt) && IsCutTo(expiresAt, feed.expiresAt)
    ensures feed.receipts == DraftRecords(OrdersOf(w), w.life.status, requested)
    ensures requested.Keys <= ReceiptIds(OrdersOf(w))
  {
    hide ReachableWorld, FeedOk, IssuersMoveForward, TransitionsError, StatusOk, RowsOk, DeliveredOk, OrdersOf, DraftRecords;
    ReachableLog(w);
    if w.life.publications != [] { assert FeedAt(w.life.publications, |w.life.publications| - 1).sequence == |w.life.publications|; }
  }

  /** Delivered orders, and with them the records of a draft, come in the order of their receipt identifiers. */
  lemma {:induction false} DeliveredInOrder(orders: seq<T.Order>)
    ensures InReceiptOrder(DeliveredOrders(orders))
  {
    hide InReceiptOrder;
    if orders == [] {
      NothingDelivered();
    } else {
      var n := |orders| - 1;
      DeliveredInOrder(orders[..n]);
      if orders[n].status.Delivered? && orders[n].receipt.Some? {
        InsertKeepsReceiptOrder(Delivered(orders[n].id, orders[n].receipt.value), DeliveredOrders(orders[..n]));
      }
    }
  }

  ghost predicate InReceiptOrder(orders: seq<Delivered>) {
    forall i, j :: 0 <= i < j < |orders| ==> T.TextLeq(orders[i].receipt.id, orders[j].receipt.id)
  }

  lemma NothingDelivered()
    ensures InReceiptOrder([])
  {
  }

  lemma {:induction false} InsertKeepsReceiptOrder(d: Delivered, rest: seq<Delivered>)
    requires InReceiptOrder(rest)
    ensures InReceiptOrder(InsertByReceipt(d, rest))
  {
    hide T.TextLeq;
    if rest != [] {
      var head, tail := rest[0], rest[1..];
      assert rest == [head] + tail;
      if T.TextLeq(d.receipt.id, head.receipt.id) {
        forall j | 0 < j < |rest| ensures T.TextLeq(d.receipt.id, rest[j].receipt.id) {
          C.TextTransitive(d.receipt.id, head.receipt.id, rest[j].receipt.id);
        }
      } else {
        InsertKeepsReceiptOrder(d, tail);
        C.TextTotal(d.receipt.id, head.receipt.id);
        var after := InsertByReceipt(d, tail);
        forall j | 0 <= j < |after| ensures T.TextLeq(head.receipt.id, after[j].receipt.id) {
          assert after[j] in after;
          if after[j] != d {
            var k :| 0 <= k < |tail| && tail[k] == after[j];
            assert rest[k + 1] == after[j];
          }
        }
      }
    }
  }

  /** What a record may say on its own. */
  predicate IsWellMade(id: string, c: Change, delivered: set<string>) {
    match c.status
    case Current => c.supersededBy.Absent? && c.reason.Absent?
    case Superseded => c.supersededBy.Has? && c.supersededBy.text in delivered && c.supersededBy.text != id
    case RevokedEvaluatorDefect => c.reason.Has?
    case RevokedKeyCompromise => c.reason.Has?
  }

  /** A new receipt begins as current; a current one may become anything; a withdrawn one stays exactly as it is. */
  predicate MayBecome(id: string, c: Change, status: map<string, StatusRow>) {
    if id !in status then c.status.Current?
    else status[id].status.Current?
         || (c.status == status[id].status && FieldIs(c.supersededBy, status[id].supersededBy) && FieldIs(c.reason, status[id].reason))
  }

  predicate MaySay(id: string, c: Change, status: map<string, StatusRow>, delivered: set<string>) {
    IsWellMade(id, c, delivered) && MayBecome(id, c, status)
  }

  lemma TransitionMeans(status: map<string, StatusRow>, r: Record, delivered: set<string>)
    requires r.receiptId in status ==> RowSound(r.receiptId, status[r.receiptId], delivered)
    ensures TransitionError(RowOf(status, r.receiptId), r, delivered).None?
            <==> MaySay(r.receiptId, Change(r.status, r.supersededBy, r.reason), status, delivered)
  {
  }

  lemma RowsAreSound(w: World, id: string)
    requires RowsOk(w.life, OrdersOf(w)) && id in w.life.status
    ensures RowSound(id, w.life.status[id], ReceiptIds(OrdersOf(w)))
  {
  }

  /** In a reachable world the records of a draft can be derived exactly when every requested change may be made. */
  lemma RequestsAreAccepted(w: World, requested: map<string, Change>)
    requires ReachableWorld(w)
    ensures DeriveRecords(OrdersOf(w), w.life.status, requested).Ok?
            <==> forall id <- requested.Keys ::
                   id in ReceiptIds(OrdersOf(w)) && MaySay(id, requested[id], w.life.status, ReceiptIds(OrdersOf(w)))
  {
    hide ReachableWorld, LogOk, StatusOk, DeliveredOk, TransitionError, MaySay, RowSound, RowsOk, OrdersOf;
    ReachableLog(w);
    var orders, status, delivered := OrdersOf(w), w.life.status, ReceiptIds(OrdersOf(w));
    var records := DraftRecords(orders, status, requested);
    forall r | r in records
      ensures TransitionError(RowOf(status, r.receiptId), r, delivered).None?
              <==> (r.receiptId in requested ==> MaySay(r.receiptId, requested[r.receiptId], status, delivered))
    {
      var k :| 0 <= k < |records| && records[k] == r;
      if r.receiptId in status { RowsAreSound(w, r.receiptId); }
      TransitionMeans(status, r, delivered);
      if r.receiptId !in requested { UnaskedMaySay(r, status, delivered); }
    }
    if TransitionsError(records, status, delivered).None? { NoTransitionError(records, status, delivered); }
    if forall r <- records :: TransitionError(RowOf(status, r.receiptId), r, delivered).None? {
      AllTransitionsPass(records, status, delivered);
    }
    hide ReceiptIds;
    DraftCovers(orders, status, requested);
    forall id | id in requested.Keys && id in delivered ensures exists r <- records :: r.receiptId == id {
      assert id in RecordIds(records);
    }
  }

  lemma UnaskedMaySay(r: Record, status: map<string, StatusRow>, delivered: set<string>)
    requires IsAsBefore(r, status) && (r.receiptId in status ==> RowSound(r.receiptId, status[r.receiptId], delivered))
    ensures MaySay(r.receiptId, Change(r.status, r.supersededBy, r.reason), status, delivered)
  {
  }

  /**
   Asking for a withdrawal has its effect: once a draft that withdraws a receipt has been signed and
   published, no evaluation of that receipt for an order, after whatever happens next, answers CURRENT.
   */
  lemma DraftedWithdrawalHolds(
    w: World, issuers: seq<Issuer>, generatedAt: int, expiresAt: int, requested: map<string, Change>, feed: Feed,
    e: Envelope, root: Jwk, observed: int, steps: seq<Step>, i: nat, receipt: ReceiptEnvelope, now: int)
    requires ReachableWorld(w) && BuildDraft(w.life, OrdersOf(w), issuers, generatedAt, expiresAt, requested) == Ok(feed)
    requires SignedDraft(e, feed, root) && InWindow(feed, observed) && (w.life.root.Some? ==> w.life.root.value == root)
    requires 1 <= e.size <= 1_100_000
    requires receipt.receiptId in requested && !requested[receipt.receiptId].status.Current?
    ensures var w' := RunWorld(Take(w, Publishing(e, root, observed)), steps);
            && |w'.life.publications| > |w.life.publications|
            && (i < |w'.tables.orders| ==>
                  var r := EvaluateOrderReceipt(w', i, receipt, root, now);
                  r.Ok? ==> r.value.state != CURRENT)
  {
    hide ReachableWorld, BuildDraft, InWindow, SignedDraft, EvaluateOrderReceipt, RunWorld;
    DraftIsPublishable(w, issuers, generatedAt, expiresAt, requested, feed, e, root, observed);
    DraftCarriesRequests(w, issuers, generatedAt, expiresAt, requested, feed);
    var step := Publishing(e, root, observed);
    var w1, p := Take(w, step), |w.life.publications|;
    hide Publish;
    OneStepRuns(w, step);
    LogOnlyGrows(w, [step]);
    DraftIsPayload(e, feed, root);
    assert FeedAt(w1.life.publications, p) == feed && Withdraws(feed, receipt);
    hide Take;
    LogOnlyGrows(w1, steps);
    if i < |RunWorld(w1, steps).tables.orders| { WithdrawnOrderIsNeverCurrent(w1, p, steps, i, receipt, root, now); }
  }

  lemma DraftIsPayload(e: Envelope, feed: Feed, root: Jwk)
    requires SignedDraft(e, feed, root)
    ensures e.payload.feed == feed
  {
  }

  lemma OneStepRuns(w: World, step: Step)
    ensures RunWorld(w, [step]) == Take(w, step)
  {
    hide Take;
    assert [step][1..] == [];
  }

  // ----- Publishing ---------------------------------------------------------------------------------------

  function Rank(status: IssuerStatus): nat {
    if status.Active? then 0 else if status.Retired? then 1 else 2
  }

  /** Every issuer of the prior feed is still there, no better than before. */
  ghost predicate IssuersRise(prior: Feed, next: Feed) {
    forall k <- prior.issuers :: exists k' <- next.issuers :: k'.keyId == k.keyId && Rank(k.status) <= Rank(k'.status)
  }

  lemma ForwardMeans(feed: Feed, prior: Feed)
    requires FeedOk(feed)
    ensures IssuersMoveForward(feed, Some(prior)) <==> IssuersRise(prior, feed)
  {
    forall k | k in feed.issuers ensures FindIssuer(feed.issuers, k.keyId) == Some(k) { IssuerIsFound(feed.issuers, k); }
    hide FeedOk;
    forall k | k in prior.issuers
      ensures (FindIssuer(feed.issuers, k.keyId).Some? && IssuerMayBecome(k.status, FindIssuer(feed.issuers, k.keyId).value.status))
              <==> exists k' <- feed.issuers :: k'.keyId == k.keyId && Rank(k.status) <= Rank(k'.status)
    {
    }
  }

  /** Signed by the root, well formed, in its window, and exactly about what has been delivered. */
  ghost predicate IsProper(orders: seq<Delivered>, e: Envelope, root: Jwk, observed: int) {
    var feed := e.payload.feed;
    && SignedBy(e, root) && WellFormed(feed)
    && feed.generatedAt <= observed + 300_000_000 && observed < feed.expiresAt <= feed.generatedAt + 604_800_000_000
    && orders != []
    && SignerIds(orders) == IssuerIds(feed.issuers) && RecordIds(feed.receipts) == ReceiptIds(orders)
  }

  /** It may come next in the log. */
  ghost predicate IsNext(life: Life, orders: seq<Delivered>, feed: Feed) {
    && feed.sequence == |life.publications| + 1
    && (life.publications != [] ==> IssuersRise(LatestFeed(life).value, feed))
    && forall r <- feed.receipts ::
         MaySay(r.receiptId, Change(r.status, r.supersededBy, r.reason), life.status, ReceiptIds(orders))
  }

  lemma ProperMeans(orders: seq<Delivered>, e: Envelope, root: Jwk, observed: int)
    ensures CheckEnvelope(orders, e, root, observed).Ok? <==> IsProper(orders, e, root, observed)
    ensures CheckEnvelope(orders, e, root, observed).Ok? ==> CheckEnvelope(orders, e, root, observed).value == e.payload
  {
    hide FeedOk, WellFormed;
    FeedsAreWellFormed(e.payload.feed);
  }

  lemma NextMeans(w: World, payload: Payload, root: Jwk)
    requires ReachableWorld(w) && FeedOk(payload.feed)
    ensures Admit(w.life, OrdersOf(w), payload, root) == Ok(true)
            <==> (w.life.root.Some? ==> w.life.root.value == root) && IsNext(w.life, OrdersOf(w), payload.feed)
    ensures Admit(w.life, OrdersOf(w), payload, root) == Ok(false)
            <==> w.life.root == Some(root) && LatestFeed(w.life).Some? && w.life.publications[|w.life.publications| - 1].payload == payload
  {
    hide ReachableWorld, StatusOk, DeliveredOk, TransitionError, MaySay, RowSound, FeedOk, IssuersMoveForward, IssuersRise, OrdersOf;
    ReachableLog(w);
    var orders, status, feed := OrdersOf(w), w.life.status, payload.feed;
    if w.life.publications != [] {
      assert FeedAt(w.life.publications, |w.life.publications| - 1).sequence == |w.life.publications|;
      ForwardMeans(feed, LatestFeed(w.life).value);
    } else {
      NothingToKeep(feed);
    }
    TransitionsMean(w, feed.receipts);
    hide LogOk, RowsOk, TransitionsError;
  }

  lemma NothingToKeep(feed: Feed)
    ensures IssuersMoveForward(feed, None)
  {
  }

  lemma TransitionsMean(w: World, records: seq<Record>)
    requires RowsOk(w.life, OrdersOf(w))
    ensures TransitionsError(records, w.life.status, ReceiptIds(OrdersOf(w))).None?
            <==> forall r <- records :: MaySay(r.receiptId, Change(r.status, r.supersededBy, r.reason), w.life.status, ReceiptIds(OrdersOf(w)))
  {
    hide TransitionError, MaySay, RowSound, RowsOk, OrdersOf;
    var status, delivered := w.life.status, ReceiptIds(OrdersOf(w));
    forall r | r in records
      ensures TransitionError(RowOf(status, r.receiptId), r, delivered).None?
              <==> MaySay(r.receiptId, Change(r.status, r.supersededBy, r.reason), status, delivered)
    {
      if r.receiptId in status { RowsAreSound(w, r.receiptId); }
      TransitionMeans(status, r, delivered);
    }
    if TransitionsError(records, status, delivered).None? { NoTransitionError(records, status, delivered); }
    if forall r <- records :: TransitionError(RowOf(status, r.receiptId), r, delivered).None? {
      AllTransitionsPass(records, status, delivered);
    }
  }

  /**
   A publication goes in exactly when it is proper, under the bound root if there is one, and may come next;
   it is accepted without effect exactly when it is proper and says again what the latest one said.
   */
  lemma PublicationIsAccepted(w: World, e: Envelope, root: Jwk, observed: int)
    requires ReachableWorld(w)
    ensures var (life', r) := Publish(w.life, OrdersOf(w), e, root, observed);
            && (life' != w.life
                <==> IsProper(OrdersOf(w), e, root, observed) && (w.life.root.Some? ==> w.life.root.value == root)
                     && IsNext(w.life, OrdersOf(w), e.payload.feed))
            && (life' == w.life && r.Ok?
                <==> IsProper(OrdersOf(w), e, root, observed) && w.life.root == Some(root) && w.life.publications != []
                     && w.life.publications[|w.life.publications| - 1].payload == e.payload)
  {
    hide ReachableWorld, IsProper, IsNext, Admit, CheckEnvelope, OrdersOf, UpsertAll, WellFormed;
    ProperMeans(OrdersOf(w), e, root, observed);
    if CheckEnvelope(OrdersOf(w), e, root, observed).Ok? {
      ProperIsFeed(OrdersOf(w), e, root, observed);
      NextMeans(w, e.payload, root);
    }
  }

  /** The feed that a draft would be. */
  function Drafted(w: World, issuers: seq<Issuer>, generatedAt: int, expiresAt: int, requested: map<string, Change>): Feed {
    Feed(|w.life.publications| + 1, FormatTime(generatedAt), FormatTime(expiresAt), issuers,
         DraftRecords(OrdersOf(w), w.life.status, requested))
  }

  /**
   A draft is built exactly for a period of at most seven days, when something has been delivered, every
   requested change may be made, the feed is well formed, the issuers are the keys that signed the delivered
   receipts, and none of them is dropped or restored.
   */
  lemma DraftIsBuilt(w: World, issuers: seq<Issuer>, generatedAt: int, expiresAt: int, requested: map<string, Change>)
    requires ReachableWorld(w)
    ensures BuildDraft(w.life, OrdersOf(w), issuers, generatedAt, expiresAt, requested).Ok?
            <==> && generatedAt < expiresAt <= generatedAt + 604_800_000_000 && |requested| <= 100_000 && OrdersOf(w) != []
                 && (forall id <- requested.Keys ::
                       id in ReceiptIds(OrdersOf(w)) && MaySay(id, requested[id], w.life.status, ReceiptIds(OrdersOf(w))))
                 && WellFormed(Drafted(w, issuers, generatedAt, expiresAt, requested))
                 && SignerIds(OrdersOf(w)) == IssuerIds(issuers)
                 && (w.life.publications != [] ==>
                       IssuersRise(LatestFeed(w.life).value, Drafted(w, issuers, generatedAt, expiresAt, requested)))
  {
    hide ReachableWorld, FeedOk, WellFormed, MaySay, StatusOk, RowsOk, DeliveredOk, TransitionsError, IssuersMoveForward, IssuersRise,
         OrdersOf, DraftRecords;
    ReachableLog(w);
    RequestsAreAccepted(w, requested);
    var feed := Drafted(w, issuers, generatedAt, expiresAt, requested);
    FeedsAreWellFormed(feed);
    if w.life.publications != [] {
      assert FeedAt(w.life.publications, |w.life.publications| - 1).sequence == |w.life.publications|;
      if FeedOk(feed) { ForwardMeans(feed, LatestFeed(w.life).value); }
    } else {
      NothingToKeep(feed);
    }
    hide LogOk;
  }

  lemma ProperIsFeed(orders: seq<Delivered>, e: Envelope, root: Jwk, observed: int)
    requires CheckEnvelope(orders, e, root, observed).Ok?
    ensures FeedOk(e.payload.feed)
  {
    hide FeedOk;
  }
}
