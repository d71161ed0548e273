/**
 Publication in two steps.  The delivered orders are read before the write transaction opens, so
 deliveries and other publications can come in between.  A publication from a stale reading may leave
 out receipts that were listed before, but what was withdrawn stays withdrawn.
 */
module PaidLifecycleGap {
  import opened Wrappers
  import T = CommerceTables
  import X = CommerceTransactions
  import I = CommerceInvariant
  import R = CommerceRuns
  import opened Lifecycle
  import opened PaidLifecycle
  import opened PaidLifecycleRuns
  import opened PaidLifecycleResults

  /** Each publisher that has read the delivered orders holds its reading. */
  datatype GapWorld = GapWorld(tables: T.Tables, life: Life, readings: map<nat, seq<Delivered>>)

  datatype GapStep =
    | Trading(op: X.Op)
    | Reading(id: nat)
    | Writing(id: nat, envelope: Envelope, root: Jwk, observed: int)

  ghost function GapTake(w: GapWorld, step: GapStep): GapWorld {
    match step
    case Trading(op) => w.(tables := X.Perform(w.tables, op).0)
    case Reading(id) => w.(readings := w.readings[id := DeliveredOrders(w.tables.orders)])
    case Writing(id, e, root, observed) =>
      if id !in w.readings then w
      else w.(life := Publish(w.life, w.readings[id], e, root, observed).0, readings := w.readings - {id})
  }

  ghost function GapRun(w: GapWorld, steps: seq<GapStep>): GapWorld
    decreases |steps|
  {
    if steps == [] then w else GapRun(GapTake(w, steps[0]), steps[1..])
  }

  ghost predicate GapReachable(w: GapWorld) {
    exists environment: T.Environment, steps: seq<GapStep> ::
      w == GapRun(GapWorld(T.EmptyTables(environment), Life(None, [], map[]), map[]), steps)
  }

  // ----- What the log still satisfies --------------------------------------------------------------

  ghost predicate SoundPublications(publications: seq<Publication>) {
    forall i :: 0 <= i < |publications| ==>
      PublicationOk(publications[i]) && FeedAt(publications, i).sequence == i + 1 && publications[i].root == publications[0].root
  }

  ghost predicate IssuersFollow(prior: Feed, next: Feed) {
    forall k <- prior.issuers :: exists k' <- next.issuers :: k'.keyId == k.keyId && IssuerMayBecome(k.status, k'.status)
  }

  ghost predicate IssuersChain(publications: seq<Publication>) {
    forall i :: 0 < i < |publications| ==> IssuersFollow(FeedAt(publications, i - 1), FeedAt(publications, i))
  }

  /** Where a feed lists a receipt that an earlier one had withdrawn, the record is the same. */
  ghost predicate Agrees(prior: Feed, next: Feed) {
    forall r <- prior.receipts, r' <- next.receipts :: r'.receiptId == r.receiptId && !r.status.Current? ==> Normal(r') == Normal(r)
  }

  ghost predicate RecordsAgree(publications: seq<Publication>) {
    forall i, j :: 0 <= i <= j < |publications| ==> Agrees(FeedAt(publications, i), FeedAt(publications, j))
  }

  /** The status table has a row for every receipt the feed lists, and the record of each it withdraws. */
  ghost predicate Remembers(status: map<string, StatusRow>, feed: Feed) {
    forall r <- feed.receipts ::
      r.receiptId in status && (!r.status.Current? ==> RecordFromRow(r.receiptId, status[r.receiptId]) == Normal(r))
  }

  ghost predicate AllRemembered(status: map<string, StatusRow>, publications: seq<Publication>) {
    forall i :: 0 <= i < |publications| ==> Remembers(status, FeedAt(publications, i))
  }

  ghost predicate GapLife(life: Life, orders: seq<Delivered>) {
    && SoundPublications(life.publications) && IssuersChain(life.publications) && RecordsAgree(life.publications)
    && AllRemembered(life.status, life.publications)
    && (life.root == if life.publications == [] then None else Some(life.publications[0].root))
    && RowsOk(life, orders)
  }

  ghost predicate Subset(some: seq<Delivered>, orders: seq<Delivered>) { forall d <- some :: d in orders }

  ghost predicate GapInv(w: GapWorld) {
    && I.Inv(w.tables) && GapLife(w.life, DeliveredOrders(w.tables.orders))
    && forall id <- w.readings.Keys :: Subset(w.readings[id], DeliveredOrders(w.tables.orders))
  }

  // ----- Importing from a reading --------------------------------------------------------------------

  lemma {:induction false} UpsertsKeepOthers(
    status: map<string, StatusRow>, records: seq<Record>, orders: seq<Delivered>, sequence: int, at: int)
    requires RecordIds(records) <= ReceiptIds(orders)
    ensures var after := UpsertAll(status, records, orders, sequence, at);
            forall id <- status.Keys :: id in after && (id !in RecordIds(records) ==> after[id] == status[id])
  {
    if records != [] {
      LastRecord(records);
      UpsertsKeepOthers(status, records[..|records| - 1], orders, sequence, at);
    }
  }

  /** A record that passes against a withdrawn row is that row's record. */
  lemma PassesUnchanged(row: StatusRow, r: Record, record: Record, delivered: set<string>)
    requires !r.status.Current? && RecordFromRow(record.receiptId, row) == Normal(r)
    requires TransitionError(Some(row), record, delivered).None?
    ensures Normal(record) == Normal(r)
  {
  }

  /** An admitted feed agrees with every feed the status table remembers. */
  lemma AdmittedAgrees(status: map<string, StatusRow>, prior: Feed, next: Feed, delivered: set<string>)
    requires Remembers(status, prior)
    requires forall r' <- next.receipts :: TransitionError(RowOf(status, r'.receiptId), r', delivered).None?
    ensures Agrees(prior, next)
  {
    hide TransitionError;
    forall r <- prior.receipts, r' <- next.receipts | r'.receiptId == r.receiptId && !r.status.Current?
      ensures Normal(r') == Normal(r)
    {
      PassesUnchanged(status[r.receiptId], r, r', delivered);
    }
  }

  /** After the upserts the table remembers the new feed, and still every feed it agrees with. */
  lemma UpsertsRemember(status: map<string, StatusRow>, prior: Feed, next: Feed, orders: seq<Delivered>, at: int)
    requires RecordIds(next.receipts) <= ReceiptIds(orders) && UniqueRecords(next.receipts)
    requires Remembers(status, prior) && Agrees(prior, next)
    ensures var after := UpsertAll(status, next.receipts, orders, next.sequence, at);
            Remembers(after, next) && Remembers(after, prior)
  {
    var after := UpsertAll(status, next.receipts, orders, next.sequence, at);
    UpsertsAreExact(status, next.receipts, orders, next.sequence, at);
    UpsertsKeepOthers(status, next.receipts, orders, next.sequence, at);
    hide UpsertAll, UniqueRecords;
    forall r <- prior.receipts
      ensures r.receiptId in after && (!r.status.Current? ==> RecordFromRow(r.receiptId, after[r.receiptId]) == Normal(r))
    {
      if r.receiptId in RecordIds(next.receipts) {
        var r' :| r' in next.receipts && r'.receiptId == r.receiptId;
        assert RowMatches(after[r'.receiptId], r', next.sequence);
      }
    }
  }

  lemma UniqueAgrees(feed: Feed)
    requires UniqueRecords(feed.receipts)
    ensures Agrees(feed, feed)
  {
    forall r <- feed.receipts, r' <- feed.receipts | r'.receiptId == r.receiptId
      ensures r' == r
    {
      RecordIsFound(feed.receipts, r);
      RecordIsFound(feed.receipts, r');
    }
  }

  lemma ForwardFollows(prior: Feed, next: Feed)
    requires IssuersMoveForward(next, Some(prior))
    ensures IssuersFollow(prior, next)
  {
    forall k <- prior.issuers
      ensures exists k' <- next.issuers :: k'.keyId == k.keyId && IssuerMayBecome(k.status, k'.status)
    {
      var found := FindIssuer(next.issuers, k.keyId);
      assert found.value in next.issuers;
    }
  }

  /** What the checks of a new publication come to. */
  lemma Checked(life: Life, reading: seq<Delivered>, e: Envelope, root: Jwk, observed: int)
    requires CheckEnvelope(reading, e, root, observed) == Ok(e.payload) && Admit(life, reading, e.payload, root) == Ok(true)
    ensures var feed := e.payload.feed;
            && RecordIds(feed.receipts) == ReceiptIds(reading) && UniqueRecords(feed.receipts)
            && PublicationOk(Publication(root, e.payload, e, FormatTime(observed)))
            && feed.sequence == (if life.publications == [] then 1 else LatestFeed(life).value.sequence + 1)
            && (life.root.Some? ==> life.root.value == root)
            && IssuersMoveForward(feed, LatestFeed(life))
            && forall r <- feed.receipts :: TransitionError(RowOf(life.status, r.receiptId), r, ReceiptIds(reading)).None?
  {
    NoTransitionError(e.payload.feed.receipts, life.status, ReceiptIds(reading));
    hide TransitionError, TransitionsError, IssuersMoveForward, FormatTime;
  }

  lemma GapImportKeepsLog(life: Life, orders: seq<Delivered>, reading: seq<Delivered>, e: Envelope, root: Jwk, observed: int)
    requires GapLife(life, orders) && CheckEnvelope(reading, e, root, observed) == Ok(e.payload)
    requires Admit(life, reading, e.payload, root) == Ok(true)
    ensures var life' := Import(life, reading, e, root, observed);
            && SoundPublications(life'.publications) && IssuersChain(life'.publications)
            && life'.root == Some(life'.publications[0].root)
  {
    hide UpsertAll, TransitionsError, RowsOk, RecordsAgree, AllRemembered, CheckEnvelope, Admit, PublicationOk, FeedOk,
         UniqueRecords, TransitionError, IssuersMoveForward, IssuersFollow, FormatTime;
    Checked(life, reading, e, root, observed);
    var n, after := |life.publications|, Import(life, reading, e, root, observed).publications;
    assert forall i | 0 <= i < n :: after[i] == life.publications[i];
    if n > 0 {
      assert FeedAt(life.publications, n - 1).sequence == n;
      ForwardFollows(FeedAt(after, n - 1), FeedAt(after, n));
    }
    assert forall i | 0 < i < n :: IssuersFollow(FeedAt(life.publications, i - 1), FeedAt(life.publications, i));
  }

  lemma GapImportKeepsRecords(life: Life, orders: seq<Delivered>, reading: seq<Delivered>, e: Envelope, root: Jwk, observed: int)
    requires GapLife(life, orders) && CheckEnvelope(reading, e, root, observed) == Ok(e.payload)
    requires Admit(life, reading, e.payload, root) == Ok(true)
    ensures var life' := Import(life, reading, e, root, observed);
            RecordsAgree(life'.publications) && AllRemembered(life'.status, life'.publications)
  {
    var n, feed, life' := |life.publications|, e.payload.feed, Import(life, reading, e, root, observed);
    var at := FormatTime(observed);
    hide FeedOk, UniqueRecords, Agrees, Remembers, UpsertAll, TransitionError, TransitionsError, RowsOk, SoundPublications,
         IssuersChain, FormatTime, CheckEnvelope, Admit, PublicationOk, IssuersMoveForward;
    Checked(life, reading, e, root, observed);
    UniqueAgrees(feed);
    assert forall i | 0 <= i < n :: life'.publications[i] == life.publications[i];
    forall i | 0 <= i < n
      ensures Agrees(FeedAt(life.publications, i), feed) && Remembers(life'.status, FeedAt(life.publications, i))
      ensures Remembers(life'.status, feed)
    {
      StillRemembered(life.status, FeedAt(life.publications, i), feed, reading, at);
    }
    StillRemembered(life.status, feed.(receipts := []), feed, reading, at);
  }

  /** What the table remembers, an admitted feed agrees with, and the table remembers both afterwards. */
  lemma StillRemembered(status: map<string, StatusRow>, prior: Feed, next: Feed, reading: seq<Delivered>, at: int)
    requires RecordIds(next.receipts) <= ReceiptIds(reading) && UniqueRecords(next.receipts)
    requires Remembers(status, prior) || prior.receipts == []
    requires forall r' <- next.receipts :: TransitionError(RowOf(status, r'.receiptId), r', ReceiptIds(reading)).None?
    ensures var after := UpsertAll(status, next.receipts, reading, next.sequence, at);
            Agrees(prior, next) && Remembers(after, next) && Remembers(after, prior)
  {
    hide Agrees, Remembers, UpsertAll, TransitionError, UniqueRecords;
    if prior.receipts == [] { NothingRemembered(status, prior, next); }
    AdmittedAgrees(status, prior, next, ReceiptIds(reading));
    UpsertsRemember(status, prior, next, reading, at);
  }

  lemma NothingRemembered(status: map<string, StatusRow>, none: Feed, feed: Feed)
    requires none.receipts == []
    ensures Remembers(status, none) && Agrees(none, feed)
  {
  }

  lemma GapImportKeepsRows(life: Life, orders: seq<Delivered>, reading: seq<Delivered>, e: Envelope, root: Jwk, observed: int)
    requires RowsOk(life, orders) && Subset(reading, orders) && CheckEnvelope(reading, e, root, observed) == Ok(e.payload)
    requires Admit(life, reading, e.payload, root) == Ok(true)
    ensures RowsOk(Import(life, reading, e, root, observed), orders)
  {
    var feed, at := e.payload.feed, FormatTime(observed);
    var after := UpsertAll(life.status, feed.receipts, reading, feed.sequence, at);
    Checked(life, reading, e, root, observed);
    UpsertsAreExact(life.status, feed.receipts, reading, feed.sequence, at);
    UpsertsKeepOthers(life.status, feed.receipts, reading, feed.sequence, at);
    UpsertOwners(life.status, feed.receipts, reading, orders, feed.sequence, at);
    assert ReceiptIds(reading) <= ReceiptIds(orders);
    hide FeedOk, UniqueRecords, UpsertAll, TransitionError, TransitionsError, RowSound, BelongsTo, FormatTime, ReceiptIds;
    forall id <- after.Keys
      ensures RowSound(id, after[id], ReceiptIds(orders))
    {
      if id in RecordIds(feed.receipts) {
        var r :| r in feed.receipts && r.receiptId == id;
        RecordIsSound(RowOf(life.status, id), r, after[id], ReceiptIds(reading));
        SoundForMore(id, after[id], ReceiptIds(reading), ReceiptIds(orders));
      }
    }
  }

  lemma SoundForMore(id: string, row: StatusRow, some: set<string>, all: set<string>)
    requires RowSound(id, row, some) && some <= all
    ensures RowSound(id, row, all)
  {
  }

  lemma {:induction false} UpsertOwners(
    status: map<string, StatusRow>, records: seq<Record>, reading: seq<Delivered>, orders: seq<Delivered>, sequence: int, at: int)
    requires RecordIds(records) <= ReceiptIds(reading) && Subset(reading, orders)
    requires forall id <- status.Keys :: BelongsTo(status[id], id, orders)
    ensures forall id <- UpsertAll(status, records, reading, sequence, at).Keys ::
              BelongsTo(UpsertAll(status, records, reading, sequence, at)[id], id, orders)
  {
    if records != [] {
      var n := |records| - 1;
      LastRecord(records);
      UpsertOwners(status, records[..n], reading, orders, sequence, at);
      var before := UpsertAll(status, records[..n], reading, sequence, at);
      var row := Upserted(before, records[n], reading, sequence, at);
      assert records[n].receiptId in RecordIds(records);
      assert BelongsTo(row, records[n].receiptId, orders) by {
        if records[n].receiptId !in before { assert OrderOf(reading, records[n].receiptId).Some?; }
      }
      hide BelongsTo, Upserted;
      assert UpsertAll(status, records, reading, sequence, at) == before[records[n].receiptId := row];
    }
  }

  lemma WritingKeepsLife(life: Life, orders: seq<Delivered>, reading: seq<Delivered>, e: Envelope, root: Jwk, observed: int)
    requires GapLife(life, orders) && Subset(reading, orders)
    ensures GapLife(Publish(life, reading, e, root, observed).0, orders)
    ensures life.publications <= Publish(life, reading, e, root, observed).0.publications
  {
    hide SoundPublications, IssuersChain, RecordsAgree, AllRemembered, RowsOk, Admit, Subset;
    if Publish(life, reading, e, root, observed).0 != life {
      assert CheckEnvelope(reading, e, root, observed) == Ok(e.payload);
      GapImportKeepsLog(life, orders, reading, e, root, observed);
      GapImportKeepsRecords(life, orders, reading, e, root, observed);
      GapImportKeepsRows(life, orders, reading, e, root, observed);
    }
  }

  // ----- Runs ------------------------------------------------------------------------------------------

  lemma MoreOrdersKeepLife(life: Life, orders: seq<Delivered>, orders': seq<Delivered>)
    requires GapLife(life, orders) && Subset(orders, orders')
    ensures GapLife(life, orders')
  {
    hide SoundPublications, IssuersChain, RecordsAgree, AllRemembered, RowsOk;
    MoreOrdersKeepRows(life, orders, orders');
  }

  lemma GapTakeKeepsInv(w: GapWorld, step: GapStep)
    requires GapInv(w)
    ensures GapInv(GapTake(w, step)) && w.life.publications <= GapTake(w, step).life.publications
  {
    hide I.Inv, GapLife, Publish, DeliveredOrders;
    match step
    case Trading(op) =>
      var s' := X.Perform(w.tables, op).0;
      R.PerformKeepsInv(w.tables, op);
      PerformKeepsReceipts(w.tables, op);
      DeliveredGrow(w.tables, s');
      MoreOrdersKeepLife(w.life, DeliveredOrders(w.tables.orders), DeliveredOrders(s'.orders));
    case Reading(id) =>
    case Writing(id, e, root, observed) =>
      if id in w.readings { WritingKeepsLife(w.life, DeliveredOrders(w.tables.orders), w.readings[id], e, root, observed); }
  }

  lemma {:induction false} GapRunKeepsInv(w: GapWorld, steps: seq<GapStep>)
    requires GapInv(w)
    ensures GapInv(GapRun(w, steps)) && w.life.publications <= GapRun(w, steps).life.publications
    decreases |steps|
  {
    hide GapInv, GapTake;
    if steps != [] {
      GapTakeKeepsInv(w, steps[0]);
      GapRunKeepsInv(GapTake(w, steps[0]), steps[1..]);
    }
  }

  lemma GapReachableInv(w: GapWorld)
    requires GapReachable(w)
    ensures GapInv(w)
  {
    var environment: T.Environment, steps: seq<GapStep> :|
      w == GapRun(GapWorld(T.EmptyTables(environment), Life(None, [], map[]), map[]), steps);
    GapRunKeepsInv(GapWorld(T.EmptyTables(environment), Life(None, [], map[]), map[]), steps);
  }

  // ----- Irrevocability across the gap ---------------------------------------------------------------------

  lemma {:induction false} CompromiseStays(publications: seq<Publication>, i: nat, j: nat, keyId: string)
    requires IssuersChain(publications) && i <= j < |publications|
    requires exists k <- FeedAt(publications, i).issuers :: k.keyId == keyId && k.status.Compromised?
    ensures exists k <- FeedAt(publications, j).issuers :: k.keyId == keyId && k.status.Compromised?
    decreases j
  {
    if i < j {
      CompromiseStays(publications, i, j - 1, keyId);
      assert IssuersFollow(FeedAt(publications, j - 1), FeedAt(publications, j));
    }
  }

  /** What a later feed says of a withdrawn receipt, if it lists it at all. */
  lemma WithdrawnState(publications: seq<Publication>, i: nat, j: nat, issuer: Issuer, receipt: ReceiptEnvelope, now: int)
    requires IssuersChain(publications) && RecordsAgree(publications) && i <= j < |publications|
    requires FeedOk(FeedAt(publications, j)) && Withdraws(FeedAt(publications, i), receipt)
    requires FindIssuer(FeedAt(publications, j).issuers, receipt.keyId) == Some(issuer)
    ensures var state := StateOf(FeedAt(publications, j), issuer, receipt.receiptId, receipt.expiresAt, now);
            && state != CURRENT
            && (Revokes(FeedAt(publications, i), receipt) ==> state in {REVOKED_KEY_COMPROMISE, REVOKED_EVALUATOR_DEFECT, UNKNOWN})
  {
    var before, after := FeedAt(publications, i), FeedAt(publications, j);
    assert Agrees(before, after);
    if exists k <- before.issuers :: k.keyId == receipt.keyId && k.status.Compromised? {
      CompromiseStays(publications, i, j, receipt.keyId);
      var k :| k in after.issuers && k.keyId == receipt.keyId && k.status.Compromised?;
      IssuerIsFound(after.issuers, k);
    } else {
      hide FeedOk, IssuersChain, RecordsAgree;
      var r :| r in before.receipts && r.receiptId == receipt.receiptId && !r.status.Current?
               && (Revokes(before, receipt) ==> !r.status.Superseded?);
      var found := FindRecord(after.receipts, receipt.receiptId);
      if found.Some? { assert Normal(found.value) == Normal(r); }
    }
  }

  /**
   Even when deliveries and other publications come between a publisher's reading and its writing: once
   publication i withdraws a receipt, evaluating it against publication i or any later one never answers
   CURRENT, and never EXPIRED or SUPERSEDED if it was revoked.
   */
  lemma WithdrawalSurvivesTheGap(
    w: GapWorld, i: nat, j: nat, receipt: ReceiptEnvelope, root: Jwk, now: int, minimumSequence: int)
    requires GapReachable(w) && i <= j < |w.life.publications| && Withdraws(FeedAt(w.life.publications, i), receipt)
    ensures var r := EvaluateReceiptLifecycle(receipt, w.life.publications[j].envelope, root, now, minimumSequence);
            r.Ok? ==>
              && r.value.state != CURRENT
              && (Revokes(FeedAt(w.life.publications, i), receipt) ==>
                    r.value.state in {REVOKED_KEY_COMPROMISE, REVOKED_EVALUATOR_DEFECT, UNKNOWN})
  {
    hide GapReachable, I.Inv, Revokes, Withdraws, RowsOk, AllRemembered, FeedOk, StateOf, FindIssuer, IssuersChain, RecordsAgree;
    GapReachableInv(w);
    var feed := FeedAt(w.life.publications, j);
    assert PublicationOk(w.life.publications[j]);
    var issuer := FindIssuer(feed.issuers, receipt.keyId);
    if issuer.Some? { WithdrawnState(w.life.publications, i, j, issuer.value, receipt, now); }
  }

  // ----- What the gap can leave out ----------------------------------------------------------------------------

  /** A new publication lists every receipt of the status table exactly when its reading had them all. */
  lemma ListsWhatWasRead(life: Life, reading: seq<Delivered>, e: Envelope, root: Jwk, observed: int)
    requires Publish(life, reading, e, root, observed).0 != life
    ensures var life' := Publish(life, reading, e, root, observed).0;
            RecordIds(LatestFeed(life').value.receipts) == life'.status.Keys <==> life.status.Keys <= ReceiptIds(reading)
  {
    var feed := e.payload.feed;
    assert CheckEnvelope(reading, e, root, observed) == Ok(e.payload);
    assert UniqueRecords(feed.receipts);
    UpsertsAreExact(life.status, feed.receipts, reading, feed.sequence, FormatTime(observed));
    hide UpsertAll, Admit, FeedOk, UniqueRecords, FormatTime;
  }

  const ROOT_KEY := Jwk("R")

  function Signed(feed: Feed, text: string): Envelope { Envelope("R", ROOT_KEY, Payload(feed, text), 1) }

  function CurrentRecord(d: Delivered): Record { Record(d.receipt.id, Current, Absent, Absent) }

  function FeedFor(sequence: int, orders: seq<Delivered>): Feed
    requires orders != []
  {
    var key := orders[0].receipt.signingKeyId;
    Feed(sequence, 0, MICROS, [Issuer(key, Jwk(key), Active)], seq(|orders|, i requires 0 <= i < |orders| => CurrentRecord(orders[i])))
  }

  /**
   The input: a publisher reads order a, then b is delivered and published with a, and the publisher writes a
   feed for a alone.  Both are accepted, and the latest feed no longer lists b, which the status table knows.
   */
  lemma GapLeavesOut(a: Delivered, b: Delivered)
    requires a.receipt.id != b.receipt.id && IsReceiptName(a.receipt.id) && IsReceiptName(b.receipt.id)
    requires a.receipt.signingKeyId == b.receipt.signingKeyId
    ensures var (life1, r1) := Publish(Life(None, [], map[]), [a, b], Signed(FeedFor(1, [a, b]), "1"), ROOT_KEY, 0);
            var (life2, r2) := Publish(life1, [a], Signed(FeedFor(2, [a]), "2"), ROOT_KEY, 0);
            && r1 == Ok(1) && r2 == Ok(2)
            && b.receipt.id in life2.status && b.receipt.id !in RecordIds(LatestFeed(life2).value.receipts)
  {
    hide UpsertAll;
    FirstIsPublished(a, b);
    SecondIsPublished(a, b);
  }

  lemma FirstIsPublished(a: Delivered, b: Delivered)
    requires a.receipt.id != b.receipt.id && IsReceiptName(a.receipt.id) && IsReceiptName(b.receipt.id)
    requires a.receipt.signingKeyId == b.receipt.signingKeyId
    ensures var feed := FeedFor(1, [a, b]);
            var (life1, r1) := Publish(Life(None, [], map[]), [a, b], Signed(feed, "1"), ROOT_KEY, 0);
            && r1 == Ok(1) && life1.root == Some(ROOT_KEY) && LatestFeed(life1) == Some(feed) && |life1.publications| == 1
            && life1.status.Keys == {a.receipt.id, b.receipt.id}
            && forall d <- [a, b] :: RecordFromRow(d.receipt.id, life1.status[d.receipt.id]) == CurrentRecord(d)
  {
    var orders, feed := [a, b], FeedFor(1, [a, b]);
    assert feed.receipts == [CurrentRecord(a), CurrentRecord(b)];
    assert RecordIds(feed.receipts) == {a.receipt.id, b.receipt.id} == ReceiptIds(orders) by {
      assert feed.receipts[0] in feed.receipts && feed.receipts[1] in feed.receipts && orders[0] in orders && orders[1] in orders;
    }
    assert SignerIds(orders) == {a.receipt.signingKeyId} == IssuerIds(feed.issuers) by {
      assert feed.issuers[0] in feed.issuers && orders[0] in orders;
    }
    assert FeedOk(feed);
    AllTransitionsPass(feed.receipts, map[], ReceiptIds(orders));
    UpsertsAreExact(map[], feed.receipts, orders, 1, 0);
    hide UpsertAll, FeedOk, TransitionsError, ReceiptIds, SignerIds, IssuerIds, RecordIds;
    var life1 := Publish(Life(None, [], map[]), orders, Signed(feed, "1"), ROOT_KEY, 0).0;
    forall d <- orders ensures d.receipt.id in life1.status && RecordFromRow(d.receipt.id, life1.status[d.receipt.id]) == CurrentRecord(d) {
      assert CurrentRecord(d) in feed.receipts;
    }
  }

  lemma SecondIsPublished(a: Delivered, b: Delivered)
    requires a.receipt.id != b.receipt.id && IsReceiptName(a.receipt.id) && IsReceiptName(b.receipt.id)
    requires a.receipt.signingKeyId == b.receipt.signingKeyId
    ensures var life1 := Publish(Life(None, [], map[]), [a, b], Signed(FeedFor(1, [a, b]), "1"), ROOT_KEY, 0).0;
            var (life2, r2) := Publish(life1, [a], Signed(FeedFor(2, [a]), "2"), ROOT_KEY, 0);
            && r2 == Ok(2) && b.receipt.id in life2.status && LatestFeed(life2) == Some(FeedFor(2, [a]))
            && b.receipt.id !in RecordIds(FeedFor(2, [a]).receipts)
  {
    FirstIsPublished(a, b);
    var orders, feed, prior := [a], FeedFor(2, [a]), FeedFor(1, [a, b]);
    var life1 := Publish(Life(None, [], map[]), [a, b], Signed(prior, "1"), ROOT_KEY, 0).0;
    hide Publish;
    assert feed.receipts == [CurrentRecord(a)];
    assert RecordIds(feed.receipts) == {a.receipt.id} == ReceiptIds(orders) by {
      assert feed.receipts[0] in feed.receipts && orders[0] in orders;
    }
    assert SignerIds(orders) == {a.receipt.signingKeyId} == IssuerIds(feed.issuers) by {
      assert feed.issuers[0] in feed.issuers && orders[0] in orders;
    }
    assert FeedOk(feed);
    assert IssuersMoveForward(feed, Some(prior)) by { SameIssuers(feed, prior); }
    assert a in [a, b];
    AllTransitionsPass(feed.receipts, life1.status, ReceiptIds(orders));
    UpsertsKeepOthers(life1.status, feed.receipts, orders, 2, 0);
    PublishedSecond(life1, orders, feed);
  }

  lemma SameIssuers(feed: Feed, prior: Feed)
    requires feed.issuers == prior.issuers && UniqueIssuers(feed.issuers)
    ensures IssuersMoveForward(feed, Some(prior))
  {
    forall k <- prior.issuers ensures FindIssuer(feed.issuers, k.keyId) == Some(k) { IssuerIsFound(feed.issuers, k); }
  }

  /** What the checks of a second publication come to. */
  lemma PublishedSecond(life: Life, orders: seq<Delivered>, feed: Feed)
    requires life.root == Some(ROOT_KEY) && LatestFeed(life).Some? && LatestFeed(life).value.sequence == 1 && feed.sequence == 2
    requires FeedOk(feed) && feed.generatedAt == 0 && feed.expiresAt == MICROS && orders != []
    requires RecordIds(feed.receipts) == ReceiptIds(orders) && SignerIds(orders) == IssuerIds(feed.issuers)
    requires IssuersMoveForward(feed, LatestFeed(life)) && TransitionsError(feed.receipts, life.status, ReceiptIds(orders)).None?
    ensures var (life2, r2) := Publish(life, orders, Signed(feed, "2"), ROOT_KEY, 0);
            && r2 == Ok(2) && LatestFeed(life2) == Some(feed)
            && life2.status == UpsertAll(life.status, feed.receipts, orders, 2, 0)
  {
    hide FeedOk, TransitionsError, ReceiptIds, SignerIds, IssuerIds, RecordIds, UpsertAll, IssuersMoveForward;
  }
}
