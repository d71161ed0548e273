/**
 Root-signed lifecycle feeds and the evaluation of a receipt against one.  A signature is
 ideal: an envelope names the key that really signed it, and verification compares that key
 with the trusted one.  Times are microseconds; a key thumbprint is the key's own text.
 */
module Lifecycle {
  import opened Wrappers

  /** A JSON member that may be missing, null, or present. */
  datatype Field = Absent | Null | Has(text: string)

  datatype IssuerStatus = Active | Retired | Compromised
  datatype ReceiptStatus = Current | Superseded | RevokedEvaluatorDefect | RevokedKeyCompromise

  datatype Jwk = Jwk(x: string)

  datatype Issuer = Issuer(keyId: string, jwk: Jwk, status: IssuerStatus)

  datatype Record = Record(receiptId: string, status: ReceiptStatus, supersededBy: Field, reason: Field)

  datatype Feed = Feed(sequence: int, generatedAt: int, expiresAt: int, issuers: seq<Issuer>, receipts: seq<Record>)

  /** Signed bytes: the document they parse to and their exact text, which is also their digest. */
  datatype Payload = Payload(feed: Feed, text: string)

  datatype Envelope = Envelope(keyId: string, signer: Jwk, payload: Payload, size: nat)

  /** A signed receipt; `intact` says that its integrity digest and schema check out, `sha256` digests the envelope. */
  datatype ReceiptEnvelope = ReceiptEnvelope(
    keyId: string, signer: Jwk, receiptId: string, expiresAt: int, intact: bool, sha256: string)

  datatype Error =
    | InvalidEnvelope | UntrustedKey | InvalidPayload | InvalidSignature | InvalidReceipt
    | InvalidFeed | LifecycleEmpty | Coverage | Rollback | Equivocation | LifecycleMissing | InvalidDelivery

  const MAX_ENVELOPE_BYTES := 2_000_000
  const MAX_PAYLOAD_BYTES := 1_000_000

  function JwkThumbprint(j: Jwk): string { j.x }

  // ----- Validation ----------------------------------------------------------------------------

  predicate IsReceiptName(s: string) { |s| >= 4 && s[..4] == "cpr_" }

  predicate IssuerOk(k: Issuer) { k.keyId == JwkThumbprint(k.jwk) }

  predicate RecordOk(r: Record) {
    && IsReceiptName(r.receiptId)
    && (if r.status.Superseded? then r.supersededBy.Has? && IsReceiptName(r.supersededBy.text) else r.supersededBy.Absent?)
    && (r.reason.Has? ==> 1 <= |r.reason.text| <= 500)
  }

  ghost predicate UniqueIssuers(issuers: seq<Issuer>) {
    forall i, j :: 0 <= i < j < |issuers| ==> issuers[i].keyId != issuers[j].keyId
  }

  ghost predicate UniqueRecords(receipts: seq<Record>) {
    forall i, j :: 0 <= i < j < |receipts| ==> receipts[i].receiptId != receipts[j].receiptId
  }

  ghost predicate FeedOk(feed: Feed) {
    && feed.sequence >= 1 && feed.expiresAt > feed.generatedAt
    && 1 <= |feed.issuers| <= 100 && (forall k <- feed.issuers :: IssuerOk(k)) && UniqueIssuers(feed.issuers)
    && |feed.receipts| <= 100_000 && (forall r <- feed.receipts :: RecordOk(r)) && UniqueRecords(feed.receipts)
  }

  /** Walks the two lists once each, remembering the identifiers already seen. */
  method ValidateLifecycleFeed(feed: Feed) returns (ok: bool)
    ensures ok <==> FeedOk(feed)
  {
    if feed.sequence < 1 || feed.expiresAt <= feed.generatedAt { return false; }
    if !(1 <= |feed.issuers| <= 100) { return false; }
    var seenKeys: set<string> := {};
    for n := 0 to |feed.issuers|
      invariant seenKeys == set k | 0 <= k < n :: feed.issuers[k].keyId
      invariant forall k :: 0 <= k < n ==> IssuerOk(feed.issuers[k])
      invariant UniqueIssuers(feed.issuers[..n])
    {
      var key := feed.issuers[n];
      if key.keyId != JwkThumbprint(key.jwk) {
        assert key in feed.issuers;
        return false;
      }
      if key.keyId in seenKeys { return false; }
      seenKeys := seenKeys + {key.keyId};
    }
    assert feed.issuers[..|feed.issuers|] == feed.issuers;
    if |feed.receipts| > 100_000 { return false; }
    var seenReceipts: set<string> := {};
    for n := 0 to |feed.receipts|
      invariant seenReceipts == set k | 0 <= k < n :: feed.receipts[k].receiptId
      invariant forall k :: 0 <= k < n ==> RecordOk(feed.receipts[k])
      invariant UniqueRecords(feed.receipts[..n])
    {
      var r := feed.receipts[n];
      if !RecordOk(r) {
        assert r in feed.receipts;
        return false;
      }
      if r.receiptId in seenReceipts { return false; }
      seenReceipts := seenReceipts + {r.receiptId};
    }
    assert feed.receipts[..|feed.receipts|] == feed.receipts;
    return true;
  }

  // ----- Verification and evaluation --------------------------------------------------------------

  /** The signature and size checks of one envelope, before its feed is looked at. */
  function VerifyEnvelope(e: Envelope, root: Jwk): Result<Payload, Error> {
    if !(1 <= e.size <= MAX_ENVELOPE_BYTES) then Err(InvalidEnvelope)
    else if e.keyId != JwkThumbprint(root) then Err(UntrustedKey)
    else if !(1 <= |e.payload.text| <= MAX_PAYLOAD_BYTES) then Err(InvalidPayload)
    else if e.signer != root then Err(InvalidSignature)
    else Ok(e.payload)
  }

  ghost function VerifyLifecycleEnvelope(e: Envelope, root: Jwk): Result<Payload, Error> {
    match VerifyEnvelope(e, root)
    case Err(error) => Err(error)
    case Ok(payload) => if FeedOk(payload.feed) then Ok(payload) else Err(InvalidFeed)
  }

  datatype LifecycleState = CURRENT | SUPERSEDED | EXPIRED | REVOKED_EVALUATOR_DEFECT | REVOKED_KEY_COMPROMISE | UNKNOWN

  datatype Evaluation = Evaluation(state: LifecycleState, receiptId: Option<string>, feedSequence: int)

  function FindIssuer(issuers: seq<Issuer>, keyId: string): (r: Option<Issuer>)
    ensures r.Some? ==> r.value in issuers && r.value.keyId == keyId
    ensures r.None? ==> forall k <- issuers :: k.keyId != keyId
  {
    if issuers == [] then None
    else if issuers[0].keyId == keyId then Some(issuers[0])
    else FindIssuer(issuers[1..], keyId)
  }

  function FindRecord(receipts: seq<Record>, receiptId: string): (r: Option<Record>)
    ensures r.Some? ==> r.value in receipts && r.value.receiptId == receiptId
    ensures r.None? ==> forall x <- receipts :: x.receiptId != receiptId
  {
    if receipts == [] then None
    else if receipts[0].receiptId == receiptId then Some(receipts[0])
    else FindRecord(receipts[1..], receiptId)
  }

  /** The state a verified feed gives a verified receipt at one moment. */
  function StateOf(feed: Feed, issuer: Issuer, receiptId: string, expiresAt: int, now: int): LifecycleState {
    if issuer.status.Compromised? then REVOKED_KEY_COMPROMISE
    else
      match FindRecord(feed.receipts, receiptId)
      case None => UNKNOWN
      case Some(record) =>
        if record.status.RevokedKeyCompromise? then REVOKED_KEY_COMPROMISE
        else if record.status.RevokedEvaluatorDefect? then REVOKED_EVALUATOR_DEFECT
        else if expiresAt <= now then EXPIRED
        else if record.status.Superseded? then SUPERSEDED
        else CURRENT
  }

  ghost function EvaluateReceiptLifecycle(
    receipt: ReceiptEnvelope, lifecycle: Envelope, root: Jwk, now: int, minimumSequence: int): Result<Evaluation, Error>
  {
    match VerifyLifecycleEnvelope(lifecycle, root)
    case Err(error) => Err(error)
    case Ok(payload) =>
      var feed := payload.feed;
      match FindIssuer(feed.issuers, receipt.keyId)
      case None => Err(UntrustedKey)
      case Some(issuer) =>
        if receipt.signer != issuer.jwk then Err(InvalidSignature)
        else if !receipt.intact then Err(InvalidReceipt)
        else if feed.sequence < minimumSequence || feed.generatedAt > now || feed.expiresAt <= now
        then Ok(Evaluation(UNKNOWN, None, feed.sequence))
        else Ok(Evaluation(StateOf(feed, issuer, receipt.receiptId, receipt.expiresAt, now), Some(receipt.receiptId), feed.sequence))
  }

  lemma RecordIsFound(receipts: seq<Record>, r: Record)
    requires UniqueRecords(receipts) && r in receipts
    ensures FindRecord(receipts, r.receiptId) == Some(r)
  {
    var found := FindRecord(receipts, r.receiptId);
    var a :| 0 <= a < |receipts| && receipts[a] == r;
    var b :| 0 <= b < |receipts| && receipts[b] == found.value;
  }

  lemma IssuerIsFound(issuers: seq<Issuer>, k: Issuer)
    requires UniqueIssuers(issuers) && k in issuers
    ensures FindIssuer(issuers, k.keyId) == Some(k)
  {
    var found := FindIssuer(issuers, k.keyId);
    var a :| 0 <= a < |issuers| && issuers[a] == k;
    var b :| 0 <= b < |issuers| && issuers[b] == found.value;
  }
}
