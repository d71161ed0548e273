# VouchSpec in Dafny

VouchSpec sells signed evidence receipts about agent skills. This project models the parts of it whose
correctness is decided by code alone, and proves what they promise.

* **Commerce ledger.** `CommerceTables` holds the rows, `CommerceTransactions` one specification function per
  transaction, `CommerceStore` the object whose methods are those transactions. `CommerceInvariant`,
  `CommerceSteps` and `CommerceRuns` prove the joint invariant of order, payment, ledger, history and event
  queue over every run; `CommerceResults` states what follows for a reader of the store, `CommerceProvenance`
  where its rows come from, `CommerceCalls` and `CommerceFulfilment` which calls it accepts and what they leave.
  `CommerceArrival` says exactly when the order in which provider events arrive makes no difference,
  `StripeReplay` what a repeated reconciliation does and `StripeOutcome` what an order shows after one.
* **Lifecycle publication.** `Lifecycle` validates and evaluates feeds; `PaidLifecycle` drafts and publishes
  them, `PaidLifecycleStore` is the object, `PaidLifecycleRuns` interleaves it with the commerce store and
  `PaidLifecycleResults` states the guarantees of the log when publication is one step, `PaidLifecycleGap` what is
  left of them when deliveries and publications come between its reading and its writing. `PaidLifecycleMeaning`
  says what publications, evaluations and drafts mean in terms of their own members. `SequenceFile` is the
  file of last-seen sequences and `SequenceStore` its use by interleaved evaluations.
* **Guards.** `RateLimiter` (a sliding window with lossy key pruning against a full log), `DeliveryTokens`
  (authorise and write in two transactions, interleaved) and `WebhookLease`.
* **Encodings.** `Dsse` (pre-authentication encoding of the DSSE protocol 1.0.2, section "Signature
  Definition"; strict base64 of RFC 4648, sections 3.5, 4 and 5) and `SnapshotDigest`, on top of `Bytes`.
* **Parsers.** `GitResponses` (`git cat-file --batch`), `TreeListing` (`git ls-tree -z -l`) with `RelativePaths`
  (the path check and the walk over ancestors), and `ArchiveExtraction`, on top of `PythonBytes`.
* **Static analysis.** `StaticAnalysis` (the truncating scan), `StaticDecision` (the decision taken from it,
  against an unbounded scan) and `StaticScan` (what the unbounded scan sees).

Objects of the source that change their fields are classes; each method is proved equal to a specification
function of the old state, and the theorems are about those functions, their runs and their interleavings.

## What the proofs turned up

* Reconciling a disputed or refunded charge again is refused as a provider event conflict unless the clock
  gives the same second, because those events carry the time of emission under an identifier that does not.
* A captured and a failed event, or a dispute and a completed refund, or captured events with different fees,
  make the outcome of an order depend on the order of arrival; nothing else does.
* A draft that the signer accepts can exceed the size that publication accepts, and every draft has such a form.
* Evaluating an order against a future or expired feed is a rejection: the unknown answer has no receipt id, so
  the comparison with the order's receipt fails.
* The sequence file accepts a hundred-and-first root, and just as well sequences so long that it grows beyond
  64,000 bytes, and can then never be read again; it stays readable exactly while neither happens. Fifteen roots
  with 4300-digit sequences suffice; a hundred roots with up to 498 digits are safe.
* Within the lease of a grant a webhook event is completed by its handler alone exactly when every earlier handler
  of the event has completed: a retry is exclusive, the takeover of an expired lease is not.
* A publication whose reading of the delivered orders is stale can leave out receipts that were listed before; what
  was withdrawn nevertheless stays withdrawn.
* The `cat-file` parser accepts negative sizes; without them it accepts exactly the well-formed answers.
* The path check of a frozen source says it refuses absolute paths, but lets `/a` through; the listing's walk
  over the ancestors of such a path does not end. The model gives this case an outcome of its own, proved to be
  exactly the listings on which the source does not return.

## Model

| member | source | states |
|---|---|---|
| `CommerceStates.DepthsRise` | `src/capabilityproof/commerce.py:65-86` | every listed order and payment transition leads strictly deeper (at most 5 and 4 levels), so neither table has a cycle |
| `CommerceStates.PassedIsKept` | `src/capabilityproof/commerce.py:76-86` | a payment status that has been passed stays passed along every listed transition |
| `CommerceStates.OrderMovesMean` | `src/capabilityproof/commerce.py:65-74` | the order table: one stage on, or cancelled before payment, failed while payment is pending, or failed between payment and delivery; nothing else |
| `CommerceStates.PaymentMovesMean` | `src/capabilityproof/commerce.py:76-86` | the payment table: only to what lies ahead, captured before anything but failure, refunded only after a pending refund |
| `CommerceTransactions.PassConsumes` | `src/capabilityproof/commerce_store.py:778-876` | a pass that acts on any waiting event leaves strictly fewer waiting events, so the fixpoint loop ends |
| `CommerceStore.Store.CreateQuote` | `src/capabilityproof/commerce_store.py:242-329` | the live gates, a malformed request, a declined maximum price, a repeated and a conflicting quote leave the tables and reply the specification names, and the invariant is kept |
| `CommerceStore.Store.CreateOrder` | `src/capabilityproof/commerce_store.py:331-405` | creating an order, with its idempotency replays and rejections, does exactly what the specification says and keeps the invariant |
| `CommerceStore.Store.AttachCheckout` | `src/capabilityproof/commerce_store.py:407-463` | attaching a checkout, its repeat and its conflicts, does exactly what the specification says and keeps the invariant |
| `CommerceStore.Store.BindProviderPayment` | `src/capabilityproof/commerce_store.py:465-493` | binding a provider payment does exactly what the specification says and keeps the invariant |
| `CommerceStore.Store.ReconcileEvent` | `src/capabilityproof/commerce_store.py:782-875` | one event in one reconciliation step: mismatch, already there, FAILED, captured, refunded or another move, with every table it writes |
| `CommerceStore.Store.ReconcilePayment` | `src/capabilityproof/commerce_store.py:771-876` | the `while made_progress` loop over the ordered queue computes the fixpoint of passes |
| `CommerceStore.Store.IngestProviderEvent` | `src/capabilityproof/commerce_store.py:495-543` | validation, duplicate and conflict detection, insertion and reconciliation of one event; the invariant holds again afterwards |
| `CommerceStore.Store.RecordDirectCosts` | `src/capabilityproof/commerce_store.py:545-591` | one cost record and one ledger entry per category, once per order, with idempotent replay |
| `CommerceStore.Store.TransitionOrder` | `src/capabilityproof/commerce_store.py:884-908` | an order transition is checked against the table, idempotent, and keeps the invariant |
| `CommerceStore.Store.BeginFulfillment` | `src/capabilityproof/commerce_store.py:593-597` | fulfilment starts only from a status the table allows |
| `CommerceStore.Store.FailFulfillment` | `src/capabilityproof/commerce_store.py:686-699` | fulfilment fails only from a status the table allows |
| `CommerceStore.Store.Deliver` | `src/capabilityproof/commerce_store.py:599-650` | delivery needs recorded costs and a fresh receipt, and repeats idempotently |
| `CommerceSteps.StepKeepsBase` | `src/capabilityproof/commerce_store.py:782-875` | every single reconciliation step keeps orders, ledger, history and event table consistent, including the branch that writes FAILED without consulting the order table |
| `CommerceSteps.StepIsLocal` | `src/capabilityproof/commerce_store.py:782-875` | a reconciliation step touches only the order and the events of the reconciled payment |
| `CommerceSteps.DrainKeeps` | `src/capabilityproof/commerce_store.py:771-876` | reconciliation keeps the consistency of all tables and ends with no actionable waiting event of its payment |
| `CommerceRuns.PerformKeepsInv` | `src/capabilityproof/commerce_store.py:87-908` | every transaction keeps the joint invariant |
| `CommerceRuns.ReachableInv` | `src/capabilityproof/commerce_store.py:87-908` | the joint invariant holds after every run of transactions from an empty store |
| `CommerceResults.StatusesAgree` | `src/capabilityproof/commerce_store.py:401-404` | order and payment status move together: pending with pending, failed with failed, fulfilment statuses exactly when captured or later |
| `CommerceResults.LegalHistoryIsShort` | `src/capabilityproof/commerce.py:65-86` | a history of listed transitions has at most 5 order rows and 4 payment rows per order |
| `CommerceResults.HistoryIsFaithful` | `src/capabilityproof/commerce_store.py:884-933` | every history row of a reachable store is a listed transition from the status folded so far, and folding the history gives the current statuses |
| `CommerceResults.StoreIsQuiescent` | `src/capabilityproof/commerce_store.py:771-876` | between transactions a waiting event matches its order in amount, asks for another status and may not move to it |
| `CommerceResults.QueueIsOrdered` | `src/capabilityproof/commerce_store.py:775-780` | a pass works through exactly the waiting events of the payment, by received_at and then event id |
| `CommerceResults.FirstReceivedFirst` | `src/capabilityproof/commerce_store.py:775-780` | what is in front in the queue was received first, or at the same time with the smaller identifier |
| `CommerceResults.PassTakesInOrder` | `src/capabilityproof/commerce_store.py:781-782` | a pass over the queue takes its events one after the other from the front |
| `CommerceResults.ImpactByCategory` | `src/capabilityproof/commerce_store.py:951-960` | the signed ledger impact of an order is collected minus fee minus refunds minus direct costs |
| `CommerceResults.LedgerBalances` | `src/capabilityproof/commerce_store.py:951-1012` | the order view balances: collected is zero or the quote, refunded is zero or collected, the fee never exceeds collected, costs are the recorded ones |
| `CommerceResults.LedgerKeyIsUnique` | `src/capabilityproof/commerce_store.py:179-188` | the unique ledger key of order, category and source is never violated and amounts are never negative |
| `CommerceResults.TotalIsSumOfImpacts` | `src/capabilityproof/commerce_store.py:701-733` | the total over the whole ledger equals the sum of the per-order impacts |
| `CommerceResults.SummaryBalances` | `src/capabilityproof/commerce_store.py:701-733` | the summary contribution equals the sum over orders and balances against its collected, fee, refund and cost columns |
| `CommerceFulfilment.SummaryMatchesLedger` | `src/capabilityproof/commerce_store.py:701-733` | the collected, fee and refund columns of the summary are the totals of their ledger categories, and the pending count is the number of waiting events |
| `CommerceFulfilment.ViewShowsWaiting` | `src/capabilityproof/commerce_store.py:951-1012` | the view of an order names its waiting events, each with its kind, and no others |
| `CommerceProvenance.EventStatusMeans` | `src/capabilityproof/commerce_store.py:789-876` | in a reachable store an event is refused for the amount exactly when amount or currency differ; it is applied exactly when it wrote a payment row; a repeat settles as duplicate only with the captured fee and as conflict only as a captured event with another fee, and only after another event had brought the payment there |
| `CommerceProvenance.OneEventPerStatus` | `src/capabilityproof/commerce_store.py:800-876` | two applied events of one payment report different things, so every status is reached by one event |
| `CommerceProvenance.MoneyIsTraced` | `src/capabilityproof/commerce_store.py:829-861` | every collected amount, fee and refund in the ledger is that of one applied event of the order's own payment, under its identifier and time |
| `CommerceProvenance.HistoryIsTraced` | `src/capabilityproof/commerce_store.py:865-874` | every payment row of the history, and every order row to queued or payment-failed, was written by one applied event of that kind |
| `CommerceProvenance.ChangedOrdersAreDated` | `src/capabilityproof/commerce_store.py:829-864` | an order that taking in an event has changed carries the time of one of its own events that was applied by that |
| `CommerceCalls.OrdersAreSourced` | `src/capabilityproof/commerce_store.py:331-463` | every order sells a stored quote at its price for its provider, a live store has Stripe quotes only, and checkouts and payments are named as provider and environment name them |
| `CommerceCalls.QuoteIsAccepted` | `src/capabilityproof/commerce_store.py:242-329` | a quote is accepted exactly if the live gates and the price allow it and its identifier has not been given another |
| `CommerceCalls.QuoteIsKept` | `src/capabilityproof/commerce_store.py:242-329` | a stored quote never changes, and is stored only at an accepted price and, live, only for Stripe with live checkout enabled |
| `CommerceCalls.OrderIsAccepted` | `src/capabilityproof/commerce_store.py:348-404` | a well-formed order is accepted exactly when it was placed before, or neither its key nor its quote has been used and the quote is still on offer |
| `CommerceCalls.OrderRejections` | `src/capabilityproof/commerce_store.py:339-399` | exactly when an order is refused for its format, its key, or its quote missing, expired or used |
| `CommerceCalls.OrderBegins` | `src/capabilityproof/commerce_store.py:368-404` | a new order begins with the terms of its quote, unpaid and without checkout, with its first history row; nothing else changes |
| `CommerceCalls.CheckoutIsFinal` | `src/capabilityproof/commerce_store.py:416-463` | an attached checkout stays: again it is accepted without effect, another is refused |
| `CommerceCalls.StripeCheckoutIsAccepted` | `src/capabilityproof/commerce_store.py:430-459` | a Stripe order without checkout takes exactly the well-formed checkouts that share nothing with another order |
| `CommerceCalls.PaymentIsBoundOnce` | `src/capabilityproof/commerce_store.py:465-493` | a payment is bound exactly to the Stripe order with that checkout, if no other order has it and the order no other payment |
| `CommerceCalls.EventIsAccepted` | `src/capabilityproof/commerce_store.py:495-543` | a well-formed event is accepted exactly when it is for the payment of an order of its provider and its identifier is not on file for another event; the reply tells whether it was on file and its stored status |
| `CommerceCalls.EventRejections` | `src/capabilityproof/commerce_store.py:495-521` | exactly when an event is refused for what it says, its identifier, its payment or its provider |
| `CommerceCalls.StoredEventsAreValid` | `src/capabilityproof/commerce_store.py:735-769` | every event on file is of the store's environment and currency, within the amounts, named as its provider names it, and belongs to an order of that provider |
| `CommerceCalls.StoredFormats` | `src/capabilityproof/commerce_store.py:611-618` | the identifier, digests and signing key of every stored receipt have their formats |
| `CommerceCalls.FormatsMean` | `src/capabilityproof/commerce_store.py:44-48` | the formats of keys, buyers, payments and events, character by character |
| `CommerceCalls.CheckoutFormat` | `src/capabilityproof/commerce_store.py:49-49` | the format of Stripe checkouts in each environment |
| `CommerceFulfilment.CostsAreBookedAsGiven` | `src/capabilityproof/commerce_store.py:545-591` | an accepted recording leaves exactly the given costs on record and in the view, lowers the order's contribution by their sum the first time, and changes no other order's |
| `CommerceFulfilment.CostsAreAccepted` | `src/capabilityproof/commerce_store.py:545-575` | costs are accepted exactly if each of the ten is within range and the order has none yet or has these under this key |
| `CommerceFulfilment.CostRejections` | `src/capabilityproof/commerce_store.py:552-573` | exactly when costs are refused for their range or key, as other costs under this key, or as recorded under another |
| `CommerceFulfilment.BeginningIsAccepted` | `src/capabilityproof/commerce_store.py:593-597` | fulfilment begins exactly from the queue, repeats while running, and writes its row |
| `CommerceFulfilment.FailingIsAccepted` | `src/capabilityproof/commerce_store.py:686-699` | fulfilment fails exactly from the queue or while running, and repeats |
| `CommerceFulfilment.DeliveryIsAccepted` | `src/capabilityproof/commerce_store.py:599-650` | a well-formed receipt is accepted exactly for an order with recorded costs that is running, if no other order has its identifier, or that was delivered with it |
| `CommerceFulfilment.DeliveryRejections` | `src/capabilityproof/commerce_store.py:611-646` | exactly when a delivery is refused for its receipt, for missing costs, for the status, or for a receipt that is bound |
| `CommerceFulfilment.UnknownOrders` | `src/capabilityproof/commerce_store.py:910-916` | calls about an order that does not exist are refused as such and change nothing |
| `CommerceFulfilment.QueuedOrderCanBeDelivered` | `src/capabilityproof/commerce_store.py:545-650` | a paid order can be started, costed and delivered, and is then delivered with that receipt and those costs, its payment and all other orders untouched |
| `CommerceArrival.EventsDecideStatus` | `src/capabilityproof/commerce_store.py:771-876` | in every reachable store the payment status is a function of which statuses the matching events ask for, when those are compatible |
| `CommerceArrival.RepeatIsIgnored` | `src/capabilityproof/commerce_store.py:502-516` | delivering a stored event again changes nothing |
| `CommerceArrival.ReceiveStores` | `src/capabilityproof/commerce_store.py:495-543` | a batch for one order is accepted whole, stores exactly its events and leaves the identity of the order alone |
| `CommerceArrival.CompatibleOutcome` | `src/capabilityproof/commerce_store.py:495-543` | two deliveries of the same compatible events, in any order and stamping, give one outcome, even where a superseded event stays waiting |
| `CommerceArrival.IncompatibleDepends` | `src/capabilityproof/commerce_store.py:817-827` | captured with failed, or a completed refund with a dispute, makes the outcome depend on arrival order |
| `CommerceArrival.TwoFeesDepend` | `src/capabilityproof/commerce_store.py:829-848` | captured events with different fees make the outcome depend on arrival order |
| `CommerceArrival.ArrivalOrderIndependence` | `src/capabilityproof/commerce_store.py:495-543` | the outcome (statuses, amounts, contribution) is the same for every permutation and received_at assignment if and only if the requested statuses are compatible and captured fees agree |
| `CommerceArrival.EventsDecideMoney` | `src/capabilityproof/commerce_store.py:495-543` | any two reachable stores in which an order has received the same compatible events with one captured fee, whatever else happened in between, agree on its payment status, collected, fee and refunded amounts and its contribution before direct costs |
| `StripeReplay.ReconcileOrder` | `src/capabilityproof/stripe_payments.py:582-600` | the emitting part of a reconciliation ingests its events one transaction each, each with its own received_at, stops at the first rejection and is refused when Stripe calls future funds available |
| `StripeReplay.ReEmitOne` | `src/capabilityproof/commerce_store.py:502-516` | an event under an identifier on file is accepted without effect if it says the same and refused as a conflict otherwise |
| `StripeReplay.ReplayChangesNothing` | `src/capabilityproof/stripe_payments.py:582-600` | reconciling an unchanged charge again, after any transactions in between, changes no table; it is accepted exactly when the clock-stamped events carry the same times and the funds are not in the future, so at any later time for captured and available |
| `StripeOutcome.ReconciledOrderShowsCharge` | `src/capabilityproof/stripe_payments.py:582-600` | after an accepted reconciliation an awaiting order shows its charge: captured, available, refunded or disputed as Stripe says, with the quoted amount, Stripe's fee and the refund |
| `Lifecycle.ValidateLifecycleFeed` | `src/capabilityproof/lifecycle.py:199-258` | the looped validation accepts exactly the feeds with valid times, unique well-formed issuers and unique well-formed receipts |
| `PaidLifecycleMeaning.FeedsAreWellFormed` | `src/capabilityproof/lifecycle.py:199-258` | which feeds pass validation: sequence, times, counts, key identifiers, names, successors and reasons, each identifier once |
| `PaidLifecycleMeaning.EvaluationIsAnswered` | `src/capabilityproof/lifecycle.py:267-363` | an evaluation is answered exactly for a feed that the root signed and an intact receipt that one of its issuers signed; outside the period or below the minimum the answer is unknown |
| `PaidLifecycleMeaning.StatesMean` | `src/capabilityproof/lifecycle.py:331-363` | the exact condition of each of the six states |
| `PaidLifecycleStore.VerifyLifecycle` | `src/capabilityproof/lifecycle.py:267-275` | an envelope verifies exactly when its size, signer, payload size and feed are in order |
| `PaidLifecycleStore.PaidReceiptLifecycleStore.BuildDraft` | `src/capabilityproof/paid_lifecycle.py:142-189` | a draft is the next feed over the delivered orders or the rejection that the specification names |
| `PaidLifecycleStore.PaidReceiptLifecycleStore.Publish` | `src/capabilityproof/paid_lifecycle.py:191-296` | publication appends one row, binds the root and upserts the status table, or rejects without a change |
| `PaidLifecycleRuns.PublishKeepsInv` | `src/capabilityproof/paid_lifecycle.py:191-296` | publishing keeps the log, the status table and their link to delivered orders consistent |
| `PaidLifecycleRuns.ReachableWorldInv` | `src/capabilityproof/paid_lifecycle.py:63-296` | that consistency holds after every interleaving of commerce transactions and publications |
| `PaidLifecycleRuns.PerformKeepsReceipts` | `src/capabilityproof/commerce_store.py:678-684` | no commerce transaction removes or rewrites a delivered receipt |
| `PaidLifecycleResults.RecordsPersist` | `src/capabilityproof/paid_lifecycle.py:417-454` | a published receipt stays published, and a withdrawn record never changes in any later feed |
| `PaidLifecycleResults.IssuersPersist` | `src/capabilityproof/paid_lifecycle.py:361-383` | issuer keys never disappear and move only from active to retired to compromised |
| `PaidLifecycleResults.FirstListedAsCurrent` | `src/capabilityproof/paid_lifecycle.py:429-454` | every receipt enters the log as current |
| `PaidLifecycleResults.PublicationLog` | `src/capabilityproof/paid_lifecycle.py:214-296` | sequences are 1 to n under one root, payloads differ, and the status table is the latest feed |
| `PaidLifecycleResults.PublicationCovers` | `src/capabilityproof/paid_lifecycle.py:214-252` | what is published covers exactly the receipts and signers delivered at that moment; a rejection changes nothing |
| `PaidLifecycleMeaning.PublicationsAreSound` | `src/capabilityproof/paid_lifecycle.py:191-296` | every publication is signed by the bound root, is well formed, in time, and sound record by record |
| `PaidLifecycleMeaning.GapPublicationsAreSound` | `src/capabilityproof/paid_lifecycle.py:191-296` | the same when deliveries and other publications come between reading and writing |
| `PaidLifecycleMeaning.PublicationIsAccepted` | `src/capabilityproof/paid_lifecycle.py:191-296` | exactly when a publication goes in, and exactly when it is accepted without effect |
| `PaidLifecycleResults.WithdrawalIsIrrevocable` | `src/capabilityproof/lifecycle.py:291-363` | after a publication withdraws a receipt, no evaluation against it or a later publication, at any time, answers CURRENT; revoked receipts are never EXPIRED or SUPERSEDED |
| `PaidLifecycleResults.LogOnlyGrows` | `src/capabilityproof/paid_lifecycle.py:191-296` | publications are only ever appended, whatever else happens in either store |
| `PaidLifecycleResults.OrderEvaluationMeans` | `src/capabilityproof/paid_lifecycle.py:307-332` | an answer is CURRENT exactly when the latest feed lists the receipt as current under an uncompromised key inside both validity periods |
| `PaidLifecycleResults.OrderIsAnsweredInPeriod` | `src/capabilityproof/paid_lifecycle.py:307-332` | for a sound receipt of a delivered order there is an answer exactly while the latest feed is valid; before and after it the evaluation is rejected as an invalid delivery |
| `PaidLifecycleMeaning.OrderIsAnswered` | `src/capabilityproof/paid_lifecycle.py:307-332` | an order's evaluation is answered exactly for its own intact receipt, signed by an issuer of the latest feed, under the bound root, while that feed is in its period |
| `PaidLifecycleResults.WithdrawnOrderIsNeverCurrent` | `src/capabilityproof/paid_lifecycle.py:307-332` | after a withdrawal, no later moment of any run evaluates the order as CURRENT |
| `PaidLifecycleResults.UnchangedDraftPasses` | `src/capabilityproof/paid_lifecycle.py:386-463` | a draft that asks for no change never fails a receipt transition check in a reachable store |
| `PaidLifecycleMeaning.DraftCarriesRequests` | `src/capabilityproof/paid_lifecycle.py:386-414` | a draft has the requested change where one was asked for, the published record where there is one, and a plain current record for every other delivered receipt |
| `PaidLifecycleMeaning.DeliveredInOrder` | `src/capabilityproof/commerce_store.py:678-684` | delivered orders, and the records of a draft with them, come in the order of their receipt identifiers |
| `PaidLifecycleMeaning.RequestsAreAccepted` | `src/capabilityproof/paid_lifecycle.py:386-454` | the records of a draft can be derived exactly when every requested change is for a delivered receipt, well made, and allowed by what was published |
| `PaidLifecycleMeaning.DraftIsBuilt` | `src/capabilityproof/paid_lifecycle.py:142-189` | exactly when a draft is built |
| `PaidLifecycleMeaning.DraftedWithdrawalHolds` | `src/capabilityproof/paid_lifecycle.py:142-332` | once a draft that withdraws a receipt has been signed and published, no later evaluation of an order with that receipt answers CURRENT |
| `PaidLifecycleResults.DraftIsPublishable` | `src/capabilityproof/paid_lifecycle.py:142-252` | a built draft, signed by the bound root and published in its window with nothing in between, is published if and only if its envelope is within the size limit, and becomes the next publication |
| `PaidLifecycleResults.TruncationKeepsLifetime` | `src/capabilityproof/paid_lifecycle.py:36-37` | writing times in whole seconds cannot stretch a lifetime past seven days |
| `PaidLifecycleResults.LargeDraftsCannotBePublished` | `src/capabilityproof/paid_lifecycle.py:199-205` | a draft of a reachable store, signed by the right root in its window in a text of more than 825,000 bytes, is refused and changes nothing |
| `PaidLifecycleResults.EveryDraftHasALargeForm` | `src/capabilityproof/lifecycle.py:261-264` | with a parser that ignores blanks behind a document, every draft that can be published also has a signed text that cannot |
| `PaidLifecycleGap.WithdrawalSurvivesTheGap` | `src/capabilityproof/paid_lifecycle.py:214-296` | with deliveries and other publications between reading the orders and writing, a withdrawn receipt is still never CURRENT again, nor EXPIRED or SUPERSEDED if revoked |
| `PaidLifecycleGap.GapReachableInv` | `src/capabilityproof/paid_lifecycle.py:214-296` | what the log, the status table and the readings satisfy after every run of the split steps |
| `PaidLifecycleGap.ListsWhatWasRead` | `src/capabilityproof/paid_lifecycle.py:214-296` | a new publication lists every receipt of the status table exactly when its reading had them all |
| `PaidLifecycleGap.GapLeavesOut` | `src/capabilityproof/paid_lifecycle.py:214-296` | a publication from a stale reading is accepted and leaves out a receipt that the one before it listed |
| `SequenceFile.LifecycleSequenceStore.Minimum` | `src/capabilityproof/lifecycle.py:117-152` | the minimum of a root is its stored sequence, or zero, if the loader accepts the file: at most 64,000 bytes and a hundred roots with sound entries |
| `SequenceFile.LifecycleSequenceStore.Record` | `src/capabilityproof/lifecycle.py:154-183` | recording refuses a malformed digest, an unreadable file, a lower sequence and another digest at the same sequence; an entry that is there is not written again; otherwise exactly the new entry and the size of the written document are stored |
| `SequenceFile.ReadableMeans` | `src/capabilityproof/lifecycle.py:117-146` | which files the loader accepts: size, number of roots, positive sequences that can be read, digests of 64 characters |
| `SequenceFile.RecordIsAccepted` | `src/capabilityproof/lifecycle.py:154-183` | exactly which records are accepted |
| `SequenceFile.WrittenSize` | `src/capabilityproof/lifecycle.py:173-179` | the length of the compact JSON document, entry by entry |
| `SequenceStore.StoredIsMaximum` | `src/capabilityproof/lifecycle.py:147-183` | under every interleaving the stored sequence of a root is the maximum of the initial one and all attempts so far |
| `SequenceStore.StepTouchesOneRoot` | `src/capabilityproof/lifecycle.py:154-183` | a step changes at most its own root, never lowers it, and never replaces a digest at the same sequence |
| `SequenceStore.CurrentAnswersAreMonotone` | `src/capabilityproof/lifecycle.py:366-385` | answers of CURRENT for one root come from feeds of nondecreasing sequence and never from two feeds of one sequence |
| `SequenceStore.CurrentIsRecorded` | `src/capabilityproof/lifecycle.py:366-385` | a CURRENT answer was not below the stored sequence at its recording step and is what the store holds afterwards |
| `SequenceFile.DocumentGrows` | `src/capabilityproof/lifecycle.py:173-179` | what one entry adds to the length of the document |
| `SequenceFile.RecordStaysReadable` | `src/capabilityproof/lifecycle.py:117-183` | an accepted record leaves the file readable exactly when nothing was written, or its root was stored or one of a hundred and the new document has at most 64,000 bytes |
| `SequenceFile.OneRootTooMany` | `src/capabilityproof/lifecycle.py:117-183` | a file of a hundred roots accepts one more and cannot be read again |
| `SequenceFile.FifteenLongSequences` | `src/capabilityproof/lifecycle.py:117-183` | a file of fourteen roots with sequences of 4300 digits accepts a fifteenth and cannot be read again |
| `SequenceFile.FilledByRecording` | `src/capabilityproof/lifecycle.py:154-183` | both files come from an empty one by recording one root after the other |
| `SequenceFile.ModestRootsFit` | `src/capabilityproof/lifecycle.py:117-146` | a hundred roots with thumbprint names and sequences of at most 498 digits always fit |
| `SequenceFile.ModestBoundIsSharp` | `src/capabilityproof/lifecycle.py:117-146` | with 499 digits a hundred roots do not fit |
| `SequenceStore.ReadableRuns` | `src/capabilityproof/lifecycle.py:117-183` | over every interleaving a readable file stays readable exactly when no step records an entry, a new root or a longer sequence, for which it has no room |
| `SequenceStore.UnreadableIsFinal` | `src/capabilityproof/lifecycle.py:117-183` | an unreadable file stays as it is under every run |
| `SequenceStore.ModestRootsStayReadable` | `src/capabilityproof/lifecycle.py:117-183` | a readable file that meets at most a hundred roots, with thumbprint names and sequences of at most 498 digits, is readable after every run |
| `RateLimiter.WindowBound` | `src/capabilityproof/commerce_api.py:69-87` | with nondecreasing times and a fixed limit, every window of the configured length, wherever it ends, holds at most that many admitted calls of a key |
| `RateLimiter.RefusedWhenFull` | `src/capabilityproof/commerce_api.py:77-80` | a call is refused exactly when its window already holds the limit |
| `RateLimiter.ForgettingKeeps` | `src/capabilityproof/commerce_api.py:82-86` | forgetting keys whose queues lie before the horizon changes no later count |
| `RateLimiter.QueueCounts` | `src/capabilityproof/commerce_api.py:73-80` | after popping, the queue length is the number of admitted calls in the window |
| `RateLimiter.SlidingWindowRateLimiter.Allow` | `src/capabilityproof/commerce_api.py:69-87` | the decision, the queues left and the keys forgotten for any clock reading; while the clock has not run back, the decision of a limiter that remembers every admitted call |
| `RateLimiter.ServeRequests` | `src/capabilityproof/commerce_api.py:69-87` | a whole run of one limiter with nondecreasing times decides every request like the full log |
| `RateLimiter.SlidingWindowRateLimiter.StaleKeys` | `src/capabilityproof/commerce_api.py:82-85` | at most a thousand keys are collected, each stale, and no stale key is missed before the batch is full |
| `DeliveryTokens.CommerceAccessStore.BindOrder` | `src/capabilityproof/commerce_access.py:373-432` | binding mints version one, or returns the current token of an active binding |
| `DeliveryTokens.CommerceAccessStore.RotateDeliveryToken` | `src/capabilityproof/commerce_access.py:480-519` | the write transaction of a rotation checks the token again and mints the next version |
| `DeliveryTokens.CommerceAccessStore.RevokeDeliveryToken` | `src/capabilityproof/commerce_access.py:521-551` | the write transaction of a revocation checks the token again and deactivates the binding |
| `DeliveryTokens.CommerceAccessStore.PublishResult` | `src/capabilityproof/commerce_access.py:553-595` | a result is stored once, and only if it is the delivered envelope |
| `DeliveryTokens.CommerceAccessStore.GetResult` | `src/capabilityproof/commerce_access.py:597-614` | the stored body is returned to the tenant of the binding |
| `DeliveryTokens.CommerceAccessStore.AuthorizeOrder` | `src/capabilityproof/commerce_access.py:434-478` | authorisation needs the current digest, an active binding and tenant, and time left |
| `DeliveryTokens.OneRotationPerToken` | `src/capabilityproof/commerce_access.py:480-519` | under every interleaving at most one rotation presenting a token succeeds, and minted versions strictly rise |
| `DeliveryTokens.SpentTokensStayDead` | `src/capabilityproof/commerce_access.py:434-551` | a token that was rotated away or revoked never authorises again |
| `DeliveryTokens.OneTokenPerOrder` | `src/capabilityproof/commerce_access.py:434-478` | at any time at most one token authorises an order |
| `DeliveryTokens.BoundTokenAuthorizes` | `src/capabilityproof/commerce_access.py:373-432` | in every reachable store the token a binding returns authorises until it expires, and binding again returns it again |
| `DeliveryTokens.RotationHandsOver` | `src/capabilityproof/commerce_access.py:480-519` | a successful rotation makes the minted token authorise until it expires and the presented one never |
| `DeliveryTokens.BoundTokenExpires` | `src/capabilityproof/commerce_access.py:373-478` | whatever follows, a token minted by a binding authorises exactly its own order, for its tenant while active, for thirty days from the binding, until it is rotated away or revoked |
| `DeliveryTokens.RotatedTokenExpires` | `src/capabilityproof/commerce_access.py:434-519` | the same for a token minted by a rotation, from the time the rotation was asked for |
| `DeliveryTokens.BindingIsAccepted` | `src/capabilityproof/commerce_access.py:373-432` | a binding is accepted exactly for an active tenant's own order that has not been revoked |
| `DeliveryTokens.BoundOrdersAreOwned` | `src/capabilityproof/commerce_access.py:385-400` | the tenant of a bound order has the quote that the order was placed against |
| `DeliveryTokens.ResultIsAccepted` | `src/capabilityproof/commerce_access.py:553-595` | a result is accepted exactly if it has a proper size and is what was delivered for a bound order; it never conflicts with an earlier one |
| `DeliveryTokens.PublishedResultIsRead` | `src/capabilityproof/commerce_access.py:553-614` | a published result is there from then on, for the tenant of its binding and nobody else |
| `DeliveryTokens.FetchesAgree` | `src/capabilityproof/commerce_access.py:597-614` | every fetched body is the published one with the delivered digest, and any two fetches agree |
| `WebhookLease.WebhookEvents.ReserveWebhook` | `src/capabilityproof/stripe_payments.py:759-810` | a reservation is granted for a new, a retryable or a lease-expired event and refused otherwise |
| `WebhookLease.WebhookEvents.FinishWebhook` | `src/capabilityproof/stripe_payments.py:812-827` | finishing overwrites status and time without asking who holds the lease |
| `WebhookLease.GrantsAreSpaced` | `src/capabilityproof/stripe_payments.py:759-810` | two grants of one event are ten minutes apart unless it was left retryable in between |
| `WebhookLease.DigestIsFixed` | `src/capabilityproof/stripe_payments.py:759-827` | the payload digest of an event never changes over a run |
| `WebhookLease.GrantsCarryOneDigest` | `src/capabilityproof/stripe_payments.py:759-810` | all grants of an event carry one payload digest |
| `WebhookLease.ConflictMeans` | `src/capabilityproof/stripe_payments.py:764-768` | exactly the reservations with another digest than the first one conflict |
| `WebhookLease.AfterCompletion` | `src/capabilityproof/stripe_payments.py:769-827` | the next reservation after a completion is granted exactly if the event was left retryable, and otherwise learns how it ended |
| `WebhookLease.OrderIsRemembered` | `src/capabilityproof/stripe_payments.py:812-827` | the order of an event is the one that the last completion to name one has named |
| `WebhookLease.TakesOverWhenExpired` | `src/capabilityproof/stripe_payments.py:769-790` | the next reservation of an event in progress is granted exactly when the lease of its holder has run out |
| `WebhookLease.LeaseExcludes` | `src/capabilityproof/stripe_payments.py:769-790` | while nothing releases the event and every reservation comes within the lease, it is granted to nobody else |
| `WebhookLease.ExclusiveWhenOthersAreDone` | `src/capabilityproof/stripe_payments.py:416-487` | within the lease of a grant every lawful continuation is completed only by its handler, if and only if every earlier handler of the event has completed |
| `WebhookLease.OutstandingCompletes` | `src/capabilityproof/stripe_payments.py:812-827` | a handler that has not completed can still do so lawfully, and settles the event as it says |
| `WebhookLease.TakeoverIsNotExclusive` | `src/capabilityproof/stripe_payments.py:769-790` | a takeover after the lease, with the first handler still at work, is not exclusive |
| `WebhookLease.RetryIsExclusive` | `src/capabilityproof/stripe_payments.py:416-487` | a retry after a handler that completed is exclusive again |
| `Bytes.DecimalRoundTrip` | `src/capabilityproof/signing.py:80-86` | a decimal length reads back as the number |
| `Dsse.PaeInjective` | `src/capabilityproof/signing.py:80-86` | the pre-authentication encoding determines payload type and payload, also for types with spaces |
| `Dsse.EncodingOfHello` | `src/capabilityproof/signing.py:80-86` | the example of the DSSE protocol |
| `Dsse.Base64Examples` | `src/capabilityproof/signing.py:33-62` | examples of RFC 4648, section 10, and of the two alphabets |
| `Dsse.SigningIsAccepted` | `src/capabilityproof/signing.py:194-213` | exactly the nonempty payloads within the limit are signed, under exactly the nonempty ASCII types |
| `Dsse.VerifyMeans` | `src/capabilityproof/signing.py:230-264` | with any scheme, exactly which envelopes verify and to which payload: the expected type and key, canonical payload, and a signature of 64 bytes that the scheme verifies for type and payload |
| `Dsse.Base64RoundTrip` | `src/capabilityproof/signing.py:53-62` | decoding inverts padded base64 in both alphabets |
| `Dsse.StrictBase64` | `src/capabilityproof/signing.py:53-62` | strict decoding accepts exactly the nonempty canonical encodings within the limit |
| `Dsse.StrictBase64Url` | `src/capabilityproof/signing.py:33-50` | strict unpadded base64url decoding accepts exactly the nonempty canonical encodings of the expected length |
| `Dsse.VerifyInvertsSign` | `src/capabilityproof/signing.py:194-264` | under an ideal scheme verification returns a payload if and only if signing that payload produces the envelope |
| `Dsse.SignatureBinds` | `src/capabilityproof/signing.py:230-264` | a signature is accepted under another type or payload only if two different messages share a signature |
| `SnapshotDigest.SortSorts` | `src/capabilityproof/snapshot.py:357-357` | sorting by path bytes gives a strictly ascending permutation of the captured files |
| `SnapshotDigest.DigestPreimage` | `src/capabilityproof/snapshot.py:357-365` | the incremental digest is fed exactly the length-prefixed entries of the sorted files |
| `SnapshotDigest.PreimageOfOne` | `src/capabilityproof/snapshot.py:357-365` | the bytes for one short file, length by length |
| `SnapshotDigest.PreimageIsCanonical` | `src/capabilityproof/snapshot.py:357-365` | two captures give the same bytes if and only if they are the same path-to-content map, in whatever order they were found |
| `GitResponses.VerifyCommitBlobs` | `src/capabilityproof/provenance.py:88-119` | the cursor loop gives the verdict of the recursive specification |
| `GitResponses.AcceptedAnswers` | `src/capabilityproof/provenance.py:88-119` | an answer is accepted, with no negative size read, if and only if it is exactly the in-order concatenation of blob header, content and newline per file |
| `GitResponses.AnnouncedMeans` | `src/capabilityproof/provenance.py:97-106` | a header line announces a content exactly if it has three words, the second "blob" and the third its length |
| `GitResponses.AnswerIsUnambiguous` | `src/capabilityproof/provenance.py:96-117` | an answer determines its header lines and every file |
| `GitResponses.NegativeSizePasses` | `src/capabilityproof/provenance.py:103-112` | a header of size -1 with nothing behind it is accepted for an empty file |
| `GitResponses.GitAnswersAreAccepted` | `src/capabilityproof/provenance.py:88-119` | the answer Git writes for the captured files, whatever their object names, is accepted |
| `PythonBytes.ParsesDecimals` | `src/capabilityproof/provenance.py:103-106` | a plain decimal size reads back as itself, up to the digit limit of the interpreter |
| `PythonBytes.SplitJoins` | `src/capabilityproof/stage_b.py:279-279` | splitting at the mark loses nothing |
| `RelativePaths.AcceptedPaths` | `src/capabilityproof/stage_b.py:249-269` | which paths the check accepts, relative and absolute: an absolute one exactly when its root passes as a name and the rest as a path, the root counting as a level |
| `RelativePaths.AcceptedPathsStayBelow` | `src/capabilityproof/stage_b.py:249-269` | walking along an accepted relative path leads to its own names below the start, one level each and not too many, and every name is plain on every system |
| `RelativePaths.RelativePathIsAccepted` | `src/capabilityproof/stage_b.py:249-269` | exactly which relative paths are accepted: NFC, short and shallow enough, of names with no separator, drive or control character, no trailing space or dot, no version control directory and no device name |
| `RelativePaths.WalkEndsIffRelative` | `src/capabilityproof/stage_b.py:312-315` | the walk from parent to parent reaches "." exactly for relative paths |
| `RelativePaths.AddAncestors` | `src/capabilityproof/stage_b.py:312-315` | the walk ends within as many turns as the path has characters if it ends at all, and has then added exactly the folded directories above the path |
| `TreeListing.ParseTreeListing` | `src/capabilityproof/stage_b.py:272-324` | the record loop gives the verdict of the specification |
| `TreeListing.AcceptedListings` | `src/capabilityproof/stage_b.py:272-324` | a listing is accepted if and only if every record is, the listing as a whole is within file, byte and directory limits with case-distinct relative paths, and SKILL.md is there; the result holds exactly its files |
| `TreeListing.AcceptedTreeIsSafe` | `src/capabilityproof/stage_b.py:272-324` | an accepted listing is case-fold injective, has valid relative paths, keeps the per-file, total-byte and ancestor-directory limits, and contains SKILL.md |
| `TreeListing.RecordSays` | `src/capabilityproof/stage_b.py:279-307` | an accepted record has a file mode, the type "blob", an object name and the size before the tab, and the path of the skill behind it |
| `TreeListing.ListingReturns` | `src/capabilityproof/stage_b.py:272-324` | parsing never returns exactly when some record, with all before it read and within limits, passes every other check and has an absolute path |
| `TreeListing.GitRecordReads` | `src/capabilityproof/stage_b.py:279-307` | a record in the form Git writes reads back as its file |
| `TreeListing.AbsoluteRecordNeverReturns` | `src/capabilityproof/stage_b.py:272-315` | every listing that begins with a record for a valid absolute path never returns |
| `TreeListing.ListingThatNeverReturns` | `src/capabilityproof/stage_b.py:272-315` | the listing of one empty file "s//a" of the skill "s" never returns |
| `ArchiveExtraction.ExtractVerifiedArchive` | `src/capabilityproof/stage_b.py:327-374` | the member loop gives the verdict and the files of the specification |
| `ArchiveExtraction.AcceptedArchives` | `src/capabilityproof/stage_b.py:327-374` | extraction succeeds if and only if the archive is whole, every member is in order and the files are the announced ones, each once |
| `ArchiveExtraction.FreezeIsFaithful` | `src/capabilityproof/stage_b.py:272-374` | an accepted listing and archive leave exactly the files of a safe tree, each of its listed size and Git blob id |
| `ArchiveExtraction.FrozenFilesStayBelow` | `src/capabilityproof/stage_b.py:249-374` | every file that freezing leaves lies below the directory it was unpacked in, under plain names and not too deep |
| `ArchiveExtraction.AcceptedMembers` | `src/capabilityproof/stage_b.py:327-374` | an accepted archive consists of directories and of regular files, no links, that are exactly the files left on disk with all of their content |
| `ArchiveExtraction.MemberIsInOrder` | `src/capabilityproof/stage_b.py:336-352` | which members are in order: directories at, above or below the skill, and regular files, no links, below it under a valid path |
| `ArchiveExtraction.GitBlobOfShort` | `src/capabilityproof/stage_b.py:360-366` | the bytes that Git hashes for a short file |
| `StaticAnalysis.ScanLine` | `src/capabilityproof/static_analysis.py:237-285` | one line is recorded link by link, rule by rule and requirement by requirement under the caps |
| `StaticAnalysis.AnalyzeStatic` | `src/capabilityproof/static_analysis.py:224-292` | the nested loops over files, lines and patterns record every event of the scan in order |
| `StaticDecision.RecordSummarizes` | `src/capabilityproof/static_analysis.py:224-292` | each rule keeps a prefix of its matches within both caps, evidence and hosts likewise, and a flag is raised exactly when something was lost, which happens exactly when the unbounded scan exceeds a cap |
| `StaticDecision.FilesFind` | `src/capabilityproof/static_analysis.py:224-273` | nothing is skipped if and only if every text file can be read, and then the full scan has no severe finding if and only if no line of any text file matches a severe rule |
| `StaticScan.ScanCollects` | `src/capabilityproof/static_analysis.py:224-292` | the findings, skipped files, hosts, evidence and malformed links of the unbounded scan are exactly those in its files, each with its path, line and excerpt |
| `StaticDecision.SevereRules` | `src/capabilityproof/static_analysis.py:43-66` | which of the twelve rules are of high or critical severity |
| `StaticDecision.EligibleMeans` | `src/capabilityproof/receipt.py:117-137` | a skill is eligible if and only if structure and manifests are in order, every text file was read in full, no line of any matches a high or critical rule, and the unbounded scan exceeds no cap |

## Left out

- SQLite: tables are sequences and maps with the stated unique keys, a failed transaction changes nothing, and write transactions are atomic.
- Parsing of timestamps, regular expressions, JSON, YAML, TOML and tar: values arrive parsed; text formats are kept as predicates where a transaction checks them.
- Hashes, HMAC and Ed25519: digests stand for the digested value or are given functions, tokens for their three components, and a signature scheme is a given function.
- Unicode: UTF-8 decoding and encoding, NFC and case folding are given functions.
- The text of quotes and the `counts_for_goal` columns, which are always zero; a request is its maximum price, or malformed.
- Audit tables, tenant and API key administration, HTTP handlers, MCP servers, the command line, Docker and Git subprocesses.
- The Stripe SDK and the validation of its objects: only which events a reconciliation emits, in what order and with what identity.
- The fake payment provider, which emits the same events as a caller may.
- PaidLifecycleStore.PaidReceiptLifecycleStore.Publish: reads the delivered orders in the same step as it writes, as do the theorems of PaidLifecycleResults; PaidLifecycleGap splits the step.
- RateLimiter.SlidingWindowRateLimiter.Allow: promises the decision of the full log only while its clock readings do not run back, since the source reads its clock outside the lock; times are reals.
- SequenceFile.LifecycleSequenceStore.Record: the JSON shape of the stored file, its locking and its atomic replacement are not modelled.
- Dsse.VerifyInvertsSign: the JSON shape and size of the envelope document are not modelled; an envelope is its four fields.
- SnapshotDigest.DigestPreimage: the directory walk, its limits and its checks for concurrent change are not modelled; the files it captured are given.
- GitResponses.VerifyCommitBlobs: the first header field, an object name, is not compared with the request, as in the source.
- ArchiveExtraction.ExtractVerifiedArchive: the file system is the map of written files and a given predicate of paths it lets be created; the digest noted beside each file is not modelled.
- StaticAnalysis.AnalyzeStatic: patterns, redaction, line splitting and the text-candidate test are given functions; the final sort of the findings, the script languages and the dependency manifests are not modelled, the latter enter the decision as given counts.
- Catalogue, remote URL sanitising, evidence levels, remedies and settlement: field-by-field code with no state.
