/**
 Reservation of Stripe webhook events.  A reservation is granted for a new event, for one
 left retryable, and for one whose processing lease has run out; finishing does not check
 who holds the lease, so what is claimed is how grants are spaced, not exclusive completion.
 */
module WebhookLease {
  import opened Wrappers

  datatype Status = Processing | Retryable | Processed | Rejected | Ignored

  datatype Row = Row(digest: string, status: Status, orderId: Option<string>, updatedAt: int)

  datatype Error = EventConflict | StillProcessing

  datatype Reservation = Granted(orderId: Option<string>) | Duplicate(status: Status, orderId: Option<string>)

  type Rows = map<string, Row>

  /** Ten minutes; times are whole seconds. */
  const LEASE := 600

  function Reserve(rows: Rows, id: string, digest: string, receivedAt: int): (Rows, Result<Reservation, Error>) {
    if id !in rows then (rows[id := Row(digest, Processing, None, receivedAt)], Ok(Granted(None)))
    else
      var row := rows[id];
      if row.digest != digest then (rows, Err(EventConflict))
      else if row.status.Retryable? || (row.status.Processing? && receivedAt - row.updatedAt >= LEASE) then
        (rows[id := row.(status := Processing, updatedAt := receivedAt)], Ok(Granted(row.orderId)))
      else if row.status.Processing? then (rows, Err(StillProcessing))
      else (rows, Ok(Duplicate(row.status, row.orderId)))
  }

  function Finish(rows: Rows, id: string, status: Status, updatedAt: int, orderId: Option<string>): (Rows, Result<(), Error>) {
    if id !in rows then (rows, Err(EventConflict))
    else (rows[id := rows[id].(status := status, updatedAt := updatedAt,
                               orderId := if orderId.Some? then orderId else rows[id].orderId)], Ok(()))
  }

  class WebhookEvents {
    var rows: Rows

    constructor ()
      ensures rows == map[]
    {
      rows := map[];
    }

    method ReserveWebhook(id: string, digest: string, receivedAt: int) returns (r: Result<Reservation, Error>)
      modifies this
      ensures (rows, r) == Reserve(old(rows), id, digest, receivedAt)
      ensures rows - {id} == old(rows) - {id}
      ensures if r.Ok? && r.value.Granted? then id in rows && rows[id] == Row(digest, Processing, r.value.orderId, receivedAt)
              else rows == old(rows)
    {
      if id in rows {
        var row := rows[id];
        if row.digest != digest { return Err(EventConflict); }
        var stale := row.status.Processing? && receivedAt - row.updatedAt >= LEASE;
        if row.status.Retryable? || stale {
          rows := rows[id := row.(status := Processing, updatedAt := receivedAt)];
          return Ok(Granted(row.orderId));
        }
        if row.status.Processing? { return Err(StillProcessing); }
        return Ok(Duplicate(row.status, row.orderId));
      }
      rows := rows[id := Row(digest, Processing, None, receivedAt)];
      r := Ok(Granted(None));
    }

    method FinishWebhook(id: string, status: Status, updatedAt: int, orderId: Option<string>) returns (r: Result<(), Error>)
      modifies this
      ensures (rows, r) == Finish(old(rows), id, status, updatedAt, orderId)
      ensures rows - {id} == old(rows) - {id} && rows.Keys == old(rows).Keys
      ensures r.Ok? ==> rows[id].digest == old(rows)[id].digest && rows[id].status == status
    {
      if id !in rows { return Err(EventConflict); }
      var row := rows[id];
      rows := rows[id := row.(status := status, updatedAt := updatedAt, orderId := if orderId.Some? then orderId else row.orderId)];
      r := Ok(());
    }
  }

  // ----- Runs of interleaved handlers ---------------------------------------------------------------

  /** A handler, named by the position of its grant, finishes an event as processed, rejected, ignored or retryable. */
  datatype Action =
    | Arrive(id: string, digest: string, receivedAt: int)
    | Complete(id: string, status: Status, updatedAt: int, orderId: Option<string>, handler: nat)

  predicate Allowed(a: Action) { a.Complete? ==> !a.status.Processing? }

  function Act(rows: Rows, a: Action): Rows {
    match a
    case Arrive(id, digest, at) => Reserve(rows, id, digest, at).0
    case Complete(id, status, at, orderId, _) => Finish(rows, id, status, at, orderId).0
  }

  function RowsAfter(actions: seq<Action>): Rows {
    if actions == [] then map[] else Act(RowsAfter(actions[..|actions| - 1]), actions[|actions| - 1])
  }

  /** Action k is a reservation that was granted. */
  predicate GrantedAt(actions: seq<Action>, k: nat, id: string)
    requires k < |actions|
  {
    actions[k].Arrive? && actions[k].id == id
    && var r := Reserve(RowsAfter(actions[..k]), id, actions[k].digest, actions[k].receivedAt).1; r.Ok? && r.value.Granted?
  }

  /** Action k left the event retryable. */
  predicate ReleasedAt(actions: seq<Action>, k: nat, id: string)
    requires k < |actions|
  {
    actions[k].Complete? && actions[k].id == id && actions[k].status.Retryable?
  }

  lemma PrefixOf(actions: seq<Action>, n: nat)
    requires 0 < n <= |actions|
    ensures actions[..n][..n - 1] == actions[..n - 1] && RowsAfter(actions[..n]) == Act(RowsAfter(actions[..n - 1]), actions[n - 1])
  {
    assert actions[..n][..n - 1] == actions[..n - 1];
  }

  /**
   From a grant on, as long as nothing releases the event, its row is either terminal or still
   processing with a timestamp no earlier than that grant's.
   */
  lemma {:induction false} LeaseHolds(actions: seq<Action>, i: nat, n: nat, id: string)
    requires i < n <= |actions| && GrantedAt(actions, i, id) && (forall a <- actions :: Allowed(a))
    requires forall k :: i < k < n ==> !ReleasedAt(actions, k, id)
    ensures var rows := RowsAfter(actions[..n]);
            && id in rows && !rows[id].status.Retryable?
            && (rows[id].status.Processing? ==>
                  rows[id].updatedAt == actions[i].receivedAt || rows[id].updatedAt >= actions[i].receivedAt + LEASE)
    decreases n
  {
    PrefixOf(actions, n);
    if n > i + 1 {
      LeaseHolds(actions, i, n - 1, id);
      assert actions[n - 1] in actions && Allowed(actions[n - 1]) && !ReleasedAt(actions, n - 1, id);
    } else {
      assert actions[..n - 1] == actions[..i];
    }
  }

  /** Two grants of one event are ten minutes apart unless the event was released in between. */
  lemma GrantsAreSpaced(actions: seq<Action>, i: nat, j: nat, id: string)
    requires i < j < |actions| && (forall a <- actions :: Allowed(a))
    requires GrantedAt(actions, i, id) && GrantedAt(actions, j, id)
    ensures (exists k :: i < k < j && ReleasedAt(actions, k, id)) || actions[j].receivedAt - actions[i].receivedAt >= 10 * 60
  {
    if forall k :: i < k < j ==> !ReleasedAt(actions, k, id) {
      LeaseHolds(actions, i, j, id);
    }
  }

  /** The payload digest of an event never changes once it is stored, and every grant carries it. */
  lemma {:induction false} DigestIsFixed(actions: seq<Action>, i: nat, n: nat, id: string)
    requires i <= n <= |actions| && id in RowsAfter(actions[..i])
    ensures id in RowsAfter(actions[..n]) && RowsAfter(actions[..n])[id].digest == RowsAfter(actions[..i])[id].digest
    decreases n
  {
    if n > i {
      PrefixOf(actions, n);
      DigestIsFixed(actions, i, n - 1, id);
    }
  }

  lemma GrantsCarryOneDigest(actions: seq<Action>, i: nat, j: nat, id: string)
    requires i < j < |actions| && GrantedAt(actions, i, id) && GrantedAt(actions, j, id)
    ensures actions[i].digest == actions[j].digest
  {
    PrefixOf(actions, i + 1);
    DigestIsFixed(actions, i + 1, j, id);
  }

  /** The first reservation of an event stores its digest; from then on exactly the reservations with another digest conflict. */
  lemma ConflictMeans(actions: seq<Action>, i: nat, n: nat, id: string, digest: string, at: int)
    requires i < n <= |actions| && actions[i].Arrive? && actions[i].id == id && id !in RowsAfter(actions[..i])
    ensures GrantedAt(actions, i, id)
    ensures Reserve(RowsAfter(actions[..n]), id, digest, at).1 == Err(EventConflict) <==> digest != actions[i].digest
  {
    PrefixOf(actions, i + 1);
    DigestIsFixed(actions, i + 1, n, id);
  }

  /** Nothing happens to the event between positions i and n. */
  predicate Untouched(actions: seq<Action>, i: nat, n: nat, id: string)
    requires i <= n <= |actions|
  {
    forall k :: i <= k < n ==> actions[k].id != id
  }

  lemma {:induction false} UntouchedStays(actions: seq<Action>, i: nat, n: nat, id: string)
    requires i <= n <= |actions| && Untouched(actions, i, n, id) && id in RowsAfter(actions[..i])
    ensures id in RowsAfter(actions[..n]) && RowsAfter(actions[..n])[id] == RowsAfter(actions[..i])[id]
    decreases n
  {
    if n > i {
      PrefixOf(actions, n);
      UntouchedStays(actions, i, n - 1, id);
    }
  }

  /**
   What the next reservation of an event with its digest is told after a completion: it is granted, with the
   event's order, exactly if the event was left retryable; otherwise it learns how the event ended.
   */
  lemma AfterCompletion(actions: seq<Action>, i: nat, n: nat, id: string, digest: string, at: int)
    requires i < n <= |actions| && actions[i].Complete? && actions[i].id == id && Allowed(actions[i])
    requires id in RowsAfter(actions[..i]) && RowsAfter(actions[..i])[id].digest == digest && Untouched(actions, i + 1, n, id)
    ensures var r, order := Reserve(RowsAfter(actions[..n]), id, digest, at).1, OrderOf(actions[..n], id);
            r == Ok(if actions[i].status.Retryable? then Granted(order) else Duplicate(actions[i].status, order))
  {
    PrefixOf(actions, i + 1);
    UntouchedStays(actions, i + 1, n, id);
    OrderIsRemembered(actions[..n], id);
  }

  /** The order that the last completion of the event to name one has named. */
  function OrderOf(actions: seq<Action>, id: string): Option<string> {
    if actions == [] then None
    else
      var front, a := actions[..|actions| - 1], actions[|actions| - 1];
      if a.Complete? && a.id == id && a.orderId.Some? && Known(front, id) then a.orderId else OrderOf(front, id)
  }

  /** The event has been reserved. */
  predicate Known(actions: seq<Action>, id: string) { exists a <- actions :: a.Arrive? && a.id == id }

  lemma {:induction false} KnownIsStored(actions: seq<Action>, id: string)
    ensures Known(actions, id) <==> id in RowsAfter(actions)
  {
    if actions != [] {
      var front, a := actions[..|actions| - 1], actions[|actions| - 1];
      KnownIsStored(front, id);
      assert actions == front + [a];
    }
  }

  /** Neither a reservation nor a completion that names no order makes the store forget an event's order. */
  lemma {:induction false} OrderIsRemembered(actions: seq<Action>, id: string)
    ensures id in RowsAfter(actions) ==> RowsAfter(actions)[id].orderId == OrderOf(actions, id)
    ensures id !in RowsAfter(actions) ==> OrderOf(actions, id) == None
  {
    if actions != [] {
      KnownIsStored(actions[..|actions| - 1], id);
      OrderIsRemembered(actions[..|actions| - 1], id);
    }
  }

  // ----- Exclusive handling ------------------------------------------------------------------------------

  /** While nothing else is granted or completed, the row is the one the grant left. */
  lemma {:induction false} RowIsHeld(actions: seq<Action>, i: nat, n: nat, id: string)
    requires i < n <= |actions| && GrantedAt(actions, i, id)
    requires forall k :: i < k < n ==> !GrantedAt(actions, k, id) && !(actions[k].Complete? && actions[k].id == id)
    ensures var rows := RowsAfter(actions[..n]);
            && id in rows && rows[id].status.Processing?
            && rows[id].digest == actions[i].digest && rows[id].updatedAt == actions[i].receivedAt
    decreases n
  {
    PrefixOf(actions, n);
    if n > i + 1 {
      RowIsHeld(actions, i, n - 1, id);
      assert !GrantedAt(actions, n - 1, id);
    } else {
      assert actions[..n - 1] == actions[..i];
    }
  }

  /**
   The next reservation of an event in progress, with its digest, takes over from the handler that holds
   it exactly when that handler's lease of ten minutes has run out.
   */
  lemma TakesOverWhenExpired(actions: seq<Action>, i: nat, n: nat, id: string)
    requires i < n < |actions| && GrantedAt(actions, i, id)
    requires forall k :: i < k < n ==> !GrantedAt(actions, k, id) && !(actions[k].Complete? && actions[k].id == id)
    requires actions[n].Arrive? && actions[n].id == id && actions[n].digest == actions[i].digest
    ensures GrantedAt(actions, n, id) <==> actions[n].receivedAt >= actions[i].receivedAt + 10 * 60
    ensures !GrantedAt(actions, n, id)
            ==> Reserve(RowsAfter(actions[..n]), id, actions[n].digest, actions[n].receivedAt).1 == Err(StillProcessing)
  {
    RowIsHeld(actions, i, n, id);
  }

  /** What a caller can check: nothing releases the event, and every reservation comes before the lease runs out. */
  predicate WithinLease(actions: seq<Action>, i: nat, n: nat, id: string)
    requires i < n <= |actions| && actions[i].Arrive?
  {
    forall k :: i < k < n ==>
      && !ReleasedAt(actions, k, id)
      && (actions[k].Arrive? && actions[k].id == id ==> actions[k].receivedAt < actions[i].receivedAt + LEASE)
  }

  /** Within the lease of a grant the event is granted to nobody else. */
  lemma LeaseExcludes(actions: seq<Action>, i: nat, n: nat, k: nat, id: string)
    requires i < k < n <= |actions| && (forall a <- actions :: Allowed(a)) && GrantedAt(actions, i, id)
    requires WithinLease(actions, i, n, id)
    ensures !GrantedAt(actions, k, id)
  {
    if GrantedAt(actions, k, id) { GrantsAreSpaced(actions, i, k, id); }
  }

  // ----- Handlers ------------------------------------------------------------------------------------------

  /** Action k completes the event of a grant, under the time that grant was received at, for the first time. */
  predicate ByHandler(actions: seq<Action>, k: nat)
    requires k < |actions| && actions[k].Complete?
  {
    var c := actions[k];
    && c.handler < k && GrantedAt(actions, c.handler, c.id) && actions[c.handler].receivedAt == c.updatedAt
    && forall m :: 0 <= m < k && actions[m].Complete? ==> actions[m].handler != c.handler
  }

  /** What can happen: every completion is a handler's own and only one, and ends the processing. */
  predicate Lawful(actions: seq<Action>) {
    forall k :: 0 <= k < |actions| && actions[k].Complete? ==> ByHandler(actions, k) && Allowed(actions[k])
  }

  /** Handler h was granted the event and has not completed it. */
  predicate Outstanding(actions: seq<Action>, h: nat, id: string) {
    && h < |actions| && GrantedAt(actions, h, id)
    && forall k :: 0 <= k < |actions| && actions[k].Complete? ==> actions[k].handler != h
  }

  /** However the run goes on within the lease of grant j, only its handler completes the event. */
  ghost predicate CompletedOnlyBy(actions: seq<Action>, j: nat, id: string)
    requires j < |actions| && actions[j].Arrive?
  {
    forall more: seq<Action>, k: nat ::
      Continues(actions, more, j, id) && |actions| <= k < |actions + more| && CompletesAt(actions + more, k, id)
      ==> (actions + more)[k].handler == j
  }

  /** A lawful continuation within the lease of grant j. */
  predicate Continues(actions: seq<Action>, more: seq<Action>, j: nat, id: string)
    requires j < |actions| && actions[j].Arrive?
  {
    Lawful(actions + more) && WithinLease(actions + more, j, |actions + more|, id)
  }

  predicate CompletesAt(actions: seq<Action>, k: nat, id: string) {
    k < |actions| && actions[k].Complete? && actions[k].id == id
  }

  lemma GrantsStay(actions: seq<Action>, more: seq<Action>, h: nat, id: string)
    requires h < |actions|
    ensures GrantedAt(actions + more, h, id) == GrantedAt(actions, h, id)
  {
    assert (actions + more)[..h] == actions[..h];
  }

  /** A completion within the lease is by the holder or by an earlier handler that had not completed. */
  lemma WhoCompletes(actions: seq<Action>, more: seq<Action>, j: nat, k: nat, id: string)
    requires j < |actions| && GrantedAt(actions, j, id) && Continues(actions, more, j, id)
    requires |actions| <= k < |actions + more| && CompletesAt(actions + more, k, id)
    ensures var h := (actions + more)[k].handler; h == j || (h < j && Outstanding(actions, h, id))
  {
    var all := actions + more;
    var h := all[k].handler;
    assert ByHandler(all, k);
    GrantsStay(actions, more, j, id);
    forall a | a in all ensures Allowed(a) { var m :| 0 <= m < |all| && all[m] == a; }
    if h > j {
      LeaseExcludes(all, j, |all|, h, id);
    } else if h < j {
      GrantsStay(actions, more, h, id);
      forall m | 0 <= m < |actions| && actions[m].Complete? ensures actions[m].handler != h { assert all[m] == actions[m]; }
    }
  }

  /** An outstanding handler's completion keeps the run lawful and settles the event as it says. */
  lemma OutstandingCompletes(actions: seq<Action>, h: nat, id: string, status: Status, orderId: Option<string>)
    requires Lawful(actions) && Outstanding(actions, h, id) && !status.Processing?
    ensures var all := actions + [Complete(id, status, actions[h].receivedAt, orderId, h)];
            && Lawful(all) && id in RowsAfter(all)
            && RowsAfter(all)[id].status == status && RowsAfter(all)[id].updatedAt == actions[h].receivedAt
  {
    var c := Complete(id, status, actions[h].receivedAt, orderId, h);
    var all := actions + [c];
    forall k | 0 <= k < |all| && all[k].Complete? ensures ByHandler(all, k) && Allowed(all[k]) {
      if k < |actions| {
        assert ByHandler(actions, k) && Allowed(actions[k]);
        GrantsStay(actions, [c], actions[k].handler, actions[k].id);
      } else {
        GrantsStay(actions, [c], h, id);
      }
    }
    GrantedIsStored(actions, h, id);
    assert all[..|actions|] == actions;
  }

  /**
   Completion within the lease of grant j is exclusive exactly when every earlier handler of the event has
   completed.  The first grant and a retry after a completed handler are exclusive; a takeover of an expired
   lease is not.
   */
  lemma ExclusiveWhenOthersAreDone(actions: seq<Action>, j: nat, id: string)
    requires Lawful(actions) && j < |actions| && GrantedAt(actions, j, id) && WithinLease(actions, j, |actions|, id)
    ensures CompletedOnlyBy(actions, j, id) <==> forall h :: 0 <= h < j ==> !Outstanding(actions, h, id)
  {
    if h :| 0 <= h < j && Outstanding(actions, h, id) {
      var c := Complete(id, Processed, actions[h].receivedAt, None, h);
      OutstandingCompletes(actions, h, id, Processed, None);
      var all := actions + [c];
      forall k | j < k < |all| ensures !ReleasedAt(all, k, id) && (all[k].Arrive? && all[k].id == id ==> all[k].receivedAt < all[j].receivedAt + LEASE) {
        if k < |actions| { assert !ReleasedAt(actions, k, id) && all[k] == actions[k]; }
      }
      assert Continues(actions, [c], j, id) && CompletesAt(all, |actions|, id) && all[|actions|].handler != j;
    } else {
      forall more: seq<Action>, k: nat |
        Continues(actions, more, j, id) && |actions| <= k < |actions + more| && CompletesAt(actions + more, k, id)
        ensures (actions + more)[k].handler == j
      {
        WhoCompletes(actions, more, j, k, id);
      }
    }
  }

  lemma GrantedIsStored(actions: seq<Action>, j: nat, id: string)
    requires j < |actions| && GrantedAt(actions, j, id)
    ensures id in RowsAfter(actions)
  {
    PrefixOf(actions, j + 1);
    DigestIsFixed(actions, j + 1, |actions|, id);
    assert actions[..|actions|] == actions;
  }

  /** The failing input: a second reservation once the lease has run out, with the first handler still at work. */
  lemma TakeoverIsNotExclusive(id: string, digest: string, at: int, later: int)
    requires later >= at + LEASE
    ensures var actions := [Arrive(id, digest, at), Arrive(id, digest, later)];
            && Lawful(actions) && GrantedAt(actions, 0, id) && GrantedAt(actions, 1, id)
            && Outstanding(actions, 0, id) && !CompletedOnlyBy(actions, 1, id)
  {
    var actions := [Arrive(id, digest, at), Arrive(id, digest, later)];
    assert actions[..0] == [] && RowsAfter([]) == map[];
    TakesOverWhenExpired(actions, 0, 1, id);
    var first: nat := 0;
    assert Outstanding(actions, first, id);
    ExclusiveWhenOthersAreDone(actions, 1, id);
  }

  /** And a run that is exclusive again: the first handler has completed before the event is granted anew. */
  lemma RetryIsExclusive(id: string, digest: string, at: int, later: int)
    ensures var actions := [Arrive(id, digest, at), Complete(id, Retryable, at, None, 0), Arrive(id, digest, later)];
            Lawful(actions) && GrantedAt(actions, 2, id) && CompletedOnlyBy(actions, 2, id)
  {
    var actions := [Arrive(id, digest, at), Complete(id, Retryable, at, None, 0), Arrive(id, digest, later)];
    assert actions[..0] == [] && RowsAfter([]) == map[];
    PrefixOf(actions, 1);
    PrefixOf(actions, 2);
    assert GrantedAt(actions, 0, id) && !GrantedAt(actions, 1, id) && GrantedAt(actions, 2, id);
    assert ByHandler(actions, 1);
    ExclusiveWhenOthersAreDone(actions, 2, id);
  }
}
