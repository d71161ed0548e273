/**
 Delivery capabilities.  Rotating, revoking and fetching a result each authorise in one
 transaction and act in another; the transactions of different callers interleave freely.
 A token is an HMAC over (tenant, order, version), so a minted token is those three values,
 and its stored digest is the token itself.
 */
module DeliveryTokens {
  import opened Wrappers

  datatype Token = Minted(tenant: string, order: string, version: int) | Foreign(text: string, wellFormed: bool)

  datatype Delivery = Delivery(sha256: string, body: string)

  datatype Binding = Binding(
    quoteId: string, tenant: string, version: int, digest: Token, active: bool, expiresAt: int, result: Option<Delivery>)

  /** Active tenants, quotes by tenant, quotes by order, delivered envelope digests, and the order bindings. */
  datatype Access = Access(
    tenants: set<string>, quoteTenant: map<string, string>, orderQuote: map<string, string>,
    envelopes: map<string, string>, bindings: map<string, Binding>)

  datatype Error = AuthenticationFailed | AuthorizationFailed | ResultNotReady | InvalidResult | IdempotencyConflict

  const MICROS := 1_000_000
  const DELIVERY_TOKEN_TTL := 30 * 24 * 3600 * MICROS
  const MAX_RESULT_BYTES := 1_000_000

  function WholeSeconds(t: int): int { t - t % MICROS }

  predicate WellFormed(t: Token) { t.Minted? || t.wellFormed }

  /** SHA-256 of a result body; the body itself, since hashing is injective. */
  function Sha256(body: string): string { body }

  // ----- Transactions ---------------------------------------------------------------------------

  function BindWrite(s: Access, tenant: string, order: string, quote: string, at: int): (Access, Result<Token, Error>) {
    if tenant !in s.tenants then (s, Err(AuthenticationFailed))
    else if quote !in s.quoteTenant || s.quoteTenant[quote] != tenant
         || order !in s.orderQuote || s.orderQuote[order] != quote then (s, Err(AuthorizationFailed))
    else if order in s.bindings then
      var b := s.bindings[order];
      (s, if b.tenant != tenant || b.quoteId != quote || !b.active || Minted(tenant, order, b.version) != b.digest
          then Err(AuthorizationFailed) else Ok(Minted(tenant, order, b.version)))
    else
      var token := Minted(tenant, order, 1);
      (s.(bindings := s.bindings[order := Binding(quote, tenant, 1, token, true, WholeSeconds(at + DELIVERY_TOKEN_TTL), None)]),
       Ok(token))
  }

  /** `authorize_order` succeeds. */
  predicate Authorizes(s: Access, tenant: string, order: string, token: Token, now: int) {
    && WellFormed(token) && order in s.bindings && s.bindings[order].tenant == tenant && tenant in s.tenants
    && s.bindings[order].active && s.bindings[order].digest == token && now < s.bindings[order].expiresAt
  }

  /** What the write transactions check again: not the tenant, not the expiry. */
  predicate StillCurrent(s: Access, tenant: string, order: string, token: Token) {
    && order in s.bindings && s.bindings[order].tenant == tenant
    && s.bindings[order].active && s.bindings[order].digest == token
  }

  function RotateWrite(s: Access, tenant: string, order: string, token: Token, at: int): (Access, Result<Token, Error>) {
    if !StillCurrent(s, tenant, order, token) then (s, Err(AuthorizationFailed))
    else
      var b := s.bindings[order];
      var next := Minted(tenant, order, b.version + 1);
      (s.(bindings := s.bindings[order := b.(version := b.version + 1, digest := next,
                                             expiresAt := WholeSeconds(at + DELIVERY_TOKEN_TTL))]), Ok(next))
  }

  function RevokeWrite(s: Access, tenant: string, order: string, token: Token): (Access, Result<(), Error>) {
    if !StillCurrent(s, tenant, order, token) then (s, Err(AuthorizationFailed))
    else (s.(bindings := s.bindings[order := s.bindings[order].(active := false)]), Ok(()))
  }

  function PublishWrite(s: Access, order: string, body: string): (Access, Result<string, Error>) {
    if !(1 <= |body| <= MAX_RESULT_BYTES) then (s, Err(InvalidResult))
    else if order !in s.envelopes || order !in s.bindings then (s, Err(ResultNotReady))
    else if s.envelopes[order] != Sha256(body) then (s, Err(InvalidResult))
    else if s.bindings[order].result.Some? then
      (s, if s.bindings[order].result.value != Delivery(Sha256(body), body) then Err(IdempotencyConflict) else Ok(Sha256(body)))
    else
      (s.(bindings := s.bindings[order := s.bindings[order].(result := Some(Delivery(Sha256(body), body)))]), Ok(Sha256(body)))
  }

  function ReadResult(s: Access, tenant: string, order: string): Result<string, Error> {
    if order !in s.bindings || s.bindings[order].tenant != tenant || s.bindings[order].result.None?
    then Err(ResultNotReady) else Ok(s.bindings[order].result.value.body)
  }

  /** At most the binding of one order differs. */
  ghost predicate OthersKept(before: map<string, Binding>, after: map<string, Binding>, order: string) {
    before - {order} == after - {order}
  }

  // ----- The object ----------------------------------------------------------------------------------

  class CommerceAccessStore {
    var tenants: set<string>
    var quoteTenant: map<string, string>
    var orderQuote: map<string, string>
    var envelopes: map<string, string>
    var bindings: map<string, Binding>

    function State(): Access
      reads this
    {
      Access(tenants, quoteTenant, orderQuote, envelopes, bindings)
    }

    constructor (s: Access)
      ensures State() == s
    {
      tenants, quoteTenant, orderQuote, envelopes, bindings := s.tenants, s.quoteTenant, s.orderQuote, s.envelopes, s.bindings;
    }

    method BindOrder(tenant: string, order: string, quote: string, at: int) returns (r: Result<Token, Error>)
      modifies this
      ensures (State(), r) == BindWrite(old(State()), tenant, order, quote, at)
      ensures OthersKept(old(bindings), bindings, order)
      ensures if r.Ok? then StillCurrent(State(), tenant, order, r.value) else State() == old(State())
    {
      if tenant !in tenants { return Err(AuthenticationFailed); }
      if quote !in quoteTenant || quoteTenant[quote] != tenant || order !in orderQuote || orderQuote[order] != quote {
        return Err(AuthorizationFailed);
      }
      if order in bindings {
        var existing := bindings[order];
        if existing.tenant != tenant || existing.quoteId != quote || !existing.active { return Err(AuthorizationFailed); }
        var current := Minted(tenant, order, existing.version);
        if current != existing.digest { return Err(AuthorizationFailed); }
        return Ok(current);
      }
      var token := Minted(tenant, order, 1);
      bindings := bindings[order := Binding(quote, tenant, 1, token, true, WholeSeconds(at + DELIVERY_TOKEN_TTL), None)];
      r := Ok(token);
    }

    method AuthorizeOrder(tenant: string, order: string, token: Token, now: int) returns (ok: bool)
      ensures ok == Authorizes(State(), tenant, order, token, now)
    {
      ok := false;
      if WellFormed(token) && order in bindings {
        var row := bindings[order];
        ok := row.tenant == tenant && tenant in tenants && row.active && row.digest == token && now < row.expiresAt;
      }
    }

    /** Both transactions of a rotation, with nothing in between. */
    method RotateDeliveryToken(tenant: string, order: string, token: Token, at: int) returns (r: Result<Token, Error>)
      modifies this
      ensures Authorizes(old(State()), tenant, order, token, at) ==> (State(), r) == RotateWrite(old(State()), tenant, order, token, at)
      ensures !Authorizes(old(State()), tenant, order, token, at) ==> State() == old(State()) && r == Err(AuthorizationFailed)
      ensures OthersKept(old(bindings), bindings, order)
      ensures r.Ok? ==> StillCurrent(State(), tenant, order, r.value) && forall t :: t != r.value ==> !StillCurrent(State(), tenant, order, t)
    {
      var ok := AuthorizeOrder(tenant, order, token, at);
      if !ok { return Err(AuthorizationFailed); }
      var row := bindings[order];
      if !row.active || row.digest != token { return Err(AuthorizationFailed); }
      var next := Minted(tenant, order, row.version + 1);
      bindings := bindings[order := row.(version := row.version + 1, digest := next,
                                         expiresAt := WholeSeconds(at + DELIVERY_TOKEN_TTL))];
      r := Ok(next);
    }

    method RevokeDeliveryToken(tenant: string, order: string, token: Token, at: int) returns (r: Result<(), Error>)
      modifies this
      ensures Authorizes(old(State()), tenant, order, token, at) ==> (State(), r) == RevokeWrite(old(State()), tenant, order, token)
      ensures !Authorizes(old(State()), tenant, order, token, at) ==> State() == old(State()) && r == Err(AuthorizationFailed)
      ensures OthersKept(old(bindings), bindings, order)
      ensures r.Ok? ==> forall t :: !StillCurrent(State(), tenant, order, t)
    {
      var ok := AuthorizeOrder(tenant, order, token, at);
      if !ok { return Err(AuthorizationFailed); }
      bindings := bindings[order := bindings[order].(active := false)];
      r := Ok(());
    }

    method PublishResult(order: string, body: string) returns (r: Result<string, Error>)
      modifies this
      ensures (State(), r) == PublishWrite(old(State()), order, body)
      ensures OthersKept(old(bindings), bindings, order)
      ensures if r.Ok? then order in bindings && bindings[order].result == Some(Delivery(r.value, body)) else State() == old(State())
    {
      if !(1 <= |body| <= MAX_RESULT_BYTES) { return Err(InvalidResult); }
      if order !in envelopes || order !in bindings { return Err(ResultNotReady); }
      var digest := Sha256(body);
      if envelopes[order] != digest { return Err(InvalidResult); }
      var row := bindings[order];
      if row.result.Some? {
        if row.result.value.sha256 != digest || row.result.value.body != body { return Err(IdempotencyConflict); }
        return Ok(digest);
      }
      bindings := bindings[order := row.(result := Some(Delivery(digest, body)))];
      r := Ok(digest);
    }

    method GetResult(tenant: string, order: string, token: Token, now: int) returns (r: Result<string, Error>)
      ensures r.Ok? ==> order in bindings && bindings[order].digest == token && bindings[order].result.Some?
                        && bindings[order].result.value.body == r.value
      ensures r == if Authorizes(State(), tenant, order, token, now) then ReadResult(State(), tenant, order) else Err(AuthorizationFailed)
    {
      var ok := AuthorizeOrder(tenant, order, token, now);
      if !ok { return Err(AuthorizationFailed); }
      r := ReadResult(State(), tenant, order);
    }
  }

  // ----- Interleavings ----------------------------------------------------------------------------------

  datatype Purpose = Rotation | Revocation | Fetch

  /** A call that has passed its authorising transaction. */
  datatype Pending = Pending(purpose: Purpose, tenant: string, order: string, token: Token, at: int)

  datatype Fact =
    | Rotated(order: string, presented: Token, minted: Token)
    | Revoked(order: string, presented: Token)
    | Fetched(order: string, presented: Token, body: string)

  datatype System = System(access: Access, pending: map<nat, Pending>, facts: seq<Fact>)

  datatype Move =
    | Bind(tenant: string, order: string, quote: string, at: int)
    | Authorize(id: nat, call: Pending)
    | Act(id: nat)
    | Publish(order: string, body: string)
    | DropTenant(tenant: string)
    | AddTenant(tenant: string)
    | Register(order: string, quote: string, tenant: string)
    | OrderDelivered(order: string, envelope: string)

  function Next(s: System, m: Move): System {
    match m
    case Bind(tenant, order, quote, at) => s.(access := BindWrite(s.access, tenant, order, quote, at).0)
    case Authorize(id, call) =>
      if id in s.pending || !Authorizes(s.access, call.tenant, call.order, call.token, call.at) then s
      else s.(pending := s.pending[id := call])
    case Act(id) =>
      if id !in s.pending then s
      else
        var c := s.pending[id];
        var rest := s.(pending := s.pending - {id});
        (match c.purpose
         case Rotation =>
           var (access, r) := RotateWrite(s.access, c.tenant, c.order, c.token, c.at);
           if r.Err? then rest else rest.(access := access, facts := s.facts + [Rotated(c.order, c.token, r.value)])
         case Revocation =>
           var (access, r) := RevokeWrite(s.access, c.tenant, c.order, c.token);
           if r.Err? then rest else rest.(access := access, facts := s.facts + [Revoked(c.order, c.token)])
         case Fetch =>
           var r := ReadResult(s.access, c.tenant, c.order);
           if r.Err? then rest else rest.(facts := s.facts + [Fetched(c.order, c.token, r.value)]))
    case Publish(order, body) => s.(access := PublishWrite(s.access, order, body).0)
    case DropTenant(tenant) => s.(access := s.access.(tenants := s.access.tenants - {tenant}))
    case AddTenant(tenant) => s.(access := s.access.(tenants := s.access.tenants + {tenant}))
    case Register(order, quote, tenant) =>
      if quote in s.access.quoteTenant || order in s.access.orderQuote then s
      else s.(access := s.access.(quoteTenant := s.access.quoteTenant[quote := tenant],
                                  orderQuote := s.access.orderQuote[order := quote]))
    case OrderDelivered(order, envelope) =>
      if order in s.access.envelopes then s else s.(access := s.access.(envelopes := s.access.envelopes[order := envelope]))
  }

  function Run(s: System, moves: seq<Move>): System
    decreases |moves|
  {
    if moves == [] then s else Run(Next(s, moves[0]), moves[1..])
  }

  const EMPTY: System := System(Access({}, map[], map[], map[], map[]), map[], [])

  // ----- What every interleaving keeps ---------------------------------------------------------------------

  predicate BindingOk(s: Access, order: string) {
    order in s.bindings ==>
      var b := s.bindings[order];
      && b.version >= 1 && b.digest == Minted(b.tenant, order, b.version)
      && b.quoteId in s.quoteTenant && s.quoteTenant[b.quoteId] == b.tenant
      && order in s.orderQuote && s.orderQuote[order] == b.quoteId
      && (b.result.Some? ==> order in s.envelopes && s.envelopes[order] == b.result.value.sha256 == Sha256(b.result.value.body)
                             && 1 <= |b.result.value.body| <= 1_000_000)
  }

  /** The token has been replaced or revoked. */
  predicate Spent(s: Access, t: Token) {
    t.Minted? && t.order in s.bindings && t.tenant == s.bindings[t.order].tenant
    && (t.version < s.bindings[t.order].version || (t.version == s.bindings[t.order].version && !s.bindings[t.order].active))
  }

  predicate FactOk(s: Access, f: Fact) {
    && f.order in s.bindings
    && (f.Rotated? ==> Spent(s, f.presented) && f.minted.Minted? && f.presented.order == f.minted.order == f.order
                       && f.presented.version + 1 == f.minted.version <= s.bindings[f.order].version)
    && (f.Revoked? ==> Spent(s, f.presented) && f.presented.order == f.order && !s.bindings[f.order].active)
    && (f.Fetched? ==> s.bindings[f.order].result == Some(Delivery(Sha256(f.body), f.body)) && BindingOk(s, f.order))
  }

  ghost predicate RotationsDiffer(facts: seq<Fact>) {
    forall i, j :: 0 <= i < j < |facts| && facts[i].Rotated? && facts[j].Rotated? ==>
      && facts[i].presented != facts[j].presented
      && (facts[i].order == facts[j].order ==> facts[i].minted.Minted? && facts[j].minted.Minted?
                                               && facts[i].minted.version < facts[j].minted.version)
  }

  ghost predicate SystemOk(s: System) {
    && (forall order: string :: BindingOk(s.access, order))
    && (forall f <- s.facts :: FactOk(s.access, f))
    && RotationsDiffer(s.facts)
  }

  /** No binding disappears; versions never fall; revocation, tenant and a published result are final. */
  ghost predicate Advances(a: Access, b: Access) {
    && (forall order <- a.bindings.Keys ::
          && order in b.bindings && b.bindings[order].tenant == a.bindings[order].tenant
          && a.bindings[order].version <= b.bindings[order].version
          && (!a.bindings[order].active ==> !b.bindings[order].active && b.bindings[order].version == a.bindings[order].version)
          && (a.bindings[order].result.Some? ==> b.bindings[order].result == a.bindings[order].result))
    && (forall order <- a.envelopes.Keys :: order in b.envelopes && b.envelopes[order] == a.envelopes[order])
  }

  lemma NextAdvances(s: System, m: Move)
    ensures Advances(s.access, Next(s, m).access)
  {
  }

  lemma AdvancingKeepsFacts(a: Access, b: Access)
    requires Advances(a, b) && forall order: string :: BindingOk(b, order)
    ensures forall t: Token :: Spent(a, t) ==> Spent(b, t)
    ensures forall f: Fact :: FactOk(a, f) ==> FactOk(b, f)
  {
    forall t: Token | Spent(a, t)
      ensures Spent(b, t)
    {
      assert t.order in a.bindings.Keys;
    }
    forall f: Fact | FactOk(a, f)
      ensures FactOk(b, f)
    {
      assert f.order in a.bindings.Keys && BindingOk(b, f.order);
    }
  }

  lemma NextKeepsBindings(s: System, m: Move)
    requires SystemOk(s)
    ensures forall order: string :: BindingOk(Next(s, m).access, order)
  {
    forall order: string
      ensures BindingOk(Next(s, m).access, order)
    {
      assert BindingOk(s.access, order);
    }
  }

  lemma ActKeepsFacts(s: System, id: nat)
    requires SystemOk(s)
    ensures forall f <- Next(s, Act(id)).facts :: FactOk(Next(s, Act(id)).access, f)
    ensures RotationsDiffer(Next(s, Act(id)).facts)
  {
    var s' := Next(s, Act(id));
    NextAdvances(s, Act(id));
    NextKeepsBindings(s, Act(id));
    AdvancingKeepsFacts(s.access, s'.access);
    hide Advances;
    if |s'.facts| > |s.facts| {
      var c := s.pending[id];
      assert BindingOk(s.access, c.order) && BindingOk(s'.access, c.order);
      var f := s'.facts[|s.facts|];
      assert FactOk(s'.access, f);
      assert s'.facts == s.facts + [f];
      forall i | 0 <= i < |s.facts| && s.facts[i].Rotated? && f.Rotated?
        ensures s.facts[i].presented != f.presented
        ensures s.facts[i].order == f.order ==> s.facts[i].minted.Minted? && s.facts[i].minted.version < f.minted.version
      {
        assert s.facts[i] in s.facts && FactOk(s.access, s.facts[i]);
      }
    }
  }

  lemma NextKeepsFacts(s: System, m: Move)
    requires SystemOk(s)
    ensures SystemOk(Next(s, m))
  {
    NextKeepsBindings(s, m);
    if m.Act? {
      ActKeepsFacts(s, m.id);
    } else {
      NextAdvances(s, m);
      AdvancingKeepsFacts(s.access, Next(s, m).access);
    }
  }

  lemma {:induction false} RunKeeps(s: System, moves: seq<Move>)
    requires SystemOk(s)
    ensures SystemOk(Run(s, moves)) && forall t: Token :: Spent(s.access, t) ==> Spent(Run(s, moves).access, t)
    decreases |moves|
  {
    hide Next, SystemOk, Spent, Advances;
    if moves != [] {
      NextKeepsFacts(s, moves[0]);
      SpentStays(s, moves[0]);
      RunKeeps(Next(s, moves[0]), moves[1..]);
    }
  }

  lemma SpentStays(s: System, m: Move)
    requires SystemOk(s)
    ensures forall t: Token :: Spent(s.access, t) ==> Spent(Next(s, m).access, t)
  {
    NextKeepsBindings(s, m);
    NextAdvances(s, m);
    AdvancingKeepsFacts(s.access, Next(s, m).access);
  }

  // ----- Results ------------------------------------------------------------------------------------------------

  /** In any interleaving at most one rotation presenting a given token succeeds, and the versions minted for an order rise. */
  lemma OneRotationPerToken(moves: seq<Move>, i: nat, j: nat)
    requires i < j < |Run(EMPTY, moves).facts|
    requires Run(EMPTY, moves).facts[i].Rotated? && Run(EMPTY, moves).facts[j].Rotated?
    ensures var a, b := Run(EMPTY, moves).facts[i], Run(EMPTY, moves).facts[j];
            && a.presented != b.presented
            && (a.order == b.order ==> a.minted.Minted? && b.minted.Minted? && a.minted.version < b.minted.version)
  {
    RunKeeps(EMPTY, moves);
  }

  /** A token presented to a successful rotation or revocation never authorises again, whatever happens afterwards. */
  lemma SpentTokensStayDead(moves: seq<Move>, later: seq<Move>, f: Fact, tenant: string, now: int)
    requires f in Run(EMPTY, moves).facts && !f.Fetched?
    ensures !Authorizes(Run(Run(EMPTY, moves), later).access, tenant, f.order, f.presented, now)
  {
    RunKeeps(EMPTY, moves);
    hide Run, RotationsDiffer;
    var s := Run(EMPTY, moves);
    assert FactOk(s.access, f) && Spent(s.access, f.presented);
    RunKeeps(s, later);
    var s' := Run(s, later);
    assert Spent(s'.access, f.presented) && BindingOk(s'.access, f.order);
  }

  /** At any time at most one token authorises an order, and it is the one its stored version mints. */
  lemma OneTokenPerOrder(moves: seq<Move>, order: string, t1: string, a: Token, n1: int, t2: string, b: Token, n2: int)
    requires Authorizes(Run(EMPTY, moves).access, t1, order, a, n1) && Authorizes(Run(EMPTY, moves).access, t2, order, b, n2)
    ensures a == b == Minted(t1, order, Run(EMPTY, moves).access.bindings[order].version) && t1 == t2
  {
    RunKeeps(EMPTY, moves);
    assert BindingOk(Run(EMPTY, moves).access, order);
  }

  /** Whatever happened before, the token a binding returns authorises until it expires, and binding again returns it again. */
  lemma BoundTokenAuthorizes(moves: seq<Move>, tenant: string, order: string, quote: string, at: int, later: int, now: int)
    requires BindWrite(Run(EMPTY, moves).access, tenant, order, quote, at).1.Ok?
    ensures var (s', r) := BindWrite(Run(EMPTY, moves).access, tenant, order, quote, at);
            && (now < s'.bindings[order].expiresAt ==> Authorizes(s', tenant, order, r.value, now))
            && BindWrite(s', tenant, order, quote, later) == (s', r)
  {
    RunKeeps(EMPTY, moves);
    assert BindingOk(Run(EMPTY, moves).access, order);
  }

  /** A rotation that succeeds hands over: the minted token authorises until it expires, the presented one never does. */
  lemma RotationHandsOver(moves: seq<Move>, tenant: string, order: string, token: Token, at: int, now: int)
    requires var s := Run(EMPTY, moves).access; StillCurrent(s, tenant, order, token) && tenant in s.tenants
    requires now < WholeSeconds(at + DELIVERY_TOKEN_TTL)
    ensures var (s', r) := RotateWrite(Run(EMPTY, moves).access, tenant, order, token, at);
            && r.Ok? && Authorizes(s', tenant, order, r.value, now) && !Authorizes(s', tenant, order, token, now)
  {
    RunKeeps(EMPTY, moves);
    assert BindingOk(Run(EMPTY, moves).access, order);
  }

  /** Every fetched body is the published one, whose digest is the delivered order's envelope digest, and two fetches agree. */
  lemma FetchesAgree(moves: seq<Move>, i: nat, j: nat)
    requires i < |Run(EMPTY, moves).facts| && j < |Run(EMPTY, moves).facts|
    requires Run(EMPTY, moves).facts[i].Fetched? && Run(EMPTY, moves).facts[j].Fetched?
    requires Run(EMPTY, moves).facts[i].order == Run(EMPTY, moves).facts[j].order
    ensures var s := Run(EMPTY, moves);
            && s.facts[i].body == s.facts[j].body
            && s.facts[i].order in s.access.envelopes && s.access.envelopes[s.facts[i].order] == Sha256(s.facts[i].body)
  {
    RunKeeps(EMPTY, moves);
    var s := Run(EMPTY, moves);
    assert s.facts[i] in s.facts && s.facts[j] in s.facts;
    assert FactOk(s.access, s.facts[i]) && FactOk(s.access, s.facts[j]);
  }

  // ----- Expiry ---------------------------------------------------------------------------------------------------

  /** The token is spent, or it is its order's current one and expires at `end`. */
  predicate Dated(s: Access, t: Token, end: int) {
    && t.Minted? && t.order in s.bindings && s.bindings[t.order].tenant == t.tenant
    && (t.version < s.bindings[t.order].version || (t.version == s.bindings[t.order].version && s.bindings[t.order].expiresAt == end))
  }

  lemma DatedStays(s: System, m: Move, t: Token, end: int)
    requires SystemOk(s) && Dated(s.access, t, end)
    ensures Dated(Next(s, m).access, t, end)
  {
    hide SystemOk;
  }

  lemma {:induction false} RunKeepsDate(s: System, moves: seq<Move>, t: Token, end: int)
    requires SystemOk(s) && Dated(s.access, t, end)
    ensures SystemOk(Run(s, moves)) && Dated(Run(s, moves).access, t, end)
    decreases |moves|
  {
    hide Next, SystemOk, Dated;
    if moves != [] {
      NextKeepsFacts(s, moves[0]);
      DatedStays(s, moves[0], t, end);
      RunKeepsDate(Next(s, moves[0]), moves[1..], t, end);
    }
  }

  /** The order's stored version is the token's, and nobody has revoked it. */
  predicate IsCurrent(s: Access, t: Token) {
    t.Minted? && t.order in s.bindings && s.bindings[t.order].version == t.version && s.bindings[t.order].active
  }

  /** Whoever asks about whichever order, a dated token authorises its own order, current, in time, for its active tenant. */
  lemma DatedAuthorizes(s: System, t: Token, end: int, tenant: string, order: string, now: int)
    requires SystemOk(s) && Dated(s.access, t, end)
    ensures Authorizes(s.access, tenant, order, t, now)
            <==> order == t.order && tenant == t.tenant && tenant in s.access.tenants && now < end && IsCurrent(s.access, t)
  {
    assert BindingOk(s.access, order) && BindingOk(s.access, t.order);
    hide SystemOk;
  }

  /**
   A token minted by binding an order at time `at` authorises, after whatever moves follow, exactly its own
   order, for its tenant while that is active, before thirty days have passed, and until it has been rotated
   away or revoked.
   */
  lemma BoundTokenExpires(
    moves: seq<Move>, tenant: string, order: string, quote: string, at: int, later: seq<Move>, who: string, what: string, now: int)
    requires order !in Run(EMPTY, moves).access.bindings && BindWrite(Run(EMPTY, moves).access, tenant, order, quote, at).1.Ok?
    ensures var t := BindWrite(Run(EMPTY, moves).access, tenant, order, quote, at).1.value;
            var s := Run(Next(Run(EMPTY, moves), Bind(tenant, order, quote, at)), later).access;
            Authorizes(s, who, what, t, now)
            <==> who == tenant && what == order && tenant in s.tenants && now < WholeSeconds(at + 30 * 24 * 3600 * MICROS)
                 && IsCurrent(s, t)
  {
    hide SystemOk, Authorizes;
    ReachableSystem(moves);
    var s0 := Run(EMPTY, moves);
    hide Run;
    NextKeepsFacts(s0, Bind(tenant, order, quote, at));
    var s1 := Next(s0, Bind(tenant, order, quote, at));
    var t, end := BindWrite(s0.access, tenant, order, quote, at).1.value, WholeSeconds(at + DELIVERY_TOKEN_TTL);
    RunKeepsDate(s1, later, t, end);
    DatedAuthorizes(Run(s1, later), t, end, who, what, now);
  }

  /** The same for a token minted by a rotation that was asked for at time `at`. */
  lemma RotatedTokenExpires(moves: seq<Move>, id: nat, later: seq<Move>, who: string, what: string, now: int)
    requires id in Run(EMPTY, moves).pending && Run(EMPTY, moves).pending[id].purpose.Rotation?
    requires |Next(Run(EMPTY, moves), Act(id)).facts| > |Run(EMPTY, moves).facts|
    ensures var call, s1 := Run(EMPTY, moves).pending[id], Next(Run(EMPTY, moves), Act(id));
            && s1.facts[|s1.facts| - 1].Rotated?
            && var t, s := s1.facts[|s1.facts| - 1].minted, Run(s1, later).access;
               Authorizes(s, who, what, t, now)
               <==> who == call.tenant && what == call.order && who in s.tenants
                    && now < WholeSeconds(call.at + 30 * 24 * 3600 * MICROS) && IsCurrent(s, t)
  {
    hide SystemOk, Authorizes;
    ReachableSystem(moves);
    var s0 := Run(EMPTY, moves);
    hide Run;
    NextKeepsFacts(s0, Act(id));
    var s1 := Next(s0, Act(id));
    var t, end := s1.facts[|s1.facts| - 1].minted, WholeSeconds(s0.pending[id].at + DELIVERY_TOKEN_TTL);
    RunKeepsDate(s1, later, t, end);
    DatedAuthorizes(Run(s1, later), t, end, who, what, now);
  }

  /** Cutting to whole seconds takes off less than a second. */
  lemma WholeSecondsCut(t: int)
    ensures WholeSeconds(t) % 1_000_000 == 0 && WholeSeconds(t) <= t < WholeSeconds(t) + 1_000_000
  {
  }

  // ----- What is accepted -------------------------------------------------------------------------------------------

  lemma ReachableBinding(moves: seq<Move>, order: string)
    ensures BindingOk(Run(EMPTY, moves).access, order)
  {
    hide Run, Next, BindingOk;
    ReachableSystem(moves);
  }

  predicate OwnsOrder(s: Access, tenant: string, order: string, quote: string) {
    quote in s.quoteTenant && s.quoteTenant[quote] == tenant && order in s.orderQuote && s.orderQuote[order] == quote
  }

  /** A bound order is its tenant's: the tenant has the quote that the order was placed against. */
  lemma BoundOrdersAreOwned(moves: seq<Move>, order: string)
    requires order in Run(EMPTY, moves).access.bindings
    ensures var s := Run(EMPTY, moves).access; OwnsOrder(s, s.bindings[order].tenant, order, s.bindings[order].quoteId)
  {
    ReachableBinding(moves, order);
    hide Run;
  }

  /** In every reachable store a binding is accepted exactly for an active tenant's own order that has not been revoked. */
  lemma BindingIsAccepted(moves: seq<Move>, tenant: string, order: string, quote: string, at: int)
    ensures var s := Run(EMPTY, moves).access;
            var r := BindWrite(s, tenant, order, quote, at).1;
            && (r.Ok? <==> tenant in s.tenants && OwnsOrder(s, tenant, order, quote) && (order in s.bindings ==> s.bindings[order].active))
            && (r.Err? ==> r.error == if tenant in s.tenants then AuthorizationFailed else AuthenticationFailed)
  {
    ReachableBinding(moves, order);
    hide Run;
  }

  /**
   In every reachable store a result is accepted exactly if it has a proper size, its order is bound and
   delivered, and it is what was delivered; a result can never conflict with one that was published before.
   */
  lemma ResultIsAccepted(moves: seq<Move>, order: string, body: string)
    ensures var s := Run(EMPTY, moves).access;
            var (s', r) := PublishWrite(s, order, body);
            && (r.Ok? <==> 1 <= |body| <= 1_000_000 && order in s.bindings && order in s.envelopes && s.envelopes[order] == Sha256(body))
            && (r.Ok? ==> order in s'.bindings && s'.bindings[order].result == Some(Delivery(Sha256(body), body)))
            && (r == Err(ResultNotReady) <==> 1 <= |body| <= 1_000_000 && !(order in s.bindings && order in s.envelopes))
            && r != Err(IdempotencyConflict)
  {
    ReachableBinding(moves, order);
    hide Run;
  }

  /** A result that was published is there for the tenant of its binding, from then on, and for nobody else. */
  lemma PublishedResultIsRead(moves: seq<Move>, order: string, body: string, later: seq<Move>, who: string)
    requires PublishWrite(Run(EMPTY, moves).access, order, body).1.Ok?
    ensures var s1 := Next(Run(EMPTY, moves), Publish(order, body));
            var s := Run(s1, later).access;
            && order in s.bindings
            && ReadResult(s, who, order) == if who == s.bindings[order].tenant then Ok(body) else Err(ResultNotReady)
  {
    hide Run, SystemOk;
    ReachableSystem(moves);
    ResultIsAccepted(moves, order, body);
    var s0 := Run(EMPTY, moves);
    var s1 := Next(s0, Publish(order, body));
    NextKeepsFacts(s0, Publish(order, body));
    hide Next;
    RunKeepsResult(s1, later, order, Delivery(Sha256(body), body));
  }

  lemma ReachableSystem(moves: seq<Move>)
    ensures SystemOk(Run(EMPTY, moves))
  {
    hide Run, Next;
    RunKeeps(EMPTY, moves);
  }

  lemma {:induction false} RunKeepsResult(s: System, moves: seq<Move>, order: string, result: Delivery)
    requires SystemOk(s) && order in s.access.bindings && s.access.bindings[order].result == Some(result)
    ensures order in Run(s, moves).access.bindings && Run(s, moves).access.bindings[order].result == Some(result)
    decreases |moves|
  {
    hide Next, SystemOk;
    if moves != [] {
      NextKeepsFacts(s, moves[0]);
      NextAdvances(s, moves[0]);
      assert order in s.access.bindings.Keys;
      RunKeepsResult(Next(s, moves[0]), moves[1..], order, result);
    }
  }
}
