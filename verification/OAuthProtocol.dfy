/** The OAuth grant life cycle (app/auth/mcp_oauth_provider.py) as a protocol over single store
    operations, so that any number of requests can be in flight at once. Every identifier (request id,
    code, token, thread) is drawn from one counter and so is fresh; users are numbers. */
module OAuthProtocol {
  import opened Text
  import opened SessionStore

  const AUTH_CODE_EXPIRY: nat := 300
  const ACCESS_TOKEN_EXPIRY: nat := 3600
  const REFRESH_TOKEN_EXPIRY: nat := 86400 * 30

  type Client = string
  type Id = nat

  // ---- what the store holds ----

  datatype Pending = Pending(client: Client, createdAt: real)
  datatype Code = Code(client: Client, expiresAt: real)
  /** A token record; its `expires_at` is computed from the clock rounded down. */
  datatype Token = Token(user: Option<int>, client: Client, expiresAt: int)
  /** A row of the API key table; its expiry is computed from the exact clock. */
  datatype ApiKey = ApiKey(user: int, expiresAt: Option<real>)

  /** Where a pair of tokens came from: the code or the refresh token that was exchanged for it. */
  datatype Source = OfCode(code: Id) | OfRefresh(token: Id)

  /** A request in flight, between two store operations. */
  datatype Thread =
    | CompletePopped(rid: Id, pending: Pending, login: int)
    | CompleteChecked(rid: Id, client: Client, login: int, checkedAt: real)
    | CodeSaved(code: Id, login: int)
    | CodeLoaded(client: Client, code: Id)
    | CodePopped(client: Client, code: Id)
    | RefreshLoaded(client: Client, token: Id)
    | UserPopped(source: Source, client: Client, user: Option<int>)
    | KeyNext(source: Source, client: Client, user: Option<int>, now: int, access: Id, refresh: Id)
    | RefreshNext(source: Source, client: Client, user: Option<int>, now: int, access: Id, refresh: Id)
    | AccessNext(source: Source, client: Client, user: Option<int>, now: int, access: Id, refresh: Id)
    | Revoking(token: Id)

  // ---- the history, which no operation reads ----

  datatype Request = Request(client: Client, createdAt: real)
  datatype Login = Login(rid: Id, user: int, checkedAt: real, mintedAt: real)

  /** Every authorize, every completed login (by the code it minted), and every token's source and minter. */
  datatype Log = Log(requests: map<Id, Request>, logins: map<Id, Login>, sources: map<Id, Source>, minters: map<Id, Id>)

  datatype State = State(
    clock: real,
    next: Id,
    pending: Timed<Id, Pending>,
    codes: Timed<Id, Code>,
    codeUser: Timed<Id, int>,
    refresh: Timed<Id, Token>,
    access: Timed<Id, Token>,
    apiKeys: map<Id, ApiKey>,
    threads: map<Id, Thread>,
    known: set<Id>,    // tokens handed out, which a client can present
    revoked: set<Id>,  // access tokens whose revocation has run to its end
    log: Log)

  const INIT: State :=
    State(0.0, 0, map[], map[], map[], map[], map[], map[], map[], {}, {}, Log(map[], map[], map[], map[]))

  // ---- the steps ----

  datatype Action =
    | Tick(seconds: real)
    | Authorize(client: Client)
    | CompletePop(rid: Id, user: int)
    | CompleteCheck(tid: Id)
    | SaveCode(tid: Id)
    | SaveCodeUser(tid: Id)
    | LoadCode(client: Client, code: Id)
    | PopCode(tid: Id)
    | PopCodeUser(tid: Id)
    | LoadRefresh(client: Client, token: Id)
    | PopRefresh(tid: Id)
    | Generate(tid: Id)
    | StoreKey(tid: Id)
    | SaveRefresh(tid: Id)
    | SaveAccess(tid: Id)
    | LoadAccess(token: Id)
    | RevokeAccess(token: Id)
    | DeleteKey(tid: Id)
    | DeleteKeyFails(tid: Id)
    | RevokeRefresh(token: Id)
    | IssueKey(user: int, expiresAt: Option<real>)
    | Expire(stale: Stale)

  /** An entry past its deadline may vanish at any time. */
  datatype Stale =
    | StalePending(id: Id) | StaleCode(id: Id) | StaleUser(id: Id) | StaleRefresh(id: Id) | StaleAccess(id: Id)

  function In<V>(v: V, ttl: nat, now: real): Entry<V> {
    Entry(v, Some(now + ttl as real))
  }

  predicate Truthy(user: Option<int>) {
    user.Some? && user.value != 0
  }

  function Start(s: State, t: Thread): State {
    s.(threads := s.threads[s.next := t], next := s.next + 1)
  }

  function Go(s: State, tid: Id, t: Thread): State {
    s.(threads := s.threads[tid := t])
  }

  function End(s: State, tid: Id): State {
    s.(threads := s.threads - {tid})
  }

  function DoAuthorize(s: State, client: Client): State {
    s.(pending := s.pending[s.next := In(Pending(client, s.clock), AUTH_CODE_EXPIRY, s.clock)],
       log := s.log.(requests := s.log.requests[s.next := Request(client, s.clock)]),
       next := s.next + 1)
  }

  function DoCompletePop(s: State, rid: Id, user: int): State {
    var s' := s.(pending := s.pending - {rid});
    match Lookup(s.pending, rid, s.clock)
    case None => s'
    case Some(p) => Start(s', CompletePopped(rid, p, user))
  }

  function DoCompleteCheck(s: State, tid: Id): State
    requires tid in s.threads && s.threads[tid].CompletePopped?
  {
    var t := s.threads[tid];
    if s.clock - t.pending.createdAt > AUTH_CODE_EXPIRY as real then End(s, tid)
    else Go(s, tid, CompleteChecked(t.rid, t.pending.client, t.login, s.clock))
  }

  function DoSaveCode(s: State, tid: Id): State
    requires tid in s.threads && s.threads[tid].CompleteChecked?
  {
    var t, code := s.threads[tid], s.next;
    s.(codes := s.codes[code := In(Code(t.client, s.clock + AUTH_CODE_EXPIRY as real), AUTH_CODE_EXPIRY, s.clock)],
       log := s.log.(logins := s.log.logins[code := Login(t.rid, t.login, t.checkedAt, s.clock)]),
       threads := s.threads[tid := CodeSaved(code, t.login)],
       next := s.next + 1)
  }

  function DoSaveCodeUser(s: State, tid: Id): State
    requires tid in s.threads && s.threads[tid].CodeSaved?
  {
    var t := s.threads[tid];
    End(s, tid).(codeUser := s.codeUser[t.code := In(t.login, AUTH_CODE_EXPIRY, s.clock)])
  }

  /** `load_authorization_code`: the code is accepted for this client now. */
  predicate AcceptsCode(s: State, client: Client, code: Id) {
    match Lookup(s.codes, code, s.clock)
    case None => false
    case Some(c) => c.expiresAt >= s.clock && c.client == client
  }

  function DoLoadCode(s: State, client: Client, code: Id): State {
    match Lookup(s.codes, code, s.clock)
    case None => s.(codes := Lazy(s.codes, Get(code), s.clock).0)
    case Some(c) =>
      if c.expiresAt < s.clock then s.(codes := s.codes - {code})
      else if c.client != client then s
      else Start(s, CodeLoaded(client, code))
  }

  /** The result of the pop is not looked at. */
  function DoPopCode(s: State, tid: Id): State
    requires tid in s.threads && s.threads[tid].CodeLoaded?
  {
    var t := s.threads[tid];
    Go(s, tid, CodePopped(t.client, t.code)).(codes := s.codes - {t.code})
  }

  function DoPopCodeUser(s: State, tid: Id): State
    requires tid in s.threads && s.threads[tid].CodePopped?
  {
    var t := s.threads[tid];
    var user := Lookup(s.codeUser, t.code, s.clock);
    Go(s, tid, UserPopped(OfCode(t.code), t.client, user)).(codeUser := s.codeUser - {t.code})
  }

  /** `load_refresh_token`: the token is accepted for this client now. */
  predicate AcceptsRefresh(s: State, client: Client, token: Id) {
    match Lookup(s.refresh, token, s.clock)
    case None => false
    case Some(r) => r.expiresAt as real >= s.clock && r.client == client
  }

  function DoLoadRefresh(s: State, client: Client, token: Id): State {
    match Lookup(s.refresh, token, s.clock)
    case None => s.(refresh := Lazy(s.refresh, Get(token), s.clock).0)
    case Some(r) =>
      if r.expiresAt as real < s.clock then s.(refresh := s.refresh - {token})
      else if r.client != client then s
      else Start(s, RefreshLoaded(client, token))
  }

  function DoPopRefresh(s: State, tid: Id): State
    requires tid in s.threads && s.threads[tid].RefreshLoaded?
  {
    var t := s.threads[tid];
    var found := Lookup(s.refresh, t.token, s.clock);
    var user := if found.Some? then found.value.user else None;
    Go(s, tid, UserPopped(OfRefresh(t.token), t.client, user)).(refresh := s.refresh - {t.token})
  }

  /** Reads the clock, rounds it down, and makes the two new tokens. */
  function DoGenerate(s: State, tid: Id): State
    requires tid in s.threads && s.threads[tid].UserPopped?
  {
    var t, a, r := s.threads[tid], s.next, s.next + 1;
    var now := s.clock.Floor;
    var t' := if Truthy(t.user) then KeyNext(t.source, t.client, t.user, now, a, r)
              else RefreshNext(t.source, t.client, t.user, now, a, r);
    s.(threads := s.threads[tid := t'], next := s.next + 2,
       log := s.log.(sources := s.log.sources[a := t.source][r := t.source],
                     minters := s.log.minters[a := tid][r := tid]))
  }

  function DoStoreKey(s: State, tid: Id): State
    requires tid in s.threads && s.threads[tid].KeyNext? && s.threads[tid].user.Some?
  {
    var t := s.threads[tid];
    var key := ApiKey(t.user.value, Some(s.clock + ACCESS_TOKEN_EXPIRY as real));
    Go(s, tid, RefreshNext(t.source, t.client, t.user, t.now, t.access, t.refresh))
      .(apiKeys := s.apiKeys[t.access := key])
  }

  function DoSaveRefresh(s: State, tid: Id): State
    requires tid in s.threads && s.threads[tid].RefreshNext?
  {
    var t := s.threads[tid];
    var token := Token(t.user, t.client, t.now + REFRESH_TOKEN_EXPIRY);
    Go(s, tid, AccessNext(t.source, t.client, t.user, t.now, t.access, t.refresh))
      .(refresh := s.refresh[t.refresh := In(token, REFRESH_TOKEN_EXPIRY, s.clock)])
  }

  function DoSaveAccess(s: State, tid: Id): State
    requires tid in s.threads && s.threads[tid].AccessNext?
  {
    var t := s.threads[tid];
    var token := Token(t.user, t.client, t.now + ACCESS_TOKEN_EXPIRY);
    End(s, tid).(access := s.access[t.access := In(token, ACCESS_TOKEN_EXPIRY, s.clock)],
                 known := s.known + {t.access, t.refresh})
  }

  /** `load_access_token`: a store record decides if there is one, and the API key table otherwise. */
  predicate AcceptsAccess(s: State, token: Id) {
    match Lookup(s.access, token, s.clock)
    case Some(r) => r.expiresAt as real >= s.clock
    case None => token in s.apiKeys && (s.apiKeys[token].expiresAt.None? || s.apiKeys[token].expiresAt.value >= s.clock)
  }

  function DoLoadAccess(s: State, token: Id): State {
    match Lookup(s.access, token, s.clock)
    case None => s.(access := Lazy(s.access, Get(token), s.clock).0)
    case Some(r) => if r.expiresAt as real < s.clock then s.(access := s.access - {token}) else s
  }

  function DoRevokeAccess(s: State, token: Id): State {
    Start(s.(access := s.access - {token}), Revoking(token))
  }

  function DoDeleteKey(s: State, tid: Id): State
    requires tid in s.threads && s.threads[tid].Revoking?
  {
    var token := s.threads[tid].token;
    End(s, tid).(apiKeys := s.apiKeys - {token}, revoked := s.revoked + {token})
  }

  function DoIssueKey(s: State, user: int, expiresAt: Option<real>): State {
    s.(apiKeys := s.apiKeys[s.next := ApiKey(user, expiresAt)], known := s.known + {s.next}, next := s.next + 1)
  }

  predicate IsStale<V>(d: Timed<Id, V>, id: Id, now: real) {
    id in d && d[id].deadline.Some? && d[id].deadline.value <= now
  }

  predicate MayExpire(s: State, e: Stale) {
    match e
    case StalePending(i) => IsStale(s.pending, i, s.clock)
    case StaleCode(i) => IsStale(s.codes, i, s.clock)
    case StaleUser(i) => IsStale(s.codeUser, i, s.clock)
    case StaleRefresh(i) => IsStale(s.refresh, i, s.clock)
    case StaleAccess(i) => IsStale(s.access, i, s.clock)
  }

  function DoExpire(s: State, e: Stale): State {
    match e
    case StalePending(i) => s.(pending := s.pending - {i})
    case StaleCode(i) => s.(codes := s.codes - {i})
    case StaleUser(i) => s.(codeUser := s.codeUser - {i})
    case StaleRefresh(i) => s.(refresh := s.refresh - {i})
    case StaleAccess(i) => s.(access := s.access - {i})
  }

  predicate Enabled(s: State, a: Action) {
    match a
    case Tick(d) => d >= 0.0
    case CompleteCheck(t) => t in s.threads && s.threads[t].CompletePopped?
    case SaveCode(t) => t in s.threads && s.threads[t].CompleteChecked?
    case SaveCodeUser(t) => t in s.threads && s.threads[t].CodeSaved?
    case PopCode(t) => t in s.threads && s.threads[t].CodeLoaded?
    case PopCodeUser(t) => t in s.threads && s.threads[t].CodePopped?
    case PopRefresh(t) => t in s.threads && s.threads[t].RefreshLoaded?
    case Generate(t) => t in s.threads && s.threads[t].UserPopped?
    case StoreKey(t) => t in s.threads && s.threads[t].KeyNext? && s.threads[t].user.Some?
    case SaveRefresh(t) => t in s.threads && s.threads[t].RefreshNext?
    case SaveAccess(t) => t in s.threads && s.threads[t].AccessNext?
    case RevokeAccess(token) => token in s.known
    case DeleteKey(t) => t in s.threads && s.threads[t].Revoking?
    case DeleteKeyFails(t) => t in s.threads && s.threads[t].Revoking?
    case Expire(e) => MayExpire(s, e)
    case _ => true
  }

  function Apply(s: State, a: Action): State
    requires Enabled(s, a)
  {
    match a
    case Tick(d) => s.(clock := s.clock + d)
    case Authorize(c) => DoAuthorize(s, c)
    case CompletePop(r, u) => DoCompletePop(s, r, u)
    case CompleteCheck(t) => DoCompleteCheck(s, t)
    case SaveCode(t) => DoSaveCode(s, t)
    case SaveCodeUser(t) => DoSaveCodeUser(s, t)
    case LoadCode(c, code) => DoLoadCode(s, c, code)
    case PopCode(t) => DoPopCode(s, t)
    case PopCodeUser(t) => DoPopCodeUser(s, t)
    case LoadRefresh(c, token) => DoLoadRefresh(s, c, token)
    case PopRefresh(t) => DoPopRefresh(s, t)
    case Generate(t) => DoGenerate(s, t)
    case StoreKey(t) => DoStoreKey(s, t)
    case SaveRefresh(t) => DoSaveRefresh(s, t)
    case SaveAccess(t) => DoSaveAccess(s, t)
    case LoadAccess(token) => DoLoadAccess(s, token)
    case RevokeAccess(token) => DoRevokeAccess(s, token)
    case DeleteKey(t) => DoDeleteKey(s, t)
    case DeleteKeyFails(t) => End(s, t)
    case RevokeRefresh(token) => s.(refresh := s.refresh - {token})
    case IssueKey(u, e) => DoIssueKey(s, u, e)
    case Expire(e) => DoExpire(s, e)
  }

  // ---- what the branching steps come to ----

  /** A load leaves the state alone, evicts what has expired, or starts a thread for what it accepts. */
  lemma LoadCodeShape(s: State, client: Client, id: Id, s': State)
    requires s' == DoLoadCode(s, client, id)
    ensures AcceptsCode(s, client, id) ==> s' == Start(s, CodeLoaded(client, id))
    ensures !AcceptsCode(s, client, id) ==> s' == s || s' == s.(codes := s.codes - {id})
  {
  }

  lemma LoadRefreshShape(s: State, client: Client, id: Id, s': State)
    requires s' == DoLoadRefresh(s, client, id)
    ensures AcceptsRefresh(s, client, id) ==> s' == Start(s, RefreshLoaded(client, id))
    ensures !AcceptsRefresh(s, client, id) ==> s' == s || s' == s.(refresh := s.refresh - {id})
  {
  }

  lemma LoadAccessShape(s: State, id: Id, s': State)
    requires s' == DoLoadAccess(s, id)
    ensures s' == s || s' == s.(access := s.access - {id})
  {
  }

  lemma CompletePopShape(s: State, rid: Id, user: int, p: State, s': State)
    requires s' == DoCompletePop(s, rid, user) && p == s.(pending := s.pending - {rid})
    ensures Lookup(s.pending, rid, s.clock).None? ==> s' == p
    ensures Lookup(s.pending, rid, s.clock).Some?
      ==> rid in s.pending && s' == Start(p, CompletePopped(rid, s.pending[rid].value, user))
  {
  }

  lemma CompleteCheckShape(s: State, tid: Id, s': State)
    requires Enabled(s, CompleteCheck(tid)) && s' == DoCompleteCheck(s, tid)
    ensures var t := s.threads[tid];
      s' == End(s, tid) || (s.clock - t.pending.createdAt <= AUTH_CODE_EXPIRY as real
        && s' == Go(s, tid, CompleteChecked(t.rid, t.pending.client, t.login, s.clock)))
  {
  }

  /** `s'` is reached from `s` by the actions, each enabled when its turn comes. */
  ghost predicate Runs(s: State, actions: seq<Action>, s': State)
    decreases |actions|
  {
    if actions == [] then s' == s
    else Enabled(s, actions[0]) && Runs(Apply(s, actions[0]), actions[1..], s')
  }

  ghost predicate Reachable(s: State) {
    exists actions :: Runs(INIT, actions, s)
  }
}
