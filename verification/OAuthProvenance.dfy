/** Every code, token and key of the OAuth store descends from a completed login, by an unbroken chain
    of exchanges, with that login's user and the client that asked for it. */
module OAuthProvenance {
  import opened Text
  import opened SessionStore
  import opened OAuthProtocol

  // ---- chains ----

  /** The code at the start of a token's chain of exchanges, if the chain is unbroken. */
  function Root(sources: map<Id, Source>, token: Id): Option<Id>
    decreases token
  {
    if token !in sources then None
    else match sources[token]
      case OfCode(c) => Some(c)
      case OfRefresh(r) => if r < token then Root(sources, r) else None
  }

  function RootOf(sources: map<Id, Source>, source: Source): Option<Id> {
    match source
    case OfCode(c) => Some(c)
    case OfRefresh(r) => Root(sources, r)
  }

  /** The source's chain starts at a completed login of a known request. */
  ghost predicate Traced(log: Log, source: Source) {
    && RootOf(log.sources, source).Some?
    && RootOf(log.sources, source).value in log.logins
    && log.logins[RootOf(log.sources, source).value].rid in log.requests
  }

  ghost function LoginOf(log: Log, source: Source): Login
    requires Traced(log, source)
  {
    log.logins[RootOf(log.sources, source).value]
  }

  ghost function ClientOf(log: Log, source: Source): Client
    requires Traced(log, source)
  {
    log.requests[LoginOf(log, source).rid].client
  }

  /** The chain starts at a login of this user (if there is one) for a request of this client. */
  ghost predicate Carries(log: Log, source: Source, client: Client, user: Option<int>) {
    && Traced(log, source) && ClientOf(log, source) == client
    && (user.Some? ==> LoginOf(log, source).user == user.value)
  }

  // ---- what each record owes the history ----

  ghost predicate LoginOk(log: Log, clock: real, c: Id)
    requires c in log.logins
  {
    var l := log.logins[c];
    && l.rid in log.requests
    && log.requests[l.rid].createdAt <= l.checkedAt <= log.requests[l.rid].createdAt + AUTH_CODE_EXPIRY as real
    && l.checkedAt <= l.mintedAt <= clock
  }

  ghost predicate SourceOk(log: Log, t: Id)
    requires t in log.sources
  {
    Traced(log, log.sources[t]) && (log.sources[t].OfRefresh? ==> log.sources[t].token < t)
  }

  ghost predicate PendingOk(log: Log, rid: Id, p: Pending) {
    rid in log.requests && log.requests[rid] == Request(p.client, p.createdAt)
  }

  ghost predicate CodeOk(log: Log, code: Id, c: Code) {
    Carries(log, OfCode(code), c.client, None) && c.expiresAt == log.logins[code].mintedAt + AUTH_CODE_EXPIRY as real
  }

  ghost predicate UserOk(log: Log, code: Id, user: int) {
    Traced(log, OfCode(code)) && log.logins[code].user == user
  }

  ghost predicate TokenOk(log: Log, token: Id, t: Token) {
    token in log.sources && Carries(log, log.sources[token], t.client, t.user)
  }

  ghost predicate KeyOk(log: Log, token: Id, k: ApiKey) {
    token in log.sources ==> Traced(log, log.sources[token]) && LoginOf(log, log.sources[token]).user == k.user
  }

  ghost predicate Minted(log: Log, next: Id, tid: Id, source: Source, access: Id, refresh: Id) {
    && access < next && refresh < next && access != refresh
    && access in log.sources && refresh in log.sources && log.sources[access] == log.sources[refresh] == source
    && access in log.minters && refresh in log.minters && log.minters[access] == log.minters[refresh] == tid
  }

  ghost predicate ThreadOk(log: Log, next: Id, clock: real, tid: Id, t: Thread) {
    match t
    case CompletePopped(rid, p, _) => PendingOk(log, rid, p) && p.createdAt <= clock
    case CompleteChecked(rid, client, _, checkedAt) =>
      rid in log.requests && log.requests[rid].client == client
      && log.requests[rid].createdAt <= checkedAt <= log.requests[rid].createdAt + AUTH_CODE_EXPIRY as real
      && checkedAt <= clock
    case CodeSaved(code, user) => UserOk(log, code, user)
    case CodeLoaded(client, code) => Carries(log, OfCode(code), client, None)
    case CodePopped(client, code) => Carries(log, OfCode(code), client, None)
    case RefreshLoaded(client, token) => token in log.sources && Carries(log, OfRefresh(token), client, None)
    case UserPopped(source, client, user) =>
      Carries(log, source, client, user) && (source.OfRefresh? ==> source.token in log.sources)
    case KeyNext(source, client, user, _, a, r) =>
      Carries(log, source, client, user) && user.Some? && Minted(log, next, tid, source, a, r)
    case RefreshNext(source, client, user, _, a, r) =>
      Carries(log, source, client, user) && Minted(log, next, tid, source, a, r)
    case AccessNext(source, client, user, _, a, r) =>
      Carries(log, source, client, user) && Minted(log, next, tid, source, a, r)
    case Revoking(_) => true
  }

  ghost predicate LogOk(log: Log, next: Id, clock: real) {
    && (forall r :: r in log.requests ==> r < next && log.requests[r].createdAt <= clock)
    && (forall c :: c in log.logins ==> c < next && LoginOk(log, clock, c))
    && (forall t :: t in log.sources ==> t < next && SourceOk(log, t))
    && (forall t :: t in log.minters ==> t < next)
  }

  ghost predicate PendingsOk(log: Log, pending: Timed<Id, Pending>) {
    forall r :: r in pending ==> PendingOk(log, r, pending[r].value)
  }

  ghost predicate CodesOk(log: Log, codes: Timed<Id, Code>) {
    forall c :: c in codes ==> CodeOk(log, c, codes[c].value)
  }

  ghost predicate UsersOk(log: Log, codeUser: Timed<Id, int>) {
    forall c :: c in codeUser ==> UserOk(log, c, codeUser[c].value)
  }

  ghost predicate TokensOk(log: Log, tokens: Timed<Id, Token>) {
    forall t :: t in tokens ==> TokenOk(log, t, tokens[t].value)
  }

  ghost predicate KeysOk(log: Log, next: Id, apiKeys: map<Id, ApiKey>) {
    forall t :: t in apiKeys ==> t < next && KeyOk(log, t, apiKeys[t])
  }

  ghost predicate AllThreadsOk(log: Log, next: Id, clock: real, threads: map<Id, Thread>) {
    forall t :: t in threads ==> t < next && ThreadOk(log, next, clock, t, threads[t])
  }

  ghost predicate StoreOk(s: State) {
    && PendingsOk(s.log, s.pending) && CodesOk(s.log, s.codes) && UsersOk(s.log, s.codeUser)
    && TokensOk(s.log, s.refresh) && TokensOk(s.log, s.access) && KeysOk(s.log, s.next, s.apiKeys)
  }

  ghost predicate ThreadsOk(s: State) {
    AllThreadsOk(s.log, s.next, s.clock, s.threads)
  }

  ghost predicate Provenance(s: State) {
    LogOk(s.log, s.next, s.clock) && StoreOk(s) && ThreadsOk(s)
  }

  // ---- the history only grows ----

  /** Everything recorded stays recorded; what is new is fresh. */
  ghost predicate Grows(a: Log, b: Log, next: Id) {
    && (forall r :: r in a.requests ==> r in b.requests && b.requests[r] == a.requests[r])
    && (forall c :: c in a.logins ==> c in b.logins && b.logins[c] == a.logins[c])
    && (forall t :: t in a.sources ==> t in b.sources && b.sources[t] == a.sources[t])
    && (forall t :: t in a.minters ==> t in b.minters && b.minters[t] == a.minters[t])
    && (forall t :: t in b.sources && t !in a.sources ==> t >= next)
  }

  lemma {:induction false} RootStable(a: map<Id, Source>, b: map<Id, Source>, t: Id)
    requires forall x :: x in a ==> x in b && b[x] == a[x]
    requires Root(a, t).Some?
    ensures Root(b, t) == Root(a, t)
    decreases t
  {
    if a[t].OfRefresh? {
      RootStable(a, b, a[t].token);
    }
  }

  lemma TracedStable(a: Log, b: Log, next: Id, source: Source)
    requires Grows(a, b, next) && Traced(a, source)
    ensures RootOf(b.sources, source) == RootOf(a.sources, source)
    ensures Traced(b, source) && LoginOf(b, source) == LoginOf(a, source) && ClientOf(b, source) == ClientOf(a, source)
  {
    if source.OfRefresh? {
      RootStable(a.sources, b.sources, source.token);
    }
  }

  lemma ThreadStable(a: Log, b: Log, next: Id, next': Id, clock: real, clock': real, tid: Id, t: Thread)
    requires Grows(a, b, next) && ThreadOk(a, next, clock, tid, t) && next <= next' && clock <= clock'
    ensures ThreadOk(b, next', clock', tid, t)
  {
    match t
    case CompletePopped(_, _, _) =>
    case CompleteChecked(_, _, _, _) =>
    case CodeSaved(code, _) => TracedStable(a, b, next, OfCode(code));
    case CodeLoaded(_, code) => TracedStable(a, b, next, OfCode(code));
    case CodePopped(_, code) => TracedStable(a, b, next, OfCode(code));
    case RefreshLoaded(_, token) => TracedStable(a, b, next, OfRefresh(token));
    case UserPopped(source, _, _) => TracedStable(a, b, next, source);
    case KeyNext(source, _, _, _, _, _) => TracedStable(a, b, next, source);
    case RefreshNext(source, _, _, _, _, _) => TracedStable(a, b, next, source);
    case AccessNext(source, _, _, _, _, _) => TracedStable(a, b, next, source);
    case Revoking(_) =>
  }

  /** The store and the threads stay accounted for when the history grows and time passes. */
  lemma StoreStable(s: State, s': State)
    requires StoreOk(s) && s' == s.(log := s'.log, next := s'.next, clock := s'.clock)
    requires Grows(s.log, s'.log, s.next) && s.next <= s'.next
    ensures StoreOk(s')
  {
    var a, b := s.log, s'.log;
    forall c | c in s.codes ensures CodeOk(b, c, s.codes[c].value) {
      TracedStable(a, b, s.next, OfCode(c));
    }
    forall c | c in s.codeUser ensures UserOk(b, c, s.codeUser[c].value) {
      TracedStable(a, b, s.next, OfCode(c));
    }
    forall t | t in s.refresh ensures TokenOk(b, t, s.refresh[t].value) {
      TracedStable(a, b, s.next, a.sources[t]);
    }
    forall t | t in s.access ensures TokenOk(b, t, s.access[t].value) {
      TracedStable(a, b, s.next, a.sources[t]);
    }
    forall t | t in s.apiKeys ensures KeyOk(b, t, s.apiKeys[t]) {
      if t in b.sources {
        TracedStable(a, b, s.next, a.sources[t]);
      }
    }
  }

  lemma ThreadsStable(s: State, s': State)
    requires ThreadsOk(s) && s' == s.(log := s'.log, next := s'.next, clock := s'.clock)
    requires Grows(s.log, s'.log, s.next) && s.next <= s'.next && s.clock <= s'.clock
    ensures ThreadsOk(s')
  {
    forall t | t in s.threads ensures ThreadOk(s'.log, s'.next, s'.clock, t, s.threads[t]) {
      ThreadStable(s.log, s'.log, s.next, s'.next, s.clock, s'.clock, t, s.threads[t]);
    }
  }

  lemma LoginStable(a: Log, b: Log, next: Id, clock: real, clock': real, c: Id)
    requires Grows(a, b, next) && clock <= clock' && c in a.logins && LoginOk(a, clock, c)
    ensures LoginOk(b, clock', c)
  {
  }

  lemma SourceStable(a: Log, b: Log, next: Id, t: Id)
    requires Grows(a, b, next) && t in a.sources && SourceOk(a, t)
    ensures SourceOk(b, t)
  {
    TracedStable(a, b, next, a.sources[t]);
  }

  /** The history grown by what one step adds. */
  lemma GrowthKeeps(s: State, s': State)
    requires Provenance(s) && s' == s.(log := s'.log, next := s'.next, clock := s'.clock)
    requires Grows(s.log, s'.log, s.next) && s.next <= s'.next && s.clock <= s'.clock
    requires forall r :: r in s'.log.requests && r !in s.log.requests ==>
      r < s'.next && s'.log.requests[r].createdAt <= s'.clock
    requires forall c :: c in s'.log.logins && c !in s.log.logins ==> c < s'.next && LoginOk(s'.log, s'.clock, c)
    requires forall t :: t in s'.log.sources && t !in s.log.sources ==> t < s'.next && SourceOk(s'.log, t)
    requires forall t :: t in s'.log.minters && t !in s.log.minters ==> t < s'.next
    ensures Provenance(s')
  {
    StoreStable(s, s');
    ThreadsStable(s, s');
    forall c | c in s'.log.logins ensures LoginOk(s'.log, s'.clock, c) {
      if c in s.log.logins {
        LoginStable(s.log, s'.log, s.next, s.clock, s'.clock, c);
      }
    }
    forall t | t in s'.log.sources ensures SourceOk(s'.log, t) {
      if t in s.log.sources {
        SourceStable(s.log, s'.log, s.next, t);
      }
    }
  }

  // ---- every step keeps it ----

  lemma TickKeeps(s: State, d: real)
    requires Provenance(s) && d >= 0.0
    ensures Provenance(s.(clock := s.clock + d))
  {
    GrowthKeeps(s, s.(clock := s.clock + d));
  }

  lemma AuthorizeKeeps(s: State, client: Client)
    requires Provenance(s)
    ensures Provenance(DoAuthorize(s, client))
  {
    var s' := DoAuthorize(s, client);
    GrowthKeeps(s, s.(log := s'.log, next := s'.next));
  }

  lemma NextKeeps(s: State)
    requires Provenance(s)
    ensures Provenance(s.(next := s.next + 1))
  {
    GrowthKeeps(s, s.(next := s.next + 1));
  }

  /** Threads accounted for, and whatever else stays as it is. */
  lemma ThreadsKeep(s: State, s': State)
    requires Provenance(s) && s' == s.(threads := s'.threads) && AllThreadsOk(s.log, s.next, s.clock, s'.threads)
    ensures Provenance(s')
  {
  }

  lemma StartKeeps(s: State, t: Thread)
    requires Provenance(s) && ThreadOk(s.log, s.next + 1, s.clock, s.next, t)
    ensures Provenance(Start(s, t))
  {
    var n := s.(next := s.next + 1);
    NextKeeps(s);
    ThreadsKeep(n, Start(s, t));
  }

  lemma GoKeeps(s: State, tid: Id, t: Thread)
    requires Provenance(s) && tid in s.threads && ThreadOk(s.log, s.next, s.clock, tid, t)
    ensures Provenance(Go(s, tid, t))
  {
    ThreadsKeep(s, Go(s, tid, t));
  }

  lemma EndKeeps(s: State, tid: Id)
    requires Provenance(s)
    ensures Provenance(End(s, tid))
  {
    ThreadsKeep(s, End(s, tid));
  }

  /** Taking entries out of the store harms nothing. */
  lemma DropKeeps(s: State, s': State)
    requires Provenance(s)
    requires s' == s.(pending := s'.pending, codes := s'.codes, codeUser := s'.codeUser, refresh := s'.refresh,
                      access := s'.access, apiKeys := s'.apiKeys, revoked := s'.revoked)
    requires forall k :: k in s'.pending ==> k in s.pending && s'.pending[k] == s.pending[k]
    requires forall k :: k in s'.codes ==> k in s.codes && s'.codes[k] == s.codes[k]
    requires forall k :: k in s'.codeUser ==> k in s.codeUser && s'.codeUser[k] == s.codeUser[k]
    requires forall k :: k in s'.refresh ==> k in s.refresh && s'.refresh[k] == s.refresh[k]
    requires forall k :: k in s'.access ==> k in s.access && s'.access[k] == s.access[k]
    requires forall k :: k in s'.apiKeys ==> k in s.apiKeys && s'.apiKeys[k] == s.apiKeys[k]
    ensures Provenance(s')
  {
  }

  lemma DropCodeKeeps(s: State, code: Id)
    requires Provenance(s)
    ensures Provenance(s.(codes := s.codes - {code}))
  {
    DropKeeps(s, s.(codes := s.codes - {code}));
  }

  lemma DropRefreshKeeps(s: State, token: Id)
    requires Provenance(s)
    ensures Provenance(s.(refresh := s.refresh - {token}))
  {
    DropKeeps(s, s.(refresh := s.refresh - {token}));
  }

  lemma DropAccessKeeps(s: State, token: Id)
    requires Provenance(s)
    ensures Provenance(s.(access := s.access - {token}))
  {
    DropKeeps(s, s.(access := s.access - {token}));
  }

  lemma CompletePopKeeps(s: State, rid: Id, user: int, s': State)
    requires Provenance(s) && s' == DoCompletePop(s, rid, user)
    ensures Provenance(s')
  {
    var p := s.(pending := s.pending - {rid});
    CompletePopShape(s, rid, user, p, s');
    DropKeeps(s, p);
    if Lookup(s.pending, rid, s.clock).Some? {
      assert PendingOk(s.log, rid, s.pending[rid].value);
      StartKeeps(p, CompletePopped(rid, s.pending[rid].value, user));
    }
  }

  lemma CompleteCheckKeeps(s: State, tid: Id, s': State)
    requires Provenance(s) && Enabled(s, CompleteCheck(tid)) && s' == DoCompleteCheck(s, tid)
    ensures Provenance(s')
  {
    var t := s.threads[tid];
    assert ThreadOk(s.log, s.next, s.clock, tid, t);
    CompleteCheckShape(s, tid, s');
    if s' == End(s, tid) {
      EndKeeps(s, tid);
    } else {
      GoKeeps(s, tid, CompleteChecked(t.rid, t.pending.client, t.login, s.clock));
    }
  }

  /** Putting accounted-for entries into the store harms nothing. */
  lemma PutKeeps(s: State, s': State)
    requires Provenance(s) && StoreOk(s')
    requires s' == s.(pending := s'.pending, codes := s'.codes, codeUser := s'.codeUser, refresh := s'.refresh,
                      access := s'.access, apiKeys := s'.apiKeys, known := s'.known)
    ensures Provenance(s')
  {
  }

  lemma SaveCodeGrows(s: State, tid: Id)
    requires Provenance(s) && Enabled(s, SaveCode(tid))
    ensures var s', code := DoSaveCode(s, tid), s.next;
      && Grows(s.log, s'.log, s.next) && LoginOk(s'.log, s.clock, code)
      && CodeOk(s'.log, code, s'.codes[code].value) && UserOk(s'.log, code, s.threads[tid].login)
  {
    assert ThreadOk(s.log, s.next, s.clock, tid, s.threads[tid]);
    assert Traced(DoSaveCode(s, tid).log, OfCode(s.next));
  }

  lemma CodeAdded(log: Log, codes: Timed<Id, Code>, code: Id, e: Entry<Code>)
    requires CodesOk(log, codes) && CodeOk(log, code, e.value)
    ensures CodesOk(log, codes[code := e])
  {
  }

  lemma SaveCodeKeeps(s: State, tid: Id, s': State)
    requires Provenance(s) && Enabled(s, SaveCode(tid)) && s' == DoSaveCode(s, tid)
    ensures Provenance(s')
  {
    var s1 := s.(log := s'.log, next := s'.next);
    var t := CodeSaved(s.next, s.threads[tid].login);
    SaveCodeGrows(s, tid);
    GrowthKeeps(s, s1);
    GoKeeps(s1, tid, t);
    CodeAdded(s'.log, s.codes, s.next, s'.codes[s.next]);
    PutKeeps(Go(s1, tid, t), s');
  }

  lemma SaveCodeUserKeeps(s: State, tid: Id)
    requires Provenance(s) && Enabled(s, SaveCodeUser(tid))
    ensures Provenance(DoSaveCodeUser(s, tid))
  {
    assert ThreadOk(s.log, s.next, s.clock, tid, s.threads[tid]);
    EndKeeps(s, tid);
  }

  lemma LoadCodeKeeps(s: State, client: Client, code: Id, s': State)
    requires Provenance(s) && s' == DoLoadCode(s, client, code)
    ensures Provenance(s')
  {
    LoadCodeShape(s, client, code, s');
    if AcceptsCode(s, client, code) {
      assert CodeOk(s.log, code, s.codes[code].value);
      StartKeeps(s, CodeLoaded(client, code));
    } else {
      DropCodeKeeps(s, code);
    }
  }

  lemma PopCodeKeeps(s: State, tid: Id)
    requires Provenance(s) && Enabled(s, PopCode(tid))
    ensures Provenance(DoPopCode(s, tid))
  {
    var t := s.threads[tid];
    assert ThreadOk(s.log, s.next, s.clock, tid, t);
    GoKeeps(s, tid, CodePopped(t.client, t.code));
    DropKeeps(Go(s, tid, CodePopped(t.client, t.code)), DoPopCode(s, tid));
  }

  lemma PopCodeUserCarries(s: State, tid: Id, user: Option<int>)
    requires Provenance(s) && Enabled(s, PopCodeUser(tid))
    requires user == Lookup(s.codeUser, s.threads[tid].code, s.clock)
    ensures ThreadOk(s.log, s.next, s.clock, tid, UserPopped(OfCode(s.threads[tid].code), s.threads[tid].client, user))
  {
    var t := s.threads[tid];
    assert ThreadOk(s.log, s.next, s.clock, tid, t);
    if user.Some? {
      assert UserOk(s.log, t.code, s.codeUser[t.code].value);
    }
  }

  lemma PopCodeUserKeeps(s: State, tid: Id, s': State)
    requires Provenance(s) && Enabled(s, PopCodeUser(tid)) && s' == DoPopCodeUser(s, tid)
    ensures Provenance(s')
  {
    var t := s.threads[tid];
    var user := Lookup(s.codeUser, t.code, s.clock);
    PopCodeUserCarries(s, tid, user);
    GoKeeps(s, tid, UserPopped(OfCode(t.code), t.client, user));
    DropKeeps(Go(s, tid, UserPopped(OfCode(t.code), t.client, user)), s');
  }

  lemma LoadRefreshKeeps(s: State, client: Client, token: Id, s': State)
    requires Provenance(s) && s' == DoLoadRefresh(s, client, token)
    ensures Provenance(s')
  {
    LoadRefreshShape(s, client, token, s');
    if AcceptsRefresh(s, client, token) {
      LoadedRefreshCarries(s, client, token);
      StartKeeps(s, RefreshLoaded(client, token));
    } else {
      DropRefreshKeeps(s, token);
    }
  }

  lemma LoadedRefreshCarries(s: State, client: Client, token: Id)
    requires Provenance(s) && AcceptsRefresh(s, client, token)
    ensures ThreadOk(s.log, s.next + 1, s.clock, s.next, RefreshLoaded(client, token))
  {
    assert TokenOk(s.log, token, s.refresh[token].value);
    SourceIsRoot(s.log, token);
  }

  /** A token's chain is one exchange longer than its source's. */
  lemma SourceIsRoot(log: Log, token: Id)
    requires token in log.sources && SourceOk(log, token)
    ensures Root(log.sources, token) == RootOf(log.sources, log.sources[token])
    ensures Traced(log, OfRefresh(token)) && LoginOf(log, OfRefresh(token)) == LoginOf(log, log.sources[token])
  {
  }

  lemma PopRefreshCarries(s: State, tid: Id, found: Option<Token>, user: Option<int>)
    requires Provenance(s) && Enabled(s, PopRefresh(tid)) && found == Lookup(s.refresh, s.threads[tid].token, s.clock)
    requires user == if found.Some? then found.value.user else None
    ensures ThreadOk(s.log, s.next, s.clock, tid,
      UserPopped(OfRefresh(s.threads[tid].token), s.threads[tid].client, user))
  {
    var t := s.threads[tid];
    assert ThreadOk(s.log, s.next, s.clock, tid, t);
    if found.Some? {
      SourceIsRoot(s.log, t.token);
      assert TokenOk(s.log, t.token, s.refresh[t.token].value);
    }
  }

  lemma PopRefreshKeeps(s: State, tid: Id, s': State)
    requires Provenance(s) && Enabled(s, PopRefresh(tid)) && s' == DoPopRefresh(s, tid)
    ensures Provenance(s')
  {
    var t := s.threads[tid];
    var found := Lookup(s.refresh, t.token, s.clock);
    var user := if found.Some? then found.value.user else None;
    PopRefreshCarries(s, tid, found, user);
    GoKeeps(s, tid, UserPopped(OfRefresh(t.token), t.client, user));
    DropKeeps(Go(s, tid, UserPopped(OfRefresh(t.token), t.client, user)), s');
  }

  /** The history after two tokens have been made. */
  function GeneratedLog(log: Log, next: Id, source: Source, tid: Id): Log {
    log.(sources := log.sources[next := source][next + 1 := source],
      minters := log.minters[next := tid][next + 1 := tid])
  }

  lemma GeneratedGrows(log: Log, next: Id, clock: real, source: Source, tid: Id, log': Log)
    requires LogOk(log, next, clock) && log' == GeneratedLog(log, next, source, tid)
    ensures Grows(log, log', next)
  {
  }

  lemma GeneratedSources(log: Log, next: Id, source: Source, tid: Id, log': Log)
    requires Traced(log, source) && Grows(log, log', next) && log' == GeneratedLog(log, next, source, tid)
    requires source.OfRefresh? ==> source.token < next
    ensures SourceOk(log', next) && SourceOk(log', next + 1)
  {
    TracedStable(log, log', next, source);
  }

  lemma GenerateGrows(s: State, tid: Id)
    requires Provenance(s) && Enabled(s, Generate(tid))
    ensures var log := DoGenerate(s, tid).log;
      Grows(s.log, log, s.next) && SourceOk(log, s.next) && SourceOk(log, s.next + 1)
      && Carries(log, s.threads[tid].source, s.threads[tid].client, s.threads[tid].user)
  {
    var t, log := s.threads[tid], DoGenerate(s, tid).log;
    assert ThreadOk(s.log, s.next, s.clock, tid, t);
    assert log == GeneratedLog(s.log, s.next, t.source, tid);
    GeneratedGrows(s.log, s.next, s.clock, t.source, tid, log);
    GeneratedSources(s.log, s.next, t.source, tid, log);
    TracedStable(s.log, log, s.next, t.source);
  }

  lemma GenerateMints(s: State, tid: Id, s': State)
    requires Provenance(s) && Enabled(s, Generate(tid)) && s' == DoGenerate(s, tid)
    ensures ThreadOk(s'.log, s'.next, s.clock, tid, s'.threads[tid])
  {
    GenerateGrows(s, tid);
    assert Minted(s'.log, s'.next, tid, s.threads[tid].source, s.next, s.next + 1);
  }

  lemma GenerateKeeps(s: State, tid: Id, s': State)
    requires Provenance(s) && Enabled(s, Generate(tid)) && s' == DoGenerate(s, tid)
    ensures Provenance(s')
  {
    var s1 := s.(log := s'.log, next := s'.next);
    GenerateGrows(s, tid);
    GenerateMints(s, tid, s');
    GrowthKeeps(s, s1);
    GoKeeps(s1, tid, s'.threads[tid]);
    assert s' == Go(s1, tid, s'.threads[tid]);
  }

  lemma KeyAdded(log: Log, next: Id, apiKeys: map<Id, ApiKey>, token: Id, key: ApiKey)
    requires KeysOk(log, next, apiKeys) && token < next && KeyOk(log, token, key)
    ensures KeysOk(log, next, apiKeys[token := key])
  {
  }

  lemma TokenAdded(log: Log, tokens: Timed<Id, Token>, token: Id, e: Entry<Token>)
    requires TokensOk(log, tokens) && TokenOk(log, token, e.value)
    ensures TokensOk(log, tokens[token := e])
  {
  }

  lemma StoreKeyKeeps(s: State, tid: Id, s': State)
    requires Provenance(s) && Enabled(s, StoreKey(tid)) && s' == DoStoreKey(s, tid)
    ensures Provenance(s')
  {
    var t := s.threads[tid];
    assert ThreadOk(s.log, s.next, s.clock, tid, t);
    var t' := RefreshNext(t.source, t.client, t.user, t.now, t.access, t.refresh);
    GoKeeps(s, tid, t');
    KeyAdded(s.log, s.next, s.apiKeys, t.access, s'.apiKeys[t.access]);
    PutKeeps(Go(s, tid, t'), s');
  }

  lemma SaveRefreshKeeps(s: State, tid: Id, s': State)
    requires Provenance(s) && Enabled(s, SaveRefresh(tid)) && s' == DoSaveRefresh(s, tid)
    ensures Provenance(s')
  {
    var t := s.threads[tid];
    assert ThreadOk(s.log, s.next, s.clock, tid, t);
    var t' := AccessNext(t.source, t.client, t.user, t.now, t.access, t.refresh);
    GoKeeps(s, tid, t');
    TokenAdded(s.log, s.refresh, t.refresh, s'.refresh[t.refresh]);
    PutKeeps(Go(s, tid, t'), s');
  }

  lemma SaveAccessKeeps(s: State, tid: Id, s': State)
    requires Provenance(s) && Enabled(s, SaveAccess(tid)) && s' == DoSaveAccess(s, tid)
    ensures Provenance(s')
  {
    var t := s.threads[tid];
    assert ThreadOk(s.log, s.next, s.clock, tid, t);
    EndKeeps(s, tid);
    TokenAdded(s.log, s.access, t.access, s'.access[t.access]);
    PutKeeps(End(s, tid), s');
  }

  lemma IssueKeyKeeps(s: State, user: int, expiresAt: Option<real>)
    requires Provenance(s)
    ensures Provenance(DoIssueKey(s, user, expiresAt))
  {
    var s' := DoIssueKey(s, user, expiresAt);
    var s1 := s.(next := s.next + 1);
    GrowthKeeps(s, s1);
    assert KeyOk(s.log, s.next, s'.apiKeys[s.next]);
    PutKeeps(s1, s');
  }

  lemma RevokeAccessKeeps(s: State, token: Id)
    requires Provenance(s)
    ensures Provenance(DoRevokeAccess(s, token))
  {
    DropAccessKeeps(s, token);
    StartKeeps(s.(access := s.access - {token}), Revoking(token));
  }

  lemma DeleteKeyKeeps(s: State, tid: Id)
    requires Provenance(s) && Enabled(s, DeleteKey(tid))
    ensures Provenance(DoDeleteKey(s, tid))
  {
    EndKeeps(s, tid);
    DropKeeps(End(s, tid), DoDeleteKey(s, tid));
  }

  /** The steps of logging in: from `authorize` to a stored code. */
  predicate LoginStep(a: Action) {
    a.Tick? || a.Authorize? || a.CompletePop? || a.CompleteCheck? || a.SaveCode? || a.SaveCodeUser?
  }

  /** The steps that take a code or a refresh token, and verify access tokens. */
  predicate TakeStep(a: Action) {
    a.LoadCode? || a.PopCode? || a.PopCodeUser? || a.LoadRefresh? || a.PopRefresh? || a.LoadAccess? || a.RevokeRefresh?
      || a.Expire?
  }

  lemma LoginStepKeeps(s: State, a: Action)
    requires Provenance(s) && Enabled(s, a) && LoginStep(a)
    ensures Provenance(Apply(s, a))
  {
    match a
    case Tick(d) => TickKeeps(s, d);
    case Authorize(c) => AuthorizeKeeps(s, c);
    case CompletePop(r, u) => CompletePopKeeps(s, r, u, Apply(s, a));
    case CompleteCheck(t) => CompleteCheckKeeps(s, t, Apply(s, a));
    case SaveCode(t) => SaveCodeKeeps(s, t, Apply(s, a));
    case SaveCodeUser(t) => SaveCodeUserKeeps(s, t);
  }

  lemma LoadAccessKeeps(s: State, token: Id)
    requires Provenance(s)
    ensures Provenance(DoLoadAccess(s, token))
  {
    LoadAccessShape(s, token, DoLoadAccess(s, token));
    DropAccessKeeps(s, token);
  }

  lemma ExpireKeeps(s: State, e: Stale)
    requires Provenance(s)
    ensures Provenance(DoExpire(s, e))
  {
    DropKeeps(s, DoExpire(s, e));
  }

  lemma TakeStepKeeps(s: State, a: Action)
    requires Provenance(s) && Enabled(s, a) && TakeStep(a)
    ensures Provenance(Apply(s, a))
  {
    match a
    case LoadCode(c, code) => LoadCodeKeeps(s, c, code, Apply(s, a));
    case PopCode(t) => PopCodeKeeps(s, t);
    case PopCodeUser(t) => PopCodeUserKeeps(s, t, Apply(s, a));
    case LoadRefresh(c, token) => LoadRefreshKeeps(s, c, token, Apply(s, a));
    case PopRefresh(t) => PopRefreshKeeps(s, t, Apply(s, a));
    case LoadAccess(token) => LoadAccessKeeps(s, token);
    case RevokeRefresh(token) => DropRefreshKeeps(s, token);
    case Expire(e) => ExpireKeeps(s, e);
  }

  lemma StepKeepsProvenance(s: State, a: Action)
    requires Provenance(s) && Enabled(s, a)
    ensures Provenance(Apply(s, a))
  {
    if LoginStep(a) {
      LoginStepKeeps(s, a);
    } else if TakeStep(a) {
      TakeStepKeeps(s, a);
    } else {
      match a
      case Generate(t) => GenerateKeeps(s, t, Apply(s, a));
      case StoreKey(t) => StoreKeyKeeps(s, t, Apply(s, a));
      case SaveRefresh(t) => SaveRefreshKeeps(s, t, Apply(s, a));
      case SaveAccess(t) => SaveAccessKeeps(s, t, Apply(s, a));
      case RevokeAccess(token) => RevokeAccessKeeps(s, token);
      case DeleteKey(t) => DeleteKeyKeeps(s, t);
      case DeleteKeyFails(t) => EndKeeps(s, t);
      case IssueKey(u, e) => IssueKeyKeeps(s, u, e);
    }
  }

  lemma {:induction false} RunKeepsProvenance(s: State, actions: seq<Action>, s': State)
    requires Provenance(s) && Runs(s, actions, s')
    ensures Provenance(s')
    decreases |actions|
  {
    if actions != [] {
      StepKeepsProvenance(s, actions[0]);
      RunKeepsProvenance(Apply(s, actions[0]), actions[1..], s');
    }
  }

  // ---- main results ----

  /** Over every interleaving: each token or key with a user descends, by an unbroken chain of exchanges,
      from a completed login of that very user; and every token, with a user or without, belongs to the
      client whose authorize request the chain starts at. */
  lemma TokensDescendFromLogins(s: State, token: Id)
    requires Reachable(s)
    ensures token in s.refresh ==> TokenOk(s.log, token, s.refresh[token].value)
    ensures token in s.access ==> TokenOk(s.log, token, s.access[token].value)
    ensures token in s.apiKeys && token in s.log.sources
      ==> KeyOk(s.log, token, s.apiKeys[token]) && Traced(s.log, s.log.sources[token])
  {
    var actions :| Runs(INIT, actions, s);
    RunKeepsProvenance(INIT, actions, s);
  }

  /** A code accepted now was minted for the presenting client, from an authorize request no more than 600
      seconds ago, plus the time its login took between checking the request and minting the code. */
  lemma AcceptedCodeIsRecent(s: State, client: Client, code: Id)
    requires Reachable(s) && AcceptsCode(s, client, code)
    ensures code in s.log.logins && s.log.logins[code].rid in s.log.requests
    ensures var login := s.log.logins[code]; var request := s.log.requests[login.rid];
      && request.client == client
      && s.clock <= request.createdAt + 600.0 + (login.mintedAt - login.checkedAt)
  {
    var actions :| Runs(INIT, actions, s);
    RunKeepsProvenance(INIT, actions, s);
    assert CodeOk(s.log, code, s.codes[code].value);
    assert LoginOk(s.log, s.clock, code);
  }
}
