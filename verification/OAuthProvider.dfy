/** The provider itself (app/auth/mcp_oauth_provider.py): methods over the session store's dictionaries and
    the API key table. Each is tied to the protocol of `OAuthProtocol` by a ghost state that takes the
    protocol's steps beside it and so stays reachable: whatever holds over every run of the protocol holds of
    every sequence of calls. One call reads one clock value; other requests come between calls. */
module OAuthProvider {
  import opened Text
  import opened SessionStore
  import opened OAuthProtocol
  import opened OAuthProvenance
  import L = OAuthLinear
  import R = OAuthRevocation

  // ---- what a load decides and leaves behind, on the dictionary alone ----

  predicate AcceptsIn(codes: Timed<Id, Code>, client: Client, code: Id, now: real) {
    var found := Lookup(codes, code, now);
    found.Some? && found.value.expiresAt >= now && found.value.client == client
  }

  predicate CodesAfter(codes: Timed<Id, Code>, code: Id, now: real, codes': Timed<Id, Code>) {
    var found := Lookup(codes, code, now);
    codes' == if found.None? then Lazy(codes, Get(code), now).0
              else if found.value.expiresAt < now then codes - {code}
              else codes
  }

  predicate TokenAccepted(tokens: Timed<Id, Token>, client: Client, token: Id, now: real) {
    var found := Lookup(tokens, token, now);
    found.Some? && found.value.expiresAt as real >= now && found.value.client == client
  }

  predicate TokensAfter(tokens: Timed<Id, Token>, token: Id, now: real, tokens': Timed<Id, Token>) {
    var found := Lookup(tokens, token, now);
    tokens' == if found.None? then Lazy(tokens, Get(token), now).0
               else if (found.value.expiresAt as real) < now then tokens - {token}
               else tokens
  }

  lemma LoadCodeFields(s: State, client: Client, code: Id, s': State)
    requires s' == DoLoadCode(s, client, code)
    ensures s' == s.(codes := s'.codes, threads := s'.threads, next := s'.next)
    ensures AcceptsCode(s, client, code) <==> AcceptsIn(s.codes, client, code, s.clock)
    ensures CodesAfter(s.codes, code, s.clock, s'.codes)
    ensures s'.next == if AcceptsIn(s.codes, client, code, s.clock) then s.next + 1 else s.next
  {
  }

  lemma LoadRefreshDecides(s: State, client: Client, token: Id)
    ensures AcceptsRefresh(s, client, token) <==> TokenAccepted(s.refresh, client, token, s.clock)
  {
  }

  lemma LoadRefreshFields(s: State, client: Client, token: Id, s': State)
    requires s' == DoLoadRefresh(s, client, token)
    ensures s' == s.(refresh := s'.refresh, threads := s'.threads, next := s'.next)
    ensures AcceptsRefresh(s, client, token) <==> TokenAccepted(s.refresh, client, token, s.clock)
    ensures TokensAfter(s.refresh, token, s.clock, s'.refresh)
    ensures s'.next == if TokenAccepted(s.refresh, client, token, s.clock) then s.next + 1 else s.next
  {
    LoadRefreshShape(s, client, token, s');
    LoadRefreshDecides(s, client, token);
  }

  lemma LoadAccessFields(s: State, token: Id, s': State)
    requires s' == DoLoadAccess(s, token)
    ensures s' == s.(access := s'.access) && TokensAfter(s.access, token, s.clock, s'.access)
  {
  }

  // ---- what calls do, on the entries themselves ----

  /** The token's entry is alive, and the token's own expiry has not passed. */
  ghost predicate TokenLives(d: Timed<Id, Token>, token: Id, now: real) {
    InStore(d, token, now) && d[token].value.expiresAt as real >= now
  }

  /** Reading a token throws it out exactly when it is dead. */
  ghost predicate TokenRead(d: Timed<Id, Token>, token: Id, now: real, d': Timed<Id, Token>) {
    d' == if TokenLives(d, token, now) then d else d - {token}
  }

  /** A code entry for the client, which lives five minutes. */
  function CodeEntry(client: Client, now: real): Entry<Code> {
    Entry(Code(client, now + 300.0), Some(now + 300.0))
  }

  /** A token entry for the client and user, with the given life. */
  function TokenEntry(client: Client, user: Option<int>, life: nat, now: real): Entry<Token> {
    Entry(Token(user, client, now.Floor + life), Some(now + life as real))
  }

  /** The key table with a row of one hour for a true user. */
  function WithKey(apiKeys: map<Id, ApiKey>, a: Id, user: Option<int>, now: real): map<Id, ApiKey> {
    if user.Some? && user.value != 0 then apiKeys[a := ApiKey(user.value, Some(now + 3600.0))] else apiKeys
  }

  class Provider {
    const pending: TTLDict<Id, Pending>
    const codes: TTLDict<Id, Code>
    const codeUser: TTLDict<Id, int>
    const refresh: TTLDict<Id, Token>
    const access: TTLDict<Id, Token>
    var apiKeys: map<Id, ApiKey>
    var next: Id           // the source of fresh identifiers
    ghost var state: State

    ghost predicate Valid()
      reads this, pending, codes, codeUser, refresh, access
    {
      && refresh != access
      && pending.data == state.pending && codes.data == state.codes && codeUser.data == state.codeUser
      && refresh.data == state.refresh && access.data == state.access && apiKeys == state.apiKeys
      && next == state.next
    }

    constructor ()
      ensures Valid() && state == INIT && Reachable(state)
      ensures fresh(pending) && fresh(codes) && fresh(codeUser) && fresh(refresh) && fresh(access)
    {
      pending := new TTLDict();
      codes := new TTLDict();
      codeUser := new TTLDict();
      refresh := new TTLDict();
      access := new TTLDict();
      apiKeys, next, state := map[], 0, INIT;
      assert Runs(INIT, [], INIT);
    }

    /** Time passes between calls. */
    ghost method Tick(seconds: real)
      requires Valid() && seconds >= 0.0
      modifies this`state
      ensures Valid() && state == Apply(old(state), Action.Tick(seconds))
      ensures old(Reachable(state)) ==> Reachable(state)
    {
      if Reachable(state) { R.StepReachable(state, Action.Tick(seconds)); }
      state := Apply(state, Action.Tick(seconds));
    }

    method Authorize(client: Client, now: real) returns (rid: Id)
      requires Valid() && now == state.clock
      modifies this, pending
      ensures Valid() && rid == old(next) && state == DoAuthorize(old(state), client)
      ensures pending.data == old(pending.data)[rid := Entry(Pending(client, now), Some(now + 300.0))]
      ensures apiKeys == old(apiKeys) && next == old(next) + 1
      ensures old(Reachable(state)) ==> Reachable(state)
    {
      if Reachable(state) { AuthorizeReachable(state, client); }
      rid := next;
      next := next + 1;
      pending.Set(rid, Pending(client, now), Some(AUTH_CODE_EXPIRY), now);
      state := DoAuthorize(state, client);
    }

    /** Stores the code, then the user it stands for. */
    method SaveCode(code: Id, client: Client, user: int, now: real)
      modifies codes, codeUser
      ensures codes.data
        == old(codes.data)[code := In(Code(client, now + AUTH_CODE_EXPIRY as real), AUTH_CODE_EXPIRY, now)]
      ensures codeUser.data == old(codeUser.data)[code := In(user, AUTH_CODE_EXPIRY, now)]
    {
      codes.Set(code, Code(client, now + AUTH_CODE_EXPIRY as real), Some(AUTH_CODE_EXPIRY), now);
      codeUser.Set(code, user, Some(AUTH_CODE_EXPIRY), now);
    }

    /** `complete_authorization`: pop, check the age, mint and store the code, then its user. */
    method CompleteAuthorization(rid: Id, user: int, now: real) returns (code: Option<Id>)
      requires Valid() && now == state.clock
      modifies this, pending, codes, codeUser
      ensures Valid() && (state, code) == Completing(old(state), rid, user)
      ensures var d := old(pending.data);
        code.Some? <==> InStore(d, rid, now) && now - d[rid].value.createdAt <= 300.0
      ensures pending.data == old(pending.data) - {rid} && apiKeys == old(apiKeys)
      ensures code.None? ==> codes.data == old(codes.data) && codeUser.data == old(codeUser.data)
      ensures code.Some? ==> old(next) < code.value < next
      ensures code.Some? ==>
        codes.data == old(codes.data)[code.value := CodeEntry(old(pending.data)[rid].value.client, now)]
      ensures code.Some? ==> codeUser.data == old(codeUser.data)[code.value := Entry(user, Some(now + 300.0))]
      ensures old(Reachable(state)) ==> Reachable(state)
    {
      ghost var (done, expected) := Completing(state, rid, user);
      CompletingIs(state, rid, user);
      if Reachable(state) { CompletingReachable(state, rid, user); }
      code := Complete(rid, user, now, done, expected);
    }

    method Complete(rid: Id, user: int, now: real, ghost done: State, ghost expected: Option<Id>)
      returns (code: Option<Id>)
      requires Valid() && now == state.clock && Completes(state, rid, user, done, expected)
      modifies this, pending, codes, codeUser
      ensures Valid() && state == done && code == expected
    {
      var found := pending.Pop(rid, now);
      state := done;
      if found.None? {
        return None;
      }
      next := next + 1;
      if now - found.value.createdAt > AUTH_CODE_EXPIRY as real {
        return None;
      }
      var c := next;
      next := next + 1;
      SaveCode(c, found.value.client, user, now);
      code := Some(c);
    }

    /** Looks the code up and throws out one that has expired. */
    method FetchCode(client: Client, code: Id, now: real) returns (ok: bool)
      modifies codes
      ensures ok == AcceptsIn(old(codes.data), client, code, now) && CodesAfter(old(codes.data), code, now, codes.data)
    {
      var found := codes.Get(code, now);
      if found.None? {
        return false;
      }
      if found.value.expiresAt < now {
        var _ := codes.Pop(code, now);
        return false;
      }
      ok := found.value.client == client;
    }

    method LoadAuthorizationCode(client: Client, code: Id, now: real) returns (ok: bool)
      requires Valid() && now == state.clock
      modifies this, codes
      ensures Valid() && ok == AcceptsCode(old(state), client, code) && state == DoLoadCode(old(state), client, code)
      ensures var d := old(codes.data);
        && (ok <==> InStore(d, code, now) && d[code].value.expiresAt >= now && d[code].value.client == client)
        && codes.data == if InStore(d, code, now) && d[code].value.expiresAt >= now then d else d - {code}
      ensures old(Reachable(state)) ==> Reachable(state)
    {
      ghost var after := DoLoadCode(state, client, code);
      LoadCodeFields(state, client, code, after);
      if Reachable(state) { LoadCodeReachable(state, client, code); }
      ok := TakeCode(client, code, now, after);
    }

    method TakeCode(client: Client, code: Id, now: real, ghost after: State) returns (ok: bool)
      requires Valid() && now == state.clock
      requires after == state.(codes := after.codes, threads := after.threads, next := after.next)
      requires CodesAfter(state.codes, code, now, after.codes)
      requires after.next == if AcceptsIn(state.codes, client, code, now) then state.next + 1 else state.next
      modifies this, codes
      ensures Valid() && state == after && ok == old(AcceptsIn(state.codes, client, code, state.clock))
    {
      ok := FetchCode(client, code, now);
      state := after;
      if ok {
        next := next + 1;
      }
    }

    /** The same for a refresh token. */
    method FetchRefresh(client: Client, token: Id, now: real) returns (ok: bool)
      modifies refresh
      ensures ok == TokenAccepted(old(refresh.data), client, token, now)
        && TokensAfter(old(refresh.data), token, now, refresh.data)
    {
      var found := refresh.Get(token, now);
      if found.None? {
        return false;
      }
      if (found.value.expiresAt as real) < now {
        var _ := refresh.Pop(token, now);
        return false;
      }
      ok := found.value.client == client;
    }

    method LoadRefreshToken(client: Client, token: Id, now: real) returns (ok: bool)
      requires Valid() && now == state.clock
      modifies this, refresh
      ensures Valid() && ok == AcceptsRefresh(old(state), client, token)
        && state == DoLoadRefresh(old(state), client, token)
      ensures TokenRead(old(refresh.data), token, now, refresh.data)
      ensures ok <==> TokenLives(old(refresh.data), token, now) && old(refresh.data)[token].value.client == client
      ensures old(Reachable(state)) ==> Reachable(state)
    {
      ghost var after := DoLoadRefresh(state, client, token);
      LoadRefreshFields(state, client, token, after);
      if Reachable(state) { LoadRefreshReachable(state, client, token); }
      ok := TakeRefresh(client, token, now, after);
    }

    method TakeRefresh(client: Client, token: Id, now: real, ghost after: State) returns (ok: bool)
      requires Valid() && now == state.clock
      requires after == state.(refresh := after.refresh, threads := after.threads, next := after.next)
      requires TokensAfter(state.refresh, token, now, after.refresh)
      requires after.next == if TokenAccepted(state.refresh, client, token, now) then state.next + 1 else state.next
      modifies this, refresh
      ensures Valid() && state == after && ok == old(TokenAccepted(state.refresh, client, token, state.clock))
    {
      ok := FetchRefresh(client, token, now);
      state := after;
      if ok {
        next := next + 1;
      }
    }

    /** Stores the key, if there is a user, then the refresh token, then the access token. */
    method SaveTokens(a: Id, r: Id, client: Client, user: Option<int>, now: real)
      requires refresh != access
      modifies this`apiKeys, refresh, access
      ensures apiKeys == WithKey(old(apiKeys), a, user, now)
      ensures refresh.data == old(refresh.data)[r := TokenEntry(client, user, 2592000, now)]
      ensures access.data == old(access.data)[a := TokenEntry(client, user, 3600, now)]
    {
      var rounded := now.Floor;
      if user.Some? && user.value != 0 {
        apiKeys := apiKeys[a := ApiKey(user.value, Some(now + ACCESS_TOKEN_EXPIRY as real))];
      }
      refresh.Set(r, Token(user, client, rounded + REFRESH_TOKEN_EXPIRY), Some(REFRESH_TOKEN_EXPIRY), now);
      access.Set(a, Token(user, client, rounded + ACCESS_TOKEN_EXPIRY), Some(ACCESS_TOKEN_EXPIRY), now);
    }

    /** The part the two exchanges share: make the two tokens, and save everything. */
    method Mint(ghost tid: Id, ghost source: Source, client: Client, user: Option<int>, now: real)
      returns (a: Id, r: Id)
      requires Valid() && now == state.clock
      modifies this, refresh, access
      ensures Valid() && a == old(next) && r == old(next) + 1
      ensures state == R.Minting(old(state), tid, source, client, user)
      ensures apiKeys == WithKey(old(apiKeys), a, user, now)
      ensures refresh.data == old(refresh.data)[r := TokenEntry(client, user, 2592000, now)]
      ensures access.data == old(access.data)[a := TokenEntry(client, user, 3600, now)]
    {
      ghost var minted := R.Minting(state, tid, source, client, user);
      a, r := next, next + 1;
      MintingIs(state, tid, source, client, user, minted);
      next := next + 2;
      SaveTokens(a, r, client, user, now);
      state := minted;
    }

    /** `exchange_authorization_code`, for a code that `tid` has loaded. */
    method ExchangeAuthorizationCode(ghost tid: Id, client: Client, code: Id, now: real) returns (a: Id, r: Id)
      requires Valid() && now == state.clock && tid in state.threads && state.threads[tid] == CodeLoaded(client, code)
      modifies this, codes, codeUser, refresh, access
      ensures Valid() && a == old(next) && r == old(next) + 1 && state == R.Exchanging(old(state), tid)
      ensures codes.data == old(codes.data) - {code} && codeUser.data == old(codeUser.data) - {code}
      ensures var user := if InStore(old(codeUser.data), code, now) then Some(old(codeUser.data)[code].value) else None;
        && apiKeys == WithKey(old(apiKeys), a, user, now)
        && refresh.data == old(refresh.data)[r := TokenEntry(client, user, 2592000, now)]
        && access.data == old(access.data)[a := TokenEntry(client, user, 3600, now)]
      ensures old(Reachable(state)) ==> Reachable(state)
    {
      if Reachable(state) { ExchangingReachable(state, tid); }
      ghost var s := state;
      var _ := codes.Pop(code, now);
      state := DoPopCode(state, tid);
      var user := codeUser.Pop(code, now);
      state := DoPopCodeUser(state, tid);
      R.ExchangeMints(s, tid, DoPopCode(s, tid), state);
      a, r := Mint(tid, OfCode(code), client, user, now);
    }

    /** `exchange_refresh_token`, for a token that `tid` has loaded. */
    method ExchangeRefreshToken(ghost tid: Id, client: Client, token: Id, now: real) returns (a: Id, r: Id)
      requires Valid() && now == state.clock && tid in state.threads
        && state.threads[tid] == RefreshLoaded(client, token)
      modifies this, refresh, access
      ensures Valid() && a == old(next) && r == old(next) + 1 && state == Rotating(old(state), tid)
      ensures var user := if InStore(old(refresh.data), token, now) then old(refresh.data)[token].value.user else None;
        && apiKeys == WithKey(old(apiKeys), a, user, now)
        && refresh.data == (old(refresh.data) - {token})[r := TokenEntry(client, user, 2592000, now)]
        && access.data == old(access.data)[a := TokenEntry(client, user, 3600, now)]
      ensures old(Reachable(state)) ==> Reachable(state)
    {
      if Reachable(state) { RotatingReachable(state, tid); }
      var found := refresh.Pop(token, now);
      var user := if found.Some? then found.value.user else None;
      state := DoPopRefresh(state, tid);
      a, r := Mint(tid, OfRefresh(token), client, user, now);
    }

    /** A live record decides; an expired one is thrown out. None: there is no record. */
    method FetchAccess(token: Id, now: real) returns (verdict: Option<bool>)
      modifies access
      ensures var found := Lookup(old(access.data), token, now);
        verdict == if found.None? then None else Some(found.value.expiresAt as real >= now)
      ensures TokensAfter(old(access.data), token, now, access.data)
    {
      var found := access.Get(token, now);
      if found.None? {
        return None;
      }
      if (found.value.expiresAt as real) < now {
        access.Delete(token);
        return Some(false);
      }
      verdict := Some(true);
    }

    method LoadAccessToken(token: Id, now: real) returns (ok: bool)
      requires Valid() && now == state.clock
      modifies this`state, access
      ensures Valid() && ok == AcceptsAccess(old(state), token) && state == DoLoadAccess(old(state), token)
      ensures TokenRead(old(access.data), token, now, access.data)
      ensures ok <==> if InStore(old(access.data), token, now) then TokenLives(old(access.data), token, now)
                      else token in apiKeys && (apiKeys[token].expiresAt.None? || apiKeys[token].expiresAt.value >= now)
      ensures old(Reachable(state)) ==> Reachable(state)
    {
      ghost var after := DoLoadAccess(state, token);
      LoadAccessFields(state, token, after);
      if Reachable(state) { LoadAccessReachable(state, token); }
      ok := TakeAccess(token, now, after);
    }

    method TakeAccess(token: Id, now: real, ghost after: State) returns (ok: bool)
      requires Valid() && now == state.clock
      requires after == state.(access := after.access) && TokensAfter(state.access, token, now, after.access)
      modifies this`state, access
      ensures Valid() && state == after && ok == AcceptsAccess(old(state), token)
    {
      var verdict := FetchAccess(token, now);
      state := after;
      if verdict.Some? {
        return verdict.value;
      }
      if token !in apiKeys {
        return false;
      }
      var key := apiKeys[token];
      ok := !(key.expiresAt.Some? && key.expiresAt.value < now);
    }

    /** `revoke_token` on an access token; `database` says whether its second half succeeds. */
    method RevokeAccessToken(token: Id, database: bool)
      requires Valid()
      modifies this, access
      ensures Valid()
      ensures state == Revoked(old(state), token, database)
      ensures access.data == old(access.data) - {token}
      ensures apiKeys == if database then old(apiKeys) - {token} else old(apiKeys)
      ensures old(Reachable(state)) && token in old(state.known) ==> Reachable(state)
    {
      if Reachable(state) && token in state.known { RevokedReachable(state, token, database); }
      access.Delete(token);
      next := next + 1;
      if database {
        apiKeys := apiKeys - {token};
      }
      state := Revoked(state, token, database);
    }

    /** `revoke_token` on a refresh token. */
    method RevokeRefreshToken(token: Id, now: real)
      requires Valid() && now == state.clock
      modifies this`state, refresh
      ensures Valid() && state == Apply(old(state), RevokeRefresh(token))
      ensures refresh.data == old(refresh.data) - {token}
      ensures old(Reachable(state)) ==> Reachable(state)
    {
      if Reachable(state) { R.StepReachable(state, Action.RevokeRefresh(token)); }
      var _ := refresh.Pop(token, now);
      state := Apply(state, RevokeRefresh(token));
    }
  }

  lemma MintingIs(s: State, tid: Id, source: Source, client: Client, user: Option<int>, s': State)
    requires s' == R.Minting(s, tid, source, client, user)
    ensures s'.pending == s.pending && s'.codes == s.codes && s'.codeUser == s.codeUser && s'.next == s.next + 2
    ensures s'.apiKeys == WithKey(s.apiKeys, s.next, user, s.clock)
    ensures s'.refresh == s.refresh[s.next + 1 := TokenEntry(client, user, 2592000, s.clock)]
    ensures s'.access == s.access[s.next := TokenEntry(client, user, 3600, s.clock)]
  {
  }

  /** A whole `complete_authorization` with nothing in between. */
  function Completing(s: State, rid: Id, user: int): (State, Option<Id>) {
    var p, now := s.(pending := s.pending - {rid}), s.clock;
    match Lookup(s.pending, rid, now)
    case None => (p, None)
    case Some(found) =>
      if now - found.createdAt > AUTH_CODE_EXPIRY as real
        then (p.(next := s.next + 1, threads := s.threads - {s.next}), None)
      else
        var code := s.next + 1;
        (p.(next := s.next + 2, threads := s.threads - {s.next},
            codes := s.codes[code := In(Code(found.client, now + AUTH_CODE_EXPIRY as real), AUTH_CODE_EXPIRY, now)],
            codeUser := s.codeUser[code := In(user, AUTH_CODE_EXPIRY, now)],
            log := s.log.(logins := s.log.logins[code := Login(rid, user, now, now)])), Some(code))
  }

  /** What that comes to, field by field: nothing pending, or too old, or a new code with its user. */
  ghost predicate Completes(s: State, rid: Id, user: int, s': State, code: Option<Id>) {
    var found := Lookup(s.pending, rid, s.clock);
    && s'.pending == s.pending - {rid}
    && s'.refresh == s.refresh && s'.access == s.access && s'.apiKeys == s.apiKeys
    && (found.None? ==> code == None && s'.next == s.next && s'.codes == s.codes && s'.codeUser == s.codeUser)
    && (found.Some? && s.clock - found.value.createdAt > AUTH_CODE_EXPIRY as real ==>
      code == None && s'.next == s.next + 1 && s'.codes == s.codes && s'.codeUser == s.codeUser)
    && (found.Some? && s.clock - found.value.createdAt <= AUTH_CODE_EXPIRY as real ==>
      && code == Some(s.next + 1) && s'.next == s.next + 2
      && s'.codes == s.codes[s.next + 1 :=
        In(Code(found.value.client, s.clock + AUTH_CODE_EXPIRY as real), AUTH_CODE_EXPIRY, s.clock)]
      && s'.codeUser == s.codeUser[s.next + 1 := In(user, AUTH_CODE_EXPIRY, s.clock)])
  }

  lemma CompletingIs(s: State, rid: Id, user: int)
    ensures Completes(s, rid, user, Completing(s, rid, user).0, Completing(s, rid, user).1)
  {
  }

  /** A whole `exchange_refresh_token` with nothing in between. */
  function Rotating(s: State, tid: Id): State
    requires tid in s.threads && s.threads[tid].RefreshLoaded?
  {
    var p := DoPopRefresh(s, tid);
    R.Minting(p, tid, p.threads[tid].source, p.threads[tid].client, p.threads[tid].user)
  }

  // ---- every call is a run of the protocol ----

  lemma CodeSavedIs(p: State, tid: Id, t: Thread, d: State, s': State)
    requires t.CompleteChecked? && d == DoSaveCode(Go(p, tid, t), tid) && d.threads[tid].CodeSaved?
      && s' == DoSaveCodeUser(d, tid)
    ensures s' == p.(next := p.next + 1, threads := p.threads - {tid},
      codes := p.codes[p.next := In(Code(t.client, p.clock + AUTH_CODE_EXPIRY as real), AUTH_CODE_EXPIRY, p.clock)],
      codeUser := p.codeUser[p.next := In(t.login, AUTH_CODE_EXPIRY, p.clock)],
      log := p.log.(logins := p.log.logins[p.next := Login(t.rid, t.login, t.checkedAt, p.clock)]))
  {
    var g := Go(p, tid, t);
    assert d.threads == p.threads[tid := CodeSaved(p.next, t.login)];
    assert d.threads - {tid} == p.threads - {tid};
  }

  lemma CodeSavedRuns(c: State, tid: Id) returns (actions: seq<Action>)
    requires tid in c.threads && c.threads[tid].CompleteChecked?
    ensures Runs(c, actions, DoSaveCodeUser(DoSaveCode(c, tid), tid))
  {
    var d := DoSaveCode(c, tid);
    var s' := DoSaveCodeUser(d, tid);
    assert Runs(s', [], s');
    R.RunsStep(d, SaveCodeUser(tid), [], s');
    actions := [SaveCode(tid)] + ([SaveCodeUser(tid)] + []);
    R.RunsStep(c, SaveCode(tid), [SaveCodeUser(tid)] + [], s');
  }

  lemma CheckedRuns(p: State, tid: Id, s': State) returns (actions: seq<Action>)
    requires tid in p.threads && p.threads[tid].CompletePopped?
    requires p.clock - p.threads[tid].pending.createdAt <= AUTH_CODE_EXPIRY as real
    requires var t := p.threads[tid];
      s' == p.(next := p.next + 1, threads := p.threads - {tid},
        codes := p.codes[p.next :=
          In(Code(t.pending.client, p.clock + AUTH_CODE_EXPIRY as real), AUTH_CODE_EXPIRY, p.clock)],
        codeUser := p.codeUser[p.next := In(t.login, AUTH_CODE_EXPIRY, p.clock)],
        log := p.log.(logins := p.log.logins[p.next := Login(t.rid, t.login, p.clock, p.clock)]))
    ensures Runs(p, actions, s')
  {
    var t := p.threads[tid];
    var t' := CompleteChecked(t.rid, t.pending.client, t.login, p.clock);
    var c := Go(p, tid, t');
    CodeSavedIs(p, tid, t', DoSaveCode(c, tid), DoSaveCodeUser(DoSaveCode(c, tid), tid));
    var rest := CodeSavedRuns(c, tid);
    R.RunsStep(p, CompleteCheck(tid), rest, s');
    actions := [CompleteCheck(tid)] + rest;
  }

  lemma LateRuns(p: State, tid: Id)
    requires tid in p.threads && p.threads[tid].CompletePopped?
    requires p.clock - p.threads[tid].pending.createdAt > AUTH_CODE_EXPIRY as real
    ensures Runs(p, [CompleteCheck(tid)] + [], End(p, tid))
  {
    assert Runs(End(p, tid), [], End(p, tid));
    R.RunsStep(p, CompleteCheck(tid), [], End(p, tid));
  }

  lemma PoppedRuns(s: State, rid: Id, user: int, p: State, s': State) returns (rest: seq<Action>)
    requires p == DoCompletePop(s, rid, user) && s' == Completing(s, rid, user).0
    ensures Runs(p, rest, s')
  {
    CompletePopShape(s, rid, user, s.(pending := s.pending - {rid}), p);
    if Lookup(s.pending, rid, s.clock).None? {
      rest := [];
    } else {
      assert p.threads - {s.next} == s.threads - {s.next};
      if s.clock - s.pending[rid].value.createdAt > AUTH_CODE_EXPIRY as real {
        LateRuns(p, s.next);
        rest := [CompleteCheck(s.next)] + [];
      } else {
        rest := CheckedRuns(p, s.next, s');
      }
    }
  }

  lemma CompletingRuns(s: State, rid: Id, user: int) returns (actions: seq<Action>)
    ensures Runs(s, actions, Completing(s, rid, user).0)
  {
    var s', p := Completing(s, rid, user).0, DoCompletePop(s, rid, user);
    var rest := PoppedRuns(s, rid, user, p, s');
    R.RunsStep(s, CompletePop(rid, user), rest, s');
    actions := [CompletePop(rid, user)] + rest;
  }

  lemma RotatingRuns(s: State, tid: Id) returns (actions: seq<Action>)
    requires tid in s.threads && s.threads[tid].RefreshLoaded?
    ensures Runs(s, actions, Rotating(s, tid))
  {
    var mint := R.MintRuns(DoPopRefresh(s, tid), tid);
    R.RunsStep(s, PopRefresh(tid), mint, Rotating(s, tid));
    actions := [PopRefresh(tid)] + mint;
  }

  lemma AuthorizeReachable(s: State, client: Client)
    requires Reachable(s)
    ensures Reachable(DoAuthorize(s, client))
  {
    R.StepReachable(s, Action.Authorize(client));
  }

  lemma LoadCodeReachable(s: State, client: Client, code: Id)
    requires Reachable(s)
    ensures Reachable(DoLoadCode(s, client, code))
  {
    R.StepReachable(s, Action.LoadCode(client, code));
  }

  lemma LoadRefreshReachable(s: State, client: Client, token: Id)
    requires Reachable(s)
    ensures Reachable(DoLoadRefresh(s, client, token))
  {
    R.StepReachable(s, Action.LoadRefresh(client, token));
  }

  lemma LoadAccessReachable(s: State, token: Id)
    requires Reachable(s)
    ensures Reachable(DoLoadAccess(s, token))
  {
    R.StepReachable(s, Action.LoadAccess(token));
  }

  lemma CompletingReachable(s: State, rid: Id, user: int)
    requires Reachable(s)
    ensures Reachable(Completing(s, rid, user).0)
  {
    var actions := CompletingRuns(s, rid, user);
    R.StillReachable(s, actions, Completing(s, rid, user).0);
  }

  lemma ExchangingReachable(s: State, tid: Id)
    requires Reachable(s) && tid in s.threads && s.threads[tid].CodeLoaded?
    ensures Reachable(R.Exchanging(s, tid))
  {
    var actions := R.ExchangeRuns(s, tid);
    R.StillReachable(s, actions, R.Exchanging(s, tid));
  }

  lemma RotatingReachable(s: State, tid: Id)
    requires Reachable(s) && tid in s.threads && s.threads[tid].RefreshLoaded?
    ensures Reachable(Rotating(s, tid))
  {
    var actions := RotatingRuns(s, tid);
    R.StillReachable(s, actions, Rotating(s, tid));
  }

  /** A whole `revoke_token` on an access token. */
  function Revoked(s: State, token: Id, database: bool): State {
    var r := DoRevokeAccess(s, token);
    if database then DoDeleteKey(r, s.next) else End(r, s.next)
  }

  lemma RevokedReachable(s: State, token: Id, database: bool)
    requires Reachable(s) && token in s.known
    ensures Reachable(Revoked(s, token, database))
  {
    R.StepReachable(s, RevokeAccess(token));
    R.StepReachable(DoRevokeAccess(s, token), if database then DeleteKey(s.next) else DeleteKeyFails(s.next));
  }

  /** Every call keeps the state reachable, so the protocol's results apply to the provider: a live token never
      outlives a revocation, and a login never has two live grants, whatever calls were made. */
  lemma ProviderIsSafe(p: Provider, token: Id, a: Id, b: Id)
    requires p.Valid() && Reachable(p.state)
    ensures token in p.state.revoked ==> !AcceptsAccess(p.state, token)
    ensures a in p.refresh.data && b in p.refresh.data && a != b
      && p.refresh.data[a].value.user.Some? && p.refresh.data[b].value.user.Some?
      ==> Root(p.state.log.sources, a) != Root(p.state.log.sources, b)
  {
    if token in p.state.revoked {
      assert Runs(p.state, [], p.state);
      R.RevokedNeverAccepted(p.state, token, [], p.state);
    }
    if a in p.refresh.data && b in p.refresh.data && a != b && p.refresh.data[a].value.user.Some?
      && p.refresh.data[b].value.user.Some? {
      L.OneRefreshTokenPerLogin(p.state, a, b);
    }
  }
}
