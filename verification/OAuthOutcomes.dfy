/** What a grant yields (app/auth/mcp_oauth_provider.py): the other half of the bounds in `OAuthLinear` and
    `OAuthProvenance`. Each exchange hands the user on to the new pair, whatever other requests do meanwhile,
    and whatever is accepted can be used. Everything is stated on the entries of the store themselves. */
module OAuthOutcomes {
  import opened Text
  import opened SessionStore
  import opened OAuthProtocol
  import opened OAuthProvenance
  import R = OAuthRevocation
  import P = OAuthProvider

  /** A live key row. */
  ghost predicate KeyAlive(apiKeys: map<Id, ApiKey>, token: Id, now: real) {
    token in apiKeys && (apiKeys[token].expiresAt.None? || apiKeys[token].expiresAt.value >= now)
  }

  // ---- what is accepted ----

  /** A code or refresh token is accepted exactly while its entry is alive, its own expiry has not passed, and
      it belongs to the client; an access token exactly while its entry says so or, without a live entry, its
      key row does. */
  lemma AcceptedExactly(s: State, client: Client, id: Id)
    ensures AcceptsCode(s, client, id) <==>
      InStore(s.codes, id, s.clock) && s.codes[id].value.expiresAt >= s.clock && s.codes[id].value.client == client
    ensures AcceptsRefresh(s, client, id) <==>
      InStore(s.refresh, id, s.clock) && s.refresh[id].value.expiresAt as real >= s.clock
      && s.refresh[id].value.client == client
    ensures AcceptsAccess(s, id) <==>
      (if InStore(s.access, id, s.clock) then s.access[id].value.expiresAt as real >= s.clock
       else KeyAlive(s.apiKeys, id, s.clock))
  {
    CodeAccepted(s, client, id);
    RefreshAccepted(s, client, id);
  }

  lemma CodeAccepted(s: State, client: Client, id: Id)
    ensures AcceptsCode(s, client, id) <==>
      InStore(s.codes, id, s.clock) && s.codes[id].value.expiresAt >= s.clock && s.codes[id].value.client == client
  {
  }

  /** A load starts an exchange exactly when it accepts. */
  lemma CodeLoadStartsExactly(s: State, client: Client, id: Id, s': State)
    requires s' == Apply(s, LoadCode(client, id))
    ensures s'.threads ==
      if InStore(s.codes, id, s.clock) && s.codes[id].value.expiresAt >= s.clock && s.codes[id].value.client == client
      then s.threads[s.next := CodeLoaded(client, id)] else s.threads
  {
    CodeAccepted(s, client, id);
    LoadCodeShape(s, client, id, s');
  }

  lemma RefreshAccepted(s: State, client: Client, id: Id)
    ensures AcceptsRefresh(s, client, id) <==>
      InStore(s.refresh, id, s.clock) && s.refresh[id].value.expiresAt as real >= s.clock
      && s.refresh[id].value.client == client
  {
  }

  lemma RefreshLoadStartsExactly(s: State, client: Client, id: Id, s': State)
    requires s' == Apply(s, LoadRefresh(client, id))
    ensures s'.threads ==
      if InStore(s.refresh, id, s.clock) && s.refresh[id].value.expiresAt as real >= s.clock
        && s.refresh[id].value.client == client
      then s.threads[s.next := RefreshLoaded(client, id)] else s.threads
  {
    RefreshAccepted(s, client, id);
    LoadRefreshShape(s, client, id, s');
  }

  // ---- a request that carries a user through its exchange ----

  /** The key row the access token owes to its user: one hour from a moment since `from`. */
  ghost predicate KeyRow(apiKeys: map<Id, ApiKey>, token: Id, user: Option<int>, from: real, now: real) {
    if user.Some? && user.value != 0 then
      token in apiKeys && apiKeys[token].user == user.value && apiKeys[token].expiresAt.Some?
      && from + 3600.0 <= apiKeys[token].expiresAt.value <= now + 3600.0
    else token !in apiKeys
  }

  /** The request has popped the user at time `from` and carries it, and the key row once that is its turn. */
  ghost predicate Working(s: State, tid: Id, client: Client, user: Option<int>, from: real) {
    tid in s.threads && from <= s.clock &&
    match s.threads[tid]
    case UserPopped(_, c, u) => c == client && u == user
    case KeyNext(_, c, u, now, a, _) => c == client && u == user && from.Floor <= now <= s.clock.Floor && Truthy(u)
    case RefreshNext(_, c, u, now, a, _) =>
      c == client && u == user && from.Floor <= now <= s.clock.Floor && KeyRow(s.apiKeys, a, user, from, s.clock)
    case AccessNext(_, c, u, now, a, _) =>
      c == client && u == user && from.Floor <= now <= s.clock.Floor && KeyRow(s.apiKeys, a, user, from, s.clock)
    case _ => false
  }

  function Actor(a: Action): Option<Id> {
    match a
    case CompleteCheck(t) => Some(t)
    case SaveCode(t) => Some(t)
    case SaveCodeUser(t) => Some(t)
    case PopCode(t) => Some(t)
    case PopCodeUser(t) => Some(t)
    case PopRefresh(t) => Some(t)
    case Generate(t) => Some(t)
    case StoreKey(t) => Some(t)
    case SaveRefresh(t) => Some(t)
    case SaveAccess(t) => Some(t)
    case DeleteKey(t) => Some(t)
    case DeleteKeyFails(t) => Some(t)
    case _ => None
  }

  /** Nobody else touches a request in flight. */
  ghost predicate LeavesThread(s: State, s': State, tid: Id) {
    s.clock <= s'.clock && s.next <= s'.next && (tid in s'.threads <==> tid in s.threads)
    && (tid in s.threads ==> s'.threads[tid] == s.threads[tid])
  }

  lemma LoginLeaves(s: State, a: Action, tid: Id)
    requires Enabled(s, a) && LoginStep(a) && Actor(a) != Some(tid) && tid < s.next
    ensures LeavesThread(s, Apply(s, a), tid)
  {
    match a
    case CompletePop(rid, user) =>
      CompletePopShape(s, rid, user, s.(pending := s.pending - {rid}), Apply(s, a));
    case CompleteCheck(t) => CompleteCheckShape(s, t, Apply(s, a));
    case Tick(_) =>
    case Authorize(_) =>
    case SaveCode(_) =>
    case SaveCodeUser(_) =>
  }

  lemma PopLeaves(s: State, a: Action, tid: Id)
    requires Enabled(s, a) && (a.PopCode? || a.PopCodeUser? || a.PopRefresh?) && Actor(a) != Some(tid)
    ensures LeavesThread(s, Apply(s, a), tid)
  {
  }

  lemma StartLeaves(s: State, t: Thread, tid: Id)
    requires tid < s.next
    ensures LeavesThread(s, Start(s, t), tid)
  {
  }

  lemma LoadCodeLeaves(s: State, client: Client, id: Id, s': State, tid: Id)
    requires s' == DoLoadCode(s, client, id) && tid < s.next
    ensures LeavesThread(s, s', tid)
  {
    LoadCodeShape(s, client, id, s');
    StartLeaves(s, CodeLoaded(client, id), tid);
  }

  lemma LoadRefreshLeaves(s: State, client: Client, id: Id, s': State, tid: Id)
    requires s' == DoLoadRefresh(s, client, id) && tid < s.next
    ensures LeavesThread(s, s', tid)
  {
    LoadRefreshShape(s, client, id, s');
    StartLeaves(s, RefreshLoaded(client, id), tid);
  }

  lemma LoadAccessLeaves(s: State, id: Id, s': State, tid: Id)
    requires s' == DoLoadAccess(s, id)
    ensures LeavesThread(s, s', tid)
  {
    LoadAccessShape(s, id, s');
  }

  lemma ExpireLeaves(s: State, e: Stale, tid: Id)
    ensures LeavesThread(s, DoExpire(s, e), tid)
  {
  }

  lemma TakeLeaves(s: State, a: Action, tid: Id)
    requires Enabled(s, a) && TakeStep(a) && Actor(a) != Some(tid) && tid < s.next
    ensures LeavesThread(s, Apply(s, a), tid)
  {
    if a.LoadCode? {
      LoadCodeLeaves(s, a.client, a.code, Apply(s, a), tid);
    } else if a.LoadRefresh? {
      LoadRefreshLeaves(s, a.client, a.token, Apply(s, a), tid);
    } else if a.LoadAccess? {
      LoadAccessLeaves(s, a.token, Apply(s, a), tid);
    } else if a.PopCode? || a.PopCodeUser? || a.PopRefresh? {
      PopLeaves(s, a, tid);
    } else if a.Expire? {
      ExpireLeaves(s, a.stale, tid);
    } else {
      assert a.RevokeRefresh?;
    }
  }

  lemma OthersLeave(s: State, a: Action, tid: Id)
    requires Enabled(s, a) && Actor(a) != Some(tid) && tid < s.next
    ensures LeavesThread(s, Apply(s, a), tid)
  {
    if LoginStep(a) {
      LoginLeaves(s, a, tid);
    } else if TakeStep(a) {
      TakeLeaves(s, a, tid);
    } else {
      match a
      case Generate(_) =>
      case StoreKey(_) =>
      case SaveRefresh(_) =>
      case SaveAccess(_) =>
      case RevokeAccess(_) =>
      case DeleteKey(_) =>
      case DeleteKeyFails(_) =>
      case IssueKey(_, _) =>
    }
  }

  /** The access token that the request is making. */
  function Making(t: Thread): Option<Id> {
    match t
    case KeyNext(_, _, _, _, a, _) => Some(a)
    case RefreshNext(_, _, _, _, a, _) => Some(a)
    case AccessNext(_, _, _, _, a, _) => Some(a)
    case _ => None
  }

  /** Tokens in the making are the request's own, known to nobody, and old enough not to be issued again. */
  lemma OwnToken(s: State, tid: Id, other: Id)
    requires Provenance(s) && R.Gone(s) && tid in s.threads && Making(s.threads[tid]).Some?
    ensures Making(s.threads[tid]).value < s.next && Making(s.threads[tid]).value !in s.known
    ensures other in s.threads && other != tid ==> Making(s.threads[other]) != Making(s.threads[tid])
    ensures other in s.threads && s.threads[other].Revoking? ==>
      s.threads[other].token != Making(s.threads[tid]).value
  {
    assert ThreadOk(s.log, s.next, s.clock, tid, s.threads[tid]) && R.ThreadKnown(s, s.threads[tid]);
    if other in s.threads {
      assert ThreadOk(s.log, s.next, s.clock, other, s.threads[other]) && R.ThreadKnown(s, s.threads[other]);
    }
  }

  /** The step of another request leaves the key row of a token in the making alone. */
  lemma KeyRowStays(s: State, a: Action, tid: Id, token: Id)
    requires Provenance(s) && R.Gone(s) && Enabled(s, a) && Actor(a) != Some(tid)
    requires tid in s.threads && Making(s.threads[tid]) == Some(token)
    ensures token in Apply(s, a).apiKeys <==> token in s.apiKeys
    ensures token in s.apiKeys ==> Apply(s, a).apiKeys[token] == s.apiKeys[token]
  {
    if LoginStep(a) {
      R.LoginQuiet(s, a);
    } else if TakeStep(a) {
      R.TakeQuiet(s, a);
    } else {
      match a
      case StoreKey(t) => OwnToken(s, tid, t);
      case DeleteKey(t) => OwnToken(s, tid, t);
      case IssueKey(_, _) => OwnToken(s, tid, tid);
      case Generate(_) =>
      case SaveRefresh(_) =>
      case SaveAccess(_) =>
      case RevokeAccess(_) =>
      case DeleteKeyFails(_) =>
    }
  }

  lemma OthersKeepWorking(s: State, a: Action, s': State, tid: Id, client: Client, user: Option<int>, from: real)
    requires Provenance(s) && R.Gone(s) && Enabled(s, a) && Actor(a) != Some(tid) && s' == Apply(s, a)
    requires Working(s, tid, client, user, from) && tid < s.next
    ensures Working(s', tid, client, user, from)
  {
    OthersLeave(s, a, tid);
    if Making(s.threads[tid]).Some? {
      KeyRowStays(s, a, tid, Making(s.threads[tid]).value);
    }
  }

  lemma GenerateKeepsWorking(s: State, s': State, tid: Id, client: Client, user: Option<int>, from: real)
    requires Provenance(s) && Enabled(s, Generate(tid)) && s' == DoGenerate(s, tid)
    requires Working(s, tid, client, user, from)
    ensures Working(s', tid, client, user, from)
  {
    assert s.next !in s.apiKeys;
  }

  lemma OwnStepKeepsWorking(s: State, a: Action, s': State, tid: Id, client: Client, user: Option<int>, from: real)
    requires Provenance(s) && Enabled(s, a) && Actor(a) == Some(tid) && s' == Apply(s, a)
    requires Working(s, tid, client, user, from) && tid in s'.threads
    ensures Working(s', tid, client, user, from)
  {
    if a.Generate? {
      GenerateKeepsWorking(s, s', tid, client, user, from);
    }
  }

  lemma StepKeepsGone(s: State, a: Action, tid: Id)
    requires Enabled(s, a) && tid !in s.threads && tid < s.next
    ensures tid !in Apply(s, a).threads && tid < Apply(s, a).next
  {
    if Actor(a) != Some(tid) {
      OthersLeave(s, a, tid);
    }
  }

  lemma {:induction false} GoneForGood(s: State, actions: seq<Action>, s': State, tid: Id)
    requires Runs(s, actions, s') && tid !in s.threads && tid < s.next
    ensures tid !in s'.threads
    decreases |actions|
  {
    if actions != [] {
      StepKeepsGone(s, actions[0], tid);
      GoneForGood(Apply(s, actions[0]), actions[1..], s', tid);
    }
  }

  lemma NextGrows(s: State, a: Action)
    requires Enabled(s, a)
    ensures s.next <= Apply(s, a).next
  {
    if LoginStep(a) {
      R.LoginQuiet(s, a);
    } else if TakeStep(a) {
      R.TakeQuiet(s, a);
    }
  }

  lemma {:induction false} RunKeepsWorking(s: State, actions: seq<Action>, s': State, tid: Id, client: Client,
                                           user: Option<int>, from: real)
    requires Provenance(s) && R.Gone(s) && Runs(s, actions, s') && tid < s.next
    requires Working(s, tid, client, user, from) && tid in s'.threads
    ensures Provenance(s') && R.Gone(s') && Working(s', tid, client, user, from)
    decreases |actions|
  {
    if actions != [] {
      var a, m := actions[0], Apply(s, actions[0]);
      StepKeepsProvenance(s, a);
      R.StepKeepsGone(s, a, m);
      NextGrows(s, a);
      if tid !in m.threads {
        GoneForGood(m, actions[1..], s', tid);
      } else if Actor(a) == Some(tid) {
        OwnStepKeepsWorking(s, a, m, tid, client, user, from);
        RunKeepsWorking(m, actions[1..], s', tid, client, user, from);
      } else {
        OthersKeepWorking(s, a, m, tid, client, user, from);
        RunKeepsWorking(m, actions[1..], s', tid, client, user, from);
      }
    }
  }

  // ---- main results: grants are handed on ----

  /** What the store holds for a token that was just saved at `now`, by a request that popped its user at `from`. */
  ghost predicate Saved(d: Timed<Id, Token>, id: Id, client: Client, user: Option<int>, life: nat, from: real,
                        now: real) {
    && id in d && d[id].value.user == user && d[id].value.client == client
    && from.Floor + life <= d[id].value.expiresAt <= now.Floor + life
    && d[id].deadline == Some(now + life as real)
  }

  /** When the request that carries a user saves its tokens, they carry this very user and client, with 30 days
      and one hour to live, and the access token of a true user has its key row. */
  ghost predicate HandsOn(s: State, tid: Id, client: Client, user: Option<int>, from: real) {
    && (Enabled(s, SaveRefresh(tid)) ==> RefreshHandedOn(s, Apply(s, SaveRefresh(tid)), tid, client, user, from))
    && (Enabled(s, SaveAccess(tid)) ==> AccessHandedOn(s, Apply(s, SaveAccess(tid)), tid, client, user, from))
  }

  ghost predicate RefreshHandedOn(s: State, s': State, tid: Id, client: Client, user: Option<int>, from: real)
    requires Enabled(s, SaveRefresh(tid))
  {
    Saved(s'.refresh, s.threads[tid].refresh, client, user, 2592000, from, s.clock)
  }

  ghost predicate AccessHandedOn(s: State, s': State, tid: Id, client: Client, user: Option<int>, from: real)
    requires Enabled(s, SaveAccess(tid))
  {
    var a := s.threads[tid].access;
    && Saved(s'.access, a, client, user, 3600, from, s.clock) && KeyRow(s'.apiKeys, a, user, from, s.clock)
    && a in s'.known && s.threads[tid].refresh in s'.known
  }

  lemma RefreshSaved(s: State, s': State, tid: Id, client: Client, user: Option<int>, from: real)
    requires Working(s, tid, client, user, from) && Enabled(s, SaveRefresh(tid)) && s' == DoSaveRefresh(s, tid)
    ensures RefreshHandedOn(s, s', tid, client, user, from)
  {
  }

  lemma AccessSaved(s: State, s': State, tid: Id, client: Client, user: Option<int>, from: real)
    requires Working(s, tid, client, user, from) && Enabled(s, SaveAccess(tid)) && s' == DoSaveAccess(s, tid)
    ensures AccessHandedOn(s, s', tid, client, user, from)
  {
  }

  lemma WorkingHandsOn(s: State, tid: Id, client: Client, user: Option<int>, from: real)
    requires Working(s, tid, client, user, from)
    ensures HandsOn(s, tid, client, user, from)
  {
    if Enabled(s, SaveRefresh(tid)) {
      RefreshSaved(s, Apply(s, SaveRefresh(tid)), tid, client, user, from);
    } else if Enabled(s, SaveAccess(tid)) {
      AccessSaved(s, Apply(s, SaveAccess(tid)), tid, client, user, from);
    }
  }

  /** Over every interleaving: rotating a refresh token hands its user on. The new pair carries exactly the user
      that the old token held as it was popped, or none if it was gone. */
  lemma RotationHandsOn(s: State, tid: Id, client: Client, token: Id, user: Option<int>, between: seq<Action>,
                        s': State)
    requires Reachable(s) && tid in s.threads && s.threads[tid] == RefreshLoaded(client, token)
    requires user == if InStore(s.refresh, token, s.clock) then s.refresh[token].value.user else None
    requires Runs(Apply(s, PopRefresh(tid)), between, s') && tid in s'.threads
    ensures HandsOn(s', tid, client, user, s.clock) && token !in Apply(s, PopRefresh(tid)).refresh
  {
    R.ReachableGone(s);
    StepKeepsProvenance(s, PopRefresh(tid));
    R.StepKeepsGone(s, PopRefresh(tid), Apply(s, PopRefresh(tid)));
    RunKeepsWorking(Apply(s, PopRefresh(tid)), between, s', tid, client, user, s.clock);
    WorkingHandsOn(s', tid, client, user, s.clock);
  }

  /** Over every interleaving: exchanging a code hands the login's user on. The pair carries exactly the user
      that was stored for the code as it was popped, or none if it was gone. */
  lemma ExchangeHandsOn(s: State, tid: Id, client: Client, code: Id, user: Option<int>, between: seq<Action>, s': State)
    requires Reachable(s) && tid in s.threads && s.threads[tid] == CodePopped(client, code)
    requires user == if InStore(s.codeUser, code, s.clock) then Some(s.codeUser[code].value) else None
    requires Runs(Apply(s, PopCodeUser(tid)), between, s') && tid in s'.threads
    ensures HandsOn(s', tid, client, user, s.clock) && code !in Apply(s, PopCodeUser(tid)).codeUser
  {
    R.ReachableGone(s);
    StepKeepsProvenance(s, PopCodeUser(tid));
    R.StepKeepsGone(s, PopCodeUser(tid), Apply(s, PopCodeUser(tid)));
    RunKeepsWorking(Apply(s, PopCodeUser(tid)), between, s', tid, client, user, s.clock);
    WorkingHandsOn(s', tid, client, user, s.clock);
  }

  // ---- main results: what is accepted can be used ----

  /** The store after an exchange: an accepted access token and an acceptable refresh token for the client, both
      with this user, and a live key row if the user is a true one. */
  ghost predicate PairFor(s: State, client: Client, user: Option<int>, access: Id, refresh: Id) {
    && InStore(s.access, access, s.clock) && s.access[access].value.expiresAt as real >= s.clock
    && s.access[access].value.client == client && s.access[access].value.user == user
    && InStore(s.refresh, refresh, s.clock) && s.refresh[refresh].value.expiresAt as real >= s.clock
    && s.refresh[refresh].value.client == client && s.refresh[refresh].value.user == user
    && (user.Some? && user.value != 0 ==>
      KeyAlive(s.apiKeys, access, s.clock) && s.apiKeys[access].user == user.value)
  }

  lemma MintedPair(s: State, tid: Id, source: Source, client: Client, user: Option<int>, s': State)
    requires s' == R.Minting(s, tid, source, client, user)
    ensures PairFor(s', client, user, s.next, s.next + 1) && s'.clock == s.clock
  {
    P.MintingIs(s, tid, source, client, user, s');
  }

  /** Whenever a refresh token is accepted, some run ends with a pair for its client and user, and without the
      old token. */
  lemma RefreshCanBeUsed(s: State, client: Client, token: Id)
    returns (actions: seq<Action>, s': State, access: Id, refresh: Id)
    requires Reachable(s)
    requires InStore(s.refresh, token, s.clock) && s.refresh[token].value.expiresAt as real >= s.clock
    requires s.refresh[token].value.client == client
    ensures Runs(s, actions, s') && PairFor(s', client, s.refresh[token].value.user, access, refresh)
    ensures token !in s'.refresh && access != refresh && s'.clock == s.clock
  {
    TokenIsOld(s, token);
    RefreshAccepted(s, client, token);
    var a := Start(s, RefreshLoaded(client, token));
    actions, s' := RotationRuns(s, client, token, a);
    access, refresh := a.next, a.next + 1;
    RotatedPair(a, s.next, client, token, s');
  }

  lemma RotationRuns(s: State, client: Client, token: Id, a: State) returns (actions: seq<Action>, s': State)
    requires AcceptsRefresh(s, client, token) && a == Start(s, RefreshLoaded(client, token))
    ensures Runs(s, actions, s') && s' == P.Rotating(a, s.next)
  {
    LoadRefreshShape(s, client, token, Apply(s, LoadRefresh(client, token)));
    s' := P.Rotating(a, s.next);
    var rest := P.RotatingRuns(a, s.next);
    R.RunsStep(s, LoadRefresh(client, token), rest, s');
    actions := [LoadRefresh(client, token)] + rest;
  }

  lemma RotatedPair(s: State, tid: Id, client: Client, token: Id, s': State)
    requires tid in s.threads && s.threads[tid] == RefreshLoaded(client, token) && s' == P.Rotating(s, tid)
    requires InStore(s.refresh, token, s.clock) && token < s.next
    ensures PairFor(s', client, s.refresh[token].value.user, s.next, s.next + 1)
    ensures token !in s'.refresh && s'.clock == s.clock
  {
    MintedPair(DoPopRefresh(s, tid), tid, OfRefresh(token), client, s.refresh[token].value.user, s');
  }

  lemma TokenIsOld(s: State, token: Id)
    requires Reachable(s) && token in s.refresh
    ensures token < s.next
  {
    TokensDescendFromLogins(s, token);
    R.ReachableGone(s);
  }

  /** Whenever a code is accepted, some run ends with a pair for its client and the user stored for it. */
  lemma CodeCanBeUsed(s: State, client: Client, code: Id, user: Option<int>)
    returns (actions: seq<Action>, s': State, access: Id, refresh: Id)
    requires Reachable(s)
    requires InStore(s.codes, code, s.clock) && s.codes[code].value.expiresAt >= s.clock
    requires s.codes[code].value.client == client
    requires user == if InStore(s.codeUser, code, s.clock) then Some(s.codeUser[code].value) else None
    ensures Runs(s, actions, s') && s'.clock == s.clock && access != refresh && code !in s'.codes
    ensures PairFor(s', client, user, access, refresh)
  {
    var a := Start(s, CodeLoaded(client, code));
    CodeAccepted(s, client, code);
    actions, s' := CodeExchangeRuns(s, client, code, a);
    access, refresh := a.next, a.next + 1;
    ExchangedPair(a, s.next, client, code, user, s');
  }

  lemma ExchangedPair(s: State, tid: Id, client: Client, code: Id, user: Option<int>, s': State)
    requires tid in s.threads && s.threads[tid] == CodeLoaded(client, code) && s' == R.Exchanging(s, tid)
    requires user == if InStore(s.codeUser, code, s.clock) then Some(s.codeUser[code].value) else None
    ensures s'.clock == s.clock && code !in s'.codes && PairFor(s', client, user, s.next, s.next + 1)
  {
    MintedPair(s.(codes := s.codes - {code}, codeUser := s.codeUser - {code}), tid, OfCode(code), client,
               Lookup(s.codeUser, code, s.clock), s');
  }

  lemma CodeExchangeRuns(s: State, client: Client, code: Id, a: State) returns (actions: seq<Action>, s': State)
    requires AcceptsCode(s, client, code) && a == Start(s, CodeLoaded(client, code))
    ensures Runs(s, actions, s') && s' == R.Exchanging(a, s.next)
  {
    LoadCodeShape(s, client, code, Apply(s, LoadCode(client, code)));
    s' := R.Exchanging(a, s.next);
    var rest := R.ExchangeRuns(a, s.next);
    R.RunsStep(s, LoadCode(client, code), rest, s');
    actions := [LoadCode(client, code)] + rest;
  }

  /** Any client and user can log in: from every reachable state some run ends with a code for them that the
      client can present for five minutes. */
  lemma AnyoneCanLogIn(s: State, client: Client, user: int) returns (actions: seq<Action>, s': State, code: Id)
    requires Reachable(s)
    ensures Runs(s, actions, s') && s'.clock == s.clock
    ensures code in s'.codes && s'.codes[code].value == Code(client, s.clock + 300.0)
    ensures s'.codes[code].deadline == Some(s.clock + 300.0)
    ensures code in s'.codeUser && s'.codeUser[code] == Entry(user, Some(s.clock + 300.0))
  {
    actions := R.LoginRuns(s, client, user);
    s', code := R.LoggingIn(s, client, user), s.next + 2;
  }

  // ---- main result: revocation, from the step itself ----

  /** Over every interleaving: once a revocation has deleted the key row, neither table has the token again. */
  lemma RevocationIsFinal(s: State, tid: Id, token: Id, later: seq<Action>, s': State)
    requires Reachable(s) && tid in s.threads && s.threads[tid] == Revoking(token)
    requires Runs(Apply(s, DeleteKey(tid)), later, s')
    ensures token !in s'.access && token !in s'.apiKeys
  {
    R.ReachableGone(s);
    StepKeepsProvenance(s, DeleteKey(tid));
    R.StepKeepsGone(s, DeleteKey(tid), Apply(s, DeleteKey(tid)));
    R.RunKeepsGone(Apply(s, DeleteKey(tid)), later, s');
    R.RevokedStays(Apply(s, DeleteKey(tid)), later, s', token);
  }

  /** And a revocation gets there in two steps: it deletes the store entry and holds the token for the second. */
  lemma RevocationStarts(s: State, token: Id)
    requires Reachable(s) && token in s.known
    ensures var s' := Apply(s, RevokeAccess(token));
      token !in s'.access && s.next in s'.threads && s'.threads[s.next] == Revoking(token)
  {
    R.ReachableFresh(s);
  }
}
