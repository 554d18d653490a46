/** Grants are linear: over every interleaving of requests, each completed login has at most one live
    grant, and each authorize request mints at most one code. */
module OAuthLinear {
  import opened Text
  import opened SessionStore
  import opened OAuthProtocol
  import opened OAuthProvenance

  // ---- one live grant per login ----

  /** The places a grant can be: an exchange in progress, a code's user entry, a refresh token. */
  datatype Holder = ThreadHolds(tid: Id) | CodeHolds(code: Id) | RefreshHolds(token: Id)

  function ThreadFamily(log: Log, t: Thread): Option<Id> {
    match t
    case CodeSaved(code, _) => Some(code)
    case UserPopped(source, _, user) => if user.Some? then RootOf(log.sources, source) else None
    case KeyNext(source, _, user, _, _, _) => if user.Some? then RootOf(log.sources, source) else None
    case RefreshNext(source, _, user, _, _, _) => if user.Some? then RootOf(log.sources, source) else None
    case _ => None
  }

  /** The login (named by its code) whose grant the holder holds, if it holds one. Entries count as long
      as they are in the store, expired or not. */
  function Family(s: State, h: Holder): Option<Id> {
    match h
    case ThreadHolds(t) => if t in s.threads then ThreadFamily(s.log, s.threads[t]) else None
    case CodeHolds(c) => if c in s.codeUser then Some(c) else None
    case RefreshHolds(r) => if r in s.refresh && s.refresh[r].value.user.Some? then Root(s.log.sources, r) else None
  }

  ghost predicate Linear(s: State) {
    forall h1, h2 :: Family(s, h1).Some? && Family(s, h1) == Family(s, h2) ==> h1 == h2
  }

  /** A step that at most moves one grant, from one holder to another. */
  ghost predicate Moves(s: State, s': State, from: Holder, to: Holder) {
    forall h :: Family(s', h).Some? ==>
      if h == to then Family(s', h) == Family(s, from) else h != from && Family(s', h) == Family(s, h)
  }

  lemma MoveKeeps(s: State, s': State, from: Holder, to: Holder)
    requires Linear(s) && Moves(s, s', from, to)
    ensures Linear(s')
  {
    forall h1, h2 | Family(s', h1).Some? && Family(s', h1) == Family(s', h2) ensures h1 == h2 {
      var g1, g2 := if h1 == to then from else h1, if h2 == to then from else h2;
      assert Family(s, g1) == Family(s', h1) && Family(s, g2) == Family(s', h2);
    }
  }

  /** A step after which nobody holds more than before. */
  ghost predicate Shrinks(s: State, s': State) {
    forall h :: Family(s', h).Some? ==> Family(s', h) == Family(s, h)
  }

  lemma ShrinkKeeps(s: State, s': State)
    requires Linear(s) && Shrinks(s, s')
    ensures Linear(s')
  {
    forall h1, h2 | Family(s', h1).Some? && Family(s', h1) == Family(s', h2) ensures h1 == h2 {
      assert Family(s, h1) == Family(s', h1) && Family(s, h2) == Family(s', h2);
    }
  }

  lemma FamilyKnown(s: State, h: Holder)
    requires Provenance(s) && Family(s, h).Some?
    ensures Family(s, h).value in s.log.logins
  {
    match h
    case ThreadHolds(t) => assert ThreadOk(s.log, s.next, s.clock, t, s.threads[t]);
    case CodeHolds(c) => assert UserOk(s.log, c, s.codeUser[c].value);
    case RefreshHolds(r) =>
      assert TokenOk(s.log, r, s.refresh[r].value);
      SourceIsRoot(s.log, r);
  }

  lemma SourceStableIn(s: State, log: Log, t: Thread)
    requires ThreadFamily(s.log, t).Some? && Grows(s.log, log, s.next)
    ensures ThreadFamily(log, t) == ThreadFamily(s.log, t)
  {
    if (t.UserPopped? || t.KeyNext? || t.RefreshNext?) && t.source.OfRefresh? {
      RootStable(s.log.sources, log.sources, t.source.token);
    }
  }

  // ---- the steps that move a grant ----

  /** The grant is born: the new code's login is held by the thread that made it, and by nobody else. */
  lemma SaveCodeLinear(s: State, tid: Id)
    requires Provenance(s) && Linear(s) && Enabled(s, SaveCode(tid))
    ensures Linear(DoSaveCode(s, tid))
  {
    var s', code := DoSaveCode(s, tid), s.next;
    forall h | Family(s', h).Some? && h != ThreadHolds(tid)
      ensures Family(s', h) == Family(s, h) && Family(s, h) != Some(code) {
      assert Family(s, h) == Family(s', h);
      FamilyKnown(s, h);
    }
    forall h1, h2 | Family(s', h1).Some? && Family(s', h1) == Family(s', h2) ensures h1 == h2 {
      assert Family(s', ThreadHolds(tid)) == Some(code);
    }
  }

  lemma SaveCodeUserLinear(s: State, tid: Id)
    requires Linear(s) && Enabled(s, SaveCodeUser(tid))
    ensures Linear(DoSaveCodeUser(s, tid))
  {
    var from, to := ThreadHolds(tid), CodeHolds(s.threads[tid].code);
    forall h | Family(DoSaveCodeUser(s, tid), h).Some?
      ensures if h == to then Family(DoSaveCodeUser(s, tid), h) == Family(s, from)
        else h != from && Family(DoSaveCodeUser(s, tid), h) == Family(s, h)
    {
    }
    MoveKeeps(s, DoSaveCodeUser(s, tid), from, to);
  }

  lemma PopCodeUserLinear(s: State, tid: Id)
    requires Linear(s) && Enabled(s, PopCodeUser(tid))
    ensures Linear(DoPopCodeUser(s, tid))
  {
    var s', from, to := DoPopCodeUser(s, tid), CodeHolds(s.threads[tid].code), ThreadHolds(tid);
    forall h | Family(s', h).Some?
      ensures if h == to then Family(s', h) == Family(s, from) else h != from && Family(s', h) == Family(s, h)
    {
    }
    MoveKeeps(s, s', from, to);
  }

  lemma PopRefreshLinear(s: State, tid: Id)
    requires Linear(s) && Enabled(s, PopRefresh(tid))
    ensures Linear(DoPopRefresh(s, tid))
  {
    var s', from, to := DoPopRefresh(s, tid), RefreshHolds(s.threads[tid].token), ThreadHolds(tid);
    forall h | Family(s', h).Some?
      ensures if h == to then Family(s', h) == Family(s, from) else h != from && Family(s', h) == Family(s, h)
    {
    }
    MoveKeeps(s, s', from, to);
  }

  lemma GenerateLinear(s: State, tid: Id)
    requires Provenance(s) && Linear(s) && Enabled(s, Generate(tid))
    ensures Linear(DoGenerate(s, tid))
  {
    var s' := DoGenerate(s, tid);
    GenerateGrows(s, tid);
    forall h | Family(s', h).Some? ensures Family(s', h) == Family(s, h) {
      GenerateFamily(s, tid, h);
    }
    ShrinkKeeps(s, s');
  }

  lemma GenerateFamily(s: State, tid: Id, h: Holder)
    requires Provenance(s) && Enabled(s, Generate(tid)) && Family(DoGenerate(s, tid), h).Some?
    ensures Family(DoGenerate(s, tid), h) == Family(s, h)
  {
    var s', log := DoGenerate(s, tid), DoGenerate(s, tid).log;
    GenerateGrows(s, tid);
    match h
    case ThreadHolds(t) =>
      assert ThreadOk(s.log, s.next, s.clock, t, s.threads[t]);
      if ThreadFamily(s.log, s.threads[t]).Some? {
        SourceStableIn(s, log, s.threads[t]);
      }
    case CodeHolds(c) =>
    case RefreshHolds(r) =>
      assert TokenOk(s.log, r, s.refresh[r].value);
      SourceIsRoot(s.log, r);
      RootStable(s.log.sources, log.sources, r);
  }

  lemma StoreKeyLinear(s: State, tid: Id)
    requires Linear(s) && Enabled(s, StoreKey(tid))
    ensures Linear(DoStoreKey(s, tid))
  {
    var s' := DoStoreKey(s, tid);
    forall h | Family(s', h).Some? ensures Family(s', h) == Family(s, h) {
    }
    ShrinkKeeps(s, s');
  }

  lemma SaveRefreshLinear(s: State, tid: Id)
    requires Provenance(s) && Linear(s) && Enabled(s, SaveRefresh(tid))
    ensures Linear(DoSaveRefresh(s, tid))
  {
    var t := s.threads[tid];
    assert ThreadOk(s.log, s.next, s.clock, tid, t);
    SourceIsRoot(s.log, t.refresh);
    var s', from, to := DoSaveRefresh(s, tid), ThreadHolds(tid), RefreshHolds(t.refresh);
    forall h | Family(s', h).Some?
      ensures if h == to then Family(s', h) == Family(s, from) else h != from && Family(s', h) == Family(s, h)
    {
    }
    MoveKeeps(s, s', from, to);
  }

  /** A step that leaves the history of tokens alone, and touches no holder but to remove it. */
  ghost predicate Inert(s: State, s': State) {
    && s'.log.sources == s.log.sources
    && (forall c :: c in s'.codeUser ==> c in s.codeUser)
    && (forall r :: r in s'.refresh ==> r in s.refresh && s'.refresh[r] == s.refresh[r])
    && (forall t :: t in s'.threads ==>
      (t in s.threads && s'.threads[t] == s.threads[t]) || ThreadFamily(s'.log, s'.threads[t]).None?)
  }

  lemma InertLinear(s: State, s': State)
    requires Linear(s) && Inert(s, s')
    ensures Linear(s')
  {
    forall h | Family(s', h).Some? ensures Family(s', h) == Family(s, h) {
      match h
      case ThreadHolds(t) =>
      case CodeHolds(c) =>
      case RefreshHolds(r) =>
    }
    ShrinkKeeps(s, s');
  }

  predicate MovesGrant(a: Action) {
    a.SaveCode? || a.SaveCodeUser? || a.PopCodeUser? || a.PopRefresh? || a.Generate? || a.StoreKey? || a.SaveRefresh?
  }

  lemma MovesKeepLinear(s: State, a: Action)
    requires Provenance(s) && Linear(s) && Enabled(s, a) && MovesGrant(a)
    ensures Linear(Apply(s, a))
  {
    match a
    case SaveCode(t) => SaveCodeLinear(s, t);
    case SaveCodeUser(t) => SaveCodeUserLinear(s, t);
    case PopCodeUser(t) => PopCodeUserLinear(s, t);
    case PopRefresh(t) => PopRefreshLinear(s, t);
    case Generate(t) => GenerateLinear(s, t);
    case StoreKey(t) => StoreKeyLinear(s, t);
    case SaveRefresh(t) => SaveRefreshLinear(s, t);
  }

  lemma StepKeepsLinear(s: State, a: Action, s': State)
    requires Provenance(s) && Linear(s) && Enabled(s, a) && s' == Apply(s, a)
    ensures Linear(s')
  {
    if MovesGrant(a) {
      MovesKeepLinear(s, a);
    } else {
      OthersAreInert(s, a);
      InertLinear(s, s');
    }
  }

  lemma StartIsInert(s: State, t: Thread)
    requires ThreadFamily(s.log, t).None?
    ensures Inert(s, Start(s, t))
  {
  }

  lemma GoIsInert(s: State, tid: Id, t: Thread)
    requires ThreadFamily(s.log, t).None?
    ensures Inert(s, Go(s, tid, t))
  {
  }

  lemma DropIsInert(s: State, s': State)
    requires s' == s.(pending := s'.pending, codes := s'.codes, refresh := s'.refresh, access := s'.access)
    requires forall r :: r in s'.refresh ==> r in s.refresh && s'.refresh[r] == s.refresh[r]
    ensures Inert(s, s')
  {
  }

  lemma InertStart(s: State, p: State, t: Thread)
    requires Inert(s, p) && p.threads == s.threads && ThreadFamily(p.log, t).None?
    ensures Inert(s, Start(p, t))
  {
  }

  lemma LoadsAreInert(s: State, client: Client, id: Id, s': State)
    requires s' == DoLoadCode(s, client, id)
    ensures Inert(s, s')
  {
    LoadCodeShape(s, client, id, s');
    if AcceptsCode(s, client, id) {
      StartIsInert(s, CodeLoaded(client, id));
    } else {
      DropIsInert(s, s');
    }
  }

  lemma LoadRefreshIsInert(s: State, client: Client, id: Id, s': State)
    requires s' == DoLoadRefresh(s, client, id)
    ensures Inert(s, s')
  {
    LoadRefreshShape(s, client, id, s');
    if AcceptsRefresh(s, client, id) {
      StartIsInert(s, RefreshLoaded(client, id));
    } else {
      DropIsInert(s, s');
    }
  }

  lemma LoadAccessIsInert(s: State, id: Id, s': State)
    requires s' == DoLoadAccess(s, id)
    ensures Inert(s, s')
  {
    LoadAccessShape(s, id, s');
    DropIsInert(s, s');
  }

  lemma CompleteIsInert(s: State, rid: Id, user: int, s': State)
    requires s' == DoCompletePop(s, rid, user)
    ensures Inert(s, s')
  {
    var p := s.(pending := s.pending - {rid});
    CompletePopShape(s, rid, user, p, s');
    DropIsInert(s, p);
    if Lookup(s.pending, rid, s.clock).Some? {
      InertStart(s, p, CompletePopped(rid, s.pending[rid].value, user));
    }
  }

  lemma CheckIsInert(s: State, tid: Id, s': State)
    requires Enabled(s, CompleteCheck(tid)) && s' == DoCompleteCheck(s, tid)
    ensures Inert(s, s')
  {
    var t := s.threads[tid];
    CompleteCheckShape(s, tid, s');
    GoIsInert(s, tid, CompleteChecked(t.rid, t.pending.client, t.login, s.clock));
  }

  lemma PopCodeIsInert(s: State, tid: Id)
    requires Enabled(s, PopCode(tid))
    ensures Inert(s, DoPopCode(s, tid))
  {
  }

  lemma ExpiryIsInert(s: State, e: Stale)
    ensures Inert(s, DoExpire(s, e))
  {
  }

  lemma EndIsInert(s: State, tid: Id)
    ensures Inert(s, End(s, tid))
  {
  }

  lemma EndsAreInert(s: State, a: Action)
    requires Enabled(s, a) && (a.SaveAccess? || a.DeleteKey? || a.DeleteKeyFails?)
    ensures Inert(s, Apply(s, a))
  {
    EndIsInert(s, a.tid);
  }

  lemma RevokingIsInert(s: State, token: Id)
    ensures Inert(s, DoRevokeAccess(s, token)) && Inert(s, s.(refresh := s.refresh - {token}))
  {
  }

  lemma OthersAreInert(s: State, a: Action)
    requires Enabled(s, a) && !MovesGrant(a)
    ensures Inert(s, Apply(s, a))
  {
    match a
    case LoadCode(c, code) => LoadsAreInert(s, c, code, Apply(s, a));
    case LoadRefresh(c, token) => LoadRefreshIsInert(s, c, token, Apply(s, a));
    case LoadAccess(token) => LoadAccessIsInert(s, token, Apply(s, a));
    case CompletePop(r, u) => CompleteIsInert(s, r, u, Apply(s, a));
    case CompleteCheck(t) => CheckIsInert(s, t, Apply(s, a));
    case PopCode(t) => PopCodeIsInert(s, t);
    case Expire(e) => ExpiryIsInert(s, e);
    case SaveAccess(_) => EndsAreInert(s, a);
    case DeleteKey(_) => EndsAreInert(s, a);
    case DeleteKeyFails(_) => EndsAreInert(s, a);
    case RevokeAccess(token) => RevokingIsInert(s, token);
    case RevokeRefresh(token) => RevokingIsInert(s, token);
    case Tick(_) =>
    case Authorize(_) =>
    case IssueKey(_, _) =>
  }

  // ---- one code per request ----

  /** The places an authorize request can be on its way to a code. */
  datatype Stage = PendingAt(rid: Id) | ThreadAt(tid: Id) | LoginAt(code: Id)

  function RequestAt(s: State, p: Stage): Option<Id> {
    match p
    case PendingAt(r) => if r in s.pending then Some(r) else None
    case ThreadAt(t) =>
      if t in s.threads && s.threads[t].CompletePopped? then Some(s.threads[t].rid)
      else if t in s.threads && s.threads[t].CompleteChecked? then Some(s.threads[t].rid)
      else None
    case LoginAt(c) => if c in s.log.logins then Some(s.log.logins[c].rid) else None
  }

  ghost predicate Single(s: State) {
    forall p, q :: RequestAt(s, p).Some? && RequestAt(s, p) == RequestAt(s, q) ==> p == q
  }

  ghost predicate Advances(s: State, s': State, from: Stage, to: Stage) {
    forall p :: RequestAt(s', p).Some? ==>
      if p == to then RequestAt(s', p) == RequestAt(s, from) else p != from && RequestAt(s', p) == RequestAt(s, p)
  }

  lemma AdvanceKeeps(s: State, s': State, from: Stage, to: Stage)
    requires Single(s) && Advances(s, s', from, to)
    ensures Single(s')
  {
    forall p, q | RequestAt(s', p).Some? && RequestAt(s', p) == RequestAt(s', q) ensures p == q {
      var p0, q0 := if p == to then from else p, if q == to then from else q;
      assert RequestAt(s, p0) == RequestAt(s', p) && RequestAt(s, q0) == RequestAt(s', q);
    }
  }

  lemma AuthorizeSingle(s: State, client: Client)
    requires Provenance(s) && Single(s)
    ensures Single(DoAuthorize(s, client))
  {
    var s' := DoAuthorize(s, client);
    forall p | RequestAt(s', p).Some? && p != PendingAt(s.next)
      ensures RequestAt(s', p) == RequestAt(s, p) && RequestAt(s, p) != Some(s.next)
    {
      match p
      case PendingAt(r) => assert PendingOk(s.log, r, s.pending[r].value);
      case ThreadAt(t) => assert ThreadOk(s.log, s.next, s.clock, t, s.threads[t]);
      case LoginAt(c) => assert LoginOk(s.log, s.clock, c);
    }
    forall p, q | RequestAt(s', p).Some? && RequestAt(s', p) == RequestAt(s', q) ensures p == q {
      assert RequestAt(s', PendingAt(s.next)) == Some(s.next);
    }
  }

  lemma PoppedSingle(s: State, rid: Id, t: Thread, s': State)
    requires Single(s) && s.next !in s.threads && rid in s.pending && t.CompletePopped? && t.rid == rid
    requires s' == Start(s.(pending := s.pending - {rid}), t)
    ensures Single(s')
  {
    forall p | RequestAt(s', p).Some?
      ensures if p == ThreadAt(s.next) then RequestAt(s', p) == RequestAt(s, PendingAt(rid))
        else p != PendingAt(rid) && RequestAt(s', p) == RequestAt(s, p)
    {
    }
    AdvanceKeeps(s, s', PendingAt(rid), ThreadAt(s.next));
  }

  lemma CompletePopSingle(s: State, rid: Id, user: int, s': State)
    requires s.next !in s.threads && Single(s) && s' == DoCompletePop(s, rid, user)
    ensures Single(s')
  {
    CompletePopShape(s, rid, user, s.(pending := s.pending - {rid}), s');
    if Lookup(s.pending, rid, s.clock).None? {
      StillSingle(s, s');
    } else {
      PoppedSingle(s, rid, CompletePopped(rid, s.pending[rid].value, user), s');
    }
  }

  lemma SaveCodeSingle(s: State, tid: Id, s': State)
    requires s.next !in s.log.logins && Single(s) && Enabled(s, SaveCode(tid)) && s' == DoSaveCode(s, tid)
    ensures Single(s')
  {
    forall p | RequestAt(s', p).Some?
      ensures if p == LoginAt(s.next) then RequestAt(s', p) == RequestAt(s, ThreadAt(tid))
        else p != ThreadAt(tid) && RequestAt(s', p) == RequestAt(s, p)
    {
    }
    AdvanceKeeps(s, s', ThreadAt(tid), LoginAt(s.next));
  }

  /** All other steps leave every request where it is, or drop it. */
  ghost predicate Still(s: State, s': State) {
    && s'.log.logins == s.log.logins
    && (forall r :: r in s'.pending ==> r in s.pending)
    && (forall t :: t in s'.threads && (s'.threads[t].CompletePopped? || s'.threads[t].CompleteChecked?) ==>
      t in s.threads && (s.threads[t].CompletePopped? || s.threads[t].CompleteChecked?)
        && s'.threads[t].rid == s.threads[t].rid)
  }

  lemma StillSingle(s: State, s': State)
    requires Single(s) && Still(s, s')
    ensures Single(s')
  {
    forall p | RequestAt(s', p).Some? ensures RequestAt(s', p) == RequestAt(s, p) {
    }
    AdvanceKeeps(s, s', PendingAt(0), PendingAt(0));
  }

  predicate Mints(a: Action) {
    a.Generate? || a.StoreKey? || a.SaveRefresh? || a.SaveAccess?
  }

  predicate Completing(t: Thread) {
    t.CompletePopped? || t.CompleteChecked?
  }

  lemma GoStill(s: State, tid: Id, t: Thread)
    requires tid in s.threads && (Completing(t) ==> Completing(s.threads[tid]) && t.rid == s.threads[tid].rid)
    ensures Still(s, Go(s, tid, t))
  {
  }

  lemma EndStill(s: State, tid: Id)
    ensures Still(s, End(s, tid))
  {
  }

  /** What happens to the rest of the store does not matter. */
  lemma StillElsewhere(s: State, p: State, s': State)
    requires Still(s, p) && s'.log.logins == p.log.logins && s'.pending == p.pending && s'.threads == p.threads
    ensures Still(s, s')
  {
  }

  lemma CheckStill(s: State, tid: Id, s': State)
    requires Enabled(s, CompleteCheck(tid)) && s' == DoCompleteCheck(s, tid)
    ensures Still(s, s')
  {
    var t := s.threads[tid];
    CompleteCheckShape(s, tid, s');
    EndStill(s, tid);
    GoStill(s, tid, CompleteChecked(t.rid, t.pending.client, t.login, s.clock));
  }

  lemma LoginsStill(s: State, a: Action)
    requires Enabled(s, a) && (a.Tick? || a.CompleteCheck? || a.SaveCodeUser?)
    ensures Still(s, Apply(s, a))
  {
    match a
    case Tick(_) =>
    case CompleteCheck(tid) => CheckStill(s, tid, Apply(s, a));
    case SaveCodeUser(tid) =>
      EndStill(s, tid);
      StillElsewhere(s, End(s, tid), Apply(s, a));
  }

  lemma StartStill(s: State, t: Thread)
    requires s.next !in s.threads && !Completing(t)
    ensures Still(s, Start(s, t))
  {
  }

  lemma LoadCodeStill(s: State, client: Client, id: Id, s': State)
    requires s.next !in s.threads && s' == DoLoadCode(s, client, id)
    ensures Still(s, s')
  {
    LoadCodeShape(s, client, id, s');
    StartStill(s, CodeLoaded(client, id));
  }

  lemma LoadRefreshStill(s: State, client: Client, id: Id, s': State)
    requires s.next !in s.threads && s' == DoLoadRefresh(s, client, id)
    ensures Still(s, s')
  {
    LoadRefreshShape(s, client, id, s');
    StartStill(s, RefreshLoaded(client, id));
  }

  lemma LoadAccessStill(s: State, id: Id, s': State)
    requires s' == DoLoadAccess(s, id)
    ensures Still(s, s')
  {
    LoadAccessShape(s, id, s');
  }

  lemma MovedStill(s: State, tid: Id, s': State)
    requires tid in s.threads && tid in s'.threads && !Completing(s'.threads[tid])
    requires s'.threads == s.threads[tid := s'.threads[tid]] && s'.log.logins == s.log.logins && s'.pending == s.pending
    ensures Still(s, s')
  {
  }

  lemma PopsStill(s: State, a: Action, s': State)
    requires Enabled(s, a) && (a.PopCode? || a.PopCodeUser? || a.PopRefresh?) && s' == Apply(s, a)
    ensures Still(s, s')
  {
    MovedStill(s, a.tid, s');
  }

  lemma MintsStill(s: State, a: Action, s': State)
    requires Enabled(s, a) && Mints(a) && s' == Apply(s, a)
    ensures Still(s, s')
  {
    if a.SaveAccess? {
      EndStill(s, a.tid);
    } else {
      MovedStill(s, a.tid, s');
    }
  }

  lemma RestStill(s: State, a: Action)
    requires s.next !in s.threads && Enabled(s, a) && !LoginStep(a) && !TakeStep(a) && !Mints(a)
    ensures Still(s, Apply(s, a))
  {
  }

  lemma ExpiryStill(s: State, e: Stale)
    ensures Still(s, DoExpire(s, e))
  {
  }

  lemma NextIsFree(s: State)
    requires Provenance(s)
    ensures s.next !in s.threads && s.next !in s.log.logins
  {
  }

  lemma StepKeepsSingle(s: State, a: Action, s': State)
    requires Provenance(s) && Single(s) && Enabled(s, a) && s' == Apply(s, a)
    ensures Single(s')
  {
    NextIsFree(s);
    if a.Authorize? {
      AuthorizeSingle(s, a.client);
    } else if a.CompletePop? {
      CompletePopSingle(s, a.rid, a.user, s');
    } else if a.SaveCode? {
      SaveCodeSingle(s, a.tid, s');
    } else {
      OthersStill(s, a, s');
      StillSingle(s, s');
    }
  }

  lemma OthersStill(s: State, a: Action, s': State)
    requires s.next !in s.threads && Enabled(s, a) && !a.Authorize? && !a.CompletePop? && !a.SaveCode?
      && s' == Apply(s, a)
    ensures Still(s, s')
  {
    if LoginStep(a) {
      LoginsStill(s, a);
    } else if a.LoadCode? {
      LoadCodeStill(s, a.client, a.code, s');
    } else if a.LoadRefresh? {
      LoadRefreshStill(s, a.client, a.token, s');
    } else if a.LoadAccess? {
      LoadAccessStill(s, a.token, s');
    } else if a.PopCode? || a.PopCodeUser? || a.PopRefresh? {
      PopsStill(s, a, s');
    } else if Mints(a) {
      MintsStill(s, a, s');
    } else if a.Expire? {
      ExpiryStill(s, a.stale);
    } else if !a.RevokeRefresh? {
      RestStill(s, a);
    }
  }

  // ---- main results ----

  lemma {:induction false} RunKeepsLinear(s: State, actions: seq<Action>, s': State)
    requires Provenance(s) && Linear(s) && Single(s) && Runs(s, actions, s')
    ensures Linear(s') && Single(s')
    decreases |actions|
  {
    if actions != [] {
      var m := Apply(s, actions[0]);
      StepKeepsProvenance(s, actions[0]);
      StepKeepsLinear(s, actions[0], m);
      StepKeepsSingle(s, actions[0], m);
      RunKeepsLinear(m, actions[1..], s');
    }
  }

  /** Over every interleaving, each completed login has at most one live grant: the code's user entry, one
      exchange in progress, or one refresh token with a user. Exchange and rotation move it, never copy it. */
  lemma AtMostOneGrant(s: State, h1: Holder, h2: Holder)
    requires Reachable(s) && Family(s, h1).Some? && Family(s, h1) == Family(s, h2)
    ensures h1 == h2
  {
    var actions :| Runs(INIT, actions, s);
    RunKeepsLinear(INIT, actions, s);
  }

  /** So two different refresh tokens that carry a user never descend from the same login. */
  lemma OneRefreshTokenPerLogin(s: State, a: Id, b: Id)
    requires Reachable(s) && a in s.refresh && b in s.refresh && a != b
    requires s.refresh[a].value.user.Some? && s.refresh[b].value.user.Some?
    ensures Root(s.log.sources, a).Some? && Root(s.log.sources, b).Some?
      && Root(s.log.sources, a) != Root(s.log.sources, b)
  {
    var actions :| Runs(INIT, actions, s);
    RunKeepsProvenance(INIT, actions, s);
    assert TokenOk(s.log, a, s.refresh[a].value) && TokenOk(s.log, b, s.refresh[b].value);
    SourceIsRoot(s.log, a);
    SourceIsRoot(s.log, b);
    if Family(s, RefreshHolds(a)) == Family(s, RefreshHolds(b)) {
      AtMostOneGrant(s, RefreshHolds(a), RefreshHolds(b));
    }
  }

  /** Each authorize request mints at most one code, and none while it is still pending. */
  lemma OneCodePerRequest(s: State, c1: Id, c2: Id)
    requires Reachable(s) && c1 in s.log.logins && c2 in s.log.logins
    ensures s.log.logins[c1].rid == s.log.logins[c2].rid ==> c1 == c2
    ensures s.log.logins[c1].rid !in s.pending
  {
    var actions :| Runs(INIT, actions, s);
    RunKeepsLinear(INIT, actions, s);
    assert RequestAt(s, LoginAt(c1)) == Some(s.log.logins[c1].rid);
    assert RequestAt(s, LoginAt(c2)) == Some(s.log.logins[c2].rid);
    var rid := s.log.logins[c1].rid;
    assert RequestAt(s, PendingAt(rid)) == if rid in s.pending then Some(rid) else None;
  }
}
