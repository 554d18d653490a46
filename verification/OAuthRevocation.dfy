/** Revocation: once it has run, the access token is never accepted again. And three runs of the
    protocol in which something stronger, which one might expect, fails. */
module OAuthRevocation {
  import opened Text
  import opened SessionStore
  import opened OAuthProtocol
  import opened OAuthProvenance

  ghost predicate ThreadKnown(s: State, t: Thread) {
    match t
    case KeyNext(_, _, _, _, a, _) => a !in s.known
    case RefreshNext(_, _, _, _, a, _) => a !in s.known
    case AccessNext(_, _, _, _, a, _) => a !in s.known
    case Revoking(token) => token in s.known
    case _ => true
  }

  /** A revoked token is gone from both tables, and no thread is about to bring a known token back. */
  ghost predicate RevokedGone(s: State) {
    && (forall t :: t in s.revoked ==> t in s.known && t !in s.access && t !in s.apiKeys)
    && (forall t :: t in s.known ==> t < s.next)
    && (forall tid :: tid in s.threads ==> ThreadKnown(s, s.threads[tid]))
  }

  /** While a revocation is between its two deletions, its token stays out of the session store. */
  ghost predicate RevokingGone(s: State) {
    forall tid :: tid in s.threads && s.threads[tid].Revoking? ==> s.threads[tid].token !in s.access
  }

  ghost predicate Gone(s: State) {
    RevokedGone(s) && RevokingGone(s)
  }

  lemma GenerateGone(s: State, tid: Id, s': State)
    requires Gone(s) && Enabled(s, Generate(tid)) && s' == DoGenerate(s, tid)
    ensures Gone(s')
  {
    assert s.next !in s.known;
    forall x | x in s'.threads ensures ThreadKnown(s', s'.threads[x]) {
      assert x != tid ==> ThreadKnown(s, s.threads[x]);
    }
  }

  lemma StoreKeyGone(s: State, tid: Id, s': State)
    requires Gone(s) && Enabled(s, StoreKey(tid)) && s' == DoStoreKey(s, tid)
    ensures Gone(s')
  {
    assert ThreadKnown(s, s.threads[tid]);
  }

  /** The two new tokens become known; by their minter, no other thread is minting them. */
  lemma OtherTokens(s: State, tid: Id, x: Id)
    requires Provenance(s) && RevokedGone(s) && Enabled(s, SaveAccess(tid)) && x in s.threads && x != tid
    ensures ThreadKnown(DoSaveAccess(s, tid), s.threads[x])
  {
    assert ThreadOk(s.log, s.next, s.clock, tid, s.threads[tid]);
    assert ThreadOk(s.log, s.next, s.clock, x, s.threads[x]) && ThreadKnown(s, s.threads[x]);
  }

  lemma SaveAccessGone(s: State, tid: Id, s': State)
    requires Provenance(s) && Gone(s) && Enabled(s, SaveAccess(tid)) && s' == DoSaveAccess(s, tid)
    ensures Gone(s')
  {
    assert ThreadOk(s.log, s.next, s.clock, tid, s.threads[tid]) && ThreadKnown(s, s.threads[tid]);
    forall x | x in s'.threads ensures ThreadKnown(s', s'.threads[x]) {
      OtherTokens(s, tid, x);
    }
    forall x | x in s'.threads && s'.threads[x].Revoking? ensures s'.threads[x].token !in s'.access {
      assert ThreadKnown(s, s.threads[x]);
    }
  }

  lemma DeleteKeyGone(s: State, tid: Id)
    requires RevokedGone(s) && Enabled(s, DeleteKey(tid))
    requires s.threads[tid].token !in s.access
    ensures RevokedGone(DoDeleteKey(s, tid))
  {
    assert ThreadKnown(s, s.threads[tid]);
  }

  /** A step that mints nothing, hands nothing out and revokes nothing. */
  ghost predicate Quiet(s: State, s': State) {
    && s'.known == s.known && s'.revoked == s.revoked && s.next <= s'.next
    && (forall t :: t in s'.access ==> t in s.access)
    && s'.apiKeys == s.apiKeys
    && (forall tid :: tid in s'.threads ==>
      (tid in s.threads && s'.threads[tid] == s.threads[tid]) || Harmless(s'.threads[tid]))
  }

  predicate Harmless(t: Thread) {
    !t.KeyNext? && !t.RefreshNext? && !t.AccessNext? && !t.Revoking?
  }

  lemma QuietGone(s: State, s': State)
    requires Gone(s) && Quiet(s, s')
    ensures Gone(s')
  {
    forall tid | tid in s'.threads ensures ThreadKnown(s', s'.threads[tid]) {
      if tid in s.threads {
        assert ThreadKnown(s, s.threads[tid]);
      }
    }
  }

  lemma StartQuiet(s: State, t: Thread)
    requires Harmless(t)
    ensures Quiet(s, Start(s, t))
  {
  }

  lemma LoadCodeQuiet(s: State, client: Client, id: Id, s': State)
    requires s' == DoLoadCode(s, client, id)
    ensures Quiet(s, s')
  {
    LoadCodeShape(s, client, id, s');
    StartQuiet(s, CodeLoaded(client, id));
  }

  lemma LoadRefreshQuiet(s: State, client: Client, id: Id, s': State)
    requires s' == DoLoadRefresh(s, client, id)
    ensures Quiet(s, s')
  {
    LoadRefreshShape(s, client, id, s');
    StartQuiet(s, RefreshLoaded(client, id));
  }

  lemma LoadAccessQuiet(s: State, id: Id, s': State)
    requires s' == DoLoadAccess(s, id)
    ensures Quiet(s, s')
  {
    LoadAccessShape(s, id, s');
  }

  lemma ExpireQuiet(s: State, e: Stale)
    ensures Quiet(s, DoExpire(s, e))
  {
  }

  lemma CompletePopQuiet(s: State, rid: Id, user: int, s': State)
    requires s' == DoCompletePop(s, rid, user)
    ensures Quiet(s, s')
  {
    var p := s.(pending := s.pending - {rid});
    CompletePopShape(s, rid, user, p, s');
    if Lookup(s.pending, rid, s.clock).Some? {
      StartQuiet(p, CompletePopped(rid, s.pending[rid].value, user));
    }
  }

  lemma GoQuiet(s: State, tid: Id, t: Thread)
    requires Harmless(t)
    ensures Quiet(s, Go(s, tid, t))
  {
  }

  lemma CompleteCheckQuiet(s: State, tid: Id, s': State)
    requires Enabled(s, CompleteCheck(tid)) && s' == DoCompleteCheck(s, tid)
    ensures Quiet(s, s')
  {
    var t := s.threads[tid];
    CompleteCheckShape(s, tid, s');
    GoQuiet(s, tid, CompleteChecked(t.rid, t.pending.client, t.login, s.clock));
  }

  lemma SaveCodeQuiet(s: State, tid: Id)
    requires Enabled(s, SaveCode(tid))
    ensures Quiet(s, DoSaveCode(s, tid))
  {
  }

  lemma LoginQuiet(s: State, a: Action)
    requires Enabled(s, a) && LoginStep(a)
    ensures Quiet(s, Apply(s, a))
  {
    match a
    case CompletePop(rid, user) => CompletePopQuiet(s, rid, user, Apply(s, a));
    case CompleteCheck(tid) => CompleteCheckQuiet(s, tid, Apply(s, a));
    case SaveCode(tid) => SaveCodeQuiet(s, tid);
    case Tick(_) =>
    case Authorize(_) =>
    case SaveCodeUser(_) =>
  }

  lemma PopQuiet(s: State, a: Action)
    requires Enabled(s, a) && (a.PopCode? || a.PopCodeUser? || a.PopRefresh?)
    ensures Quiet(s, Apply(s, a))
  {
  }

  lemma TakeQuiet(s: State, a: Action)
    requires Enabled(s, a) && TakeStep(a)
    ensures Quiet(s, Apply(s, a))
  {
    match a
    case LoadCode(c, code) => LoadCodeQuiet(s, c, code, Apply(s, a));
    case LoadRefresh(c, token) => LoadRefreshQuiet(s, c, token, Apply(s, a));
    case LoadAccess(token) => LoadAccessQuiet(s, token, Apply(s, a));
    case Expire(e) => ExpireQuiet(s, e);
    case RevokeRefresh(_) =>
    case PopCode(_) => PopQuiet(s, a);
    case PopCodeUser(_) => PopQuiet(s, a);
    case PopRefresh(_) => PopQuiet(s, a);
  }

  lemma SaveRefreshGone(s: State, tid: Id)
    requires Gone(s) && Enabled(s, SaveRefresh(tid))
    ensures Gone(DoSaveRefresh(s, tid))
  {
    assert ThreadKnown(s, s.threads[tid]);
  }

  lemma RevokeAccessGone(s: State, token: Id)
    requires Gone(s) && token in s.known
    ensures Gone(DoRevokeAccess(s, token))
  {
  }

  lemma IssueKeyGone(s: State, user: int, expiresAt: Option<real>)
    requires Provenance(s) && Gone(s)
    ensures Gone(DoIssueKey(s, user, expiresAt))
  {
    var s' := DoIssueKey(s, user, expiresAt);
    forall tid | tid in s'.threads ensures ThreadKnown(s', s'.threads[tid]) {
      assert ThreadKnown(s, s.threads[tid]) && ThreadOk(s.log, s.next, s.clock, tid, s.threads[tid]);
    }
  }

  lemma MintStepKeepsGone(s: State, a: Action)
    requires Provenance(s) && Gone(s) && Enabled(s, a)
      && (a.Generate? || a.StoreKey? || a.SaveRefresh? || a.SaveAccess?)
    ensures Gone(Apply(s, a))
  {
    match a
    case Generate(t) => GenerateGone(s, t, Apply(s, a));
    case StoreKey(t) => StoreKeyGone(s, t, Apply(s, a));
    case SaveRefresh(t) => SaveRefreshGone(s, t);
    case SaveAccess(t) => SaveAccessGone(s, t, Apply(s, a));
  }

  lemma KeyStepKeepsGone(s: State, a: Action)
    requires Provenance(s) && Gone(s) && Enabled(s, a)
    requires a.RevokeAccess? || a.DeleteKey? || a.DeleteKeyFails? || a.IssueKey?
    ensures Gone(Apply(s, a))
  {
    match a
    case RevokeAccess(token) => RevokeAccessGone(s, token);
    case DeleteKey(t) => DeleteKeyGone(s, t);
    case DeleteKeyFails(t) => QuietGone(s, End(s, t));
    case IssueKey(u, e) => IssueKeyGone(s, u, e);
  }

  lemma StepKeepsGone(s: State, a: Action, s': State)
    requires Provenance(s) && Gone(s) && Enabled(s, a) && s' == Apply(s, a)
    ensures Gone(s')
  {
    if LoginStep(a) {
      LoginQuiet(s, a);
      QuietGone(s, s');
    } else if TakeStep(a) {
      TakeQuiet(s, a);
      QuietGone(s, s');
    } else if a.RevokeAccess? || a.DeleteKey? || a.DeleteKeyFails? || a.IssueKey? {
      KeyStepKeepsGone(s, a);
    } else {
      MintStepKeepsGone(s, a);
    }
  }

  lemma {:induction false} RunKeepsGone(s: State, actions: seq<Action>, s': State)
    requires Provenance(s) && Gone(s) && Runs(s, actions, s')
    ensures Gone(s')
    decreases |actions|
  {
    if actions != [] {
      StepKeepsProvenance(s, actions[0]);
      StepKeepsGone(s, actions[0], Apply(s, actions[0]));
      RunKeepsGone(Apply(s, actions[0]), actions[1..], s');
    }
  }

  // ---- main result ----

  /** Over every interleaving: an access token whose revocation has run is not accepted, now or in any
      later state. */
  lemma RevokedNeverAccepted(s: State, token: Id, later: seq<Action>, s': State)
    requires Reachable(s) && token in s.revoked && Runs(s, later, s')
    ensures token in s'.revoked && !AcceptsAccess(s', token)
  {
    ReachableGone(s);
    RunKeepsGone(s, later, s');
    RevokedStays(s, later, s', token);
  }

  lemma {:induction false} RevokedStays(s: State, actions: seq<Action>, s': State, token: Id)
    requires token in s.revoked && Runs(s, actions, s')
    ensures token in s'.revoked
    decreases |actions|
  {
    if actions != [] {
      RevokedStep(s, actions[0], token);
      RevokedStays(Apply(s, actions[0]), actions[1..], s', token);
    }
  }

  lemma RevokedStep(s: State, a: Action, token: Id)
    requires token in s.revoked && Enabled(s, a)
    ensures token in Apply(s, a).revoked
  {
    if LoginStep(a) {
      LoginQuiet(s, a);
    } else if TakeStep(a) {
      TakeQuiet(s, a);
    }
  }

  // ---- where something stronger fails ----

  lemma RunsStep(s: State, a: Action, rest: seq<Action>, s': State)
    requires Enabled(s, a) && Runs(Apply(s, a), rest, s')
    ensures Runs(s, [a] + rest, s')
  {
    assert ([a] + rest)[1..] == rest;
  }

  lemma {:induction false} RunsConcat(s: State, xs: seq<Action>, m: State, ys: seq<Action>, s': State)
    requires Runs(s, xs, m) && Runs(m, ys, s')
    ensures Runs(s, xs + ys, s')
    decreases |xs|
  {
    if xs == [] {
      assert xs + ys == ys;
    } else {
      assert (xs + ys)[1..] == xs[1..] + ys;
      RunsConcat(Apply(s, xs[0]), xs[1..], m, ys, s');
    }
  }

  lemma StepReachable(s: State, a: Action)
    requires Reachable(s) && Enabled(s, a)
    ensures Reachable(Apply(s, a))
  {
    var s' := Apply(s, a);
    assert Runs(s', [], s');
    RunsStep(s, a, [], s');
    StillReachable(s, [a] + [], s');
  }

  lemma StillReachable(s: State, actions: seq<Action>, s': State)
    requires Reachable(s) && Runs(s, actions, s')
    ensures Reachable(s')
  {
    var before :| Runs(INIT, before, s);
    RunsConcat(INIT, before, s, actions, s');
  }

  /** The state after a pair of tokens has been minted with nothing in between. */
  function Minting(s: State, tid: Id, source: Source, client: Client, user: Option<int>): State {
    var a, r, now := s.next, s.next + 1, s.clock.Floor;
    s.(next := s.next + 2, threads := s.threads - {tid}, known := s.known + {a, r},
       log := s.log.(sources := s.log.sources[a := source][r := source], minters := s.log.minters[a := tid][r := tid]),
       apiKeys := if Truthy(user) then s.apiKeys[a := ApiKey(user.value, Some(s.clock + ACCESS_TOKEN_EXPIRY as real))]
                  else s.apiKeys,
       refresh := s.refresh[r := In(Token(user, client, now + REFRESH_TOKEN_EXPIRY), REFRESH_TOKEN_EXPIRY, s.clock)],
       access := s.access[a := In(Token(user, client, now + ACCESS_TOKEN_EXPIRY), ACCESS_TOKEN_EXPIRY, s.clock)])
  }

  /** The state after the two saves. */
  function Saving(s: State, tid: Id): State
    requires tid in s.threads && s.threads[tid].RefreshNext?
  {
    var t := s.threads[tid];
    s.(threads := s.threads - {tid}, known := s.known + {t.access, t.refresh},
       refresh := s.refresh[t.refresh :=
         In(Token(t.user, t.client, t.now + REFRESH_TOKEN_EXPIRY), REFRESH_TOKEN_EXPIRY, s.clock)],
       access := s.access[t.access :=
         In(Token(t.user, t.client, t.now + ACCESS_TOKEN_EXPIRY), ACCESS_TOKEN_EXPIRY, s.clock)])
  }

  lemma SaveRuns(s: State, tid: Id)
    requires tid in s.threads && s.threads[tid].RefreshNext?
    ensures Runs(s, [SaveRefresh(tid)] + [SaveAccess(tid)], Saving(s, tid))
  {
    var s1, s2 := DoSaveRefresh(s, tid), Saving(s, tid);
    assert s1.threads - {tid} == s.threads - {tid};
    assert DoSaveAccess(s1, tid) == s2;
    assert Runs(s2, [], s2);
    RunsStep(s1, SaveAccess(tid), [], s2);
    assert [SaveAccess(tid)] + [] == [SaveAccess(tid)];
    RunsStep(s, SaveRefresh(tid), [SaveAccess(tid)], s2);
  }

  lemma SavingIs(s: State, tid: Id, k: State, source: Source, client: Client, user: Option<int>, keys: map<Id, ApiKey>)
    requires k == s.(next := s.next + 2, apiKeys := keys, log := k.log, threads := k.threads)
    requires tid in k.threads && k.threads - {tid} == s.threads - {tid}
    requires k.threads[tid] == RefreshNext(source, client, user, s.clock.Floor, s.next, s.next + 1)
    ensures Saving(k, tid) == Minting(s, tid, source, client, user).(log := k.log, apiKeys := keys)
  {
  }

  lemma MintKeyed(s: State, tid: Id, g: State, k: State)
    requires tid in s.threads && s.threads[tid].UserPopped? && Truthy(s.threads[tid].user)
    requires g == DoGenerate(s, tid) && k == DoStoreKey(g, tid)
    ensures k.threads[tid].RefreshNext?
    ensures Saving(k, tid) == Minting(s, tid, s.threads[tid].source, s.threads[tid].client, s.threads[tid].user)
  {
    var t := s.threads[tid];
    assert g.threads[tid] == KeyNext(t.source, t.client, t.user, s.clock.Floor, s.next, s.next + 1);
    assert k.threads - {tid} == s.threads - {tid};
    SavingIs(s, tid, k, t.source, t.client, t.user, k.apiKeys);
  }

  lemma MintUnkeyed(s: State, tid: Id)
    requires tid in s.threads && s.threads[tid].UserPopped? && !Truthy(s.threads[tid].user)
    ensures var t, g := s.threads[tid], DoGenerate(s, tid);
      g.threads[tid].RefreshNext? && Saving(g, tid) == Minting(s, tid, t.source, t.client, t.user)
  {
    var g := DoGenerate(s, tid);
    assert g.threads - {tid} == s.threads - {tid};
  }

  /** Minting with nothing in between, as a run; the key is stored only for a truthy user. */
  lemma MintRuns(s: State, tid: Id) returns (actions: seq<Action>)
    requires tid in s.threads && s.threads[tid].UserPopped?
    ensures Runs(s, actions, Minting(s, tid, s.threads[tid].source, s.threads[tid].client, s.threads[tid].user))
  {
    var t, g := s.threads[tid], DoGenerate(s, tid);
    var s' := Minting(s, tid, t.source, t.client, t.user);
    var saves := [SaveRefresh(tid)] + [SaveAccess(tid)];
    if Truthy(t.user) {
      MintKeyed(s, tid, g, DoStoreKey(g, tid));
      SaveRuns(DoStoreKey(g, tid), tid);
      RunsStep(g, StoreKey(tid), saves, s');
      RunsStep(s, Generate(tid), [StoreKey(tid)] + saves, s');
      actions := [Generate(tid)] + ([StoreKey(tid)] + saves);
    } else {
      MintUnkeyed(s, tid);
      SaveRuns(g, tid);
      RunsStep(s, Generate(tid), saves, s');
      actions := [Generate(tid)] + saves;
    }
  }

  /** The state after a loaded code has been exchanged. */
  function Exchanging(s: State, tid: Id): State
    requires tid in s.threads && s.threads[tid].CodeLoaded?
  {
    var client, code := s.threads[tid].client, s.threads[tid].code;
    Minting(s.(codes := s.codes - {code}, codeUser := s.codeUser - {code}), tid, OfCode(code), client,
            Lookup(s.codeUser, code, s.clock))
  }

  lemma PoppedUser(s: State, tid: Id, p: State, u: State)
    requires tid in s.threads && s.threads[tid].CodeLoaded? && p == DoPopCode(s, tid) && p.threads[tid].CodePopped?
    requires u == DoPopCodeUser(p, tid)
    ensures var t := s.threads[tid]; var user := Lookup(s.codeUser, t.code, s.clock);
      u == s.(codes := s.codes - {t.code}, codeUser := s.codeUser - {t.code},
        threads := s.threads[tid := UserPopped(OfCode(t.code), t.client, user)])
  {
    var t := s.threads[tid];
    var t' := UserPopped(OfCode(t.code), t.client, Lookup(s.codeUser, t.code, s.clock));
    assert s.threads[tid := CodePopped(t.client, t.code)][tid := t'] == s.threads[tid := t'];
  }

  lemma MintingPopped(s: State, tid: Id, source: Source, client: Client, user: Option<int>, t: Thread)
    requires tid in s.threads
    ensures Minting(s.(threads := s.threads[tid := t]), tid, source, client, user)
      == Minting(s, tid, source, client, user)
  {
    assert s.threads[tid := t] - {tid} == s.threads - {tid};
  }

  lemma ExchangeMints(s: State, tid: Id, p: State, u: State)
    requires tid in s.threads && s.threads[tid].CodeLoaded? && p == DoPopCode(s, tid) && p.threads[tid].CodePopped?
    requires u == DoPopCodeUser(p, tid)
    ensures u.threads[tid].UserPopped?
    ensures Minting(u, tid, u.threads[tid].source, u.threads[tid].client, u.threads[tid].user) == Exchanging(s, tid)
  {
    var t := s.threads[tid];
    PoppedUser(s, tid, p, u);
    MintingPopped(s.(codes := s.codes - {t.code}, codeUser := s.codeUser - {t.code}), tid, OfCode(t.code), t.client,
                  Lookup(s.codeUser, t.code, s.clock), u.threads[tid]);
  }

  /** An exchange with nothing in between, as a run. */
  lemma ExchangeRuns(s: State, tid: Id) returns (actions: seq<Action>)
    requires tid in s.threads && s.threads[tid].CodeLoaded?
    ensures Runs(s, actions, Exchanging(s, tid))
  {
    var p := DoPopCode(s, tid);
    var u := DoPopCodeUser(p, tid);
    ExchangeMints(s, tid, p, u);
    var mint := MintRuns(u, tid);
    RunsStep(p, PopCodeUser(tid), mint, Exchanging(s, tid));
    RunsStep(s, PopCode(tid), [PopCodeUser(tid)] + mint, Exchanging(s, tid));
    actions := [PopCode(tid)] + ([PopCodeUser(tid)] + mint);
  }

  /** Both requests have loaded the code. */
  function LoadedTwice(s: State, client: Client, code: Id): State {
    Start(Start(s, CodeLoaded(client, code)), CodeLoaded(client, code))
  }

  /** The first has been exchanged. */
  function ExchangedOnce(s: State, client: Client, code: Id): State
    requires s.next !in s.threads && s.next + 1 !in s.threads
  {
    Exchanging(LoadedTwice(s, client, code), s.next)
  }

  lemma ExchangeFacts(s: State, tid: Id)
    requires tid in s.threads && s.threads[tid].CodeLoaded?
    ensures var s', code := Exchanging(s, tid), s.threads[tid].code;
      && s'.clock == s.clock && s'.next == s.next + 2 && s'.threads == s.threads - {tid} && code !in s'.codeUser
      && (s.next in s'.log.sources && s'.log.sources[s.next] == OfCode(code))
      && (s.next in s'.access && s'.access[s.next].value.user == Lookup(s.codeUser, code, s.clock))
      && AcceptsAccess(s', s.next)
  {
  }

  /** What an exchange does not touch. */
  lemma ExchangeFrame(s: State, tid: Id, token: Id)
    requires tid in s.threads && s.threads[tid].CodeLoaded? && token < s.next && token in s.access
      && token in s.log.sources
    ensures var s' := Exchanging(s, tid);
      && token in s'.access && s'.access[token] == s.access[token]
      && token in s'.log.sources && s'.log.sources[token] == s.log.sources[token]
      && (AcceptsAccess(s, token) ==> AcceptsAccess(s', token))
  {
  }

  lemma ReplayRuns(s: State, client: Client, code: Id) returns (actions: seq<Action>)
    requires s.next !in s.threads && s.next + 1 !in s.threads && AcceptsCode(s, client, code)
    ensures ExchangedOnce(s, client, code).threads == s.threads[s.next + 1 := CodeLoaded(client, code)]
    ensures Runs(s, actions, Exchanging(ExchangedOnce(s, client, code), s.next + 1))
  {
    var a, b, c := Start(s, CodeLoaded(client, code)), LoadedTwice(s, client, code), ExchangedOnce(s, client, code);
    assert c.threads == s.threads[s.next + 1 := CodeLoaded(client, code)];
    var s' := Exchanging(c, s.next + 1);
    var xs := ExchangeRuns(b, s.next);
    var ys := ExchangeRuns(c, s.next + 1);
    RunsConcat(b, xs, c, ys, s');
    assert DoLoadCode(a, client, code) == b && DoLoadCode(s, client, code) == a;
    RunsStep(a, LoadCode(client, code), xs + ys, s');
    actions := [LoadCode(client, code)] + ([LoadCode(client, code)] + (xs + ys));
    RunsStep(s, LoadCode(client, code), [LoadCode(client, code)] + (xs + ys), s');
  }

  lemma ReachableFresh(s: State)
    requires Reachable(s)
    ensures s.next !in s.threads && s.next + 1 !in s.threads
  {
    var actions :| Runs(INIT, actions, s);
    RunKeepsProvenance(INIT, actions, s);
  }

  /** A code is not single-use for access tokens as such. Whenever a code is accepted, two requests that
      both load it before either pops it can both finish their exchange with an accepted access token; only
      the first carries the user. */
  lemma CodeReplayed(s: State, client: Client, code: Id)
    returns (actions: seq<Action>, s': State, first: Id, second: Id)
    requires Reachable(s) && AcceptsCode(s, client, code)
    ensures Runs(s, actions, s') && first != second
    ensures AcceptsAccess(s', first) && AcceptsAccess(s', second)
    ensures first in s'.log.sources && second in s'.log.sources
      && s'.log.sources[first] == s'.log.sources[second] == OfCode(code)
    ensures second in s'.access && s'.access[second].value.user == None
    ensures first in s'.access && s'.access[first].value.user == Lookup(s.codeUser, code, s.clock)
  {
    ReachableFresh(s);
    actions := ReplayRuns(s, client, code);
    var b, c := LoadedTwice(s, client, code), ExchangedOnce(s, client, code);
    first, second := b.next, c.next;
    s' := Exchanging(c, s.next + 1);
    ExchangeFacts(b, s.next);
    ExchangeFacts(c, s.next + 1);
    ExchangeFrame(c, s.next + 1, first);
  }

  /** Rejection for age is not final. A token that is refused is accepted on the very next try exactly when its
      store record has expired, is still in the store, and its API key row has not expired. */
  lemma RefusedThenAcceptedExactly(s: State, token: Id)
    ensures !AcceptsAccess(s, token) && AcceptsAccess(DoLoadAccess(s, token), token) <==>
      && Lookup(s.access, token, s.clock).Some? && s.access[token].value.expiresAt as real < s.clock
      && token in s.apiKeys && (s.apiKeys[token].expiresAt.None? || s.apiKeys[token].expiresAt.value >= s.clock)
  {
  }

  /** The state after a whole login with nothing in between. */
  function LoggingIn(s: State, client: Client, user: int): State {
    var rid, code, now := s.next, s.next + 2, s.clock;
    s.(next := s.next + 3, pending := s.pending - {rid}, threads := s.threads - {s.next + 1},
       codes := s.codes[code := In(Code(client, now + AUTH_CODE_EXPIRY as real), AUTH_CODE_EXPIRY, now)],
       codeUser := s.codeUser[code := In(user, AUTH_CODE_EXPIRY, now)],
       log := s.log.(requests := s.log.requests[rid := Request(client, now)],
                     logins := s.log.logins[code := Login(rid, user, now, now)]))
  }

  lemma PopChecked(s: State, client: Client, user: int)
    ensures var c := DoCompletePop(DoAuthorize(s, client), s.next, user);
      && Enabled(c, CompleteCheck(s.next + 1))
      && DoCompleteCheck(c, s.next + 1) == s.(next := s.next + 2, pending := s.pending - {s.next},
        threads := s.threads[s.next + 1 := CompleteChecked(s.next, client, user, s.clock)],
        log := s.log.(requests := s.log.requests[s.next := Request(client, s.clock)]))
  {
    var a := DoAuthorize(s, client);
    assert a.pending - {s.next} == s.pending - {s.next};
    var tid, t := s.next + 1, CompletePopped(s.next, Pending(client, s.clock), user);
    var c := DoCompletePop(a, s.next, user);
    assert c.threads == s.threads[tid := t];
    var t' := CompleteChecked(s.next, client, user, s.clock);
    assert c.threads[tid := t'] == s.threads[tid := t'];
  }

  lemma CodeSavedBoth(s: State, client: Client, user: int, checked: State, d: State)
    requires checked == s.(next := s.next + 2, pending := s.pending - {s.next},
        threads := s.threads[s.next + 1 := CompleteChecked(s.next, client, user, s.clock)],
        log := s.log.(requests := s.log.requests[s.next := Request(client, s.clock)]))
    requires d == DoSaveCode(checked, s.next + 1)
    ensures Enabled(d, SaveCodeUser(s.next + 1))
    ensures DoSaveCodeUser(d, s.next + 1) == LoggingIn(s, client, user)
  {
    assert d.threads[s.next + 1] == CodeSaved(s.next + 2, user);
    assert d.threads - {s.next + 1} == s.threads - {s.next + 1};
  }

  lemma LoginRuns(s: State, client: Client, user: int) returns (actions: seq<Action>)
    ensures Runs(s, actions, LoggingIn(s, client, user))
  {
    var rid, tid, s' := s.next, s.next + 1, LoggingIn(s, client, user);
    var a := DoAuthorize(s, client);
    var b := DoCompletePop(a, rid, user);
    PopChecked(s, client, user);
    var c := DoCompleteCheck(b, tid);
    var d := DoSaveCode(c, tid);
    CodeSavedBoth(s, client, user, c, d);
    assert Runs(s', [], s');
    RunsStep(d, SaveCodeUser(tid), [], s');
    RunsStep(c, SaveCode(tid), [SaveCodeUser(tid)] + [], s');
    RunsStep(b, CompleteCheck(tid), [SaveCode(tid)] + ([SaveCodeUser(tid)] + []), s');
    RunsStep(a, CompletePop(rid, user), [CompleteCheck(tid)] + ([SaveCode(tid)] + ([SaveCodeUser(tid)] + [])), s');
    actions := [Authorize(client)]
      + ([CompletePop(rid, user)] + ([CompleteCheck(tid)] + ([SaveCode(tid)] + ([SaveCodeUser(tid)] + []))));
    RunsStep(s, Authorize(client), actions[1..], s');
    assert actions == [Authorize(client)] + actions[1..];
  }

  /** Exchanging the code of a login at half past a second, and waiting an hour. */
  lemma HourRuns(b: State, code: Id, s: State)
    requires b.next !in b.threads && AcceptsCode(b, "client", code)
    requires s == Exchanging(Start(b, CodeLoaded("client", code)), b.next).(clock := b.clock + 3600.0)
    ensures exists actions :: Runs(b, actions, s)
  {
    var c := Start(b, CodeLoaded("client", code));
    var d := Exchanging(c, b.next);
    assert Runs(s, [], s);
    RunsStep(d, Tick(3600.0), [], s);
    var xs := ExchangeRuns(c, b.next);
    RunsConcat(c, xs, d, [Tick(3600.0)] + [], s);
    RunsStep(b, LoadCode("client", code), xs + ([Tick(3600.0)] + []), s);
  }

  lemma HourFacts(b: State, code: Id, s: State)
    requires b.next !in b.threads && b.clock == 0.5 && Lookup(b.codeUser, code, 0.5) == Some(7)
    requires s == Exchanging(Start(b, CodeLoaded("client", code)), b.next).(clock := b.clock + 3600.0)
    ensures !AcceptsAccess(s, b.next + 1) && AcceptsAccess(DoLoadAccess(s, b.next + 1), b.next + 1)
  {
    assert s.access[b.next + 1] == In(Token(Some(7), "client", 3600), ACCESS_TOKEN_EXPIRY, 0.5);
    assert s.apiKeys[b.next + 1] == ApiKey(7, Some(3600.5));
  }

  lemma LoginFacts(s: State, client: Client, user: int)
    requires s.next + 3 !in s.threads
    ensures var b, code := LoggingIn(s, client, user), s.next + 2;
      b.clock == s.clock && b.next !in b.threads && AcceptsCode(b, client, code)
        && Lookup(b.codeUser, code, s.clock) == Some(user)
  {
  }

  lemma LateReached(a: State, b: State, s: State)
    requires a == INIT.(clock := 0.5) && b == LoggingIn(a, "client", 7) && exists actions :: Runs(b, actions, s)
    ensures Reachable(s)
  {
    var xs :| Runs(b, xs, s);
    var ys := LoginRuns(a, "client", 7);
    RunsConcat(a, ys, b, xs, s);
    RunsStep(INIT, Tick(0.5), ys + xs, s);
  }

  /** And this happens: the store record's expiry is counted from the clock rounded down, the API key's from
      the clock itself. */
  lemma RefusedThenAccepted() returns (s: State, token: Id)
    ensures Reachable(s) && !AcceptsAccess(s, token) && AcceptsAccess(DoLoadAccess(s, token), token)
  {
    var a := INIT.(clock := 0.5);
    var b := LoggingIn(a, "client", 7);
    LoginFacts(a, "client", 7);
    s, token := Exchanging(Start(b, CodeLoaded("client", 2)), b.next).(clock := b.clock + 3600.0), b.next + 1;
    HourRuns(b, 2, s);
    HourFacts(b, 2, s);
    LateReached(a, b, s);
  }

  // ---- a revocation whose database step fails ----

  predicate Unexpired(key: ApiKey, now: real) {
    key.expiresAt.None? || key.expiresAt.value >= now
  }

  predicate KeyIs(apiKeys: map<Id, ApiKey>, token: Id, key: Option<ApiKey>) {
    if key.Some? then token in apiKeys && apiKeys[token] == key.value else token !in apiKeys
  }

  /** The token's store record is gone for good, and its key row, unless a revocation ran to its end, is `key`. */
  ghost predicate KeyLeft(s: State, token: Id, key: Option<ApiKey>) {
    && token in s.known && token !in s.access
    && (token !in s.revoked ==> KeyIs(s.apiKeys, token, key))
  }

  lemma QuietKeyLeft(s: State, s': State, token: Id, key: Option<ApiKey>)
    requires KeyLeft(s, token, key) && Quiet(s, s')
    ensures KeyLeft(s', token, key)
  {
  }

  lemma SaveAccessKeyLeft(s: State, tid: Id, token: Id, key: Option<ApiKey>)
    requires Gone(s) && KeyLeft(s, token, key) && Enabled(s, SaveAccess(tid))
    ensures KeyLeft(DoSaveAccess(s, tid), token, key)
  {
    assert ThreadKnown(s, s.threads[tid]);
  }

  lemma StoreKeyKeyLeft(s: State, tid: Id, token: Id, key: Option<ApiKey>)
    requires Gone(s) && KeyLeft(s, token, key) && Enabled(s, StoreKey(tid))
    ensures KeyLeft(DoStoreKey(s, tid), token, key)
  {
    assert ThreadKnown(s, s.threads[tid]);
  }

  lemma IssueKeyKeyLeft(s: State, user: int, expiresAt: Option<real>, token: Id, key: Option<ApiKey>)
    requires Gone(s) && KeyLeft(s, token, key)
    ensures KeyLeft(DoIssueKey(s, user, expiresAt), token, key)
  {
    assert token < s.next;
  }

  lemma DeleteKeyKeyLeft(s: State, tid: Id, token: Id, key: Option<ApiKey>)
    requires KeyLeft(s, token, key) && Enabled(s, DeleteKey(tid))
    ensures KeyLeft(DoDeleteKey(s, tid), token, key)
  {
  }

  lemma StepKeepsKeyLeft(s: State, a: Action, token: Id, key: Option<ApiKey>)
    requires Gone(s) && KeyLeft(s, token, key) && Enabled(s, a)
    ensures KeyLeft(Apply(s, a), token, key)
  {
    if LoginStep(a) {
      LoginQuiet(s, a);
      QuietKeyLeft(s, Apply(s, a), token, key);
    } else if TakeStep(a) {
      TakeQuiet(s, a);
      QuietKeyLeft(s, Apply(s, a), token, key);
    } else {
      match a
      case Generate(_) =>
      case StoreKey(t) => StoreKeyKeyLeft(s, t, token, key);
      case SaveRefresh(_) =>
      case SaveAccess(t) => SaveAccessKeyLeft(s, t, token, key);
      case RevokeAccess(_) =>
      case DeleteKey(t) => DeleteKeyKeyLeft(s, t, token, key);
      case DeleteKeyFails(_) =>
      case IssueKey(u, e) => IssueKeyKeyLeft(s, u, e, token, key);
    }
  }

  lemma {:induction false} RunKeepsKeyLeft(s: State, actions: seq<Action>, s': State, token: Id, key: Option<ApiKey>)
    requires Provenance(s) && Gone(s) && KeyLeft(s, token, key) && Runs(s, actions, s')
    ensures Gone(s') && KeyLeft(s', token, key)
    decreases |actions|
  {
    if actions != [] {
      StepKeepsProvenance(s, actions[0]);
      StepKeepsGone(s, actions[0], Apply(s, actions[0]));
      StepKeepsKeyLeft(s, actions[0], token, key);
      RunKeepsKeyLeft(Apply(s, actions[0]), actions[1..], s', token, key);
    }
  }

  /** A revocation with its database step failing at once. */
  function Failing(s: State, token: Id): State {
    End(DoRevokeAccess(s, token), s.next)
  }

  function KeyOf(s: State, token: Id): Option<ApiKey> {
    if token in s.apiKeys then Some(s.apiKeys[token]) else None
  }

  lemma KeyDecides(s: State, token: Id, key: Option<ApiKey>)
    requires KeyLeft(s, token, key) && token !in s.revoked
    ensures AcceptsAccess(s, token) <==> key.Some? && Unexpired(key.value, s.clock)
  {
  }

  lemma ReachableGone(s: State)
    requires Reachable(s)
    ensures Provenance(s) && Gone(s)
  {
    var actions :| Runs(INIT, actions, s);
    RunKeepsProvenance(INIT, actions, s);
    RunKeepsGone(INIT, actions, s);
  }

  lemma GoneNotAccepted(s: State, token: Id)
    requires Gone(s) && token in s.revoked
    ensures !AcceptsAccess(s, token)
  {
  }

  lemma BegunFacts(s: State, token: Id)
    requires Provenance(s) && Gone(s) && token in s.known
    ensures Provenance(DoRevokeAccess(s, token)) && Gone(DoRevokeAccess(s, token))
    ensures KeyLeft(DoRevokeAccess(s, token), token, KeyOf(s, token))
  {
    StepKeepsProvenance(s, RevokeAccess(token));
    StepKeepsGone(s, RevokeAccess(token), DoRevokeAccess(s, token));
  }

  /** A revocation deletes the store record first, and its database step may fail, never come, or come late,
      with any steps of other requests in between. In every state of every run after the deletion, the token
      is accepted exactly while no revocation of it has run to its end, its key row was there, and that row
      has not expired. */
  lemma FailedRevocationExactly(s: State, token: Id, later: seq<Action>, s': State)
    requires Reachable(s) && token in s.known && Runs(DoRevokeAccess(s, token), later, s')
    ensures AcceptsAccess(s', token) <==>
      token !in s'.revoked && token in s.apiKeys && Unexpired(s.apiKeys[token], s'.clock)
  {
    ReachableGone(s);
    BegunFacts(s, token);
    RunKeepsKeyLeft(DoRevokeAccess(s, token), later, s', token, KeyOf(s, token));
    if token in s'.revoked {
      GoneNotAccepted(s', token);
    } else {
      KeyDecides(s', token, KeyOf(s, token));
    }
  }

  lemma MintedFacts(b: State, code: Id, s: State)
    requires b.next !in b.threads && b.clock == 0.5 && Lookup(b.codeUser, code, 0.5) == Some(7) && b.revoked == {}
    requires s == Exchanging(Start(b, CodeLoaded("client", code)), b.next)
    ensures b.next + 1 in s.known && b.next + 1 in s.apiKeys && s.apiKeys[b.next + 1] == ApiKey(7, Some(3600.5))
    ensures s.clock == 0.5 && s.revoked == {}
  {
  }

  lemma ExchangedReached(a: State, b: State, s: State)
    requires a == INIT.(clock := 0.5) && b == LoggingIn(a, "client", 7) && b.next !in b.threads
      && AcceptsCode(b, "client", 2)
    requires s == Exchanging(Start(b, CodeLoaded("client", 2)), b.next)
    ensures Reachable(s)
  {
    var c := Start(b, CodeLoaded("client", 2));
    var xs := ExchangeRuns(c, b.next);
    RunsStep(b, LoadCode("client", 2), xs, s);
    LateReached(a, b, s);
  }

  /** A token whose key row outlives some time is accepted for that time after its revocation has failed. */
  lemma OutlivesFailure(s: State, token: Id, seconds: real) returns (later: State)
    requires Reachable(s) && token in s.known && token !in s.revoked && seconds >= 0.0
    requires token in s.apiKeys && Unexpired(s.apiKeys[token], s.clock + seconds)
    ensures Runs(DoRevokeAccess(s, token), [DeleteKeyFails(s.next), Tick(seconds)], later)
      && AcceptsAccess(later, token)
  {
    var m, f := DoRevokeAccess(s, token), Failing(s, token);
    later := f.(clock := f.clock + seconds);
    assert Runs(later, [], later);
    RunsStep(f, Tick(seconds), [], later);
    RunsStep(m, DeleteKeyFails(s.next), [Tick(seconds)], later);
    FailedRevocationExactly(s, token, [DeleteKeyFails(s.next), Tick(seconds)], later);
  }

  /** And this happens: a token from an ordinary login outlives its failed revocation by an hour. */
  lemma RevokedInVain() returns (s: State, token: Id, later: State)
    ensures Reachable(s) && token in s.known
    ensures Runs(DoRevokeAccess(s, token), [DeleteKeyFails(s.next), Tick(3600.0)], later) && AcceptsAccess(later, token)
  {
    var a := INIT.(clock := 0.5);
    var b := LoggingIn(a, "client", 7);
    LoginFacts(a, "client", 7);
    s, token := Exchanging(Start(b, CodeLoaded("client", 2)), b.next), b.next + 1;
    ExchangedReached(a, b, s);
    MintedFacts(b, 2, s);
    later := OutlivesFailure(s, token, 3600.0);
  }
}
