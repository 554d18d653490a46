/** When an authorization code is single-use (section 4.1.2 of RFC 6749), over every interleaving. */
module OAuthSingleUse {
  import opened Text
  import opened SessionStore
  import opened OAuthProtocol
  import opened OAuthProvenance
  import opened OAuthRevocation

  /** A request that has loaded the code and has not made its tokens yet. */
  predicate Holds(t: Thread, code: Id) {
    match t
    case CodeLoaded(_, c) => c == code
    case CodePopped(_, c) => c == code
    case UserPopped(source, _, _) => source == OfCode(code)
    case _ => false
  }

  ghost predicate HeldBy(s: State, tid: Id, code: Id) {
    tid in s.threads && Holds(s.threads[tid], code)
  }

  ghost predicate Held(s: State, code: Id) {
    exists tid :: HeldBy(s, tid, code)
  }

  /** Some client can still load the code. */
  ghost predicate Acceptable(s: State, code: Id) {
    exists client :: AcceptsCode(s, client, code)
  }

  predicate Usable(s: State, code: Id) {
    code in s.codes && Alive(s.codes[code], s.clock) && s.codes[code].value.expiresAt >= s.clock
  }

  lemma AcceptableIsUsable(s: State, code: Id)
    ensures Acceptable(s, code) <==> Usable(s, code)
  {
    if Usable(s, code) {
      assert AcceptsCode(s, s.codes[code].value.client, code);
    }
  }

  /** A token made from the code after the state `s`. */
  predicate NewToken(s: State, s': State, code: Id, token: Id) {
    token !in s.log.sources && token in s'.log.sources && s'.log.sources[token] == OfCode(code)
  }

  // ---- once nobody can load it, only those who hold it can use it ----

  /** The code is gone for everyone but `holders`, and `before` and their tokens are all there are. */
  ghost predicate Sealed(s: State, code: Id, holders: set<Id>, before: set<Id>) {
    && code < s.next && !Usable(s, code)
    && (forall tid :: HeldBy(s, tid, code) ==> tid in holders)
    && Accounted(s.log, code, holders, before)
  }

  ghost predicate Accounted(log: Log, code: Id, holders: set<Id>, before: set<Id>) {
    forall t :: t in log.sources && log.sources[t] == OfCode(code)
      ==> t in before || (t in log.minters && log.minters[t] in holders)
  }

  /** A step after which no more threads hold the code, and which mints nothing. */
  ghost predicate HoldsLess(s: State, s': State, code: Id) {
    && s.next <= s'.next && (Usable(s', code) ==> Usable(s, code) || code >= s.next)
    && (forall tid :: HeldBy(s', tid, code) ==> HeldBy(s, tid, code) || Usable(s, code))
    && s'.log.sources == s.log.sources && s'.log.minters == s.log.minters
  }

  lemma HoldsLessSealed(s: State, s': State, code: Id, holders: set<Id>, before: set<Id>)
    requires Sealed(s, code, holders, before) && HoldsLess(s, s', code)
    ensures Sealed(s', code, holders, before)
  {
  }

  lemma StartHolds(s: State, t: Thread, code: Id)
    requires Holds(t, code) ==> Usable(s, code)
    ensures HoldsLess(s, Start(s, t), code)
  {
    var s' := Start(s, t);
    forall tid | HeldBy(s', tid, code) ensures HeldBy(s, tid, code) || Usable(s, code) {
      if tid == s.next {
        assert s'.threads[tid] == t;
      }
    }
  }

  lemma GoHolds(s: State, tid: Id, t: Thread, code: Id)
    requires Holds(t, code) ==> HeldBy(s, tid, code)
    ensures HoldsLess(s, Go(s, tid, t), code)
  {
    var s' := Go(s, tid, t);
    forall x | HeldBy(s', x, code) ensures HeldBy(s, x, code) {
      if x == tid {
        assert s'.threads[x] == t;
      }
    }
  }

  lemma DropHolds(s: State, s': State, code: Id)
    requires s' == s.(codes := s'.codes, access := s'.access, refresh := s'.refresh)
    requires forall c :: c in s'.codes ==> c in s.codes && s'.codes[c] == s.codes[c]
    ensures HoldsLess(s, s', code)
  {
    assert forall tid :: HeldBy(s', tid, code) ==> HeldBy(s, tid, code);
  }

  lemma LoadCodeHolds(s: State, client: Client, id: Id, code: Id, s': State)
    requires s' == DoLoadCode(s, client, id)
    ensures HoldsLess(s, s', code)
  {
    LoadCodeShape(s, client, id, s');
    if AcceptsCode(s, client, id) {
      StartHolds(s, CodeLoaded(client, id), code);
    } else {
      DropHolds(s, s', code);
    }
  }

  lemma LoadRefreshHolds(s: State, client: Client, id: Id, code: Id, s': State)
    requires s' == DoLoadRefresh(s, client, id)
    ensures HoldsLess(s, s', code)
  {
    LoadRefreshShape(s, client, id, s');
    StartHolds(s, RefreshLoaded(client, id), code);
  }

  lemma LoadAccessHolds(s: State, id: Id, code: Id, s': State)
    requires s' == DoLoadAccess(s, id)
    ensures HoldsLess(s, s', code)
  {
    LoadAccessShape(s, id, s');
  }

  lemma ExpireHolds(s: State, e: Stale, code: Id)
    ensures HoldsLess(s, DoExpire(s, e), code)
  {
  }

  lemma PopCodeHolds(s: State, tid: Id, code: Id)
    requires Enabled(s, PopCode(tid))
    ensures HoldsLess(s, DoPopCode(s, tid), code)
  {
    var t := s.threads[tid];
    GoHolds(s, tid, CodePopped(t.client, t.code), code);
    var g := Go(s, tid, CodePopped(t.client, t.code));
    assert DoPopCode(s, tid) == g.(codes := s.codes - {t.code});
    assert forall x :: HeldBy(DoPopCode(s, tid), x, code) ==> HeldBy(g, x, code);
  }

  lemma PopCodeUserHolds(s: State, tid: Id, code: Id)
    requires Enabled(s, PopCodeUser(tid))
    ensures HoldsLess(s, DoPopCodeUser(s, tid), code)
  {
    var t := s.threads[tid];
    var user := Lookup(s.codeUser, t.code, s.clock);
    GoHolds(s, tid, UserPopped(OfCode(t.code), t.client, user), code);
    var g := Go(s, tid, UserPopped(OfCode(t.code), t.client, user));
    assert forall x :: HeldBy(DoPopCodeUser(s, tid), x, code) ==> HeldBy(g, x, code);
  }

  lemma PopRefreshHolds(s: State, tid: Id, code: Id)
    requires Enabled(s, PopRefresh(tid))
    ensures HoldsLess(s, DoPopRefresh(s, tid), code)
  {
    var t := s.threads[tid];
    var found := Lookup(s.refresh, t.token, s.clock);
    var t' := UserPopped(OfRefresh(t.token), t.client, if found.Some? then found.value.user else None);
    GoHolds(s, tid, t', code);
    assert forall x :: HeldBy(DoPopRefresh(s, tid), x, code) ==> HeldBy(Go(s, tid, t'), x, code);
  }

  lemma TakeHolds(s: State, a: Action, code: Id)
    requires Enabled(s, a) && TakeStep(a)
    ensures HoldsLess(s, Apply(s, a), code)
  {
    match a
    case LoadCode(c, id) => LoadCodeHolds(s, c, id, code, Apply(s, a));
    case LoadRefresh(c, id) => LoadRefreshHolds(s, c, id, code, Apply(s, a));
    case LoadAccess(token) => LoadAccessHolds(s, token, code, Apply(s, a));
    case Expire(e) => ExpireHolds(s, e, code);
    case RevokeRefresh(_) =>
    case PopCode(t) => PopCodeHolds(s, t, code);
    case PopCodeUser(t) => PopCodeUserHolds(s, t, code);
    case PopRefresh(t) => PopRefreshHolds(s, t, code);
  }

  lemma CompletePopHolds(s: State, rid: Id, user: int, code: Id, s': State)
    requires s' == DoCompletePop(s, rid, user)
    ensures HoldsLess(s, s', code)
  {
    var p := s.(pending := s.pending - {rid});
    CompletePopShape(s, rid, user, p, s');
    if Lookup(s.pending, rid, s.clock).Some? {
      StartHolds(p, CompletePopped(rid, s.pending[rid].value, user), code);
    }
  }

  lemma CompleteCheckHolds(s: State, tid: Id, code: Id, s': State)
    requires Enabled(s, CompleteCheck(tid)) && s' == DoCompleteCheck(s, tid)
    ensures HoldsLess(s, s', code)
  {
    var t := s.threads[tid];
    CompleteCheckShape(s, tid, s');
    GoHolds(s, tid, CompleteChecked(t.rid, t.pending.client, t.login, s.clock), code);
  }

  lemma SaveCodeHolds(s: State, tid: Id, code: Id)
    requires Enabled(s, SaveCode(tid))
    ensures HoldsLess(s, DoSaveCode(s, tid), code)
  {
    var t := CodeSaved(s.next, s.threads[tid].login);
    GoHolds(s, tid, t, code);
    assert forall x :: HeldBy(DoSaveCode(s, tid), x, code) ==> HeldBy(Go(s, tid, t), x, code);
  }

  lemma LoginHolds(s: State, a: Action, code: Id)
    requires Enabled(s, a) && LoginStep(a)
    ensures HoldsLess(s, Apply(s, a), code)
  {
    match a
    case Tick(_) =>
    case Authorize(_) =>
    case CompletePop(rid, user) => CompletePopHolds(s, rid, user, code, Apply(s, a));
    case CompleteCheck(tid) => CompleteCheckHolds(s, tid, code, Apply(s, a));
    case SaveCode(tid) => SaveCodeHolds(s, tid, code);
    case SaveCodeUser(_) =>
  }

  predicate SaveStep(a: Action) {
    a.StoreKey? || a.SaveRefresh? || a.SaveAccess? || a.RevokeAccess? || a.DeleteKey? || a.DeleteKeyFails?
      || a.IssueKey?
  }

  lemma StoreKeyHolds(s: State, tid: Id, code: Id)
    requires Enabled(s, StoreKey(tid))
    ensures HoldsLess(s, DoStoreKey(s, tid), code)
  {
    var t := s.threads[tid];
    var t' := RefreshNext(t.source, t.client, t.user, t.now, t.access, t.refresh);
    GoHolds(s, tid, t', code);
    assert forall x :: HeldBy(DoStoreKey(s, tid), x, code) ==> HeldBy(Go(s, tid, t'), x, code);
  }

  lemma SaveRefreshHolds(s: State, tid: Id, code: Id)
    requires Enabled(s, SaveRefresh(tid))
    ensures HoldsLess(s, DoSaveRefresh(s, tid), code)
  {
    var t := s.threads[tid];
    var t' := AccessNext(t.source, t.client, t.user, t.now, t.access, t.refresh);
    GoHolds(s, tid, t', code);
    assert forall x :: HeldBy(DoSaveRefresh(s, tid), x, code) ==> HeldBy(Go(s, tid, t'), x, code);
  }

  lemma RevokeAccessHolds(s: State, token: Id, code: Id)
    ensures HoldsLess(s, DoRevokeAccess(s, token), code)
  {
    StartHolds(s.(access := s.access - {token}), Revoking(token), code);
  }

  lemma SaveHolds(s: State, a: Action, code: Id)
    requires Enabled(s, a) && SaveStep(a)
    ensures HoldsLess(s, Apply(s, a), code)
  {
    match a
    case StoreKey(t) => StoreKeyHolds(s, t, code);
    case SaveRefresh(t) => SaveRefreshHolds(s, t, code);
    case SaveAccess(_) =>
    case RevokeAccess(token) => RevokeAccessHolds(s, token, code);
    case DeleteKey(_) =>
    case DeleteKeyFails(_) =>
    case IssueKey(_, _) =>
  }

  lemma GenerateSealed(s: State, tid: Id, code: Id, holders: set<Id>, before: set<Id>)
    requires Enabled(s, Generate(tid)) && Sealed(s, code, holders, before)
    ensures Sealed(DoGenerate(s, tid), code, holders, before)
  {
    var s', t := DoGenerate(s, tid), s.threads[tid];
    assert t.source == OfCode(code) ==> HeldBy(s, tid, code);
    forall x | HeldBy(s', x, code) ensures x in holders {
      assert x != tid && HeldBy(s, x, code);
    }
    forall x | x in s'.log.sources && s'.log.sources[x] == OfCode(code)
      ensures x in before || (x in s'.log.minters && s'.log.minters[x] in holders)
    {
      if x != s.next && x != s.next + 1 {
        assert x in s.log.sources;
      }
    }
  }

  lemma StepKeepsSealed(s: State, a: Action, code: Id, holders: set<Id>, before: set<Id>)
    requires Enabled(s, a) && Sealed(s, code, holders, before)
    ensures Sealed(Apply(s, a), code, holders, before)
  {
    if LoginStep(a) {
      LoginHolds(s, a, code);
      HoldsLessSealed(s, Apply(s, a), code, holders, before);
    } else if TakeStep(a) {
      TakeHolds(s, a, code);
      HoldsLessSealed(s, Apply(s, a), code, holders, before);
    } else if SaveStep(a) {
      SaveHolds(s, a, code);
      HoldsLessSealed(s, Apply(s, a), code, holders, before);
    } else {
      GenerateSealed(s, a.tid, code, holders, before);
    }
  }

  lemma {:induction false} RunKeepsSealed(s: State, actions: seq<Action>, s': State, code: Id, holders: set<Id>,
                                          before: set<Id>)
    requires Runs(s, actions, s') && Sealed(s, code, holders, before)
    ensures Sealed(s', code, holders, before)
    decreases |actions|
  {
    if actions != [] {
      StepKeepsSealed(s, actions[0], code, holders, before);
      RunKeepsSealed(Apply(s, actions[0]), actions[1..], s', code, holders, before);
    }
  }

  // ---- whoever holds it can use it ----

  lemma UserPoppedMints(s: State, tid: Id, code: Id) returns (actions: seq<Action>, s': State)
    requires tid in s.threads && s.threads[tid].UserPopped? && s.threads[tid].source == OfCode(code)
    ensures Runs(s, actions, s') && s.next in s'.log.sources && s'.log.sources[s.next] == OfCode(code)
    ensures s.next in s'.log.minters && s'.log.minters[s.next] == tid
  {
    s' := DoGenerate(s, tid);
    assert Runs(s', [], s');
    RunsStep(s, Generate(tid), [], s');
    actions := [Generate(tid)] + [];
  }

  lemma CodePoppedMints(s: State, tid: Id, code: Id) returns (actions: seq<Action>, s': State)
    requires tid in s.threads && s.threads[tid].CodePopped? && s.threads[tid].code == code
    ensures Runs(s, actions, s') && s.next in s'.log.sources && s'.log.sources[s.next] == OfCode(code)
    ensures s.next in s'.log.minters && s'.log.minters[s.next] == tid
  {
    var u := DoPopCodeUser(s, tid);
    var rest, end := UserPoppedMints(u, tid, code);
    RunsStep(s, PopCodeUser(tid), rest, end);
    actions, s' := [PopCodeUser(tid)] + rest, end;
  }

  /** Any request that holds a code can go on to make tokens from it. */
  lemma HolderMints(s: State, tid: Id, code: Id) returns (actions: seq<Action>, s': State)
    requires HeldBy(s, tid, code)
    ensures Runs(s, actions, s') && s.next in s'.log.sources && s'.log.sources[s.next] == OfCode(code)
    ensures s.next in s'.log.minters && s'.log.minters[s.next] == tid
  {
    if s.threads[tid].UserPopped? {
      actions, s' := UserPoppedMints(s, tid, code);
    } else if s.threads[tid].CodePopped? {
      actions, s' := CodePoppedMints(s, tid, code);
    } else {
      var p := DoPopCode(s, tid);
      var rest, end := CodePoppedMints(p, tid, code);
      RunsStep(s, PopCode(tid), rest, end);
      actions, s' := [PopCode(tid)] + rest, end;
    }
  }

  lemma NextIsNew(s: State)
    requires Reachable(s)
    ensures s.next !in s.log.sources && s.next + 1 !in s.log.sources
  {
    var actions :| Runs(INIT, actions, s);
    RunKeepsProvenance(INIT, actions, s);
  }

  // ---- main results ----

  ghost predicate CanMint(s: State, code: Id) {
    exists actions, s', token :: Runs(s, actions, s') && NewToken(s, s', code, token)
  }

  lemma AcceptedRuns(s: State, client: Client, code: Id) returns (actions: seq<Action>, s': State)
    requires AcceptsCode(s, client, code)
    ensures Runs(s, actions, s') && s.next + 1 in s'.log.sources && s'.log.sources[s.next + 1] == OfCode(code)
  {
    var b := Start(s, CodeLoaded(client, code));
    LoadCodeShape(s, client, code, DoLoadCode(s, client, code));
    var rest, end := HolderMints(b, s.next, code);
    RunsStep(s, LoadCode(client, code), rest, end);
    actions, s' := [LoadCode(client, code)] + rest, end;
  }

  lemma AcceptableMints(s: State, client: Client, code: Id)
    requires Reachable(s) && AcceptsCode(s, client, code)
    ensures CanMint(s, code)
  {
    NextIsNew(s);
    var actions, s' := AcceptedRuns(s, client, code);
    assert NewToken(s, s', code, s.next + 1);
  }

  /** A further token can come out of a code exactly when some client can still load it or some request holds
      it: in every reachable state, counting every continuation. */
  lemma FurtherTokenExactly(s: State, code: Id)
    requires Reachable(s) && code < s.next
    ensures CanMint(s, code) <==> Acceptable(s, code) || Held(s, code)
  {
    if client :| AcceptsCode(s, client, code) {
      AcceptableMints(s, client, code);
    }
    if tid :| HeldBy(s, tid, code) {
      NextIsNew(s);
      var actions, s' := HolderMints(s, tid, code);
      assert NewToken(s, s', code, s.next);
    }
    if !Acceptable(s, code) && !Held(s, code) {
      AcceptableIsUsable(s, code);
      forall actions, s', token | Runs(s, actions, s') ensures !NewToken(s, s', code, token) {
        RunKeepsSealed(s, actions, s', code, {}, s.log.sources.Keys);
      }
    }
  }

  ghost predicate OthersCanMint(s: State, code: Id, tid: Id) {
    exists actions, s', token :: Runs(s, actions, s') && NewToken(s, s', code, token)
      && token in s'.log.minters && s'.log.minters[token] != tid
  }

  lemma PopSeals(s: State, tid: Id, client: Client, code: Id, s1: State)
    requires code < s.next && tid in s.threads && s.threads[tid] == CodeLoaded(client, code) && s1 == DoPopCode(s, tid)
    requires forall x :: HeldBy(s, x, code) ==> x == tid
    ensures Sealed(s1, code, {tid}, s1.log.sources.Keys)
  {
    forall x | HeldBy(s1, x, code) ensures x == tid {
      if x != tid {
        assert HeldBy(s, x, code);
      }
    }
  }

  lemma OtherMints(s: State, tid: Id, x: Id, code: Id)
    requires Reachable(s) && x != tid && HeldBy(s, x, code)
    ensures OthersCanMint(s, code, tid)
  {
    NextIsNew(s);
    var actions, s' := HolderMints(s, x, code);
    assert NewToken(s, s', code, s.next);
  }

  lemma KnownCode(s: State, tid: Id, client: Client, code: Id)
    requires Reachable(s) && tid in s.threads && s.threads[tid] == CodeLoaded(client, code)
    ensures code < s.next
  {
    var actions :| Runs(INIT, actions, s);
    RunKeepsProvenance(INIT, actions, s);
    assert ThreadOk(s.log, s.next, s.clock, tid, s.threads[tid]);
  }

  /** A code is single-use exactly when no second request holds it as the first one pops it: then, and only
      then, can nobody but the first ever make tokens from it. */
  lemma SingleUseExactly(s: State, tid: Id, client: Client, code: Id, s1: State)
    requires Reachable(s) && tid in s.threads && s.threads[tid] == CodeLoaded(client, code) && s1 == DoPopCode(s, tid)
    ensures OthersCanMint(s1, code, tid) <==> exists x :: x != tid && HeldBy(s, x, code)
  {
    KnownCode(s, tid, client, code);
    if x :| x != tid && HeldBy(s, x, code) {
      assert Runs(s1, [], s1);
      RunsStep(s, PopCode(tid), [], s1);
      StillReachable(s, [PopCode(tid)] + [], s1);
      assert HeldBy(s1, x, code);
      OtherMints(s1, tid, x, code);
    } else {
      PopSeals(s, tid, client, code, s1);
      forall actions, s', token | Runs(s1, actions, s') && NewToken(s1, s', code, token)
        ensures token in s'.log.minters && s'.log.minters[token] == tid
      {
        RunKeepsSealed(s1, actions, s', code, {tid}, s1.log.sources.Keys);
      }
    }
  }
}
