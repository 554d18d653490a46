/** How old a cached answer can be when nothing at all is assumed of the flushes: toggles and deletions do not
    flush (app/services/versioned_rules.py, app/services/admin_rules_service.py), Redis may lose a flush, and
    readers race with writers. Only the 300 second lifetime of an entry (app/services/rule_cache.py) helps. */
module RuleStaleness {
  import opened Text
  import opened VersionedRules
  import opened RuleHistory
  import opened CacheKeys
  import opened RuleQueries
  import opened RuleCache

  // ---- which tables there were at which moment ----

  predicate InEpoch(e: Epoch, t: real, db: Db) {
    e.from <= t <= e.to && e.db == db
  }

  /** At time `t` the tables were `db`. */
  ghost predicate CurrentAt(s: State, t: real, db: Db) {
    || (s.since <= t <= s.now && s.db == db)
    || exists i :: 0 <= i < |s.past| && InEpoch(s.past[i], t, db)
  }

  /** At time `t` the answer to `q` was `value`. */
  ghost predicate WasServed(s: State, t: real, q: Request, value: Selection) {
    exists db :: CurrentAt(s, t, db) && Current(db, q, value)
  }

  ghost predicate Ascending(moments: seq<real>) {
    forall i, j :: 0 <= i <= j < |moments| ==> moments[i] <= moments[j]
  }

  ghost predicate AllCurrent(s: State, seen: seq<Db>, moments: seq<real>)
    requires |seen| == |moments|
  {
    forall i :: 0 <= i < |seen| ==> CurrentAt(s, moments[i], seen[i])
  }

  /** The i-th statement ran at `moments[i]` on the tables of that moment, `seen[i]`. */
  ghost predicate Sighted(s: State, seen: seq<Db>, moments: seq<real>) {
    |seen| == |moments| && AllCurrent(s, seen, moments) && Ascending(moments)
  }

  ghost predicate NoneAfter(moments: seq<real>, t: real) {
    forall i :: 0 <= i < |moments| ==> moments[i] <= t
  }

  ghost predicate ReadingHonest(s: State, r: Reading) {
    r.key == Key(r.request) && Sighted(s, r.seen, r.moments) && NoneAfter(r.moments, s.now)
  }

  ghost predicate EntryHonest(s: State, key: string, e: Entry) {
    && key == Key(e.request) && e.stored <= s.now && NoneAfter(e.moments, e.stored)
    && |e.seen| == Statements(e.request) && Sighted(s, e.seen, e.moments)
    && e.value == Laid(AppKey(e.request.name), Gathered(AppKey(e.request.name), e.request.origin, e.seen))
  }

  ghost predicate Honest(s: State) {
    && s.since <= s.now
    && (forall tid :: tid in s.pending ==> ReadingHonest(s, s.pending[tid]))
    && (forall k :: k in s.cache ==> EntryHonest(s, k, s.cache[k]))
  }

  /** What the tables once were stays so in the record, whatever the step. */
  lemma CurrentStays(s: State, a: Action, s': State, t: real, db: Db)
    requires Enabled(s, a) && s' == Apply(s, a) && CurrentAt(s, t, db)
    ensures CurrentAt(s', t, db)
  {
    if a.Commit? || a.Change? {
      PastGrows(s, s', t, db);
    }
  }

  lemma PastGrows(s: State, s': State, t: real, db: Db)
    requires CurrentAt(s, t, db) && s'.past == s.past + [Epoch(s.since, s.now, s.db)]
    ensures CurrentAt(s', t, db)
  {
    if s.since <= t <= s.now && s.db == db {
      assert InEpoch(s'.past[|s.past|], t, db);
    } else {
      var i :| 0 <= i < |s.past| && InEpoch(s.past[i], t, db);
      assert InEpoch(s'.past[i], t, db);
    }
  }

  lemma SightedStays(s: State, a: Action, s': State, seen: seq<Db>, moments: seq<real>)
    requires Enabled(s, a) && s' == Apply(s, a) && Sighted(s, seen, moments)
    ensures Sighted(s', seen, moments)
  {
    forall i | 0 <= i < |seen| ensures CurrentAt(s', moments[i], seen[i]) {
      CurrentStays(s, a, s', moments[i], seen[i]);
    }
  }

  lemma ClockGrows(s: State, a: Action, s': State)
    requires Enabled(s, a) && s' == Apply(s, a) && s.since <= s.now
    ensures s.now <= s'.now && s'.since <= s'.now
  {
  }

  lemma ReadingStays(s: State, a: Action, s': State, r: Reading)
    requires Enabled(s, a) && s' == Apply(s, a) && ReadingHonest(s, r) && s.since <= s.now
    ensures ReadingHonest(s', r)
  {
    SightedStays(s, a, s', r.seen, r.moments);
    ClockGrows(s, a, s');
  }

  lemma EntryStays(s: State, a: Action, s': State, key: string, e: Entry)
    requires Enabled(s, a) && s' == Apply(s, a) && EntryHonest(s, key, e) && s.since <= s.now
    ensures EntryHonest(s', key, e)
  {
    SightedStays(s, a, s', e.seen, e.moments);
    ClockGrows(s, a, s');
  }

  lemma AllCurrentNext(s: State, seen: seq<Db>, moments: seq<real>)
    requires |seen| == |moments| && AllCurrent(s, seen, moments) && s.since <= s.now
    ensures AllCurrent(s, seen + [s.db], moments + [s.now])
  {
    var seen', moments' := seen + [s.db], moments + [s.now];
    forall i | 0 <= i < |seen'| ensures CurrentAt(s, moments'[i], seen'[i]) {
      if i < |seen| {
        assert CurrentAt(s, moments[i], seen[i]);
      }
    }
  }

  lemma AscendingNext(moments: seq<real>, t: real)
    requires Ascending(moments) && NoneAfter(moments, t)
    ensures Ascending(moments + [t]) && NoneAfter(moments + [t], t)
  {
  }

  lemma AskedHonest(s: State, r: Reading)
    requires ReadingHonest(s, r) && s.since <= s.now
    ensures ReadingHonest(s, Asked(r, s.db, s.now))
  {
    AllCurrentNext(s, r.seen, r.moments);
    AscendingNext(r.moments, s.now);
  }

  lemma MarkedHonest(s: State, r: Reading, db: Db)
    requires ReadingHonest(s, r)
    ensures ReadingHonest(s, Overtake(r, db))
  {
  }

  /** A read in flight after a step: new, one statement further, marked, or as it was. */
  lemma PendingAfter(s: State, a: Action, s': State, tid: nat)
    requires Enabled(s, a) && s' == Apply(s, a) && tid in s'.pending
    ensures || (a.Read? && tid == a.tid && s'.pending[tid] == Begun(a.request))
      || (tid in s.pending && s'.pending[tid] == s.pending[tid])
      || (tid in s.pending && s'.pending[tid] == Overtake(s.pending[tid], s'.db))
      || (tid in s.pending && s'.pending[tid] == Asked(s.pending[tid], s.db, s.now) && a.Query?)
  {
  }

  lemma PendingHonest(s: State, a: Action, s': State, tid: nat)
    requires Enabled(s, a) && s' == Apply(s, a) && tid in s'.pending && s.since <= s.now
    requires tid in s.pending ==> ReadingHonest(s, s.pending[tid])
    ensures ReadingHonest(s', s'.pending[tid])
  {
    PendingAfter(s, a, s', tid);
    if tid in s.pending {
      var r := s.pending[tid];
      AskedHonest(s, r);
      ReadingStays(s, a, s', r);
      ReadingStays(s, a, s', Asked(r, s.db, s.now));
      MarkedHonest(s', r, s'.db);
    }
  }

  /** An entry after a step: just stored, or as it was. */
  lemma CacheAfter(s: State, a: Action, s': State, k: string)
    requires Enabled(s, a) && s' == Apply(s, a) && k in s'.cache
    ensures || (k in s.cache && s'.cache[k] == s.cache[k])
      || (a.Store? && k == s.pending[a.tid].key && s'.cache[k] == Stored(s.pending[a.tid], s.now))
  {
  }

  lemma StoredHonest(s: State, r: Reading)
    requires ReadingHonest(s, r) && Complete(r)
    ensures EntryHonest(s, r.key, Stored(r, s.now))
  {
  }

  lemma CacheHonest(s: State, a: Action, s': State, k: string)
    requires Honest(s) && Enabled(s, a) && s' == Apply(s, a) && k in s'.cache
    ensures EntryHonest(s', k, s'.cache[k])
  {
    CacheAfter(s, a, s', k);
    if k in s.cache && s'.cache[k] == s.cache[k] {
      EntryStays(s, a, s', k, s.cache[k]);
    } else {
      StoredHonest(s, s.pending[a.tid]);
      EntryStays(s, a, s', k, s'.cache[k]);
    }
  }

  lemma StepKept(s: State, a: Action, s': State)
    requires Honest(s) && Enabled(s, a) && s' == Apply(s, a)
    ensures Honest(s')
  {
    ClockGrows(s, a, s');
    forall tid | tid in s'.pending ensures ReadingHonest(s', s'.pending[tid]) {
      PendingHonest(s, a, s', tid);
    }
    forall k | k in s'.cache ensures EntryHonest(s', k, s'.cache[k]) {
      CacheHonest(s, a, s', k);
    }
  }

  lemma {:induction false} RunKept(s: State, actions: seq<Action>, s': State)
    requires Honest(s) && Runs(s, actions, s')
    ensures Honest(s')
    decreases |actions|
  {
    if actions != [] {
      var a, m := RunsFirst(s, actions, s');
      StepKept(s, a, m);
      RunKept(m, actions[1..], s');
    }
  }

  // ---- how old a hit can be ----

  lemma {:induction false} GatheredByOrigin(key: string, u: string, w: string, seen: seq<Db>)
    requires key == "" || Trim(u) == Trim(w)
    requires key == "" ==> |seen| <= 1
    ensures Gathered(key, u, seen) == Gathered(key, w, seen)
  {
    if seen != [] {
      GatheredByOrigin(key, u, w, seen[..|seen| - 1]);
      AskByOrigin(seen[|seen| - 1], key, u, w, |seen| - 1, Gathered(key, u, seen[..|seen| - 1]));
    }
  }

  lemma AskByOrigin(db: Db, key: string, u: string, w: string, n: nat, a: Answers)
    requires n == 0 || Trim(u) == Trim(w)
    ensures Ask(db, key, u, n, a) == Ask(db, key, w, n, a)
  {
    if n == 1 {
      assert ResolveRepo(db.repos, u) == ResolveRepo(db.repos, w);
    }
  }

  lemma SameKeySameRead(q: Request, r: Request, seen: seq<Db>)
    requires Plain(q) && Plain(r) && Key(q) == Key(r) && |seen| == Statements(r)
    ensures AppKey(q.name) == AppKey(r.name)
    ensures Gathered(AppKey(q.name), q.origin, seen) == Gathered(AppKey(r.name), r.origin, seen)
  {
    SharedKeyExactly(q, r);
    GatheredByOrigin(AppKey(q.name), q.origin, r.origin, seen);
  }

  /** Nothing older than the lifetime of an entry and the duration of the read that stored it. */
  predicate Recent(now: real, stored: real, moments: seq<real>) {
    forall i :: 0 <= i < |moments| ==> now - TTL - (stored - moments[0]) <= moments[i] <= now
  }

  lemma RecentEntry(now: real, stored: real, moments: seq<real>)
    requires Ascending(moments) && NoneAfter(moments, stored) && stored <= now <= stored + TTL
    ensures Recent(now, stored, moments)
  {
  }

  lemma HonestHit(s: State, q: Request, e: Entry)
    requires EntryHonest(s, Key(q), e) && Plain(q) && Plain(e.request)
    ensures |e.seen| == Statements(q)
    ensures e.value == Laid(AppKey(q.name), Gathered(AppKey(q.name), q.origin, e.seen))
  {
    SameKeySameRead(q, e.request, e.seen);
  }

  /** Bounded staleness, over every run: each part of a hit is what its statement truly found at a moment no
      longer ago than 300 seconds plus the duration of the storing read, from its first statement to the
      store. */
  lemma HitsAreRecent(db: Db, now: real, actions: seq<Action>, s: State, q: Request, e: Entry)
    requires Runs(Start(db, now), actions, s)
    requires Hit(s, q).Some? && e == s.cache[Key(q)] && Plain(q) && Plain(e.request)
    ensures |e.seen| == Statements(q) && Sighted(s, e.seen, e.moments)
    ensures Hit(s, q).value == Laid(AppKey(q.name), Gathered(AppKey(q.name), q.origin, e.seen))
    ensures Recent(s.now, e.stored, e.moments)
  {
    RunKept(Start(db, now), actions, s);
    assert EntryHonest(s, Key(q), e);
    HonestHit(s, q, e);
    RecentEntry(s.now, e.stored, e.moments);
  }

  /** The parts are those of one set of tables exactly when none of the statements would have got another
      answer from it; and then the hit was the whole true answer whenever the tables were those. */
  lemma HitsAreWhole(db: Db, now: real, actions: seq<Action>, s: State, q: Request, e: Entry, key: string, tables: Db,
                     t: real)
    requires Runs(Start(db, now), actions, s)
    requires Hit(s, q).Some? && e == s.cache[Key(q)] && Plain(q) && Plain(e.request) && key == AppKey(q.name)
    requires CurrentAt(s, t, tables)
    ensures |e.seen| == Queries(key)
    ensures Gathered(key, q.origin, e.seen) == Gathered(key, q.origin, Copies(tables, |e.seen|))
      <==> forall i :: 0 <= i < |e.seen| ==> Unaltered(key, q.origin, e.seen, tables, i)
    ensures (forall i :: 0 <= i < |e.seen| ==> Unaltered(key, q.origin, e.seen, tables, i))
      ==> WasServed(s, t, q, Hit(s, q).value)
  {
    HitsAreRecent(db, now, actions, s, q, e);
    OneMomentExactly(key, q.origin, e.seen, tables);
    UndisturbedIsSelect(tables, key, q.origin);
  }

  lemma LastUnaltered(key: string, url: string, seen: seq<Db>, last: nat)
    requires |seen| == last + 1 && forall i :: 0 <= i < last ==> Unaltered(key, url, seen, seen[last], i)
    ensures forall i :: 0 <= i < |seen| ==> Unaltered(key, url, seen, seen[last], i)
  {
    forall i | 0 <= i < |seen| ensures Unaltered(key, url, seen, seen[last], i) {
      if i == last {
        SelfUnaltered(key, url, seen, last);
      }
    }
  }

  lemma SelfUnaltered(key: string, url: string, seen: seq<Db>, i: nat)
    requires i < |seen|
    ensures Unaltered(key, url, seen, seen[i], i)
  {
  }

  /** So, if nothing that a read had found changed before its last statement, its hit was the whole true
      answer at that statement's moment. */
  lemma UndisturbedHitsAreWhole(db: Db, now: real, actions: seq<Action>, s: State, q: Request, e: Entry, key: string,
                                last: nat)
    requires Runs(Start(db, now), actions, s)
    requires Hit(s, q).Some? && e == s.cache[Key(q)] && Plain(q) && Plain(e.request) && key == AppKey(q.name)
    requires |e.seen| == last + 1
    requires forall i :: 0 <= i < last ==> Unaltered(key, q.origin, e.seen, e.seen[last], i)
    ensures |e.moments| == |e.seen| && WasServed(s, e.moments[last], q, Hit(s, q).value)
  {
    HitsAreRecent(db, now, actions, s, q, e);
    LastUnaltered(key, q.origin, e.seen, last);
    HitsAreWhole(db, now, actions, s, q, e, key, e.seen[last], e.moments[last]);
  }

  // ---- a torn read ----

  lemma AppPartIsOld(db: Db, key: string, r: Row)
    requires r in AppRows(db, key).0
    ensures r in db.apps
  {
    if r in Sections(db.apps, key) {
      SectionsInTable(db.apps, key, r);
    } else {
      SectionsInTable(db.apps, DEFAULT_APP, r);
    }
  }

  /** Global rows from before two publishes, the rest from after. */
  function TornSeen(db: Db, db2: Db): seq<Db> {
    [db] + Copies(db2, 11)
  }

  lemma TornParts(db: Db, db2: Db, key: string, url: string, r: Row)
    requires key != "" && r in Sections(db2.apps, key)
    ensures var v := Laid(key, Gathered(key, url, TornSeen(db, db2)));
      v.global == Sections(db.globals, "") && r in v.app
  {
    var seen := TornSeen(db, db2);
    var a := Gathered(key, url, seen);
    GlobalAnswer(key, url, seen, a);
    AppAnswers(key, url, seen, a);
    assert seen[10] == db2;
  }

  /** Such a mixture is none of the three true answers. */
  lemma TornIsFalse(db: Db, q: Request, b1: string, sec1: string, b2: string, sec2: string, db1: Db, db2: Db,
                    v: Selection)
    requires AppKey(q.name) != ""
    requires Committed(db, OnGlobal(b1, sec1)) == Some(db1) && Committed(db1, OnApp(q.name, b2, sec2)) == Some(db2)
    requires v == Laid(AppKey(q.name), Gathered(AppKey(q.name), q.origin, TornSeen(db, db2)))
    ensures v != Served(db, q) && v != Served(db1, q) && v != Served(db2, q)
  {
    var key := AppKey(q.name);
    var g := Row("", sec1, NextVersion(db.globals, "", sec1), b1, 0);
    var r := Row(key, SectionName(sec2), NextVersion(db.apps, key, SectionName(sec2)), b2, 0);
    PublishedIsServed(db.globals, "", sec1, b1, 0, g);
    PublishedIsServed(db.apps, key, SectionName(sec2), b2, 0, r);
    TornParts(db, db2, key, q.origin, r);
    if r in Served(db, q).app {
      AppPartIsOld(db, key, r);
    }
    if r in Served(db1, q).app {
      AppPartIsOld(db1, key, r);
    }
    if g in v.global {
      SectionsInTable(db.globals, "", g);
    }
  }

  lemma PublishRuns(s: State, tid: nat, op: Op, s1: State, s2: State)
    requires Enabled(s, Commit(tid, op)) && s1 == Apply(s, Commit(tid, op))
    requires Enabled(s1, Flush(tid)) && s2 == Apply(s1, Flush(tid))
    ensures Runs(s, [Commit(tid, op), Flush(tid)], s2)
  {
    assert Runs(s2, [], s2);
    RunsStep(s1, Flush(tid), [], s2);
    RunsStep(s, Commit(tid, op), [Flush(tid)], s2);
  }

  /** The steps of a read around two publishes. */
  function TornActions(q: Request, op1: Op, op2: Op): seq<Action> {
    [Read(0, q), Query(0)] + ([Commit(1, op1), Flush(1)] + ([Commit(2, op2), Flush(2)] + (Queried(0, 11) + [Store(0)])))
  }

  /** A read has found the global rows, and a publish goes through. */
  lemma PublishedAround(s: State, tid: nat, op: Op, db: Db) returns (s1: State, s2: State)
    requires 0 in s.pending && tid !in s.flushes && Committed(s.db, op) == Some(db) && s.cache == map[]
    ensures Enabled(s, Commit(tid, op)) && s1 == Apply(s, Commit(tid, op))
    ensures Enabled(s1, Flush(tid)) && s2 == Apply(s1, Flush(tid))
    ensures Runs(s, [Commit(tid, op), Flush(tid)], s2)
    ensures 0 in s2.pending && s2.pending[0].seen == s.pending[0].seen && s2.pending[0].request == s.pending[0].request
    ensures s2.pending[0].key == s.pending[0].key
    ensures s2.db == db && s2.flushes == s.flushes && s2.now == s.now && s2.since == s.now && s2.cache == map[]
    ensures s2.past == s.past + [Epoch(s.since, s.now, s.db)]
  {
    s1 := Apply(s, Commit(tid, op));
    s2 := Apply(s1, Flush(tid));
    PublishRuns(s, tid, op, s1, s2);
    AfterPublish(s, 0, tid, op, s1, s2);
  }

  /** A read that has run its first statement. */
  lemma FirstQuery(db: Db, now: real, q: Request) returns (s1: State)
    requires Cacheable(q)
    ensures Runs(Start(db, now), [Read(0, q), Query(0)], s1)
    ensures 0 in s1.pending && s1.pending[0].seen == [db] && s1.pending[0].request == q && s1.pending[0].key == Key(q)
    ensures s1.db == db && s1.flushes == map[] && s1.now == s1.since == now && s1.cache == map[] && s1.past == []
  {
    var s := Start(db, now);
    var begun := Apply(s, Read(0, q));
    s1 := Apply(begun, Query(0));
    assert Runs(s1, [], s1);
    RunsStep(begun, Query(0), [], s1);
    RunsStep(s, Read(0, q), [Query(0)], s1);
  }

  /** A read that has seen one set of tables runs its other eleven statements and stores. */
  lemma LastQueries(s: State, q: Request, db: Db) returns (end: State)
    requires 0 in s.pending && s.pending[0].seen == [db] && s.pending[0].request == q && s.pending[0].key == Key(q)
    requires AppKey(q.name) != "" && Cacheable(q)
    ensures Runs(s, Queried(0, 11) + [Store(0)], end)
    ensures Hit(end, q) == Some(Laid(AppKey(q.name), Gathered(AppKey(q.name), q.origin, TornSeen(db, s.db))))
    ensures end.flushes == s.flushes && end.past == s.past && end.db == s.db
  {
    var r := AskedTimes(s.pending[0], s.db, s.now, 11);
    var m := s.(pending := s.pending[0 := r]);
    QueriedRuns(s, 0, 11, m);
    end := Apply(m, Store(0));
    StoreRuns(s, Queried(0, 11), m, 0, end);
    AfterStore(m, 0, r, q, end);
  }

  lemma StoreRuns(s: State, actions: seq<Action>, m: State, tid: nat, end: State)
    requires Runs(s, actions, m) && Enabled(m, Store(tid)) && end == Apply(m, Store(tid))
    ensures Runs(s, actions + [Store(tid)], end)
  {
    assert Runs(end, [], end);
    RunsStep(m, Store(tid), [], end);
    RunsConcat(s, actions, m, [Store(tid)], end);
  }

  lemma NeverServed(s: State, q: Request, v: Selection, a: Epoch, b: Epoch)
    requires s.past == [a, b] && v != Served(a.db, q) && v != Served(b.db, q) && v != Served(s.db, q)
    ensures forall t :: !WasServed(s, t, q, v)
  {
    forall t ensures !WasServed(s, t, q, v) {
      if db :| CurrentAt(s, t, db) && Current(db, q, v) {
        if s.db != db {
          var i :| 0 <= i < |s.past| && InEpoch(s.past[i], t, db);
          assert i == 0 || i == 1;
        }
      }
    }
  }

  lemma TwoPublishes(s: State, op1: Op, op2: Op, db1: Db, db2: Db) returns (p1: State, p2: State)
    requires 0 in s.pending && s.flushes == map[] && s.cache == map[] && s.past == [] && s.now == s.since
    requires Committed(s.db, op1) == Some(db1) && Committed(db1, op2) == Some(db2)
    ensures Runs(s, [Commit(1, op1), Flush(1)], p1) && Runs(p1, [Commit(2, op2), Flush(2)], p2)
    ensures 0 in p2.pending && p2.pending[0].seen == s.pending[0].seen && p2.pending[0].request == s.pending[0].request
    ensures p2.pending[0].key == s.pending[0].key
    ensures p2.db == db2 && p2.flushes == map[] && p2.past == [Epoch(s.now, s.now, s.db), Epoch(s.now, s.now, db1)]
  {
    var x1, y1 := PublishedAround(s, 1, op1, db1);
    var x2, y2 := PublishedAround(y1, 2, op2, db2);
    p1, p2 := y1, y2;
  }

  lemma TornSteps(db: Db, now: real, q: Request, op1: Op, op2: Op, db1: Db, db2: Db) returns (end: State)
    requires Cacheable(q) && AppKey(q.name) != ""
    requires Committed(db, op1) == Some(db1) && Committed(db1, op2) == Some(db2)
    ensures Runs(Start(db, now), TornActions(q, op1, op2), end)
    ensures Hit(end, q) == Some(Laid(AppKey(q.name), Gathered(AppKey(q.name), q.origin, TornSeen(db, db2))))
    ensures end.flushes == map[] && end.db == db2 && end.past == [Epoch(now, now, db), Epoch(now, now, db1)]
  {
    var s1 := FirstQuery(db, now, q);
    var p1, p2 := TwoPublishes(s1, op1, op2, db1, db2);
    end := LastQueries(p2, q, db);
    TornRuns(Start(db, now), s1, p1, p2, end, q, op1, op2);
  }

  /** The condition is needed. For every store of rules and every app: a global and an app rule published
      after a read has found the global rows, and before it finds the app's, leave an answer in the cache that
      was never true, with nothing pending that would remove it. */
  lemma TornRead(db: Db, now: real, q: Request, b1: string, sec1: string, b2: string, sec2: string) returns (end: State)
    requires Cacheable(q) && AppKey(q.name) != ""
    ensures Runs(Start(db, now), TornActions(q, OnGlobal(b1, sec1), OnApp(q.name, b2, sec2)), end)
    ensures Hit(end, q).Some? && end.flushes == map[]
    ensures forall t :: !WasServed(end, t, q, Hit(end, q).value)
  {
    var op1, op2 := OnGlobal(b1, sec1), OnApp(q.name, b2, sec2);
    var db1 := Committed(db, op1).value;
    var db2 := Committed(db1, op2).value;
    end := TornSteps(db, now, q, op1, op2, db1, db2);
    TornIsFalse(db, q, b1, sec1, b2, sec2, db1, db2, Hit(end, q).value);
    NeverServed(end, q, Hit(end, q).value, Epoch(now, now, db), Epoch(now, now, db1));
  }

  lemma TornRuns(s: State, s1: State, p1: State, p2: State, end: State, q: Request, op1: Op, op2: Op)
    requires Runs(s, [Read(0, q), Query(0)], s1) && Runs(s1, [Commit(1, op1), Flush(1)], p1)
    requires Runs(p1, [Commit(2, op2), Flush(2)], p2) && Runs(p2, Queried(0, 11) + [Store(0)], end)
    ensures Runs(s, TornActions(q, op1, op2), end)
  {
    var last := Queried(0, 11) + [Store(0)];
    RunsConcat(p1, [Commit(2, op2), Flush(2)], p2, last, end);
    RunsConcat(s1, [Commit(1, op1), Flush(1)], p1, [Commit(2, op2), Flush(2)] + last, end);
    RunsConcat(s, [Read(0, q), Query(0)], s1, [Commit(1, op1), Flush(1)] + ([Commit(2, op2), Flush(2)] + last), end);
  }

  // ---- changes without a flush ----

  /** A run in which nobody publishes, changes the tables, or touches the entry of the key. */
  ghost predicate Idle(s: State, actions: seq<Action>, key: string)
    decreases |actions|
  {
    actions != [] ==>
      !actions[0].Commit? && !actions[0].Change? && Enabled(s, actions[0]) && LeavesKey(s, actions[0], key)
      && Idle(Apply(s, actions[0]), actions[1..], key)
  }

  lemma IdleStep(s: State, a: Action, s': State, key: string)
    requires Enabled(s, a) && s' == Apply(s, a) && !a.Commit? && !a.Change? && LeavesKey(s, a, key) && key in s.cache
    ensures key in s'.cache && s'.cache[key] == s.cache[key] && s'.db == s.db
  {
  }

  lemma {:induction false} IdleKeeps(s: State, actions: seq<Action>, s': State, key: string)
    requires Runs(s, actions, s') && Idle(s, actions, key) && key in s.cache
    ensures key in s'.cache && s'.cache[key] == s.cache[key] && s'.db == s.db
    decreases |actions|
  {
    if actions != [] {
      var a, m := RunsFirst(s, actions, s');
      IdleStep(s, a, m, key);
      IdleKeeps(m, actions[1..], s', key);
    }
  }

  /** A toggle or a deletion under a correct entry: the old answer goes on being served for the rest of the
      entry's 300 seconds, exactly, whatever else happens that leaves tables and entry alone; and what is
      served is right exactly when the change did not alter this answer. */
  lemma SilentChangeServesOld(s: State, db: Db, actions: seq<Action>, s': State, q: Request, e: Entry)
    requires Hit(s, q) == Some(Served(s.db, q)) && e == s.cache[Key(q)]
    requires Runs(s, [Change(db)] + actions, s') && Idle(Apply(s, Change(db)), actions, Key(q))
    ensures Hit(s', q) == if s'.now <= e.stored + TTL then Some(Served(s.db, q)) else None
    ensures Hit(s', q) == Some(Served(s'.db, q)) <==> s'.now <= e.stored + TTL && Served(db, q) == Served(s.db, q)
  {
    var all := [Change(db)] + actions;
    var a, m := RunsFirst(s, all, s');
    assert all[1..] == actions;
    IdleKeeps(m, actions, s', Key(q));
  }

  /** Two stores of rules that differ in their settings only. */
  predicate SameRows(db: Db, db': Db) {
    db'.globals == db.globals && db'.apps == db.apps && db'.repos == db.repos
  }

  /** The settings that are in force for an app and the pattern chosen for it. */
  function InForce(db: Db, key: string, url: string): (bool, bool) {
    (IncludeApp(db, key), IncludeRepo(db, Chosen(ResolveRepo(db.repos, url))))
  }

  /** Whatever the settings become, an app's answer is altered exactly when one of the two settings in force
      for it is. */
  lemma SettingsAlterExactly(db: Db, db': Db, q: Request)
    requires SameRows(db, db') && AppKey(q.name) != ""
    ensures Served(db', q) == Served(db, q)
      <==> InForce(db', AppKey(q.name), q.origin) == InForce(db, AppKey(q.name), q.origin)
  {
    RepoSetting(db, db', q.origin);
    AppSetting(db, db', AppKey(q.name));
  }

  lemma RepoSetting(db: Db, db': Db, url: string)
    requires db'.repos == db.repos
    ensures RepoRows(db', url) == RepoRows(db, url) <==>
      IncludeRepo(db', Chosen(ResolveRepo(db.repos, url))) == IncludeRepo(db, Chosen(ResolveRepo(db.repos, url)))
    ensures RepoRows(db', url) == RepoRows(db, url) || RepoRows(db', url).2 != RepoRows(db, url).2
  {
  }

  lemma AppSetting(db: Db, db': Db, key: string)
    requires db'.apps == db.apps
    ensures AppRows(db', key) == AppRows(db, key) <==> IncludeApp(db', key) == IncludeApp(db, key)
    ensures AppRows(db', key) == AppRows(db, key) || AppRows(db', key).2 != AppRows(db, key).2
  {
  }

  /** An app's toggle alters the app's answers exactly when it changes the setting in force. */
  lemma ToggleAltersExactly(db: Db, q: Request, value: bool)
    requires AppKey(q.name) != "" && AppKey(q.name) != DEFAULT_APP
    ensures Served(SetAppOption(db, AppKey(q.name), value), q) == Served(db, q)
      <==> IncludeApp(db, AppKey(q.name)) == value
  {
    SettingsAlterExactly(db, SetAppOption(db, AppKey(q.name), value), q);
  }

  /** And it alters no other app's. */
  lemma ToggleIsLocal(db: Db, key: string, value: bool, q: Request)
    requires AppKey(q.name) != key
    ensures Served(SetAppOption(db, key, value), q) == Served(db, q)
  {
    if AppKey(q.name) != "" {
      SettingsAlterExactly(db, SetAppOption(db, key, value), q);
    }
  }

  /** A pattern's toggle alters an app's answer exactly when the pattern is the one chosen for the origin, and
      the setting in force changes. */
  lemma PatternToggleAltersExactly(db: Db, q: Request, pattern: string, value: bool)
    requires AppKey(q.name) != ""
    ensures var chosen := Chosen(ResolveRepo(db.repos, q.origin));
      Served(SetRepoOption(db, pattern, value), q) == Served(db, q) <==>
        pattern != chosen || IncludeRepo(db, chosen) == value
  {
    SettingsAlterExactly(db, SetRepoOption(db, pattern, value), q);
  }

  /** A toggle of the fallback settings alters an app's answer exactly when one that has no row of its own to
      overrule it changes. */
  lemma DefaultToggleAltersExactly(db: Db, q: Request, value: Defaults)
    requires AppKey(q.name) != ""
    ensures var key, chosen := AppKey(q.name), Chosen(ResolveRepo(db.repos, q.origin));
      Served(SetDefaults(db, value), q) == Served(db, q) <==>
        && (key == DEFAULT_APP || key in db.appOptions || DefaultApp(db) == value.includeApp)
        && (chosen in db.repoOptions || DefaultRepo(db) == value.includeRepo)
  {
    SettingsAlterExactly(db, SetDefaults(db, value), q);
  }

  // ---- a toggle inside a read ----

  /** The tables of a read with a change after its seventh statement. */
  function ToggledSeen(db: Db, db': Db): seq<Db> {
    Copies(db, 7) + Copies(db', 5)
  }

  lemma ToggledRepo(db: Db, db': Db, key: string, url: string, a: Answers)
    requires SameRows(db, db') && db'.repoOptions == db.repoOptions && db'.defaults == db.defaults
    requires a == Gathered(key, url, ToggledSeen(db, db'))
    ensures (a.repo, VersionedRules.Without(a.blank, a.repo), a.includeRepo) == RepoRows(db', url)
  {
    RepoAnswers(key, url, ToggledSeen(db, db'), a);
    RepoOptionAnswers(key, url, ToggledSeen(db, db'), a);
  }

  lemma ToggledApp(db: Db, db': Db, key: string, url: string, a: Answers)
    requires key != "" && a == Gathered(key, url, ToggledSeen(db, db'))
    ensures (Laid(key, a).app, Laid(key, a).appDefault, a.includeApp) == AppRows(db', key)
      && a.shownApp == IncludeApp(db, key)
  {
    AppOptionAnswers(key, url, ToggledSeen(db, db'), a);
    AppAnswers(key, url, ToggledSeen(db, db'), a);
    assert a.includeApp == IncludeApp(db', key) && a.shownApp == IncludeApp(db, key);
  }

  lemma ToggledParts(db: Db, db': Db, key: string, url: string, v: Selection)
    requires SameRows(db, db') && db'.repoOptions == db.repoOptions && db'.defaults == db.defaults && key != ""
    requires v == Laid(key, Gathered(key, url, ToggledSeen(db, db')))
    ensures v == Select(db', key, url).(includeApp := IncludeApp(db, key))
  {
    var a := Gathered(key, url, ToggledSeen(db, db'));
    GlobalAnswer(key, url, ToggledSeen(db, db'), a);
    ToggledRepo(db, db', key, url, a);
    ToggledApp(db, db', key, url, a);
  }

  /** Switching an app's setting changes which rows it is served exactly when the default app has any. */
  lemma SwitchedRows(db: Db, db': Db, key: string)
    requires db'.apps == db.apps && key != "" && key != DEFAULT_APP && IncludeApp(db, key) != IncludeApp(db', key)
    ensures (AppRows(db, key).0 == AppRows(db', key).0 && AppRows(db, key).1 == AppRows(db', key).1)
      <==> Sections(db.apps, DEFAULT_APP) == []
  {
    var own, fallback := Sections(db.apps, key), Sections(db.apps, DEFAULT_APP);
    forall r | r in fallback ensures r !in own {
      SectionsInTable(db.apps, DEFAULT_APP, r);
      if r in own {
        SectionsInTable(db.apps, key, r);
      }
    }
    WithoutNone(fallback, own);
  }

  lemma {:induction false} WithoutNone(rows: seq<Row>, others: seq<Row>)
    requires forall r :: r in rows ==> r !in others
    ensures VersionedRules.Without(rows, others) == rows
  {
    if rows != [] {
      assert rows[0] in rows;
      WithoutNone(rows[1..], others);
    }
  }

  function ToggledActions(q: Request, db': Db): seq<Action> {
    ([Read(0, q)] + Queried(0, 7)) + ([Change(db')] + (Queried(0, 5) + [Store(0)]))
  }

  /** A read that has run its first seven statements. */
  lemma FirstSeven(db: Db, now: real, q: Request) returns (s: State)
    requires Cacheable(q) && AppKey(q.name) != ""
    ensures Runs(Start(db, now), [Read(0, q)] + Queried(0, 7), s)
    ensures 0 in s.pending && s.pending[0].seen == Copies(db, 7) && s.pending[0].request == q
      && s.pending[0].key == Key(q)
    ensures s.db == db && s.now == s.since == now && s.past == []
  {
    var begun := Apply(Start(db, now), Read(0, q));
    var r := AskedTimes(Begun(q), db, now, 7);
    s := begun.(pending := begun.pending[0 := r]);
    QueriedRuns(begun, 0, 7, s);
    assert r.seen == Copies(db, 7);
    RunsStep(Start(db, now), Read(0, q), Queried(0, 7), s);
  }

  /** The other five, and the store. */
  lemma LastFive(s: State, q: Request, seen: seq<Db>) returns (end: State)
    requires 0 in s.pending && s.pending[0].seen == seen && s.pending[0].request == q && s.pending[0].key == Key(q)
    requires |seen| == 7 && AppKey(q.name) != "" && Cacheable(q)
    ensures Runs(s, Queried(0, 5) + [Store(0)], end)
    ensures Hit(end, q) == Some(Laid(AppKey(q.name), Gathered(AppKey(q.name), q.origin, seen + Copies(s.db, 5))))
    ensures end.db == s.db && end.now == s.now && end.since == s.since && end.past == s.past
  {
    var r := AskedTimes(s.pending[0], s.db, s.now, 5);
    var done := s.(pending := s.pending[0 := r]);
    QueriedRuns(s, 0, 5, done);
    end := Apply(done, Store(0));
    AfterStore(done, 0, r, q, end);
    StoreRuns(s, Queried(0, 5), done, 0, end);
  }

  lemma ToggledSteps(db: Db, now: real, q: Request, db': Db) returns (end: State)
    requires Cacheable(q) && AppKey(q.name) != ""
    ensures Runs(Start(db, now), ToggledActions(q, db'), end)
    ensures Hit(end, q) == Some(Laid(AppKey(q.name), Gathered(AppKey(q.name), q.origin, ToggledSeen(db, db'))))
    ensures end.db == db' && end.since == end.now == now && end.past == [Epoch(now, now, db)]
  {
    var asked := FirstSeven(db, now, q);
    var changed := Apply(asked, Change(db'));
    end := LastFive(changed, q, Copies(db, 7));
    RunsStep(asked, Change(db'), Queried(0, 5) + [Store(0)], end);
    RunsConcat(Start(db, now), [Read(0, q)] + Queried(0, 7), asked, [Change(db')] + (Queried(0, 5) + [Store(0)]), end);
  }

  /** The app's setting is asked for twice, and a toggle in between leaves an answer in the cache that shows the
      old setting over the rows of the new one. That was true at no moment exactly when the default app has
      rows. */
  lemma ToggledRead(db: Db, now: real, q: Request, value: bool) returns (db': Db, end: State)
    requires Cacheable(q) && AppKey(q.name) != "" && AppKey(q.name) != DEFAULT_APP
      && IncludeApp(db, AppKey(q.name)) != value
    ensures db' == SetAppOption(db, AppKey(q.name), value) && Runs(Start(db, now), ToggledActions(q, db'), end)
    ensures Hit(end, q) == Some(Served(db', q).(includeApp := !value))
    ensures (exists t :: WasServed(end, t, q, Hit(end, q).value)) <==> Sections(db.apps, DEFAULT_APP) == []
  {
    db' := SetAppOption(db, AppKey(q.name), value);
    end := ToggledSteps(db, now, q, db');
    var v := Hit(end, q).value;
    ToggledParts(db, db', AppKey(q.name), q.origin, v);
    assert IncludeApp(db', AppKey(q.name)) == value;
    ShownTruly(db, db', AppKey(q.name), q.origin, v);
    OneOldEpoch(end, q, v, Epoch(now, now, db));
  }

  /** The rows of the new setting, shown with the old one, are a true answer only if the rows are the same. */
  lemma ShownTruly(db: Db, db': Db, key: string, url: string, v: Selection)
    requires SameRows(db, db') && db'.repoOptions == db.repoOptions && db'.defaults == db.defaults
    requires key != "" && key != DEFAULT_APP && IncludeApp(db, key) != IncludeApp(db', key)
    requires v == Select(db', key, url).(includeApp := IncludeApp(db, key))
    ensures v != Select(db', key, url) && (v == Select(db, key, url) <==> Sections(db.apps, DEFAULT_APP) == [])
  {
    SwitchedRows(db, db', key);
    assert RepoRows(db, url) == RepoRows(db', url);
  }

  lemma OneOldEpoch(s: State, q: Request, v: Selection, a: Epoch)
    requires s.past == [a] && a.from <= a.to && s.since <= s.now
    ensures (exists t :: WasServed(s, t, q, v)) <==> v == Served(a.db, q) || v == Served(s.db, q)
  {
    if t :| WasServed(s, t, q, v) {
      var db :| CurrentAt(s, t, db) && Current(db, q, v);
      if s.db != db {
        var i :| 0 <= i < |s.past| && InEpoch(s.past[i], t, db);
      }
    }
    if v == Served(a.db, q) {
      assert InEpoch(s.past[0], a.from, a.db);
      assert CurrentAt(s, a.from, a.db) && Current(a.db, q, v);
      assert WasServed(s, a.from, q, v);
    }
    if v == Served(s.db, q) {
      assert CurrentAt(s, s.now, s.db) && Current(s.db, q, v);
      assert WasServed(s, s.now, q, v);
    }
  }
}
