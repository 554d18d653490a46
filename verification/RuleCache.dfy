/** The rule cache over whole runs (app/services/rule_cache.py, app/services/versioned_rules.py): publishes
    commit and flush in two steps, reads run one statement at a time and then store, and all these steps
    interleave freely. Redis may also lose flushes, stores and keys, and tables may change without any flush. */
module RuleCache {
  import opened Text
  import opened VersionedRules
  import opened RuleHistory
  import opened CacheKeys
  import opened RuleQueries

  const TTL: real := 300.0

  datatype Op =
    | OnGlobal(body: string, section: string)
    | OnApp(name: string, body: string, section: string)
    | OnRepo(pattern: string, body: string, section: string, order: Option<int>)

  /** The tables after a publish; None when it is refused. */
  function Committed(db: Db, op: Op): Option<Db> {
    match op
    case OnGlobal(body, section) => Some(PublishGlobal(db, body, section))
    case OnApp(name, body, section) => PublishApp(db, name, body, section)
    case OnRepo(pattern, body, section, order) => Some(PublishRepo(db, pattern, body, section, order))
  }

  /** What the publish flushes after its commit. */
  function FlushPattern(op: Op): string {
    match op
    case OnApp(name, _, _) => if AppKey(name) == DEFAULT_APP then "*" else AppKey(name) + ":*"
    case _ => "*"
  }

  function Served(db: Db, q: Request): Selection {
    Select(db, AppKey(q.name), q.origin)
  }

  /** An entry; the text it holds is stood for by the rows it was made from. The other fields are
      bookkeeping: who asked, the tables each statement of the read saw and when it ran, and whether a
      commit changed an answer of the read between its first statement and the store. */
  datatype Entry = Entry(
    value: Selection, stored: real, request: Request, seen: seq<Db>, moments: seq<real>, overtaken: bool)

  /** A read that missed. The tables that its statements have run on so far determine their answers. */
  datatype Reading = Reading(key: string, request: Request, seen: seq<Db>, moments: seq<real>, overtaken: bool)

  datatype Epoch = Epoch(from: real, to: real, db: Db)

  datatype State = State(
    now: real, db: Db, since: real, past: seq<Epoch>,
    cache: map<string, Entry>, pending: map<nat, Reading>, flushes: map<nat, string>)

  datatype Action =
    | Tick(seconds: real)
    | Commit(tid: nat, op: Op)
    | Flush(tid: nat)
    | LoseFlush(tid: nat)
    | Read(tid: nat, request: Request)
    | Query(tid: nat)
    | Store(tid: nat)
    | LoseStore(tid: nat)
    | Evict(key: string)
    | Change(db: Db)

  function Statements(q: Request): nat {
    Queries(AppKey(q.name))
  }

  function Start(db: Db, now: real): State {
    State(now, db, now, [], map[], map[], map[])
  }

  function Hit(s: State, q: Request): Option<Selection> {
    if Cacheable(q) && Key(q) in s.cache && s.now <= s.cache[Key(q)].stored + TTL then Some(s.cache[Key(q)].value)
    else None
  }

  predicate Enabled(s: State, a: Action) {
    match a
    case Tick(seconds) => seconds >= 0.0
    case Commit(tid, op) => tid !in s.flushes && Committed(s.db, op).Some?
    case Flush(tid) => tid in s.flushes
    case LoseFlush(tid) => tid in s.flushes
    case Read(tid, q) => tid !in s.pending && Cacheable(q) && Hit(s, q).None?
    case Query(tid) => tid in s.pending && |s.pending[tid].seen| < Statements(s.pending[tid].request)
    case Store(tid) => tid in s.pending && |s.pending[tid].seen| == Statements(s.pending[tid].request)
    case LoseStore(tid) => tid in s.pending
    case Evict(_) => true
    case Change(_) => true
  }

  /** What a read has gathered by now, and what it would have gathered from the tables `db`. */
  function Told(r: Reading): Answers {
    Gathered(AppKey(r.request.name), r.request.origin, r.seen)
  }

  function WouldTell(db: Db, r: Reading): Answers {
    Gathered(AppKey(r.request.name), r.request.origin, Copies(db, |r.seen|))
  }

  function Overtake(r: Reading, db: Db): Reading {
    r.(overtaken := r.overtaken || WouldTell(db, r) != Told(r))
  }

  function OvertakeAll(pending: map<nat, Reading>, db: Db): map<nat, Reading> {
    map tid | tid in pending :: Overtake(pending[tid], db)
  }

  function Moved(s: State, db: Db): State {
    s.(db := db, since := s.now, past := s.past + [Epoch(s.since, s.now, s.db)], pending := OvertakeAll(s.pending, db))
  }

  function Unmatched(cache: map<string, Entry>, pattern: string): map<string, Entry> {
    map k | k in cache && !Flushes(pattern, k) :: cache[k]
  }

  function Begun(q: Request): Reading {
    Reading(Key(q), q, [], [], false)
  }

  /** One more statement, run on the tables as they stand now. */
  function Asked(r: Reading, db: Db, now: real): Reading {
    r.(seen := r.seen + [db], moments := r.moments + [now])
  }

  function Value(r: Reading): Selection {
    Laid(AppKey(r.request.name), Told(r))
  }

  function Stored(r: Reading, now: real): Entry {
    Entry(Value(r), now, r.request, r.seen, r.moments, r.overtaken)
  }

  function Apply(s: State, a: Action): State
    requires Enabled(s, a)
  {
    match a
    case Tick(seconds) => s.(now := s.now + seconds)
    case Commit(tid, op) => Moved(s, Committed(s.db, op).value).(flushes := s.flushes[tid := FlushPattern(op)])
    case Flush(tid) => s.(cache := Unmatched(s.cache, s.flushes[tid]), flushes := s.flushes - {tid})
    case LoseFlush(tid) => s.(flushes := s.flushes - {tid})
    case Read(tid, q) => s.(pending := s.pending[tid := Begun(q)])
    case Query(tid) => s.(pending := s.pending[tid := Asked(s.pending[tid], s.db, s.now)])
    case Store(tid) =>
      var r := s.pending[tid];
      s.(cache := s.cache[r.key := Stored(r, s.now)],
         pending := s.pending - {tid})
    case LoseStore(tid) => s.(pending := s.pending - {tid})
    case Evict(key) => s.(cache := s.cache - {key})
    case Change(db) => Moved(s, db)
  }

  ghost predicate Runs(s: State, actions: seq<Action>, s': State)
    decreases |actions|
  {
    if actions == [] then s' == s
    else Enabled(s, actions[0]) && Runs(Apply(s, actions[0]), actions[1..], s')
  }

  lemma RunsFirst(s: State, actions: seq<Action>, s': State) returns (a: Action, m: State)
    requires Runs(s, actions, s') && actions != []
    ensures a == actions[0] && Enabled(s, a) && m == Apply(s, a) && Runs(m, actions[1..], s')
  {
    a := actions[0];
    m := Apply(s, a);
  }

  // ---- what a publish may leave unflushed ----

  lemma StarFlushes(key: string)
    ensures Flushes("*", key)
  {
    GlobStar(key);
    FlushesIsGlob("*", key);
  }

  lemma OwnKeysFlushed(q: Request)
    requires Plain(q) && AppKey(q.name) != ""
    ensures Flushes(AppKey(q.name) + ":*", Key(q))
  {
    var rest := KeyTail(q);
    AppPatternFlushes(AppKey(q.name), rest);
  }

  /** Whatever answer a publish changes, its flush covers the key under which that answer is cached. */
  lemma PublishCovers(db: Db, op: Op, db': Db, q: Request)
    requires Committed(db, op) == Some(db') && Plain(q)
    ensures Served(db', q) == Served(db, q) || Flushes(FlushPattern(op), Key(q))
  {
    StarFlushes(Key(q));
    if op.OnApp? && AppKey(op.name) != DEFAULT_APP {
      if AppKey(op.name) != AppKey(q.name) {
        AppPublishIsLocal(db, op.name, op.body, op.section, AppKey(q.name), q.origin);
      } else {
        OwnKeysFlushed(q);
      }
    }
  }

  lemma SelectByOrigin(db: Db, key: string, u: string, w: string)
    requires key == "" || Trim(u) == Trim(w)
    ensures Select(db, key, u) == Select(db, key, w)
  {
    if key != "" {
      assert ResolveRepo(db.repos, u) == ResolveRepo(db.repos, w);
      assert RepoRows(db, u) == RepoRows(db, w);
    }
  }

  /** Plain requests with one key have one answer. */
  lemma KeyDetermines(db: Db, q: Request, r: Request)
    requires Plain(q) && Plain(r) && Key(q) == Key(r)
    ensures Served(db, q) == Served(db, r)
  {
    SharedKeyExactly(q, r);
    SelectByOrigin(db, AppKey(q.name), q.origin, r.origin);
  }

  // ---- coherence ----

  /** No silent change of the tables and no lost flush. */
  predicate Quiet(actions: seq<Action>) {
    forall i :: 0 <= i < |actions| ==> !actions[i].Change? && !actions[i].LoseFlush?
  }

  ghost predicate Covered(flushes: map<nat, string>, key: string) {
    exists tid :: tid in flushes && Flushes(flushes[tid], key)
  }

  predicate Current(db: Db, q: Request, value: Selection) {
    Served(db, q) == value
  }

  ghost predicate EntryOk(db: Db, flushes: map<nat, string>, key: string, e: Entry) {
    && Key(e.request) == key
    && (Plain(e.request) && !e.overtaken ==> Current(db, e.request, e.value) || Covered(flushes, key))
  }

  ghost predicate CacheOk(db: Db, flushes: map<nat, string>, cache: map<string, Entry>) {
    forall k :: k in cache ==> EntryOk(db, flushes, k, cache[k])
  }

  predicate ReadingOk(db: Db, r: Reading) {
    r.key == Key(r.request) && (!r.overtaken ==> Told(r) == WouldTell(db, r))
  }

  predicate ReadsOk(db: Db, pending: map<nat, Reading>) {
    forall tid :: tid in pending ==> ReadingOk(db, pending[tid])
  }

  ghost predicate Coherent(s: State) {
    CacheOk(s.db, s.flushes, s.cache) && ReadsOk(s.db, s.pending)
  }

  lemma CommitKeepsEntry(db: Db, op: Op, db': Db, flushes: map<nat, string>, tid: nat, key: string, e: Entry)
    requires EntryOk(db, flushes, key, e) && Committed(db, op) == Some(db') && tid !in flushes
    ensures EntryOk(db', flushes[tid := FlushPattern(op)], key, e)
  {
    var flushes' := flushes[tid := FlushPattern(op)];
    if Plain(e.request) && !e.overtaken {
      if Covered(flushes, key) {
        var t :| t in flushes && Flushes(flushes[t], key);
        assert t in flushes' && Flushes(flushes'[t], key);
      } else {
        PublishCovers(db, op, db', e.request);
        assert flushes'[tid] == FlushPattern(op);
      }
    }
  }

  lemma OvertakenOk(before: Db, pending: map<nat, Reading>, db: Db)
    requires ReadsOk(before, pending)
    ensures ReadsOk(db, OvertakeAll(pending, db))
  {
    forall tid | tid in pending ensures ReadingOk(db, Overtake(pending[tid], db)) {
      assert ReadingOk(before, pending[tid]);
    }
  }

  lemma CommitKeeps(s: State, tid: nat, op: Op, s': State)
    requires Coherent(s) && Enabled(s, Commit(tid, op)) && s' == Apply(s, Commit(tid, op))
    ensures Coherent(s')
  {
    forall k | k in s.cache ensures EntryOk(s'.db, s'.flushes, k, s.cache[k]) {
      CommitKeepsEntry(s.db, op, s'.db, s.flushes, tid, k, s.cache[k]);
    }
    OvertakenOk(s.db, s.pending, s'.db);
  }

  lemma FlushKeepsEntry(db: Db, flushes: map<nat, string>, tid: nat, key: string, e: Entry)
    requires EntryOk(db, flushes, key, e) && tid in flushes && !Flushes(flushes[tid], key)
    ensures EntryOk(db, flushes - {tid}, key, e)
  {
    if Covered(flushes, key) {
      var t :| t in flushes && Flushes(flushes[t], key);
      assert t in flushes - {tid};
    }
  }

  lemma FlushKeeps(s: State, tid: nat, s': State)
    requires Coherent(s) && tid in s.flushes && s' == Apply(s, Flush(tid))
    ensures Coherent(s')
  {
    forall k | k in s'.cache ensures EntryOk(s'.db, s'.flushes, k, s'.cache[k]) {
      FlushKeepsEntry(s.db, s.flushes, tid, k, s.cache[k]);
    }
  }

  lemma BegunOk(db: Db, q: Request)
    ensures ReadingOk(db, Begun(q))
  {
    assert Copies(db, 0) == [];
  }

  lemma AskedOk(db: Db, r: Reading, now: real)
    requires ReadingOk(db, r)
    ensures ReadingOk(db, Asked(r, db, now))
  {
    if !r.overtaken {
      AgreesNext(AppKey(r.request.name), r.request.origin, r.seen, db, |r.seen|, Told(r));
    }
  }

  lemma AddReading(db: Db, pending: map<nat, Reading>, tid: nat, r: Reading)
    requires ReadsOk(db, pending) && ReadingOk(db, r)
    ensures ReadsOk(db, pending[tid := r])
  {
  }

  lemma ReadKeeps(s: State, tid: nat, q: Request, s': State)
    requires Coherent(s) && Enabled(s, Read(tid, q)) && s' == Apply(s, Read(tid, q))
    ensures Coherent(s')
  {
    BegunOk(s.db, q);
    AddReading(s.db, s.pending, tid, Begun(q));
  }

  lemma AskKeeps(s: State, tid: nat, s': State)
    requires Coherent(s) && Enabled(s, Query(tid)) && s' == Apply(s, Query(tid))
    ensures Coherent(s')
  {
    AskedOk(s.db, s.pending[tid], s.now);
    AddReading(s.db, s.pending, tid, Asked(s.pending[tid], s.db, s.now));
  }

  predicate Complete(r: Reading) {
    |r.seen| == Statements(r.request)
  }

  /** A complete read that nothing has overtaken holds the answer of the tables as they stand. */
  lemma StoredOk(db: Db, flushes: map<nat, string>, r: Reading, now: real)
    requires ReadingOk(db, r) && Complete(r)
    ensures EntryOk(db, flushes, r.key, Stored(r, now))
  {
    UndisturbedIsSelect(db, AppKey(r.request.name), r.request.origin);
  }

  lemma AddEntry(db: Db, flushes: map<nat, string>, cache: map<string, Entry>, key: string, e: Entry)
    requires CacheOk(db, flushes, cache) && EntryOk(db, flushes, key, e)
    ensures CacheOk(db, flushes, cache[key := e])
  {
  }

  lemma StoreInCache(db: Db, flushes: map<nat, string>, cache: map<string, Entry>, r: Reading, now: real)
    requires CacheOk(db, flushes, cache) && ReadingOk(db, r) && Complete(r)
    ensures CacheOk(db, flushes, cache[r.key := Stored(r, now)])
  {
    StoredOk(db, flushes, r, now);
    AddEntry(db, flushes, cache, r.key, Stored(r, now));
  }

  lemma StoreKeeps(s: State, tid: nat, s': State)
    requires Coherent(s) && Enabled(s, Store(tid)) && s' == Apply(s, Store(tid))
    ensures Coherent(s')
  {
    var r := s.pending[tid];
    var cache, pending := s.cache[r.key := Stored(r, s.now)], s.pending - {tid};
    assert CacheOk(s.db, s.flushes, cache) by {
      assert ReadingOk(s.db, r);
      StoreInCache(s.db, s.flushes, s.cache, r, s.now);
    }
    assert ReadsOk(s.db, pending) by {
      DropReading(s.db, s.pending, tid);
    }
    StoreShape(s, tid, r, s');
  }

  lemma StoreShape(s: State, tid: nat, r: Reading, s': State)
    requires Enabled(s, Store(tid)) && r == s.pending[tid] && s' == Apply(s, Store(tid))
    ensures s'.cache == s.cache[r.key := Stored(r, s.now)] && s'.pending == s.pending - {tid}
    ensures s'.db == s.db && s'.flushes == s.flushes
  {
  }

  lemma DropReading(db: Db, pending: map<nat, Reading>, tid: nat)
    requires ReadsOk(db, pending)
    ensures ReadsOk(db, pending - {tid})
  {
  }

  lemma StepKeeps(s: State, a: Action, s': State)
    requires Coherent(s) && Enabled(s, a) && !a.Change? && !a.LoseFlush? && s' == Apply(s, a)
    ensures Coherent(s')
  {
    match a
    case Commit(tid, op) => CommitKeeps(s, tid, op, s');
    case Flush(tid) => FlushKeeps(s, tid, s');
    case Read(tid, q) => ReadKeeps(s, tid, q, s');
    case Query(tid) => AskKeeps(s, tid, s');
    case Store(tid) => StoreKeeps(s, tid, s');
    case Tick(_) =>
    case LoseStore(_) =>
    case Evict(_) =>
  }

  lemma {:induction false} RunKeeps(s: State, actions: seq<Action>, s': State)
    requires Coherent(s) && Runs(s, actions, s') && Quiet(actions)
    ensures Coherent(s')
    decreases |actions|
  {
    if actions != [] {
      var a, m := RunsFirst(s, actions, s');
      StepKeeps(s, a, m);
      RunKeeps(m, actions[1..], s');
    }
  }

  /** Coherence: whatever interleaving of publishes and single statements came before, a hit is the answer a
      fresh read would give now, unless a flush that covers its key is still to come, or a commit changed an
      answer of the storing read between its first statement and the store. */
  lemma HitsAreFresh(db: Db, now: real, actions: seq<Action>, s: State, q: Request)
    requires Runs(Start(db, now), actions, s) && Quiet(actions)
    requires Hit(s, q).Some? && Plain(q) && Plain(s.cache[Key(q)].request) && !s.cache[Key(q)].overtaken
    ensures Hit(s, q) == Some(Served(s.db, q)) || Covered(s.flushes, Key(q))
  {
    RunKeeps(Start(db, now), actions, s);
    var e := s.cache[Key(q)];
    assert EntryOk(s.db, s.flushes, Key(q), e);
    KeyDetermines(s.db, q, e.request);
  }

  // ---- exactly when a hit is fresh ----

  /** The step leaves the entry of the key alone. */
  predicate LeavesKey(s: State, a: Action, key: string) {
    match a
    case Flush(tid) => tid in s.flushes ==> !Flushes(s.flushes[tid], key)
    case Store(tid) => tid in s.pending ==> s.pending[tid].key != key
    case Evict(k) => k != key
    case _ => true
  }

  ghost predicate Untouched(s: State, actions: seq<Action>, key: string)
    decreases |actions|
  {
    actions != [] ==>
      Enabled(s, actions[0]) && LeavesKey(s, actions[0], key) && Untouched(Apply(s, actions[0]), actions[1..], key)
  }

  /** Since the tables were `db0`, the answer has stayed, or a flush that covers the key is still to come. */
  ghost predicate StillOrCovered(db: Db, flushes: map<nat, string>, key: string, q: Request, db0: Db) {
    Covered(flushes, key) || Served(db, q) == Served(db0, q)
  }

  lemma CommitStill(db: Db, op: Op, db': Db, flushes: map<nat, string>, tid: nat, key: string, q: Request, db0: Db)
    requires StillOrCovered(db, flushes, key, q, db0) && Committed(db, op) == Some(db') && tid !in flushes
    requires Plain(q) && key == Key(q)
    ensures StillOrCovered(db', flushes[tid := FlushPattern(op)], key, q, db0)
  {
    var flushes' := flushes[tid := FlushPattern(op)];
    if Covered(flushes, key) {
      var t :| t in flushes && Flushes(flushes[t], key);
      assert t in flushes' && Flushes(flushes'[t], key);
    } else {
      PublishCovers(db, op, db', q);
      assert flushes'[tid] == FlushPattern(op);
    }
  }

  lemma FlushStill(flushes: map<nat, string>, tid: nat, key: string)
    requires Covered(flushes, key) && tid in flushes && !Flushes(flushes[tid], key)
    ensures Covered(flushes - {tid}, key)
  {
    var t :| t in flushes && Flushes(flushes[t], key);
    assert t in flushes - {tid};
  }

  lemma StepStill(s: State, a: Action, s': State, key: string, q: Request, db0: Db)
    requires Enabled(s, a) && s' == Apply(s, a) && LeavesKey(s, a, key) && !a.Change? && !a.LoseFlush?
    requires Plain(q) && key == Key(q) && StillOrCovered(s.db, s.flushes, key, q, db0)
    ensures StillOrCovered(s'.db, s'.flushes, key, q, db0)
  {
    if a.Commit? {
      CommitStill(s.db, a.op, s'.db, s.flushes, a.tid, key, q, db0);
    } else if a.Flush? && Covered(s.flushes, key) {
      FlushStill(s.flushes, a.tid, key);
    }
  }

  lemma LeftAlone(s: State, a: Action, s': State, key: string)
    requires Enabled(s, a) && s' == Apply(s, a) && LeavesKey(s, a, key)
    ensures key in s'.cache <==> key in s.cache
    ensures key in s.cache ==> s'.cache[key] == s.cache[key]
  {
  }

  lemma UntouchedFirst(s: State, actions: seq<Action>, s': State, key: string) returns (a: Action, m: State)
    requires Runs(s, actions, s') && Quiet(actions) && Untouched(s, actions, key) && actions != []
    ensures Enabled(s, a) && m == Apply(s, a) && LeavesKey(s, a, key) && !a.Change? && !a.LoseFlush?
    ensures Runs(m, actions[1..], s') && Quiet(actions[1..]) && Untouched(m, actions[1..], key)
  {
    a := actions[0];
    m := Apply(s, a);
  }

  lemma {:induction false} RunStill(s: State, actions: seq<Action>, s': State, key: string, q: Request, db0: Db)
    requires Runs(s, actions, s') && Quiet(actions) && Untouched(s, actions, key)
    requires Plain(q) && key == Key(q) && StillOrCovered(s.db, s.flushes, key, q, db0)
    ensures StillOrCovered(s'.db, s'.flushes, key, q, db0)
    decreases |actions|
  {
    if actions != [] {
      var a, m := UntouchedFirst(s, actions, s', key);
      StepStill(s, a, m, key, q, db0);
      RunStill(m, actions[1..], s', key, q, db0);
    }
  }

  lemma {:induction false} RunLeaves(s: State, actions: seq<Action>, s': State, key: string)
    requires Runs(s, actions, s') && Quiet(actions) && Untouched(s, actions, key) && key in s.cache
    ensures key in s'.cache && s'.cache[key] == s.cache[key]
    decreases |actions|
  {
    if actions != [] {
      var a, m := UntouchedFirst(s, actions, s', key);
      LeftAlone(s, a, m, key);
      RunLeaves(m, actions[1..], s', key);
    }
  }

  /** From a store on, as long as nothing else touches its entry and no covering flush is pending: the hit is
      what a fresh read would give now exactly when what was stored was what a fresh read would have given as
      it was stored. The writer could tell just before. */
  lemma StoredFreshExactly(s0: State, tid: nat, r: Reading, s1: State, actions: seq<Action>, s: State, q: Request,
                           key: string)
    requires key == Key(q) && StoresUnder(s0, tid, s1, key) && r == s0.pending[tid]
    requires Runs(s1, actions, s) && Quiet(actions) && Untouched(s1, actions, key)
    requires Plain(q) && Hit(s, q).Some? && !Covered(s.flushes, key)
    ensures Hit(s, q) == Some(Value(r))
    ensures Hit(s, q) == Some(Served(s.db, q)) <==> Value(r) == Served(s0.db, q)
  {
    StoreShape(s0, tid, r, s1);
    RunStill(s1, actions, s, key, q, s0.db);
    RunLeaves(s1, actions, s, key);
  }

  /** The step that last touched an entry is a store under its key. */
  lemma TouchedByStore(s: State, a: Action, s': State, key: string) returns (tid: nat)
    requires Enabled(s, a) && s' == Apply(s, a) && !LeavesKey(s, a, key) && key in s'.cache
    ensures a == Store(tid) && tid in s.pending && s.pending[tid].key == key
  {
    tid := a.tid;
  }

  /** A store under a key, and the run after it, which leaves the entry alone. */
  datatype Storing = Storing(before: seq<Action>, s0: State, tid: nat, s1: State, after: seq<Action>)

  /** The run is `before`, then the store, taken in state `s0`, then `after`. */
  ghost predicate StoredBy(s: State, actions: seq<Action>, x: Storing, s': State, key: string) {
    && actions == x.before + ([Store(x.tid)] + x.after)
    && Runs(s, x.before, x.s0) && StoresUnder(x.s0, x.tid, x.s1, key)
    && Runs(x.s1, x.after, s') && Untouched(x.s1, x.after, key)
  }

  ghost predicate StoresUnder(s0: State, tid: nat, s1: State, key: string) {
    Enabled(s0, Store(tid)) && s0.pending[tid].key == key && s1 == Apply(s0, Store(tid))
  }

  /** Where the entry of a key comes from: it was there, or from a store, after which nothing touched it. */
  lemma {:induction false} LastStore(s: State, actions: seq<Action>, s': State, key: string)
    returns (x: Option<Storing>)
    requires Runs(s, actions, s') && key in s'.cache
    ensures x.None? ==> key in s.cache && Untouched(s, actions, key)
    ensures x.Some? ==> StoredBy(s, actions, x.value, s', key)
    decreases |actions|
  {
    x := None;
    if actions != [] {
      var first, m := RunsFirst(s, actions, s');
      var later := LastStore(m, actions[1..], s', key);
      if later.Some? {
        x := Some(later.value.(before := [first] + later.value.before));
        StoredLater(s, first, m, actions, later.value, s', key);
      } else if LeavesKey(s, first, key) {
        LeftAlone(s, first, m, key);
      } else {
        var tid := TouchedByStore(s, first, m, key);
        x := Some(Storing([], s, tid, m, actions[1..]));
        assert Runs(s, [], s) && actions == [] + ([first] + actions[1..]);
      }
    }
  }

  lemma StoredLater(s: State, first: Action, m: State, actions: seq<Action>, x: Storing, s': State, key: string)
    requires actions != [] && actions[0] == first && Enabled(s, first) && m == Apply(s, first)
    requires StoredBy(m, actions[1..], x, s', key)
    ensures StoredBy(s, actions, x.(before := [first] + x.before), s', key)
  {
    RunsStep(s, first, x.before, x.s0);
    SplitLater(first, actions, x.before, [Store(x.tid)] + x.after);
  }

  lemma SplitLater(first: Action, actions: seq<Action>, xs: seq<Action>, rest: seq<Action>)
    requires actions != [] && actions[0] == first && actions[1..] == xs + rest
    ensures actions == ([first] + xs) + rest
  {
    assert actions == [first] + actions[1..];
  }

  lemma QuietAfter(before: seq<Action>, a: Action, after: seq<Action>)
    requires Quiet(before + ([a] + after))
    ensures Quiet(after)
  {
    var all := before + ([a] + after);
    forall i | 0 <= i < |after| ensures !after[i].Change? && !after[i].LoseFlush? {
      assert all[|before| + 1 + i] == after[i];
    }
  }

  /** Over every interleaving: every hit comes from a store after which nothing touched its entry; and with no
      covering flush pending, the hit is what a fresh read would give now exactly when what that store put
      there was what a fresh read would have given then. */
  lemma HitsAreFreshExactly(start: State, actions: seq<Action>, s: State, q: Request, key: string)
    returns (x: Storing, r: Reading)
    requires key == Key(q) && key !in start.cache && Runs(start, actions, s) && Quiet(actions)
    requires Plain(q) && Hit(s, q).Some? && !Covered(s.flushes, key)
    ensures StoredBy(start, actions, x, s, key) && x.tid in x.s0.pending && r == x.s0.pending[x.tid]
    ensures Hit(s, q) == Some(Served(s.db, q)) <==> Value(r) == Served(x.s0.db, q)
  {
    x := FindStore(start, actions, s, key);
    r := ReadStored(x, key);
    StoredFreshExactly(x.s0, x.tid, r, x.s1, x.after, s, q, key);
  }

  lemma FindStore(start: State, actions: seq<Action>, s: State, key: string) returns (x: Storing)
    requires key !in start.cache && key in s.cache && Runs(start, actions, s) && Quiet(actions)
    ensures StoredBy(start, actions, x, s, key) && Quiet(x.after)
  {
    var stored := LastStore(start, actions, s, key);
    x := stored.value;
    QuietAfter(x.before, Store(x.tid), x.after);
  }

  lemma ReadStored(x: Storing, key: string) returns (r: Reading)
    requires StoresUnder(x.s0, x.tid, x.s1, key)
    ensures x.tid in x.s0.pending && r == x.s0.pending[x.tid]
  {
    r := x.s0.pending[x.tid];
  }

  // ---- whole reads as runs ----

  lemma RunsStep(s: State, a: Action, rest: seq<Action>, s': State)
    requires Enabled(s, a) && Runs(Apply(s, a), rest, s')
    ensures Runs(s, [a] + rest, s')
  {
    assert ([a] + rest)[1..] == rest;
  }

  lemma {:induction false} RunsConcat(s: State, xs: seq<Action>, m: State, ys: seq<Action>, s': State)
    requires Runs(s, xs, m) && Runs(m, ys, s')
    ensures Runs(s, xs + ys, s')
    decreases |xs|
  {
    if xs == [] {
      assert xs + ys == ys;
    } else {
      assert (xs + ys)[1..] == xs[1..] + ys;
      RunsConcat(Apply(s, xs[0]), xs[1..], m, ys, s');
    }
  }

  function Queried(tid: nat, n: nat): seq<Action> {
    if n == 0 then [] else [Query(tid)] + Queried(tid, n - 1)
  }

  function AskedTimes(r: Reading, db: Db, now: real, n: nat): Reading {
    r.(seen := r.seen + Copies(db, n), moments := r.moments + seq(n, _ => now))
  }

  lemma AskedTimesNext(r: Reading, db: Db, now: real, n: nat)
    requires n > 0
    ensures AskedTimes(Asked(r, db, now), db, now, n - 1) == AskedTimes(r, db, now, n)
  {
    assert [db] + Copies(db, n - 1) == Copies(db, n);
    assert [now] + seq(n - 1, _ => now) == seq(n, _ => now);
    assert (r.seen + [db]) + Copies(db, n - 1) == r.seen + Copies(db, n);
    assert (r.moments + [now]) + seq(n - 1, _ => now) == r.moments + seq(n, _ => now);
  }

  /** A number of statements with nothing in between. */
  lemma {:induction false} QueriedRuns(s: State, tid: nat, n: nat, s': State)
    requires tid in s.pending && |s.pending[tid].seen| + n <= Statements(s.pending[tid].request)
    requires s' == s.(pending := s.pending[tid := AskedTimes(s.pending[tid], s.db, s.now, n)])
    ensures Runs(s, Queried(tid, n), s')
    decreases n
  {
    var r := s.pending[tid];
    if n == 0 {
      assert AskedTimes(r, s.db, s.now, 0) == r;
      assert s' == s;
    } else {
      var r1 := Asked(r, s.db, s.now);
      var m := s.(pending := s.pending[tid := r1]);
      assert m == Apply(s, Query(tid));
      AskedTimesNext(r, s.db, s.now, n);
      PutTwice(s.pending, tid, r1, AskedTimes(r, s.db, s.now, n));
      QueriedRuns(m, tid, n - 1, s');
      RunsStep(s, Query(tid), Queried(tid, n - 1), s');
    }
  }

  // ---- a commit that overtakes a read ----

  function ReadOf(db: Db, q: Request, now: real): Reading {
    AskedTimes(Begun(q), db, now, Statements(q))
  }

  lemma ReadOfValue(db: Db, q: Request, now: real)
    ensures Complete(ReadOf(db, q, now)) && ReadOf(db, q, now).request == q && ReadOf(db, q, now).key == Key(q)
    ensures Value(ReadOf(db, q, now)) == Served(db, q)
  {
    assert [] + Copies(db, Statements(q)) == Copies(db, Statements(q));
    UndisturbedIsSelect(db, AppKey(q.name), q.origin);
  }

  lemma PutTwice(pending: map<nat, Reading>, tid: nat, first: Reading, second: Reading)
    ensures pending[tid := first][tid := second] == pending[tid := second]
  {
  }

  lemma ReadOutRuns(s: State, tid: nat, q: Request, s': State)
    requires Enabled(s, Read(tid, q)) && s' == s.(pending := s.pending[tid := ReadOf(s.db, q, s.now)])
    ensures Runs(s, [Read(tid, q)] + Queried(tid, Statements(q)), s')
  {
    var m := s.(pending := s.pending[tid := Begun(q)]);
    assert m == Apply(s, Read(tid, q));
    PutTwice(s.pending, tid, Begun(q), ReadOf(s.db, q, s.now));
    QueriedRuns(m, tid, Statements(q), s');
    RunsStep(s, Read(tid, q), Queried(tid, Statements(q)), s');
  }

  lemma PublishThenStoreRuns(s1: State, reader: nat, writer: nat, op: Op, s2: State, s3: State, end: State)
    requires Enabled(s1, Commit(writer, op)) && s2 == Apply(s1, Commit(writer, op))
    requires Enabled(s2, Flush(writer)) && s3 == Apply(s2, Flush(writer))
    requires Enabled(s3, Store(reader)) && end == Apply(s3, Store(reader))
    ensures Runs(s1, [Commit(writer, op), Flush(writer), Store(reader)], end)
  {
    assert Runs(end, [], end);
    RunsStep(s3, Store(reader), [], end);
    RunsStep(s2, Flush(writer), [Store(reader)], end);
    RunsStep(s1, Commit(writer, op), [Flush(writer), Store(reader)], end);
  }

  lemma PublishThenStore(s1: State, reader: nat, writer: nat, op: Op, s2: State, s3: State, end: State)
    requires Enabled(s1, Commit(writer, op)) && s2 == Apply(s1, Commit(writer, op))
    requires Enabled(s2, Flush(writer)) && s3 == Apply(s2, Flush(writer))
    requires Enabled(s1, Store(reader)) && Enabled(s3, Store(reader)) && end == Apply(s3, Store(reader))
    requires s1.pending[reader].key == Key(s1.pending[reader].request) && Cacheable(s1.pending[reader].request)
    ensures end.flushes == s1.flushes && Committed(s1.db, op) == Some(end.db)
    ensures Hit(end, s1.pending[reader].request) == Some(Value(s1.pending[reader]))
  {
    AfterPublish(s1, reader, writer, op, s2, s3);
    AfterStore(s3, reader, s3.pending[reader], s3.pending[reader].request, end);
  }

  /** The condition can fail: whenever a publish changes an answer, a read that has run its statements before
      the commit and stores after the flush leaves the old answer in the cache, with nothing pending that
      would remove it. */
  lemma RaceLeavesStale(s: State, reader: nat, writer: nat, q: Request, op: Op)
    returns (actions: seq<Action>, end: State)
    requires Enabled(s, Read(reader, q)) && writer !in s.flushes
    requires Committed(s.db, op).Some? && Served(Committed(s.db, op).value, q) != Served(s.db, q)
    ensures actions == [Read(reader, q)] + Queried(reader, Statements(q))
      + [Commit(writer, op), Flush(writer), Store(reader)]
    ensures Runs(s, actions, end)
    ensures end.flushes == s.flushes && Hit(end, q) == Some(Served(s.db, q)) && Hit(end, q) != Some(Served(end.db, q))
  {
    var before, after := [Read(reader, q)] + Queried(reader, Statements(q)),
      [Commit(writer, op), Flush(writer), Store(reader)];
    actions := before + after;
    var s1 := s.(pending := s.pending[reader := ReadOf(s.db, q, s.now)]);
    ReadOutRuns(s, reader, q, s1);
    ReadOfValue(s.db, q, s.now);
    var s2 := Apply(s1, Commit(writer, op));
    var s3 := Apply(s2, Flush(writer));
    AfterPublish(s1, reader, writer, op, s2, s3);
    end := Apply(s3, Store(reader));
    PublishThenStoreRuns(s1, reader, writer, op, s2, s3, end);
    PublishThenStore(s1, reader, writer, op, s2, s3, end);
    RunsConcat(s, before, s1, after, end);
  }

  /** A publish moves a read in flight along, and changes nothing in it but the mark. */
  lemma AfterPublish(s1: State, reader: nat, writer: nat, op: Op, s2: State, s3: State)
    requires reader in s1.pending && Enabled(s1, Commit(writer, op)) && s2 == Apply(s1, Commit(writer, op))
    requires Enabled(s2, Flush(writer)) && s3 == Apply(s2, Flush(writer))
    ensures reader in s3.pending && s3.pending[reader].seen == s1.pending[reader].seen
    ensures s3.pending[reader].request == s1.pending[reader].request && s3.pending[reader].key == s1.pending[reader].key
    ensures s3.pending[reader].moments == s1.pending[reader].moments
    ensures Value(s3.pending[reader]) == Value(s1.pending[reader])
    ensures Committed(s1.db, op) == Some(s3.db) && s3.flushes == s1.flushes && s3.now == s1.now
  {
    assert s3.flushes == s1.flushes[writer := FlushPattern(op)] - {writer} == s1.flushes;
  }

  lemma AfterStore(s: State, reader: nat, r: Reading, q: Request, s': State)
    requires Enabled(s, Store(reader)) && r == s.pending[reader] && r.key == Key(q) && Cacheable(q)
      && s' == Apply(s, Store(reader))
    ensures Hit(s', q) == Some(Value(r)) && s'.db == s.db && s'.flushes == s.flushes
  {
  }
}
