/** Calls of `index_rule` that overlap (app/rule/service.py, app/rule/repository.py). At the database's default
    isolation a call's DELETE removes the rows that are committed when it runs; its own rows become visible when
    it commits. Each call is two steps here: the DELETE, and the inserts with the commit. */
module IndexRace {
  import opened Text
  import opened HeadingChunker
  import opened RuleIndex

  /** A call between its DELETE and its commit, and the ids of the rows it has deleted. */
  datatype Session = Session(call: Call, doomed: set<nat>)

  datatype State = State(rows: Table, nextId: nat, sessions: map<nat, Session>)

  const EMPTY: State := State(map[], 1, map[])

  datatype Action = Delete(tid: nat, call: Call) | Finish(tid: nat)

  function SectionIds(t: Table, key: Key): set<nat> {
    set i | i in t && t[i].key == key
  }

  /** The table without the rows; links to them become null. */
  function Without(t: Table, doomed: set<nat>): Table {
    map i | i in t && i !in doomed ::
      if t[i].parentId.Some? && t[i].parentId.value in doomed then t[i].(parentId := None) else t[i]
  }

  /** A call that has something to index, and the vectors for it. */
  ghost predicate Indexing(c: Call) {
    ValidCall(c) && WellChunked(c.records) && c.vectors.Some? && Only(c.records, Child) != []
  }

  ghost predicate Enabled(s: State, a: Action) {
    match a
    case Delete(tid, c) => tid !in s.sessions && Indexing(c)
    case Finish(tid) => tid in s.sessions && Indexing(s.sessions[tid].call)
  }

  /** The inserts of a call, on what its DELETE has left; None when the unique constraint refuses one. */
  ghost function Inserted(s: State, x: Session): Option<Table>
    requires Indexing(x.call)
  {
    InsertAll(Without(s.rows, x.doomed), s.nextId, NewRows(x.call, s.nextId))
  }

  ghost function NextAfter(s: State, x: Session): nat
    requires Indexing(x.call)
  {
    s.nextId + Consumed(Without(s.rows, x.doomed), s.nextId, NewRows(x.call, s.nextId))
  }

  ghost function Apply(s: State, a: Action): State
    requires Enabled(s, a)
  {
    match a
    case Delete(tid, c) => s.(sessions := s.sessions[tid := Session(c, SectionIds(s.rows, c.key))])
    case Finish(tid) =>
      var x := s.sessions[tid];
      State(if Inserted(s, x).Some? then Inserted(s, x).value else s.rows, NextAfter(s, x), s.sessions - {tid})
  }

  ghost predicate Runs(s: State, actions: seq<Action>, s': State)
    decreases |actions|
  {
    if actions == [] then s' == s
    else Enabled(s, actions[0]) && Runs(Apply(s, actions[0]), actions[1..], s')
  }

  // ---- what every interleaving keeps ----

  /** The deleted rows are of the call's section, and no link runs between them and the others. */
  ghost predicate SessionOk(t: Table, nextId: nat, x: Session) {
    && Indexing(x.call)
    && (forall i :: i in x.doomed ==> i < nextId)
    && (forall i :: i in t && i in x.doomed ==> t[i].key == x.call.key)
    && (forall i :: i in t && t[i].parentId.Some? ==> (i in x.doomed <==> t[i].parentId.value in x.doomed))
  }

  ghost predicate TableOk(t: Table, nextId: nat) {
    Unique(t) && LinksResolve(t) && 1 <= nextId && forall i :: i in t ==> 1 <= i < nextId
  }

  ghost predicate Ok(s: State) {
    TableOk(s.rows, s.nextId) && forall tid :: tid in s.sessions ==> SessionOk(s.rows, s.nextId, s.sessions[tid])
  }

  lemma DeleteKeeps(s: State, tid: nat, c: Call)
    requires Ok(s) && Enabled(s, Delete(tid, c))
    ensures Ok(Apply(s, Delete(tid, c)))
  {
    assert SessionOk(s.rows, s.nextId, Session(c, SectionIds(s.rows, c.key)));
  }

  /** No link is lost by the DELETE. */
  lemma WithoutIs(t: Table, nextId: nat, x: Session)
    requires TableOk(t, nextId) && SessionOk(t, nextId, x)
    ensures Without(t, x.doomed) == map i | i in t && i !in x.doomed :: t[i]
  {
  }

  ghost predicate Block(u: Table, t: Table, x: Session, id: nat, rows: seq<Row>) {
    && (forall i :: i in u <==> (i in t && i !in x.doomed) || id <= i < id + |rows|)
    && (forall i :: i in t && i !in x.doomed ==> u[i] == t[i])
    && (forall i :: id <= i < id + |rows| ==> u[i] == rows[i - id])
  }

  lemma BlockIs(t: Table, x: Session, base: Table, u: Table, id: nat, rows: seq<Row>)
    requires Unique(t) && forall i :: i in t ==> i < id
    requires base == map i | i in t && i !in x.doomed :: t[i]
    requires InsertAll(base, id, rows) == Some(u)
    ensures Block(u, t, x, id, rows) && Unique(u) && Consumed(base, id, rows) == |rows|
  {
    InsertAllResult(base, id, rows);
  }

  lemma InsertedIs(s: State, x: Session)
    requires Ok(s) && SessionOk(s.rows, s.nextId, x) && Inserted(s, x).Some?
    ensures Block(Inserted(s, x).value, s.rows, x, s.nextId, NewRows(x.call, s.nextId))
    ensures Unique(Inserted(s, x).value) && NextAfter(s, x) == s.nextId + |NewRows(x.call, s.nextId)|
  {
    WithoutIs(s.rows, s.nextId, x);
    BlockIs(s.rows, x, Without(s.rows, x.doomed), Inserted(s, x).value, s.nextId, NewRows(x.call, s.nextId));
  }

  lemma BlockRow(x: Session, id: nat, rows: seq<Row>, k: nat)
    requires Indexing(x.call) && rows == NewRows(x.call, id) && k < |rows|
    ensures rows[k].key == x.call.key
    ensures rows[k].parentId.Some? ==>
      id <= rows[k].parentId.value < id + |rows| && ParentRowOf(rows[rows[k].parentId.value - id], rows[k])
  {
    BlockLinks(x.call, id, k);
  }

  lemma BlockLinked(u: Table, t: Table, nextId: nat, x: Session, rows: seq<Row>)
    requires TableOk(t, nextId) && SessionOk(t, nextId, x) && rows == NewRows(x.call, nextId)
      && Block(u, t, x, nextId, rows)
    ensures LinksResolve(u)
  {
    forall i | i in u && u[i].parentId.Some?
      ensures u[i].parentId.value in u && ParentRowOf(u[u[i].parentId.value], u[i]) {
      if i >= nextId {
        BlockRow(x, nextId, rows, i - nextId);
      } else {
        assert t[i].parentId.value in t && t[i].parentId.value !in x.doomed;
      }
    }
  }

  lemma OtherSession(u: Table, t: Table, nextId: nat, x: Session, rows: seq<Row>, y: Session)
    requires TableOk(t, nextId) && SessionOk(t, nextId, x) && SessionOk(t, nextId, y)
    requires rows == NewRows(x.call, nextId) && Block(u, t, x, nextId, rows)
    ensures SessionOk(u, nextId + |rows|, y)
  {
    forall i | i in u && u[i].parentId.Some? ensures i in y.doomed <==> u[i].parentId.value in y.doomed {
      if i >= nextId {
        BlockRow(x, nextId, rows, i - nextId);
      }
    }
  }

  lemma LaterSession(t: Table, nextId: nat, later: nat, y: Session)
    requires SessionOk(t, nextId, y) && nextId <= later
    ensures SessionOk(t, later, y)
  {
  }

  lemma FinishKeeps(s: State, tid: nat, x: Session, s': State)
    requires Ok(s) && Enabled(s, Finish(tid)) && x == s.sessions[tid] && s' == Apply(s, Finish(tid))
    ensures Ok(s')
  {
    if Inserted(s, x).Some? {
      InsertedIs(s, x);
      var rows := NewRows(x.call, s.nextId);
      BlockLinked(s'.rows, s.rows, s.nextId, x, rows);
      forall y | y in s'.sessions ensures SessionOk(s'.rows, s'.nextId, s'.sessions[y]) {
        OtherSession(s'.rows, s.rows, s.nextId, x, rows, s.sessions[y]);
      }
    } else {
      forall y | y in s'.sessions ensures SessionOk(s'.rows, s'.nextId, s'.sessions[y]) {
        LaterSession(s.rows, s.nextId, s'.nextId, s.sessions[y]);
      }
    }
  }

  lemma StepKeeps(s: State, a: Action, s': State)
    requires Ok(s) && Enabled(s, a) && s' == Apply(s, a)
    ensures Ok(s')
  {
    match a
    case Delete(tid, c) => DeleteKeeps(s, tid, c);
    case Finish(tid) => FinishKeeps(s, tid, s.sessions[tid], s');
  }

  lemma RunsFirst(s: State, actions: seq<Action>, s': State) returns (m: State)
    requires Runs(s, actions, s') && actions != []
    ensures Enabled(s, actions[0]) && m == Apply(s, actions[0]) && Runs(m, actions[1..], s')
  {
    m := Apply(s, actions[0]);
  }

  lemma {:induction false} RunKeepsOk(s: State, actions: seq<Action>, s': State)
    requires Ok(s) && Runs(s, actions, s')
    ensures Ok(s')
    decreases |actions|
  {
    if actions != [] {
      var m := RunsFirst(s, actions, s');
      StepKeeps(s, actions[0], m);
      RunKeepsOk(m, actions[1..], s');
    }
  }

  // ---- what readers may rely on ----

  /** Every row with an old id was there before, and is as it was: rows do not change, and ids are not reused. */
  ghost predicate Persist(t: Table, nextId: nat, t': Table) {
    forall i :: i in t' && i < nextId ==> i in t && t'[i] == t[i]
  }

  lemma StepPersists(s: State, a: Action, s': State)
    requires Ok(s) && Enabled(s, a) && s' == Apply(s, a)
    ensures Persist(s.rows, s.nextId, s'.rows) && s.nextId <= s'.nextId
  {
    if a.Finish? && Inserted(s, s.sessions[a.tid]).Some? {
      InsertedIs(s, s.sessions[a.tid]);
    }
  }

  lemma PersistOn(t: Table, nextId: nat, m: Table, middle: nat, t': Table)
    requires Persist(t, nextId, m) && Persist(m, middle, t') && nextId <= middle
    ensures Persist(t, nextId, t')
  {
  }

  lemma {:induction false} RunPersists(s: State, actions: seq<Action>, s': State)
    requires Ok(s) && Runs(s, actions, s')
    ensures Ok(s') && Persist(s.rows, s.nextId, s'.rows) && s.nextId <= s'.nextId
    decreases |actions|
  {
    if actions != [] {
      var m := RunsFirst(s, actions, s');
      StepKeeps(s, actions[0], m);
      StepPersists(s, actions[0], m);
      RunPersists(m, actions[1..], s');
      PersistOn(s.rows, s.nextId, m.rows, m.nextId, s'.rows);
    }
  }

  // ---- whose rows a section holds ----

  /** The step indexes a call under the key. */
  ghost predicate Indexes(s: State, a: Action, key: Key) {
    Enabled(s, a) && a.Finish? && s.sessions[a.tid].call.key == key && Inserted(s, s.sessions[a.tid]).Some?
  }

  ghost predicate SomeIndexes(s: State, actions: seq<Action>, key: Key)
    decreases |actions|
  {
    actions != [] && Enabled(s, actions[0]) &&
      (Indexes(s, actions[0], key) || SomeIndexes(Apply(s, actions[0]), actions[1..], key))
  }

  /** Rows of the section that were not there when `doomed` was taken. */
  ghost predicate HasOthers(t: Table, key: Key, doomed: set<nat>) {
    exists i :: i in t && t[i].key == key && i !in doomed
  }

  lemma FinishOthers(s: State, tid: nat, x: Session, s': State, key: Key, doomed: set<nat>)
    requires Ok(s) && Enabled(s, Finish(tid)) && x == s.sessions[tid] && s' == Apply(s, Finish(tid))
    requires forall i :: i in doomed ==> i < s.nextId
    ensures HasOthers(s'.rows, key, doomed) <==> HasOthers(s.rows, key, doomed) || Indexes(s, Finish(tid), key)
  {
    if Inserted(s, x).Some? {
      InsertedIs(s, x);
      var rows := NewRows(x.call, s.nextId);
      BlockAt(x.call, s.nextId, |rows| - 1);
      if x.call.key == key {
        BlockRow(x, s.nextId, rows, 0);
        assert s'.rows[s.nextId].key == key;
      } else {
        OthersElsewhere(s'.rows, s.rows, s.nextId, x, rows, key, doomed);
      }
    }
  }

  lemma OthersElsewhere(u: Table, t: Table, nextId: nat, x: Session, rows: seq<Row>, key: Key, doomed: set<nat>)
    requires SessionOk(t, nextId, x) && rows == NewRows(x.call, nextId) && Block(u, t, x, nextId, rows)
      && x.call.key != key
    ensures HasOthers(u, key, doomed) <==> HasOthers(t, key, doomed)
  {
    if i :| i in u && u[i].key == key && i !in doomed {
      if i >= nextId && i < nextId + |rows| {
        BlockRow(x, nextId, rows, i - nextId);
      }
    }
    if i :| i in t && t[i].key == key && i !in doomed {
      assert i !in x.doomed;
      assert i in u;
    }
  }

  lemma StepOthers(s: State, a: Action, s': State, key: Key, doomed: set<nat>)
    requires Ok(s) && Enabled(s, a) && s' == Apply(s, a) && forall i :: i in doomed ==> i < s.nextId
    ensures HasOthers(s'.rows, key, doomed) <==> HasOthers(s.rows, key, doomed) || Indexes(s, a, key)
    ensures s.nextId <= s'.nextId
  {
    if a.Finish? {
      FinishOthers(s, a.tid, s.sessions[a.tid], s', key, doomed);
    }
  }

  lemma {:induction false} RunOthers(s: State, actions: seq<Action>, s': State, key: Key, doomed: set<nat>)
    requires Ok(s) && Runs(s, actions, s') && forall i :: i in doomed ==> i < s.nextId
    ensures HasOthers(s'.rows, key, doomed) <==> HasOthers(s.rows, key, doomed) || SomeIndexes(s, actions, key)
    decreases |actions|
  {
    if actions != [] {
      var m := RunsFirst(s, actions, s');
      StepKeeps(s, actions[0], m);
      StepOthers(s, actions[0], m, key, doomed);
      RunOthers(m, actions[1..], s', key, doomed);
    }
  }

  /** The section holds rows of one call only, those from `id` on. */
  ghost predicate OnlyFrom(t: Table, key: Key, id: nat) {
    forall i :: i in t && t[i].key == key ==> i >= id
  }

  lemma FinishedOnly(s: State, tid: nat, x: Session, s': State)
    requires Ok(s) && Enabled(s, Finish(tid)) && x == s.sessions[tid] && Inserted(s, x).Some?
      && s' == Apply(s, Finish(tid))
    ensures OnlyFrom(s'.rows, x.call.key, s.nextId) <==> !HasOthers(s.rows, x.call.key, x.doomed)
  {
    InsertedIs(s, x);
    if i :| i in s.rows && s.rows[i].key == x.call.key && i !in x.doomed {
      assert i in s'.rows && i < s.nextId;
    }
  }

  /** Over every interleaving: the slots stay unique and every parent link leads to a parent row that contains
      the child. A section holds the rows of the call that has just been indexed, and no others, exactly when no
      other call was indexed under that section between the call's DELETE and its commit. */
  lemma OverlapExactly(before: seq<Action>, s: State, tid: nat, c: Call, s1: State, between: seq<Action>, s2: State,
                       s3: State)
    requires Runs(EMPTY, before, s)
    requires Enabled(s, Delete(tid, c)) && s1 == Apply(s, Delete(tid, c)) && Runs(s1, between, s2)
    requires tid in s2.sessions && s2.sessions[tid] == s1.sessions[tid]
    requires Enabled(s2, Finish(tid)) && Indexes(s2, Finish(tid), c.key) && s3 == Apply(s2, Finish(tid))
    ensures Unique(s3.rows) && LinksResolve(s3.rows)
    ensures OnlyFrom(s3.rows, c.key, s2.nextId) <==> !SomeIndexes(s1, between, c.key)
  {
    RunKeepsOk(EMPTY, before, s);
    StepKeeps(s, Delete(tid, c), s1);
    RunKeepsOk(s1, between, s2);
    StepKeeps(s2, Finish(tid), s3);
    var doomed := s1.sessions[tid].doomed;
    assert !HasOthers(s1.rows, c.key, doomed);
    assert SessionOk(s1.rows, s1.nextId, s1.sessions[tid]);
    RunOthers(s1, between, s2, c.key, doomed);
    FinishedOnly(s2, tid, s2.sessions[tid], s3);
  }
}
