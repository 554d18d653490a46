/** Version numbers under concurrency: each publish reads the maximum of its stream and later inserts a
    row with the next number, guarded by the unique constraint (app/services/versioned_rules.py,
    app/db/rule_models.py). No rows are deleted. */
module VersionAllocation {
  import opened Text
  import opened VersionedRules
  import opened RuleHistory

  /** A publish that has read its version number and not yet inserted. */
  datatype Publisher = Publisher(owner: string, section: string, version: int)

  datatype State = State(table: Table, inFlight: map<nat, Publisher>)

  datatype Action =
    | Read(tid: nat, owner: string, section: string)
    | Insert(tid: nat, body: string, sortOrder: int)

  predicate Enabled(s: State, a: Action) {
    match a
    case Read(tid, _, _) => tid !in s.inFlight
    case Insert(tid, _, _) => tid in s.inFlight
  }

  /** The unique constraint lets the row in. */
  predicate Accepts(t: Table, p: Publisher) {
    FindRow(t, p.owner, p.section, p.version).None?
  }

  function Apply(s: State, a: Action): State
    requires Enabled(s, a)
  {
    match a
    case Read(tid, owner, section) =>
      s.(inFlight := s.inFlight[tid := Publisher(owner, section, NextVersion(s.table, owner, section))])
    case Insert(tid, body, sortOrder) =>
      var p := s.inFlight[tid];
      State(if Accepts(s.table, p) then s.table + [Row(p.owner, p.section, p.version, body, sortOrder)] else s.table,
            s.inFlight - {tid})
  }

  ghost predicate Runs(s: State, actions: seq<Action>, s': State)
    decreases |actions|
  {
    if actions == [] then s' == s
    else Enabled(s, actions[0]) && Runs(Apply(s, actions[0]), actions[1..], s')
  }

  /** The number was the next one of its stream when it was read, and numbers only grow. */
  ghost predicate PublisherOk(t: Table, p: Publisher) {
    1 <= p.version <= NextVersion(t, p.owner, p.section)
  }

  ghost predicate AllOk(t: Table, inFlight: map<nat, Publisher>) {
    forall tid :: tid in inFlight ==> PublisherOk(t, inFlight[tid])
  }

  /** The table grew by rows that were each the next of their stream. */
  ghost predicate Streams(t: Table) {
    t == [] ||
    (var front, r := t[..|t| - 1], t[|t| - 1];
     Streams(front) && r.version == NextVersion(front, r.owner, r.section))
  }

  lemma {:induction false} StreamsRegular(t: Table)
    requires Streams(t)
    ensures Unique(t) && Dense(t)
    decreases |t|
  {
    if t != [] {
      var front, r := StreamsLast(t);
      StreamsRegular(front);
      UniqueAfter(front, r);
      DenseAfter(front, r);
    }
  }

  lemma StreamsLast(t: Table) returns (front: Table, r: Row)
    requires Streams(t) && t != []
    ensures t == front + [r] && Streams(front) && r.version == NextVersion(front, r.owner, r.section)
  {
    front, r := t[..|t| - 1], t[|t| - 1];
  }

  ghost predicate Sound(s: State) {
    Streams(s.table) && AllOk(s.table, s.inFlight)
  }

  /** A publish gets in exactly when its number is still the next one, that is, when nobody else has
      published to its stream since it read the maximum. */
  lemma AcceptedExactly(t: Table, p: Publisher)
    requires Unique(t) && Dense(t) && 1 <= p.version <= NextVersion(t, p.owner, p.section)
    ensures Accepts(t, p) <==> p.version == NextVersion(t, p.owner, p.section)
  {
    if p.version <= MaxVersion(t, p.owner, p.section) {
      DenseIsInterval(t, p.owner, p.section, p.version);
    }
  }

  lemma AllStayOk(t: Table, r: Row, inFlight: map<nat, Publisher>)
    requires AllOk(t, inFlight) && r.version == NextVersion(t, r.owner, r.section)
    ensures AllOk(t + [r], inFlight)
  {
    forall tid | tid in inFlight ensures PublisherOk(t + [r], inFlight[tid]) {
      var p := inFlight[tid];
      MaxAfterPublish(t, r, p.owner, p.section);
    }
  }

  lemma RowKeeps(t: Table, p: Publisher, r: Row)
    requires Streams(t) && PublisherOk(t, p) && Accepts(t, p)
    requires r.owner == p.owner && r.section == p.section && r.version == p.version
    ensures Streams(t + [r]) && r.version == NextVersion(t, r.owner, r.section)
  {
    StreamsRegular(t);
    AcceptedExactly(t, p);
    assert (t + [r])[..|t|] == t;
  }

  lemma ReadKeeps(s: State, tid: nat, owner: string, section: string)
    requires AllOk(s.table, s.inFlight) && tid !in s.inFlight
    ensures AllOk(s.table, Apply(s, Read(tid, owner, section)).inFlight)
  {
  }

  lemma FewerOk(t: Table, inFlight: map<nat, Publisher>, tid: nat)
    requires AllOk(t, inFlight)
    ensures AllOk(t, inFlight - {tid})
  {
  }

  lemma InsertKeeps(s: State, a: Action, p: Publisher, t': Table)
    requires Sound(s) && a.Insert? && Enabled(s, a) && p == s.inFlight[a.tid] && t' == Apply(s, a).table
    ensures Streams(t') && AllOk(t', s.inFlight)
  {
    if Accepts(s.table, p) {
      var r := Row(p.owner, p.section, p.version, a.body, a.sortOrder);
      RowKeeps(s.table, p, r);
      AllStayOk(s.table, r, s.inFlight);
    }
  }

  lemma StepKeeps(s: State, a: Action, s': State)
    requires Sound(s) && Enabled(s, a) && s' == Apply(s, a)
    ensures Sound(s')
  {
    match a
    case Read(tid, owner, section) =>
      ReadKeeps(s, tid, owner, section);
    case Insert(tid, _, _) =>
      InsertKeeps(s, a, s.inFlight[tid], s'.table);
      FewerOk(s'.table, s.inFlight, tid);
  }

  lemma StepGrows(s: State, a: Action)
    requires Enabled(s, a)
    ensures s.table <= Apply(s, a).table
  {
  }

  lemma {:induction false} RunGrows(s: State, actions: seq<Action>, s': State)
    requires Runs(s, actions, s')
    ensures s.table <= s'.table
    decreases |actions|
  {
    if actions != [] {
      StepGrows(s, actions[0]);
      RunGrows(Apply(s, actions[0]), actions[1..], s');
    }
  }

  lemma RunsFirst(s: State, actions: seq<Action>, s': State) returns (a: Action, m: State)
    requires Runs(s, actions, s') && actions != []
    ensures Enabled(s, a) && m == Apply(s, a) && Runs(m, actions[1..], s')
  {
    a := actions[0];
    m := Apply(s, a);
  }

  lemma {:induction false} RunKeeps(s: State, actions: seq<Action>, s': State)
    requires Sound(s) && Runs(s, actions, s')
    ensures Sound(s')
    decreases |actions|
  {
    if actions == [] {
      assert s' == s;
    } else {
      var a, m := RunsFirst(s, actions, s');
      StepKeeps(s, a, m);
      RunKeeps(m, actions[1..], s');
    }
  }

  ghost predicate Holds(t: Table, owner: string, section: string, v: int) {
    exists i :: 0 <= i < |t| && InStream(t[i], owner, section) && t[i].version == v
  }

  predicate SameVersion(a: Row, b: Row) {
    InStream(a, b.owner, b.section) && a.version == b.version
  }

  lemma HoldsExactly(t: Table, owner: string, section: string, v: int)
    requires Streams(t)
    ensures Holds(t, owner, section, v) <==> 1 <= v <= MaxVersion(t, owner, section)
  {
    StreamsRegular(t);
    if 1 <= v <= MaxVersion(t, owner, section) {
      DenseIsInterval(t, owner, section, v);
    }
  }

  lemma HoldsOnce(t: Table, i: nat, j: nat)
    requires Unique(t) && i < |t| && j < |t| && SameVersion(t[i], t[j])
    ensures i == j
  {
    var low, high := if i < j then i else j, if i < j then j else i;
    assert SameVersion(t[low], t[high]);
  }

  /** Over every interleaving of publishes, from empty tables: each stream holds exactly the versions 1 to its
      maximum, each once; and rows once written never change or go. */
  lemma StreamsExact(actions: seq<Action>, s: State, later: seq<Action>, s': State, owner: string, section: string,
                     v: int, i: nat, j: nat)
    requires Runs(State([], map[]), actions, s) && Runs(s, later, s')
    ensures s.table <= s'.table
    ensures Holds(s'.table, owner, section, v) <==> 1 <= v <= MaxVersion(s'.table, owner, section)
    ensures i < |s'.table| && j < |s'.table| && SameVersion(s'.table[i], s'.table[j]) ==> i == j
  {
    RunKeeps(State([], map[]), actions, s);
    RunKeeps(s, later, s');
    RunGrows(s, later, s');
    HoldsExactly(s'.table, owner, section, v);
    if i < |s'.table| && j < |s'.table| && SameVersion(s'.table[i], s'.table[j]) {
      StreamsRegular(s'.table);
      HoldsOnce(s'.table, i, j);
    }
  }

  lemma {:induction false} MaxOfSuffix(t: Table, t': Table, owner: string, section: string)
    requires t <= t' && Streams(t')
    ensures MaxVersion(t, owner, section) <= MaxVersion(t', owner, section)
    ensures MaxVersion(t, owner, section) == MaxVersion(t', owner, section) <==>
      forall r :: r in t'[|t|..] ==> !InStream(r, owner, section)
    decreases |t'|
  {
    if |t| == |t'| {
      assert t == t';
    } else {
      var front, r := t'[..|t'| - 1], t'[|t'| - 1];
      MaxOfSuffix(t, front, owner, section);
      MaxAfterPublish(front, r, owner, section);
      assert t' == front + [r];
      assert t'[|t|..] == front[|t|..] + [r];
    }
  }

  /** A publish that read its number in `s` is let in later exactly when no row of its stream was written in
      between, whoever else was publishing. */
  lemma AcceptedIffUndisturbed(actions: seq<Action>, s: State, later: seq<Action>, s': State, owner: string,
                               section: string)
    requires Runs(State([], map[]), actions, s) && Runs(s, later, s')
    ensures s.table <= s'.table
    ensures Accepts(s'.table, Publisher(owner, section, NextVersion(s.table, owner, section))) <==>
      forall r :: r in s'.table[|s.table|..] ==> !InStream(r, owner, section)
  {
    RunKeeps(State([], map[]), actions, s);
    RunKeeps(s, later, s');
    RunGrows(s, later, s');
    MaxOfSuffix(s.table, s'.table, owner, section);
    StreamsRegular(s'.table);
    AcceptedExactly(s'.table, Publisher(owner, section, NextVersion(s.table, owner, section)));
  }

  ghost predicate Reachable(s: State) {
    LeadsTo(State([], map[]), s)
  }

  ghost predicate LeadsTo(s: State, s': State) {
    exists actions :: Runs(s, actions, s')
  }

  /** What becomes of a publish, on the rows: it read its number in `s` and inserts in `s'`, with the same number in
      flight. If no row of its stream was written in between, the table has one row more, its own, with the version
      after the greatest it read; and otherwise the table stays. */
  lemma PublishOutcome(s: State, tid: nat, owner: string, section: string, m: State, s': State, body: string,
                       sortOrder: int, t': Table)
    returns (v: int)
    requires Reachable(s) && Enabled(s, Read(tid, owner, section)) && m == Apply(s, Read(tid, owner, section))
    requires LeadsTo(m, s') && Enabled(s', Insert(tid, body, sortOrder)) && s'.inFlight[tid] == m.inFlight[tid]
    requires t' == Apply(s', Insert(tid, body, sortOrder)).table
    ensures v == MaxVersion(s.table, owner, section) + 1 && s.table <= s'.table
    ensures t' ==
      if NoneAdded(s.table, s'.table, owner, section) then s'.table + [Row(owner, section, v, body, sortOrder)]
      else s'.table
  {
    var p := ReadThenRun(s, tid, owner, section, m, s');
    v := p.version;
    Concluded(s.table, owner, section, p, s', tid, body, sortOrder, t');
  }

  lemma Concluded(t: Table, owner: string, section: string, p: Publisher, s': State, tid: nat, body: string,
                  sortOrder: int, t': Table)
    requires t <= s'.table && Streams(t) && Streams(s'.table)
    requires p == Publisher(owner, section, NextVersion(t, owner, section))
    requires Enabled(s', Insert(tid, body, sortOrder)) && s'.inFlight[tid] == p
    requires t' == Apply(s', Insert(tid, body, sortOrder)).table
    ensures t' ==
      if NoneAdded(t, s'.table, owner, section) then s'.table + [Row(owner, section, p.version, body, sortOrder)]
      else s'.table
  {
    Inserted(s', tid, body, sortOrder, p, t');
    OutcomeExactly(t, s'.table, owner, section, p, body, sortOrder, t');
  }

  lemma ReadThenRun(s: State, tid: nat, owner: string, section: string, m: State, s': State)
    returns (p: Publisher)
    requires Reachable(s)
    requires Enabled(s, Read(tid, owner, section)) && m == Apply(s, Read(tid, owner, section)) && LeadsTo(m, s')
    ensures p == Publisher(owner, section, NextVersion(s.table, owner, section))
    ensures tid in m.inFlight && m.inFlight[tid] == p
    ensures s.table <= s'.table && Streams(s.table) && Streams(s'.table)
  {
    p := Publisher(owner, section, NextVersion(s.table, owner, section));
    var actions :| Runs(State([], map[]), actions, s);
    var later :| Runs(m, later, s');
    RunKeeps(State([], map[]), actions, s);
    StepKeeps(s, Read(tid, owner, section), m);
    RunKeeps(m, later, s');
    RunGrows(m, later, s');
  }

  lemma OutcomeExactly(t: Table, t': Table, owner: string, section: string, p: Publisher, body: string, sortOrder: int,
                       after: Table)
    requires t <= t' && Streams(t) && Streams(t') && p == Publisher(owner, section, NextVersion(t, owner, section))
    requires after ==
      if Accepts(t', p) then t' + [Row(p.owner, p.section, p.version, body, sortOrder)] else t'
    ensures after ==
      if NoneAdded(t, t', owner, section) then t' + [Row(owner, section, p.version, body, sortOrder)] else t'
  {
    UndisturbedExactly(t, t', owner, section);
  }

  lemma Inserted(s: State, tid: nat, body: string, sortOrder: int, p: Publisher, t': Table)
    requires Enabled(s, Insert(tid, body, sortOrder)) && s.inFlight[tid] == p
    requires t' == Apply(s, Insert(tid, body, sortOrder)).table
    ensures t' ==
      if Accepts(s.table, p) then s.table + [Row(p.owner, p.section, p.version, body, sortOrder)] else s.table
  {
  }

  /** No row of the stream is among those that were added. */
  predicate NoneAdded(t: Table, t': Table, owner: string, section: string) {
    forall i :: |t| <= i < |t'| ==> t'[i].owner != owner || t'[i].section != section
  }

  lemma UndisturbedExactly(t: Table, t': Table, owner: string, section: string)
    requires t <= t' && Streams(t) && Streams(t')
    ensures Accepts(t', Publisher(owner, section, NextVersion(t, owner, section))) <==> NoneAdded(t, t', owner, section)
  {
    MaxOfSuffix(t, t', owner, section);
    StreamsRegular(t');
    AcceptedExactly(t', Publisher(owner, section, NextVersion(t, owner, section)));
    NoneIn(t, t', owner, section);
  }

  lemma NoneIn(t: Table, t': Table, owner: string, section: string)
    requires t <= t'
    ensures (forall r :: r in t'[|t|..] ==> !InStream(r, owner, section)) <==> NoneAdded(t, t', owner, section)
  {
    var added := t'[|t|..];
    if i :| |t| <= i < |t'| && t'[i].owner == owner && t'[i].section == section {
      assert added[i - |t|] == t'[i] && InStream(t'[i], owner, section);
    }
    if r :| r in added && InStream(r, owner, section) {
      var k :| 0 <= k < |added| && added[k] == r;
      assert t'[|t| + k] == r && InStream(t'[|t| + k], owner, section);
    }
  }
}
