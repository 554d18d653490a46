/** What one call of `index_rule` leaves in the chunk table (app/rule/service.py, app/rule/repository.py), on the fields
    of the rows and the records. */
module IndexMeaning {
  import opened Text
  import opened HeadingChunker
  import opened RuleIndex
  import C = IndexRace

  // ---- the words of the table ----

  predicate Collides(a: Row, b: Row) {
    a.key.ruleType == b.key.ruleType && a.entity == b.entity && a.chunkIndex == b.chunkIndex
  }

  /** Two rows collide exactly when they agree on type, entity and index. */
  lemma ClashExactly(t: Table, row: Row)
    ensures Clash(t, row) <==> exists i :: i in t && Collides(t[i], row)
  {
    if i :| i in t && Collides(t[i], row) {
      assert SameSlot(t[i], row);
    }
    if i :| i in t && SameSlot(t[i], row) {
      assert Collides(t[i], row);
    }
  }

  /** The link leads to a row of the key. */
  predicate LinksInto(t: Table, key: Key, row: Row) {
    row.parentId.Some? && row.parentId.value in t && t[row.parentId.value].key == key
  }

  /** A deletion takes the rows of the key, and no others; of these it changes nothing but links to deleted rows. */
  lemma DeleteExactly(t: Table, key: Key, i: nat)
    ensures i in DeleteSection(t, key) <==> i in t && t[i].key != key
    ensures i in DeleteSection(t, key) && LinksInto(t, key, t[i])
      ==> DeleteSection(t, key)[i] == t[i].(parentId := None)
    ensures i in DeleteSection(t, key) && !LinksInto(t, key, t[i]) ==> DeleteSection(t, key)[i] == t[i]
  {
  }

  lemma {:induction false} OnlyExactly(records: seq<ChunkRecord>, t: ChunkType)
    ensures forall r :: r in Only(records, t) <==> r in records && r.chunkType == t
  {
    if records != [] {
      OnlyExactly(records[1..], t);
      assert records == [records[0]] + records[1..];
    }
  }

  // ---- the rows of a call ----

  /** The row repeats the record under the call's key, entity and domain. */
  ghost predicate Repeats(row: Row, c: Call, r: ChunkRecord) {
    && row.key == c.key && row.entity == c.entity && row.domain == c.domain
    && row.chunkIndex == r.chunkIndex && row.chunkType == r.chunkType && row.content == r.content
    && row.heading == r.sectionHeading && row.metadata == r.metadata
  }

  /** The link of a child leads to the row of the parent record that it names. */
  ghost predicate LinksTo(row: Row, r: ChunkRecord, parents: seq<ChunkRecord>, id: nat) {
    match r.parentChunkIndex
    case None => row.parentId == None
    case Some(p) => exists m :: 0 <= m < |parents| && parents[m].chunkIndex == p && row.parentId == Some(id + m)
  }

  /** The parents first, without vectors or links; then the children, each with its own vector and its link. */
  ghost predicate RowsOf(rows: seq<Row>, c: Call, id: nat)
    requires ValidCall(c) && c.vectors.Some?
  {
    var parents, children := Only(c.records, Parent), Only(c.records, Child);
    && |rows| == |parents| + |children|
    && (forall k :: 0 <= k < |parents| ==>
      Repeats(rows[k], c, parents[k]) && rows[k].embedding == None && rows[k].parentId == None)
    && (forall k :: 0 <= k < |children| ==>
      Repeats(rows[|parents| + k], c, children[k]) && rows[|parents| + k].embedding == Some(c.vectors.value[k]))
    && (forall k :: 0 <= k < |children| ==> LinksTo(rows[|parents| + k], children[k], parents, id))
  }

  lemma ParentRowExactly(c: Call, id: nat, k: nat)
    requires ValidCall(c) && c.vectors.Some? && k < |Only(c.records, Parent)|
    ensures k < |NewRows(c, id)| && Repeats(NewRows(c, id)[k], c, Only(c.records, Parent)[k])
    ensures NewRows(c, id)[k].embedding == None && NewRows(c, id)[k].parentId == None
  {
    BlockAt(c, id, k);
    var i := OnlySource(c.records, Parent, k);
  }

  lemma ChildRowExactly(c: Call, id: nat, k: nat, at: nat)
    requires ValidCall(c) && c.vectors.Some? && WellChunked(c.records) && k < |Only(c.records, Child)|
    requires at == |Only(c.records, Parent)| + k
    ensures at < |NewRows(c, id)| && Repeats(NewRows(c, id)[at], c, Only(c.records, Child)[k])
    ensures NewRows(c, id)[at].embedding == Some(c.vectors.value[k])
    ensures LinksTo(NewRows(c, id)[at], Only(c.records, Child)[k], Only(c.records, Parent), id)
  {
    BlockAt(c, id, at);
    var i := OnlySource(c.records, Child, k);
    if c.records[i].parentChunkIndex.Some? {
      var m := NamedParent(c.records, i, Only(c.records, Parent), id);
    }
  }

  lemma NamedParent(records: seq<ChunkRecord>, i: nat, parents: seq<ChunkRecord>, id: nat) returns (m: nat)
    requires WellChunked(records) && parents == Only(records, Parent)
    requires i < |records| && records[i].parentChunkIndex.Some?
    ensures m < |parents| && parents[m].chunkIndex == records[i].parentChunkIndex.value
    ensures ParentRef(records[i], ParentIds(parents, id)) == Some(id + m)
  {
    assert Linked(records, i);
    var j :| 0 <= j < i && ParentOf(records[j], records[i]);
    OnlyMember(records, Parent, j);
    m :| 0 <= m < |parents| && parents[m] == records[j];
    ParentIdsAt(parents, id, m);
  }

  lemma RowsExactly(c: Call, id: nat)
    requires ValidCall(c) && c.vectors.Some? && WellChunked(c.records)
    ensures RowsOf(NewRows(c, id), c, id)
  {
    var parents, children, rows := Only(c.records, Parent), Only(c.records, Child), NewRows(c, id);
    forall k | 0 <= k < |parents|
      ensures Repeats(rows[k], c, parents[k]) && rows[k].embedding == None && rows[k].parentId == None
    {
      ParentRowExactly(c, id, k);
    }
    forall k | 0 <= k < |children|
      ensures Repeats(rows[|parents| + k], c, children[k])
      ensures rows[|parents| + k].embedding == Some(c.vectors.value[k])
      ensures LinksTo(rows[|parents| + k], children[k], parents, id)
    {
      ChildRowExactly(c, id, k, |parents| + k);
    }
  }

  // ---- the table after a call ----

  /** Every other section as it was, and in this one exactly the rows of the call, from `id` on. */
  ghost predicate Replaces(t: Table, t': Table, c: Call, id: nat, rows: seq<Row>) {
    && (forall i :: i in t' <==> (i in t && t[i].key != c.key) || id <= i < id + |rows|)
    && (forall i :: i in t && t[i].key != c.key ==> t'[i] == t[i])
    && (forall k :: 0 <= k < |rows| ==> t'[id + k] == rows[k])
  }

  /** A call that is indexed replaces its section by the rows of its records. */
  lemma {:induction false} IndexedExactly(calls: seq<Call>, s: Store, c: Call, s': Store)
    requires forall i :: 0 <= i < |calls| ==> ValidCall(calls[i]) && WellChunked(calls[i].records)
    requires s == Run(calls).0 && ValidCall(c) && WellChunked(c.records) && Apply(s, c) == (s', Indexed)
    ensures c.vectors.Some? && exists rows :: RowsOf(rows, c, s.nextId) && Replaces(s.rows, s'.rows, c, s.nextId, rows)
  {
    RunFacts(calls, s);
    ApplyReplaces(s, c, s');
  }

  lemma RunFacts(calls: seq<Call>, s: Store)
    requires forall i :: 0 <= i < |calls| ==> ValidCall(calls[i]) && WellChunked(calls[i].records)
    requires s == Run(calls).0
    ensures LinksResolve(s.rows) && forall i :: i in s.rows ==> i < s.nextId
  {
    RunKeeps(calls);
    forall i | i in s.rows ensures i < s.nextId {
      assert RowHeld(s.rows, Run(calls).1, i);
    }
  }

  lemma ApplyReplaces(s: Store, c: Call, s': Store)
    requires ValidCall(c) && WellChunked(c.records) && Apply(s, c) == (s', Indexed)
    requires LinksResolve(s.rows) && forall i :: i in s.rows ==> i < s.nextId
    ensures c.vectors.Some? && exists rows :: RowsOf(rows, c, s.nextId) && Replaces(s.rows, s'.rows, c, s.nextId, rows)
  {
    var rows := NewRows(c, s.nextId);
    RowsExactly(c, s.nextId);
    ApplyIndexed(s, c);
    InsertReplaces(s.rows, c, s.nextId, rows, s'.rows);
  }

  lemma InsertReplaces(t: Table, c: Call, id: nat, rows: seq<Row>, t': Table)
    requires LinksResolve(t) && forall i :: i in t ==> i < id
    requires InsertAll(DeleteSection(t, c.key), id, rows) == Some(t')
    ensures Replaces(t, t', c, id, rows)
  {
    DeleteIsLocal(t, c.key);
    InsertAllResult(DeleteSection(t, c.key), id, rows);
  }

  /** With other calls under way: a call takes out exactly the rows of its section that were committed as its DELETE
      ran, and adds exactly the rows of its records, as it commits; or, on a conflict, it changes no row. */
  lemma FinishedExactly(before: seq<C.Action>, s: C.State, tid: nat, c: Call, between: seq<C.Action>, s2: C.State,
                        s3: C.State)
    returns (rows: seq<Row>)
    requires C.Runs(C.EMPTY, before, s) && C.Enabled(s, C.Delete(tid, c))
    requires C.Runs(C.Apply(s, C.Delete(tid, c)), between, s2) && C.Enabled(s2, C.Finish(tid))
    requires s2.sessions[tid] == C.Apply(s, C.Delete(tid, c)).sessions[tid] && s3 == C.Apply(s2, C.Finish(tid))
    ensures c.vectors.Some? && RowsOf(rows, c, s2.nextId)
    ensures s3.rows == s2.rows || Takes(s.rows, s2.rows, s3.rows, c.key, s2.nextId, rows)
  {
    var s1 := C.Apply(s, C.Delete(tid, c));
    rows := NewRows(c, s2.nextId);
    RowsExactly(c, s2.nextId);
    assert s1.sessions[tid] == C.Session(c, C.SectionIds(s.rows, c.key));
    C.RunKeepsOk(C.EMPTY, before, s);
    C.StepKeeps(s, C.Delete(tid, c), s1);
    C.RunKeepsOk(s1, between, s2);
    FinishTakes(s.rows, s2, tid, s2.sessions[tid], rows, s3);
  }

  lemma FinishTakes(t0: Table, s: C.State, tid: nat, x: C.Session, rows: seq<Row>, s': C.State)
    requires C.Ok(s) && C.Enabled(s, C.Finish(tid)) && s.sessions[tid] == x && s' == C.Apply(s, C.Finish(tid))
    requires x.doomed == C.SectionIds(t0, x.call.key) && rows == NewRows(x.call, s.nextId)
    ensures s'.rows == s.rows || Takes(t0, s.rows, s'.rows, x.call.key, s.nextId, rows)
  {
    if C.Inserted(s, x).Some? {
      C.InsertedIs(s, x);
      BlockTakes(t0, s.rows, s'.rows, x, s.nextId, rows);
    }
  }

  lemma BlockTakes(t0: Table, t: Table, t': Table, x: C.Session, id: nat, rows: seq<Row>)
    requires C.Block(t', t, x, id, rows) && x.doomed == C.SectionIds(t0, x.call.key)
    ensures Takes(t0, t, t', x.call.key, id, rows)
  {
    assert forall i :: i in x.doomed <==> i in t0 && t0[i].key == x.call.key;
  }

  /** The rows that had the key in `t0` are out, the new ones are in, and all others are as they were. */
  ghost predicate Takes(t0: Table, t: Table, t': Table, key: Key, id: nat, rows: seq<Row>) {
    && (forall i :: i in t' <==> (i in t && !(i in t0 && t0[i].key == key)) || id <= i < id + |rows|)
    && (forall i :: i in t && !(i in t0 && t0[i].key == key) ==> t'[i] == t[i])
    && (forall k :: 0 <= k < |rows| ==> t'[id + k] == rows[k])
  }

  /** When a call ends how: without children there is nothing to index; without vectors the embedding has failed; and
      unless it is indexed it leaves every row as it was. */
  lemma OutcomeExactly(s: Store, c: Call)
    requires ValidCall(c)
    ensures Apply(s, c).1 == NothingToIndex <==> forall r :: r in c.records ==> r.chunkType == Parent
    ensures Apply(s, c).1 == EmbeddingFailed <==>
      c.vectors.None? && exists r :: r in c.records && r.chunkType == Child
    ensures Apply(s, c).1 != Indexed ==> Apply(s, c).0.rows == s.rows
  {
    OnlyExactly(c.records, Child);
    if Only(c.records, Child) != [] {
      assert Only(c.records, Child)[0] in Only(c.records, Child);
    }
  }
}
