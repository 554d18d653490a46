/** The chunk table of the rules and its maintenance: `SqlAlchemyRuleChunkRepository`
    (app/rule/repository.py) and `RuleIndexingService.index_rule` (app/rule/service.py). */
module RuleIndex {
  import opened Text
  import opened HeadingChunker

  type Vector = seq<real>

  /** The section key under which chunks are replaced. */
  datatype Key = Key(ruleType: string, app: Option<string>, pattern: Option<string>, section: string)

  datatype Row = Row(
    key: Key,
    entity: int,
    domain: Option<string>,
    chunkIndex: int,
    chunkType: ChunkType,
    content: string,
    heading: Option<string>,
    metadata: Metadata,
    embedding: Option<Vector>,
    parentId: Option<nat>)

  type Table = map<nat, Row>

  // ---- the table as SQL sees it ----

  /** The unique constraint on (rule_type, rule_entity_id, chunk_index). */
  predicate SameSlot(a: Row, b: Row) {
    a.key.ruleType == b.key.ruleType && a.entity == b.entity && a.chunkIndex == b.chunkIndex
  }

  predicate Clash(t: Table, row: Row) {
    exists i :: i in t && SameSlot(t[i], row)
  }

  /** DELETE by section key; the foreign key is ON DELETE SET NULL. */
  function DeleteSection(t: Table, key: Key): Table {
    map i | i in t && t[i].key != key :: Unhooked(t, key, t[i])
  }

  function Unhooked(t: Table, key: Key, row: Row): Row {
    if row.parentId.Some? && row.parentId.value in t && t[row.parentId.value].key == key
    then row.(parentId := None) else row
  }

  /** Inserts the rows one by one under fresh ids; None when the unique constraint refuses one. */
  function InsertAll(t: Table, id: nat, rows: seq<Row>): Option<Table>
    decreases |rows|
  {
    if rows == [] then Some(t)
    else if Clash(t, rows[0]) then None
    else InsertAll(t[id := rows[0]], id + 1, rows[1..])
  }

  /** How many ids an attempt to insert the rows uses up; a refused row uses one too. */
  function Consumed(t: Table, id: nat, rows: seq<Row>): nat
    decreases |rows|
  {
    if rows == [] then 0
    else if Clash(t, rows[0]) then 1
    else 1 + Consumed(t[id := rows[0]], id + 1, rows[1..])
  }

  // ---- what one call stores ----

  /** One call of `index_rule`; `vectors` is None when the embedding raised. */
  datatype Call = Call(
    key: Key, entity: int, domain: Option<string>, records: seq<ChunkRecord>, vectors: Option<seq<Vector>>)

  function ParentRow(c: Call, r: ChunkRecord): Row {
    Row(c.key, c.entity, c.domain, r.chunkIndex, Parent, r.content, r.sectionHeading, r.metadata, None, None)
  }

  function ParentRows(c: Call, parents: seq<ChunkRecord>): (rows: seq<Row>)
    ensures |rows| == |parents|
  {
    if parents == [] then [] else [ParentRow(c, parents[0])] + ParentRows(c, parents[1..])
  }

  /** The dictionary from a parent's chunk index to its row id. */
  function ParentIds(parents: seq<ChunkRecord>, id: nat): map<int, nat> {
    if parents == [] then map[]
    else
      var n := |parents| - 1;
      ParentIds(parents[..n], id)[parents[n].chunkIndex := id + n]
  }

  function ParentRef(r: ChunkRecord, ids: map<int, nat>): Option<nat> {
    if r.parentChunkIndex.Some? && r.parentChunkIndex.value in ids then Some(ids[r.parentChunkIndex.value]) else None
  }

  function ChildRow(c: Call, r: ChunkRecord, v: Vector, ids: map<int, nat>): Row {
    Row(c.key, c.entity, c.domain, r.chunkIndex, Child, r.content, r.sectionHeading, r.metadata, Some(v),
      ParentRef(r, ids))
  }

  function ChildRows(c: Call, children: seq<ChunkRecord>, vectors: seq<Vector>, ids: map<int, nat>): (rows: seq<Row>)
    requires |vectors| == |children|
    ensures |rows| == |children|
  {
    if children == [] then []
    else [ChildRow(c, children[0], vectors[0], ids)] + ChildRows(c, children[1..], vectors[1..], ids)
  }

  lemma {:induction false} ParentRowsAt(c: Call, parents: seq<ChunkRecord>, k: nat)
    requires k < |parents|
    ensures ParentRows(c, parents)[k] == ParentRow(c, parents[k])
  {
    if k > 0 {
      ParentRowsAt(c, parents[1..], k - 1);
    }
  }

  lemma {:induction false} ChildRowsAt(c: Call, children: seq<ChunkRecord>, vectors: seq<Vector>, ids: map<int, nat>,
                                       k: nat)
    requires |vectors| == |children| && k < |children|
    ensures ChildRows(c, children, vectors, ids)[k] == ChildRow(c, children[k], vectors[k], ids)
  {
    if k > 0 {
      ChildRowsAt(c, children[1..], vectors[1..], ids, k - 1);
    }
  }

  /** `embed_texts` raises or returns one vector per child. */
  ghost predicate ValidCall(c: Call) {
    c.vectors.Some? ==> |c.vectors.value| == |Only(c.records, Child)|
  }

  function NewRows(c: Call, id: nat): seq<Row>
    requires ValidCall(c) && c.vectors.Some?
  {
    var parents := Only(c.records, Parent);
    ParentRows(c, parents) + ChildRows(c, Only(c.records, Child), c.vectors.value, ParentIds(parents, id))
  }

  datatype Outcome = NothingToIndex | EmbeddingFailed | Conflict | Indexed

  /** The table and the next id. */
  datatype Store = Store(rows: Table, nextId: nat)

  /** The effect of one call on the committed table. */
  function Apply(s: Store, c: Call): (Store, Outcome)
    requires ValidCall(c)
  {
    if Only(c.records, Child) == [] then (s, NothingToIndex)
    else if c.vectors.None? then (s, EmbeddingFailed)
    else
      var cleared := DeleteSection(s.rows, c.key);
      var rows := NewRows(c, s.nextId);
      var next := s.nextId + Consumed(cleared, s.nextId, rows);
      match InsertAll(cleared, s.nextId, rows)
      case None => (Store(s.rows, next), Conflict)
      case Some(t) => (Store(t, next), Indexed)
  }

  // ---- the repository over one session ----

  /** The session: the transaction's view of the table, the rows added but not yet flushed, and the
      committed table a failed flush falls back to. Ids come from a sequence, which never goes back. */
  class Repository {
    var rows: Table
    var pending: seq<Row>
    var nextId: nat
    var committed: Table

    constructor ()
      ensures Clean() && Contents() == Store(map[], 1)
    {
      rows, pending, nextId, committed := map[], [], 1, map[];
    }

    /** No transaction is under way. */
    ghost predicate Clean()
      reads this
    {
      rows == committed && pending == []
    }

    ghost function Contents(): Store
      reads this
    {
      Store(committed, nextId)
    }

    method DeleteBySection(key: Key)
      requires pending == []
      modifies this`rows
      ensures rows == DeleteSection(old(rows), key)
    {
      rows := map i | i in rows && rows[i].key != key :: Unhooked(rows, key, rows[i]);
    }

    /** Flushes the pending rows in order; a refused row rolls the whole transaction back. */
    method Flush() returns (ok: bool)
      modifies this`rows, this`pending, this`nextId
      ensures pending == [] && nextId == old(nextId + Consumed(rows, nextId, pending))
      ensures ok == old(InsertAll(rows, nextId, pending)).Some?
      ensures rows == if ok then old(InsertAll(rows, nextId, pending)).value else committed
    {
      ghost var rows0, id0, all := rows, nextId, pending;
      while pending != []
        invariant InsertAll(rows, nextId, pending) == InsertAll(rows0, id0, all)
        invariant nextId + Consumed(rows, nextId, pending) == id0 + Consumed(rows0, id0, all)
        decreases |pending|
      {
        var row := pending[0];
        if Clash(rows, row) {
          rows, pending, nextId := committed, [], nextId + 1;
          return false;
        }
        rows, pending, nextId := rows[nextId := row], pending[1..], nextId + 1;
      }
      ok := true;
    }

    method SaveParent(c: Call, record: ChunkRecord) returns (id: Option<nat>)
      requires pending == []
      modifies this`rows, this`pending, this`nextId
      ensures pending == [] && nextId == old(nextId) + 1
      ensures id == if Clash(old(rows), ParentRow(c, record)) then None else Some(old(nextId))
      ensures rows == if id.None? then committed else old(rows)[old(nextId) := ParentRow(c, record)]
    {
      var before := nextId;
      var row := Row(c.key, c.entity, c.domain, record.chunkIndex, Parent, record.content,
                     record.sectionHeading, record.metadata, None, None);
      pending := pending + [row];
      assert pending[1..] == [];
      var ok := Flush();
      id := if ok then Some(before) else None;
    }

    method SaveChildren(c: Call, records: seq<ChunkRecord>, ids: map<int, nat>, vectors: seq<Vector>)
      requires |vectors| == |records| && pending == []
      modifies this`pending
      ensures pending == ChildRows(c, records, vectors, ids)
    {
      ghost var all := ChildRows(c, records, vectors, ids);
      for i := 0 to |records|
        invariant pending == all[..i]
      {
        ChildRowsAt(c, records, vectors, ids, i);
        var record := records[i];
        var parent := None;
        if record.parentChunkIndex.Some? && record.parentChunkIndex.value in ids {
          parent := Some(ids[record.parentChunkIndex.value]);
        }
        pending := pending + [Row(c.key, c.entity, c.domain, record.chunkIndex, Child, record.content,
                                  record.sectionHeading, record.metadata, Some(vectors[i]), parent)];
      }
    }

    method Commit() returns (ok: bool)
      modifies this
      ensures Clean() && nextId == old(nextId + Consumed(rows, nextId, pending))
      ensures ok == old(InsertAll(rows, nextId, pending)).Some?
      ensures committed == if ok then old(InsertAll(rows, nextId, pending)).value else old(committed)
    {
      ok := Flush();
      committed := rows;
    }

    /** Saves the parents one flush at a time, and records their ids. */
    method SaveParents(c: Call, parents: seq<ChunkRecord>) returns (ids: Option<map<int, nat>>)
      requires pending == []
      modifies this`rows, this`pending, this`nextId
      ensures pending == [] && nextId == old(nextId + Consumed(rows, nextId, ParentRows(c, parents)))
      ensures ids.Some? == old(InsertAll(rows, nextId, ParentRows(c, parents))).Some?
      ensures ids.Some? ==> ids.value == ParentIds(parents, old(nextId)) && nextId == old(nextId) + |parents|
      ensures rows == if ids.Some? then old(InsertAll(rows, nextId, ParentRows(c, parents))).value else committed
    {
      ghost var rows0, id0 := rows, nextId;
      var dict: map<int, nat> := map[];
      ghost var all := ParentRows(c, parents);
      assert parents[..0] == [] && all[0..] == all;
      for i := 0 to |parents|
        invariant pending == [] && nextId == id0 + i
        invariant dict == ParentIds(parents[..i], id0)
        invariant InsertAll(rows, nextId, all[i..]) == InsertAll(rows0, id0, all)
        invariant nextId + Consumed(rows, nextId, all[i..]) == id0 + Consumed(rows0, id0, all)
      {
        ParentRowsAt(c, parents, i);
        assert all[i..][0] == ParentRow(c, parents[i]) && all[i..][1..] == all[i + 1..];
        var id := SaveParent(c, parents[i]);
        if id.None? {
          return None;
        }
        assert parents[..i + 1][..i] == parents[..i];
        dict := dict[parents[i].chunkIndex := id.value];
      }
      assert parents[..|parents|] == parents;
      ids := Some(dict);
    }

    /** `index_rule`: the committed table changes as `Apply` says, and in one step; after a failure it is
        as it was. */
    method IndexRule(c: Call) returns (outcome: Outcome)
      requires Clean() && ValidCall(c)
      modifies this
      ensures Clean()
      ensures (Contents(), outcome) == Apply(old(Contents()), c)
    {
      var parents, children := Only(c.records, Parent), Only(c.records, Child);
      if children == [] {
        return NothingToIndex;
      }
      if c.vectors.None? {
        return EmbeddingFailed;
      }
      DeleteBySection(c.key);
      ghost var cleared, id0 := rows, nextId;
      InsertConcat(cleared, id0, ParentRows(c, parents),
        ChildRows(c, children, c.vectors.value, ParentIds(parents, id0)));
      var ids := SaveParents(c, parents);
      if ids.None? {
        return Conflict;
      }
      SaveChildren(c, children, ids.value, c.vectors.value);
      var ok := Commit();
      outcome := if ok then Indexed else Conflict;
    }
  }

  /** Inserting a list is inserting its two halves in turn. */
  lemma {:induction false} InsertConcat(t: Table, id: nat, a: seq<Row>, b: seq<Row>)
    ensures InsertAll(t, id, a + b)
      == (match InsertAll(t, id, a) case None => None case Some(u) => InsertAll(u, id + |a|, b))
    ensures Consumed(t, id, a + b) == (match InsertAll(t, id, a)
      case None => Consumed(t, id, a)
      case Some(u) => |a| + Consumed(u, id + |a|, b))
    ensures InsertAll(t, id, a).Some? ==> Consumed(t, id, a) == |a|
    decreases |a|
  {
    if a == [] {
      assert a + b == b;
    } else {
      assert (a + b)[0] == a[0] && (a + b)[1..] == a[1..] + b;
      if !Clash(t, a[0]) {
        InsertConcat(t[id := a[0]], id + 1, a[1..], b);
      }
    }
  }

  // ---- what holds over every run ----

  /** What a chunking strategy owes the index: numbered children and parents, and parents that precede
      and contain their children. */
  ghost predicate WellChunked(records: seq<ChunkRecord>) {
    && WellLinked(records)
    && Consecutive(Only(records, Child), 0, 1)
    && Consecutive(Only(records, Parent), -1, -1)
  }

  /** The heading-aware chunker pays it on every text. */
  lemma ChunkerIsWellChunked(text: string, hs: seq<Heading>, base: Metadata, ws: Space)
    requires ValidHeadings(text, hs)
    ensures WellChunked(Chunk(text, hs, base, ws))
  {
    ChunkNumbering(text, hs, base, ws);
    ChunkLinks(text, hs, base, ws);
  }

  /** The call whose chunks a section holds, the id of its first row, and its rows. */
  datatype Holding = Holding(call: Call, id: nat, rows: seq<Row>)

  type Holdings = map<Key, Holding>

  /** The rows are those the call's records give, from `id` on. */
  ghost predicate Faithful(h: Holding) {
    ValidCall(h.call) && h.call.vectors.Some? && h.rows == NewRows(h.call, h.id)
  }

  ghost predicate InBlock(h: Holding, i: int) {
    h.id <= i < h.id + |h.rows|
  }

  /** All rows of one section and entity; every parent link stays inside. */
  ghost predicate LinkedBlock(h: Holding) {
    forall k :: 0 <= k < |h.rows| ==> LinkedRow(h, h.rows[k])
  }

  ghost predicate LinkedRow(h: Holding, row: Row) {
    && row.key == h.call.key && row.entity == h.call.entity
    && (row.parentId.Some? ==> InBlock(h, row.parentId.value) && ParentRowOf(h.rows[row.parentId.value - h.id], row))
  }

  /** Row `i` belongs to its section's holding. */
  ghost predicate RowHeld(t: Table, hs: Holdings, i: nat)
    requires i in t
  {
    t[i].key in hs && InBlock(hs[t[i].key], i)
  }

  /** The holding's rows are in the table, at consecutive ids. */
  ghost predicate Stored(t: Table, h: Holding) {
    forall i: nat :: InBlock(h, i) ==> i in t && t[i] == h.rows[i - h.id]
  }

  /** The table consists of one block per section: all the rows of the section's holding, and nothing else. */
  ghost predicate Consists(s: Store, hs: Holdings) {
    && (forall k :: k in hs ==> hs[k].call.key == k && LinkedBlock(hs[k]) && Stored(s.rows, hs[k]))
    && (forall i :: i in s.rows ==> RowHeld(s.rows, hs, i) && 1 <= i < s.nextId)
    && 1 <= s.nextId
  }

  /** And each holding's rows are those of its call. */
  ghost predicate Holds(s: Store, hs: Holdings) {
    Consists(s, hs) && forall k :: k in hs ==> Faithful(hs[k])
  }

  ghost predicate Unique(t: Table) {
    forall i, j :: i in t && j in t && i != j ==> !SameSlot(t[i], t[j])
  }

  /** `p` is the parent row of `c`: same section, same entity, and its text contains the child's. */
  ghost predicate ParentRowOf(p: Row, c: Row) {
    && p.chunkType == Parent && p.key == c.key && p.entity == c.entity && p.heading == c.heading
    && Contains(p.content, c.content)
  }

  ghost predicate LinksResolve(t: Table) {
    forall i :: i in t && t[i].parentId.Some? ==> t[i].parentId.value in t && ParentRowOf(t[t[i].parentId.value], t[i])
  }

  /** The effect of one call on table and holdings together. */
  ghost function Step(s: Store, hs: Holdings, c: Call): (Store, Holdings)
    requires ValidCall(c)
  {
    var (s', outcome) := Apply(s, c);
    (s', if outcome == Indexed then hs[c.key := Holding(c, s.nextId, NewRows(c, s.nextId))] else hs)
  }

  ghost function Run(calls: seq<Call>): (Store, Holdings)
    requires forall i :: 0 <= i < |calls| ==> ValidCall(calls[i])
  {
    if calls == [] then (Store(map[], 1), map[])
    else
      var n := |calls| - 1;
      var (s, hs) := Run(calls[..n]);
      Step(s, hs, calls[n])
  }

  // ---- one block ----

  lemma {:induction false} OnlyMember(records: seq<ChunkRecord>, t: ChunkType, i: nat)
    requires i < |records| && records[i].chunkType == t
    ensures records[i] in Only(records, t)
  {
    if i > 0 {
      assert records[i] == records[1..][i - 1];
      OnlyMember(records[1..], t, i - 1);
    }
  }

  lemma {:induction false} OnlySource(records: seq<ChunkRecord>, t: ChunkType, k: nat) returns (i: nat)
    requires k < |Only(records, t)|
    ensures i < |records| && records[i] == Only(records, t)[k] && records[i].chunkType == t
  {
    if records[0].chunkType == t && k == 0 {
      i := 0;
    } else {
      var j := OnlySource(records[1..], t, if records[0].chunkType == t then k - 1 else k);
      i := j + 1;
    }
  }

  lemma {:induction false} ParentIdsAt(parents: seq<ChunkRecord>, id: nat, m: nat)
    requires Consecutive(parents, -1, -1) && m < |parents|
    ensures parents[m].chunkIndex in ParentIds(parents, id) && ParentIds(parents, id)[parents[m].chunkIndex] == id + m
  {
    var n := |parents| - 1;
    if m < n {
      assert Consecutive(parents[..n], -1, -1);
      ParentIdsAt(parents[..n], id, m);
    }
  }

  /** The row at place `k` of a call's block. */
  lemma BlockAt(c: Call, id: nat, k: nat)
    requires ValidCall(c) && c.vectors.Some? && k < |NewRows(c, id)|
    ensures var parents, children := Only(c.records, Parent), Only(c.records, Child);
      && |NewRows(c, id)| == |parents| + |children|
      && NewRows(c, id)[k] == if k < |parents| then ParentRow(c, parents[k])
        else ChildRow(c, children[k - |parents|], c.vectors.value[k - |parents|], ParentIds(parents, id))
  {
    var parents, children := Only(c.records, Parent), Only(c.records, Child);
    var front, back := ParentRows(c, parents), ChildRows(c, children, c.vectors.value, ParentIds(parents, id));
    assert NewRows(c, id) == front + back;
    if k < |parents| {
      ParentRowsAt(c, parents, k);
    } else {
      assert (front + back)[k] == back[k - |parents|];
      ChildRowsAt(c, children, c.vectors.value, ParentIds(parents, id), k - |parents|);
    }
  }

  /** Inside a block every parent link leads to a parent row of the same block that contains the child. */
  lemma BlockLinks(c: Call, id: nat, k: nat)
    requires ValidCall(c) && c.vectors.Some? && WellChunked(c.records) && k < |NewRows(c, id)|
    ensures var rows := NewRows(c, id);
      && rows[k].key == c.key && rows[k].entity == c.entity
      && (rows[k].parentId.Some? ==>
        var p := rows[k].parentId.value; id <= p < id + |rows| && ParentRowOf(rows[p - id], rows[k]))
  {
    var rows := NewRows(c, id);
    var parents, children := Only(c.records, Parent), Only(c.records, Child);
    BlockAt(c, id, k);
    if k >= |parents| && rows[k].parentId.Some? {
      var i := OnlySource(c.records, Child, k - |parents|);
      var child := c.records[i];
      assert Linked(c.records, i);
      var j :| 0 <= j < i && ParentOf(c.records[j], child);
      OnlyMember(c.records, Parent, j);
      var m :| 0 <= m < |parents| && parents[m] == c.records[j];
      ParentIdsAt(parents, id, m);
      BlockAt(c, id, m);
    }
  }

  lemma BlockIndexAt(c: Call, id: nat, k: nat)
    requires ValidCall(c) && c.vectors.Some? && WellChunked(c.records) && k < |NewRows(c, id)|
    ensures var n := |Only(c.records, Parent)|; NewRows(c, id)[k].chunkIndex == if k < n then -1 - k else k - n
  {
    BlockAt(c, id, k);
  }

  lemma BlockIndices(c: Call, id: nat, k: nat, l: nat)
    requires ValidCall(c) && c.vectors.Some? && WellChunked(c.records) && k < l < |NewRows(c, id)|
    ensures !SameSlot(NewRows(c, id)[k], NewRows(c, id)[l])
  {
    BlockIndexAt(c, id, k);
    BlockIndexAt(c, id, l);
  }

  // ---- one step ----

  lemma {:induction false} InsertAllResult(t: Table, id: nat, rows: seq<Row>)
    requires forall i :: i in t ==> i < id
    requires InsertAll(t, id, rows).Some?
    ensures var u := InsertAll(t, id, rows).value;
      && (forall i :: i in u <==> i in t || id <= i < id + |rows|)
      && (forall i :: i in t ==> u[i] == t[i])
      && (forall i :: id <= i < id + |rows| ==> u[i] == rows[i - id])
      && (Unique(t) ==> Unique(u))
    ensures Consumed(t, id, rows) == |rows|
    decreases |rows|
  {
    if rows != [] {
      var t' := t[id := rows[0]];
      if Unique(t) {
        forall i, j | i in t' && j in t' && i != j ensures !SameSlot(t'[i], t'[j]) {
          if i == id {
            assert !SameSlot(t[j], rows[0]);
          } else if j == id {
            assert !SameSlot(t[i], rows[0]);
          }
        }
      }
      InsertAllResult(t', id + 1, rows[1..]);
    }
  }

  /** Deleting a section leaves every other section exactly as it was: no link is unhooked. */
  lemma DeleteIsLocal(t: Table, key: Key)
    requires LinksResolve(t)
    ensures DeleteSection(t, key) == map i | i in t && t[i].key != key :: t[i]
  {
  }

  lemma LinkInBlock(t: Table, h: Holding, i: nat)
    requires Stored(t, h) && LinkedBlock(h) && InBlock(h, i) && t[i].parentId.Some?
    ensures t[i].parentId.value in t && ParentRowOf(t[t[i].parentId.value], t[i])
  {
    assert t[i] == h.rows[i - h.id];
    assert LinkedRow(h, h.rows[i - h.id]);
    assert InBlock(h, t[i].parentId.value);
  }

  lemma LinksFromHolds(s: Store, hs: Holdings)
    requires Consists(s, hs)
    ensures LinksResolve(s.rows)
  {
    forall i | i in s.rows && s.rows[i].parentId.Some?
      ensures s.rows[i].parentId.value in s.rows && ParentRowOf(s.rows[s.rows[i].parentId.value], s.rows[i])
    {
      assert RowHeld(s.rows, hs, i);
      LinkInBlock(s.rows, hs[s.rows[i].key], i);
    }
  }

  lemma NewBlock(c: Call, id: nat, h: Holding)
    requires ValidCall(c) && c.vectors.Some? && WellChunked(c.records)
    requires h == Holding(c, id, NewRows(c, id))
    ensures Faithful(h) && LinkedBlock(h)
  {
    forall k | 0 <= k < |h.rows| ensures LinkedRow(h, h.rows[k]) {
      BlockLinks(c, id, k);
    }
  }

  /** The table after a section was replaced: its new block, and every other section's rows. */
  ghost predicate Replaced(t0: Table, h: Holding, t: Table) {
    && (forall i :: i in t0 && t0[i].key != h.call.key ==> i in t && t[i] == t0[i])
    && (forall i :: i in t ==> InBlock(h, i) || (i in t0 && t0[i].key != h.call.key))
    && Stored(t, h)
  }

  lemma ReplacedByInsert(t0: Table, h: Holding, t: Table)
    requires LinksResolve(t0) && Unique(t0) && forall i :: i in t0 ==> i < h.id
    requires InsertAll(DeleteSection(t0, h.call.key), h.id, h.rows) == Some(t)
    ensures Replaced(t0, h, t) && Unique(t)
  {
    DeleteIsLocal(t0, h.call.key);
    InsertAllResult(DeleteSection(t0, h.call.key), h.id, h.rows);
  }

  lemma StoredElsewhere(t0: Table, h0: Holding, h: Holding, t: Table)
    requires Stored(t0, h0) && LinkedBlock(h0) && h0.call.key != h.call.key && Replaced(t0, h, t)
    ensures Stored(t, h0)
  {
    forall i: nat | InBlock(h0, i) ensures i in t && t[i] == h0.rows[i - h0.id] {
      assert LinkedRow(h0, h0.rows[i - h0.id]);
      assert t0[i] == h0.rows[i - h0.id];
    }
  }

  lemma HeldAfter(s: Store, hs: Holdings, h: Holding, t: Table, i: nat)
    requires Consists(s, hs) && LinkedBlock(h) && h.id == s.nextId && Replaced(s.rows, h, t) && i in t
    ensures RowHeld(t, hs[h.call.key := h], i) && 1 <= i < s.nextId + |h.rows|
  {
    if InBlock(h, i) {
      assert LinkedRow(h, h.rows[i - h.id]);
      assert t[i] == h.rows[i - h.id];
    } else {
      assert RowHeld(s.rows, hs, i);
    }
  }

  /** Replacing a section's block: the new holding takes the place of the old one, the rest stays. */
  lemma ReplaceBlock(s: Store, hs: Holdings, h: Holding, t: Table)
    requires Consists(s, hs) && LinkedBlock(h) && h.id == s.nextId && Replaced(s.rows, h, t)
    ensures Consists(Store(t, s.nextId + |h.rows|), hs[h.call.key := h])
  {
    var hs' := hs[h.call.key := h];
    forall i | i in t ensures RowHeld(t, hs', i) && 1 <= i < s.nextId + |h.rows| {
      HeldAfter(s, hs, h, t, i);
    }
    forall k | k in hs' ensures hs'[k].call.key == k && LinkedBlock(hs'[k]) && Stored(t, hs'[k]) {
      if k != h.call.key {
        StoredElsewhere(s.rows, hs[k], h, t);
      }
    }
  }

  lemma ApplyIndexed(s: Store, c: Call)
    requires ValidCall(c) && c.vectors.Some? && (forall i :: i in s.rows ==> i < s.nextId)
    requires Apply(s, c).1 == Indexed
    ensures var rows := NewRows(c, s.nextId); var (s', outcome) := Apply(s, c);
      && InsertAll(DeleteSection(s.rows, c.key), s.nextId, rows) == Some(s'.rows)
      && s'.nextId == s.nextId + |rows|
  {
    InsertAllResult(DeleteSection(s.rows, c.key), s.nextId, NewRows(c, s.nextId));
  }

  lemma StepKeeps(s: Store, hs: Holdings, c: Call)
    requires Holds(s, hs) && Unique(s.rows) && ValidCall(c) && WellChunked(c.records)
    ensures Holds(Step(s, hs, c).0, Step(s, hs, c).1) && Unique(Step(s, hs, c).0.rows)
  {
    var (s', outcome) := Apply(s, c);
    if outcome == Indexed {
      ApplyIndexed(s, c);
      var h := Holding(c, s.nextId, NewRows(c, s.nextId));
      NewBlock(c, s.nextId, h);
      LinksFromHolds(s, hs);
      ReplacedByInsert(s.rows, h, s'.rows);
      ReplaceBlock(s, hs, h, s'.rows);
    }
  }

  // ---- main results ----

  /** Over every run of `index_rule` calls: each section holds exactly the rows of the last call that was
      indexed under it, and so of one entity only; (type, entity, index) is unique; and every parent link
      leads to a parent row of the same section and entity whose text contains the child's. */
  lemma {:induction false} RunKeeps(calls: seq<Call>)
    requires forall i :: 0 <= i < |calls| ==> ValidCall(calls[i]) && WellChunked(calls[i].records)
    ensures Holds(Run(calls).0, Run(calls).1) && Unique(Run(calls).0.rows) && LinksResolve(Run(calls).0.rows)
  {
    if calls != [] {
      var n := |calls| - 1;
      RunKeeps(calls[..n]);
      StepKeeps(Run(calls[..n]).0, Run(calls[..n]).1, calls[n]);
    }
    LinksFromHolds(Run(calls).0, Run(calls).1);
  }

  /** One call touches its own section only; and unless it is indexed it touches nothing. */
  lemma ApplyIsLocal(s: Store, hs: Holdings, c: Call)
    requires Holds(s, hs) && Unique(s.rows) && ValidCall(c) && WellChunked(c.records)
    ensures var (s', outcome) := Apply(s, c);
      && (outcome != Indexed ==> s'.rows == s.rows)
      && (forall i :: i in s.rows && s.rows[i].key != c.key ==> i in s'.rows && s'.rows[i] == s.rows[i])
      && (forall i :: i in s'.rows && s'.rows[i].key != c.key ==> i in s.rows)
  {
    var (s', outcome) := Apply(s, c);
    if outcome == Indexed {
      ApplyIndexed(s, c);
      var h := Holding(c, s.nextId, NewRows(c, s.nextId));
      NewBlock(c, s.nextId, h);
      LinksFromHolds(s, hs);
      ReplacedByInsert(s.rows, h, s'.rows);
      forall i | i in s'.rows && s'.rows[i].key != c.key ensures i in s.rows {
        HeldAfter(s, hs, h, s'.rows, i);
      }
    }
  }

  lemma {:induction false} NoClashInserts(t: Table, id: nat, rows: seq<Row>)
    requires forall i :: i in t ==> i < id
    requires forall k, l :: 0 <= k < l < |rows| ==> !SameSlot(rows[k], rows[l])
    ensures InsertAll(t, id, rows).Some? <==> forall k :: 0 <= k < |rows| ==> !Clash(t, rows[k])
    decreases |rows|
  {
    if rows != [] && !Clash(t, rows[0]) {
      var t', tail := t[id := rows[0]], rows[1..];
      NoClashInserts(t', id + 1, tail);
      forall k | 0 <= k < |tail| ensures Clash(t', tail[k]) <==> Clash(t, tail[k]) {
        assert tail[k] == rows[k + 1];
        assert !SameSlot(rows[0], rows[k + 1]);
        if Clash(t, tail[k]) {
          var i :| i in t && SameSlot(t[i], tail[k]);
          assert i in t' && t'[i] == t[i];
        }
      }
      if forall k :: 0 <= k < |tail| ==> !Clash(t, tail[k]) {
        forall k | 0 <= k < |rows| ensures !Clash(t, rows[k]) {
          if k > 0 {
            assert rows[k] == tail[k - 1];
          }
        }
      } else {
        var k :| 0 <= k < |tail| && Clash(t, tail[k]);
        assert Clash(t, rows[k + 1]);
      }
    }
  }

  /** A call is refused exactly when some other section already holds a row of the same type, entity and
      index; publishing under a fresh entity id is never refused. */
  lemma ConflictExactly(s: Store, hs: Holdings, c: Call)
    requires Holds(s, hs) && Unique(s.rows) && ValidCall(c) && WellChunked(c.records)
    requires Only(c.records, Child) != [] && c.vectors.Some?
    ensures Apply(s, c).1 == Conflict <==>
      exists i, k :: i in s.rows && s.rows[i].key != c.key && 0 <= k < |NewRows(c, s.nextId)|
        && SameSlot(s.rows[i], NewRows(c, s.nextId)[k])
  {
    LinksFromHolds(s, hs);
    DeleteIsLocal(s.rows, c.key);
    var cleared, rows := DeleteSection(s.rows, c.key), NewRows(c, s.nextId);
    forall k, l | 0 <= k < l < |rows| ensures !SameSlot(rows[k], rows[l]) {
      BlockIndices(c, s.nextId, k, l);
    }
    NoClashInserts(cleared, s.nextId, rows);
    if k :| 0 <= k < |rows| && Clash(cleared, rows[k]) {
      var i :| i in cleared && SameSlot(cleared[i], rows[k]);
      assert i in s.rows && s.rows[i].key != c.key;
    }
    forall i, k | i in s.rows && s.rows[i].key != c.key && 0 <= k < |rows| && SameSlot(s.rows[i], rows[k])
      ensures Clash(cleared, rows[k])
    {
      assert i in cleared && cleared[i] == s.rows[i];
    }
  }

  /** A body has nothing to index exactly when it has no visible text outside its headings; a section
      whose new body is blank therefore keeps its old chunks. */
  lemma NothingToIndexExactly(text: string, hs: seq<Heading>, base: Metadata, ws: Space)
    requires ValidHeadings(text, hs)
    ensures Only(Chunk(text, hs, base, ws), Child) == [] <==> Visible(Outside(text, hs, 0), ws) == []
  {
    var children := Only(Chunk(text, hs, base, ws), Child);
    ChunkConserves(text, hs, base, ws);
    if children != [] {
      var sections := SplitByHeadings(text, hs, ws);
      NumberShape(Groups(sections, ws), base, -1, 0);
      ContentsAt(children);
      var piece := Contents(children)[0];
      assert piece in AllPieces(Groups(sections, ws));
      PieceIsVisible(sections, ws, piece);
      VisibleConcat(piece, Flatten(Contents(children)[1..]), ws);
    }
  }

  lemma {:induction false} PieceIsVisible(sections: seq<Section>, ws: Space, piece: string)
    requires piece in AllPieces(Groups(sections, ws))
    ensures Visible(piece, ws) != []
  {
    if sections != [] {
      if piece in GroupOf(sections[0], ws).pieces {
        GroupIsWellCut(sections[0], ws);
        var i, j := StripIsSlice(piece, ws);
        assert piece == [piece[0]] + piece[1..];
        assert !ws(piece[0]);
      } else {
        PieceIsVisible(sections[1..], ws, piece);
      }
    }
  }
}
