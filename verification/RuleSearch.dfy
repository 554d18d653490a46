/** From ranked ids to hits with parent context: `hybrid_rule_search` (app/services/search_rules.py).
    What the database ranks is a parameter; what a query may return is `Ranking`. */
module RuleSearch {
  import opened Text
  import opened HeadingChunker
  import opened RuleIndex
  import R = IndexRace
  import F = RankFusion

  datatype Hit = Hit(id: nat, row: Row, parentContent: Option<string>)

  datatype Mode = NoIndex | IndexedNoMatch | HybridOk

  datatype Filter = Filter(ruleType: Option<string>, app: Option<string>)

  /** `if rule_type:` and `if app_name:` skip an empty string like an absent one. */
  predicate Passes(f: Filter, row: Row) {
    && row.chunkType != Parent
    && (f.ruleType.Some? && f.ruleType.value != "" ==> row.key.ruleType == f.ruleType.value)
    && (f.app.Some? && f.app.value != "" ==> row.key.app == f.app)
  }

  /** A query's result: at most `limit` distinct ids of rows that pass the filter. */
  ghost predicate Ranking(t: Table, f: Filter, ids: seq<int>, limit: nat) {
    && |ids| <= limit && F.Distinct(ids)
    && (forall i :: 0 <= i < |ids| ==> 0 <= ids[i] && (ids[i] as nat) in t && Passes(f, t[ids[i] as nat]))
  }

  function ScopeFilter(scope: string, app: Option<string>): Filter {
    Filter(if scope in ["global", "app", "repo"] then Some(scope) else None, app)
  }

  function Prefix<T>(s: seq<T>, n: nat): seq<T> {
    if n <= |s| then s[..n] else s
  }

  /** The chunk table as each statement of one search finds it. */
  datatype Moments = Moments(counted: Table, vector: Table, text: Table, rows: Table, parents: Table)

  /** The first `n` of the list, or all of it. */
  ghost predicate Top(out: seq<int>, all: seq<int>, n: nat) {
    |out| == (if n <= |all| then n else |all|) && forall i :: 0 <= i < |out| ==> out[i] == all[i]
  }

  /** The text of the parent row, looked up among the rows the hits point to. */
  function ParentContent(parents: Table, row: Row): Option<string> {
    if row.parentId.Some? && row.parentId.value != 0 && row.parentId.value in parents
    then Some(parents[row.parentId.value].content) else None
  }

  function HitFor(rows: Table, parents: Table, id: nat): Hit
    requires id in rows
  {
    Hit(id, rows[id], ParentContent(parents, rows[id]))
  }

  /** The ranked ids whose rows are still there, in ranked order. */
  function Present(rows: Table, ranked: seq<int>): (ids: seq<nat>)
    ensures forall i :: 0 <= i < |ids| ==> ids[i] in rows && ids[i] in ranked
  {
    if ranked == [] then []
    else
      var last := ranked[|ranked| - 1];
      Present(rows, ranked[..|ranked| - 1]) + if 0 <= last && (last as nat) in rows then [last as nat] else []
  }

  lemma PresentNext(rows: Table, ranked: seq<int>, k: nat)
    requires k < |ranked|
    ensures Present(rows, ranked[..k + 1]) ==
      Present(rows, ranked[..k]) + if 0 <= ranked[k] && (ranked[k] as nat) in rows then [ranked[k] as nat] else []
  {
    assert ranked[..k + 1][..k] == ranked[..k];
  }

  lemma {:induction false} PresentAll(rows: Table, ranked: seq<int>)
    requires forall i :: 0 <= i < |ranked| ==> 0 <= ranked[i] && (ranked[i] as nat) in rows
    ensures |Present(rows, ranked)| == |ranked|
    ensures forall i :: 0 <= i < |ranked| ==> Present(rows, ranked)[i] == ranked[i]
  {
    if ranked != [] {
      PresentAll(rows, ranked[..|ranked| - 1]);
    }
  }

  /** The ranked rows that are still there, in ranked order, each with the content of the parent it links to. */
  method Hits(rows: Table, parents: Table, ranked: seq<int>) returns (out: seq<Hit>)
    ensures |out| == |Present(rows, ranked)|
    ensures forall i :: 0 <= i < |out| ==> out[i] == HitFor(rows, parents, Present(rows, ranked)[i])
  {
    var found: seq<nat> := [];
    for k := 0 to |ranked|
      invariant found == Present(rows, ranked[..k])
    {
      PresentNext(rows, ranked, k);
      if 0 <= ranked[k] && (ranked[k] as nat) in rows {
        found := found + [ranked[k] as nat];
      }
    }
    assert ranked[..|ranked|] == ranked;
    var linked := map i |
      i in parents && exists k :: 0 <= k < |found| && rows[found[k]].parentId == Some(i) :: parents[i];
    out := [];
    for k := 0 to |found|
      invariant |out| == k && forall i :: 0 <= i < k ==> out[i] == HitFor(rows, parents, found[i])
    {
      var row := rows[found[k]];
      var content := None;
      if row.parentId.Some? && row.parentId.value != 0 && row.parentId.value in linked {
        content := Some(linked[row.parentId.value].content);
      }
      out := out + [Hit(found[k], row, content)];
    }
  }

  /** The id names a row that passes. */
  predicate Named(t: Table, f: Filter, id: int) {
    0 <= id && (id as nat) in t && Passes(f, t[id as nat])
  }

  /** A fused list of two rankings lists only rows that passed in one of them. */
  lemma FusedPasses(s: Table, t: Table, f: Filter, fused: seq<int>, a: seq<int>, b: seq<int>)
    requires F.Fused(fused, [a, b], F.RRF_K)
    requires Ranking(s, f, a, |a|) && Ranking(t, f, b, |b|)
    ensures forall i :: 0 <= i < |fused| ==> Named(s, f, fused[i]) || Named(t, f, fused[i])
  {
    forall i | 0 <= i < |fused| ensures Named(s, f, fused[i]) || Named(t, f, fused[i]) {
      F.PairScore(a, b, fused[i], F.RRF_K);
      assert fused[i] in fused;
      assert fused[i] in F.Concat([a, b]);
    }
  }

  /** The whole search. `vector` is None when embedding the query failed; then the text ranking, fetched
      five times as deep, stands alone. */
  method HybridRuleSearch(at: Moments, scope: string, app: Option<string>, topN: nat,
                          vector: Option<seq<int>>, text: seq<int>)
    returns (out: seq<Hit>, mode: Mode, ghost ranked: seq<int>)
    requires vector.Some? ==> Ranking(at.vector, ScopeFilter(scope, app), vector.value, F.SEARCH_LIMIT)
    requires Ranking(at.text, ScopeFilter(scope, app), text, if vector.Some? then F.SEARCH_LIMIT else topN * 5)
    ensures mode == NoIndex <==> forall i :: i in at.counted ==> !Passes(ScopeFilter(scope, app), at.counted[i])
    ensures mode == NoIndex ==> ranked == []
    ensures mode != NoIndex && vector.None? ==> Top(ranked, text, topN)
    ensures mode != NoIndex && vector.Some? ==>
      exists fused :: F.Fused(fused, [vector.value, text], 60) && Top(ranked, fused, topN)
    ensures mode == HybridOk <==> ranked != []
    ensures F.Distinct(ranked) && forall i :: 0 <= i < |ranked| ==>
      Named(at.vector, ScopeFilter(scope, app), ranked[i]) || Named(at.text, ScopeFilter(scope, app), ranked[i])
    ensures |out| == |Present(at.rows, ranked)|
    ensures forall i :: 0 <= i < |out| ==> out[i] == HitFor(at.rows, at.parents, Present(at.rows, ranked)[i])
  {
    var f := ScopeFilter(scope, app);
    ranked, out := [], [];
    if forall i | i in at.counted :: !Passes(f, at.counted[i]) {
      return [], NoIndex, [];
    }
    var chosen;
    if vector.None? {
      chosen := Prefix(text, topN);
    } else {
      var fused := F.Fuse([vector.value, text], F.RRF_K);
      FusedPasses(at.vector, at.text, f, fused, vector.value, text);
      chosen := Prefix(fused, topN);
    }
    ranked := chosen;
    if chosen == [] {
      return [], IndexedNoMatch, [];
    }
    out := Hits(at.rows, at.parents, chosen);
    mode := HybridOk;
  }

  // ---- which rows are kept, and shown ----

  /** The filter of a search: children only, of the scope's type if it names one, and of the app if one is given. */
  lemma PassesExactly(scope: string, app: Option<string>, row: Row)
    ensures Passes(ScopeFilter(scope, app), row) <==>
      && row.chunkType == Child
      && (scope == "global" || scope == "app" || scope == "repo" ==> row.key.ruleType == scope)
      && (app.Some? && app.value != "" ==> row.key.app == app)
  {
  }

  /** Whatever is kept is better than whatever is left out. */
  lemma BestKept(vector: seq<int>, text: seq<int>, fused: seq<int>, ranked: seq<int>, topN: nat, x: int, y: int)
    requires F.Distinct(vector) && F.Distinct(text) && F.Fused(fused, [vector, text], F.RRF_K)
    requires Top(ranked, fused, topN) && x in ranked && y in fused && y !in ranked
    ensures F.Better(vector, text, 60, x, y)
  {
    var i :| 0 <= i < |ranked| && ranked[i] == x;
    var j :| 0 <= j < |fused| && fused[j] == y;
    assert forall m :: 0 <= m < |ranked| ==> fused[m] == ranked[m] && ranked[m] in ranked;
    F.FusedByWorth(fused, vector, text, F.RRF_K, i, j);
  }

  /** The ids shown are exactly those ranked whose rows are still there, in the order of the ranking. */
  lemma {:induction false} PresentExactly(rows: Table, ranked: seq<int>)
    requires F.Distinct(ranked)
    ensures forall id: nat :: id in Present(rows, ranked) <==> (id as int) in ranked && id in rows
    ensures forall i, j :: 0 <= i < j < |Present(rows, ranked)| ==>
      F.IndexOf(ranked, Present(rows, ranked)[i]) < F.IndexOf(ranked, Present(rows, ranked)[j])
  {
    if ranked != [] {
      var front, last := ranked[..|ranked| - 1], ranked[|ranked| - 1];
      assert ranked == front + [last];
      PresentExactly(rows, front);
      var before, all := Present(rows, front), Present(rows, ranked);
      forall i, j | 0 <= i < j < |all| ensures F.IndexOf(ranked, all[i]) < F.IndexOf(ranked, all[j]) {
        assert all[i] in front;
        F.IndexPrefix(front, [last], all[i]);
        if j < |before| {
          assert all[j] in front;
          F.IndexPrefix(front, [last], all[j]);
        } else {
          F.IndexAppend(front, [last], all[j]);
        }
      }
    }
  }

  /** A hit is the ranked id with its row, and the content of the row its parent link leads to, if that is there. */
  lemma HitExactly(rows: Table, parents: Table, id: nat)
    requires id in rows
    ensures var hit := HitFor(rows, parents, id);
      && hit.id == id && hit.row == rows[id]
      && (hit.parentContent.Some? <==>
        rows[id].parentId.Some? && rows[id].parentId.value != 0 && rows[id].parentId.value in parents)
      && (hit.parentContent.Some? ==> hit.parentContent.value == parents[rows[id].parentId.value].content)
  {
  }

  // ---- searches over a living index ----

  /** Search over an index at rest: over every table that any run of `index_rule` calls leaves, a hit shows a
      parent text exactly when its chunk links to a parent, and the chunk stands in that text contiguously. */
  lemma {:induction false} HitInContext(calls: seq<Call>, id: nat)
    requires forall i :: 0 <= i < |calls| ==> ValidCall(calls[i]) && WellChunked(calls[i].records)
    requires id in Run(calls).0.rows
    ensures var t := Run(calls).0.rows; var hit := HitFor(t, t, id);
      && (hit.parentContent.Some? <==> hit.row.parentId.Some?)
      && (hit.parentContent.Some? ==> Contains(hit.parentContent.value, hit.row.content))
  {
    RunKeeps(calls);
    assert RowHeld(Run(calls).0.rows, Run(calls).1, id);
  }

  /** Search while the index changes: the rows are fetched after the ranking and the parents after the rows,
      and any steps of overlapping `index_rule` calls come before and in between. A hit that was ranked is
      still the row that was ranked; it shows a parent text exactly when it links to a parent that is still
      there as the parents are fetched, and then that text contains it. */
  lemma HitInContextMeanwhile(before: seq<R.Action>, s: R.State, xs: seq<R.Action>, s1: R.State, ys: seq<R.Action>,
                              s2: R.State, id: nat)
    requires R.Runs(R.EMPTY, before, s) && R.Runs(s, xs, s1) && R.Runs(s1, ys, s2)
    requires id in s1.rows
    ensures id < s.nextId ==> id in s.rows && s1.rows[id] == s.rows[id]
    ensures s1.rows[id].parentId.Some? ==> s1.rows[id].parentId.value in s1.rows
    ensures var hit := HitFor(s1.rows, s2.rows, id);
      && (hit.parentContent.Some? <==> hit.row.parentId.Some? && hit.row.parentId.value in s2.rows)
      && (hit.parentContent.Some? ==> Contains(hit.parentContent.value, hit.row.content))
  {
    R.RunKeepsOk(R.EMPTY, before, s);
    R.RunPersists(s, xs, s1);
    R.RunPersists(s1, ys, s2);
    ParentThere(s1.rows, s1.nextId, s2.rows, id);
  }

  lemma ParentThere(t: Table, nextId: nat, t': Table, id: nat)
    requires R.TableOk(t, nextId) && R.Persist(t, nextId, t') && id in t
    ensures t[id].parentId.Some? ==> t[id].parentId.value in t
    ensures var hit := HitFor(t, t', id);
      && (hit.parentContent.Some? <==> hit.row.parentId.Some? && hit.row.parentId.value in t')
      && (hit.parentContent.Some? ==> Contains(hit.parentContent.value, hit.row.content))
  {
    if t[id].parentId.Some? {
      var p := t[id].parentId.value;
      assert p in t && ParentRowOf(t[p], t[id]);
      assert p in t' ==> t'[p] == t[p];
    }
  }

  /** With the index at rest between the two statements, every link is shown. */
  lemma HitInContextAtRest(before: seq<R.Action>, s: R.State, id: nat)
    requires R.Runs(R.EMPTY, before, s) && id in s.rows
    ensures HitFor(s.rows, s.rows, id).parentContent.Some? <==> s.rows[id].parentId.Some?
  {
    assert R.Runs(s, [], s);
    HitInContextMeanwhile(before, s, [], s, [], s, id);
  }
}
