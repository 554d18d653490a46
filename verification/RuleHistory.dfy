/** What publishing does to the streams, and what a read makes of them. */
module RuleHistory {
  import opened Text
  import opened VersionedRules

  // ---- streams ----

  lemma MaxIs(t: Table, owner: string, section: string, m: int)
    requires m >= 0
    requires forall i :: 0 <= i < |t| && InStream(t[i], owner, section) ==> t[i].version <= m
    requires m == 0 || exists i :: 0 <= i < |t| && InStream(t[i], owner, section) && t[i].version == m
    ensures MaxVersion(t, owner, section) == m
  {
  }

  /** A new row moves its own stream's maximum to its version, and no other stream's. */
  lemma MaxAfterPublish(t: Table, r: Row, owner: string, section: string)
    requires r.version == NextVersion(t, r.owner, r.section)
    ensures MaxVersion(t + [r], owner, section) ==
      if InStream(r, owner, section) then r.version else MaxVersion(t, owner, section)
  {
    assert (t + [r])[..|t|] == t;
  }

  lemma UniqueAfter(t: Table, r: Row)
    requires Unique(t) && r.version == NextVersion(t, r.owner, r.section)
    ensures Unique(t + [r])
  {
  }

  lemma DenseAfter(t: Table, r: Row)
    requires Dense(t) && r.version == NextVersion(t, r.owner, r.section)
    ensures Dense(t + [r])
  {
    var t' := t + [r];
    forall i | 0 <= i < |t'| && t'[i].version > 1
      ensures exists j ::
        0 <= j < |t'| && InStream(t'[j], t'[i].owner, t'[i].section) && t'[j].version == t'[i].version - 1
    {
      if i < |t| {
        var j :| 0 <= j < |t| && InStream(t[j], t[i].owner, t[i].section) && t[j].version == t[i].version - 1;
        assert t'[j] == t[j];
      } else {
        var j :| 0 <= j < |t| && InStream(t[j], r.owner, r.section) && t[j].version == r.version - 1;
        assert t'[j] == t[j];
      }
    }
  }

  /** Publishing keeps what is there, keeps every stream gapless from 1 and without repeats, and makes the
      new row the latest of its stream. */
  lemma PublishKeeps(t: Table, owner: string, section: string, body: string, sortOrder: int)
    requires Unique(t) && Dense(t)
    ensures var t' := Publish(t, owner, section, body, sortOrder);
      && t <= t' && |t'| == |t| + 1 && Unique(t') && Dense(t')
      && IsLatest(t', t'[|t|]) && t'[|t|].body == body
  {
    var r := Row(owner, section, NextVersion(t, owner, section), body, sortOrder);
    MaxAfterPublish(t, r, owner, section);
    UniqueAfter(t, r);
    DenseAfter(t, r);
  }

  /** A dense stream holds every version from 1 to its maximum. */
  lemma {:induction false} DenseIsInterval(t: Table, owner: string, section: string, v: int)
    requires Dense(t) && 1 <= v <= MaxVersion(t, owner, section)
    ensures exists i :: 0 <= i < |t| && InStream(t[i], owner, section) && t[i].version == v
    decreases MaxVersion(t, owner, section) - v
  {
    if v < MaxVersion(t, owner, section) {
      DenseIsInterval(t, owner, section, v + 1);
      var i :| 0 <= i < |t| && InStream(t[i], owner, section) && t[i].version == v + 1;
      var j :| 0 <= j < |t| && InStream(t[j], t[i].owner, t[i].section) && t[j].version == t[i].version - 1;
    }
  }

  // ---- rolling back ----

  lemma FindUnique(t: Table, i: nat)
    requires Unique(t) && i < |t|
    ensures FindRow(t, t[i].owner, t[i].section, t[i].version) == Some(t[i])
  {
    var found := FindRow(t, t[i].owner, t[i].section, t[i].version);
    assert found.Some?;
    var j :| 0 <= j < |t| && t[j] == found.value;
    assert j == i;
  }

  lemma LatestAfterPublish(t: Table, owner: string, section: string, body: string, sortOrder: int)
    requires Unique(t) && Dense(t)
    ensures var t' := Publish(t, owner, section, body, sortOrder);
      Latest(t', owner, section) == Some(t'[|t|]) && t'[|t|].body == body
        && t'[|t|].version == MaxVersion(t, owner, section) + 1
  {
    PublishKeeps(t, owner, section, body, sortOrder);
    FindUnique(Publish(t, owner, section, body, sortOrder), |t|);
  }

  /** A version is on record exactly when it is between 1 and the latest. */
  lemma OnRecordExactly(t: Table, owner: string, section: string, version: int)
    requires Dense(t)
    ensures FindRow(t, owner, section, version).Some? <==> 1 <= version <= MaxVersion(t, owner, section)
  {
    if 1 <= version <= MaxVersion(t, owner, section) {
      DenseIsInterval(t, owner, section, version);
    }
  }

  /** Rolling back succeeds exactly when the version exists; then the stream's latest body is that version's
      again, under a new number, and the history before it is untouched. */
  lemma RollbackAppRestores(db: Db, name: string, version: int, section: string, r: Option<Db>, target: Option<Row>)
    requires Unique(db.apps) && Dense(db.apps)
    requires r == RollbackApp(db, name, version, section) && target == FindRow(db.apps, AppKey(name), section, version)
    ensures r.Some? <==> AppKey(name) != "" && 1 <= version <= MaxVersion(db.apps, AppKey(name), section)
    ensures r.Some? ==> target.Some? && db.apps <= r.value.apps && r.value == db.(apps := r.value.apps)
    ensures r.Some? ==> LatestBody(r.value.apps, AppKey(name), SectionName(section)) == Some(target.value.body)
  {
    OnRecordExactly(db.apps, AppKey(name), section, version);
    KeyStable(name);
    if r.Some? {
      LatestAfterPublish(db.apps, AppKey(name), SectionName(section), target.value.body, 0);
    }
  }

  function LatestBody(t: Table, owner: string, section: string): Option<string> {
    var latest := Latest(t, owner, section);
    if latest.Some? then Some(latest.value.body) else None
  }

  lemma RollbackGlobalRestores(db: Db, version: int, section: string, r: Option<Db>, target: Option<Row>)
    requires Unique(db.globals) && Dense(db.globals)
    requires r == RollbackGlobal(db, version, section) && target == FindRow(db.globals, "", section, version)
    ensures r.Some? <==> 1 <= version <= MaxVersion(db.globals, "", section)
    ensures r.Some? ==> target.Some? && db.globals <= r.value.globals && r.value == db.(globals := r.value.globals)
    ensures r.Some? ==> LatestBody(r.value.globals, "", section) == Some(target.value.body)
  {
    OnRecordExactly(db.globals, "", section, version);
    if r.Some? {
      LatestAfterPublish(db.globals, "", section, target.value.body, 0);
    }
  }

  lemma {:induction false} LowerTwice(s: string)
    ensures Lower(Lower(s)) == Lower(s)
  {
    var a, b := Lower(Lower(s)), Lower(s);
    assert forall i :: 0 <= i < |s| ==> a[i] == LowerChar(b[i]) && b[i] == LowerChar(s[i]);
  }

  lemma KeyStable(name: string)
    ensures AppKey(AppKey(name)) == AppKey(name)
  {
    TrimLower(AppKey(name));
    StripTwice(Lower(name), IsSpace);
    TrimLower(name);
    LowerTwice(Trim(name));
  }

  lemma KeptSortOrder(t: Table, key: string, section: string)
    requires Latest(t, key, section).Some?
    ensures SortOrderFor(t, key, section, None) == Latest(t, key, section).value.sortOrder
  {
  }

  /** The same for a repository pattern; the sort order is kept too, and published bodies are trimmed. */
  lemma RollbackRepoRestores(db: Db, pattern: string, key: string, version: int, section: string, sn: string,
                             r: Option<Db>, target: Option<Row>)
    requires Unique(db.repos) && Dense(db.repos) && key == Trim(pattern) && sn == SectionName(section)
    requires r == RollbackRepo(db, pattern, version, section) && target == FindRow(db.repos, key, section, version)
    ensures r.Some? <==> 1 <= version <= MaxVersion(db.repos, key, section)
    ensures r.Some? ==> target.Some? && db.repos <= r.value.repos
    ensures r.Some? ==> LatestBody(r.value.repos, key, sn) == Some(Trim(target.value.body))
    ensures r.Some? && Latest(db.repos, key, sn).Some? ==>
      Latest(r.value.repos, key, sn).value.sortOrder == Latest(db.repos, key, sn).value.sortOrder
  {
    OnRecordExactly(db.repos, key, section, version);
    if r.Some? {
      RepublishRepo(db, pattern, key, section, sn, target.value.body, r.value);
      if Latest(db.repos, key, sn).Some? {
        KeptSortOrder(db.repos, key, sn);
      }
    }
  }

  lemma RepublishRepo(db: Db, pattern: string, key: string, section: string, sn: string, body: string, d: Db)
    requires Unique(db.repos) && Dense(db.repos) && key == Trim(pattern) && sn == SectionName(section)
    requires d == PublishRepo(db, key, body, section, None)
    ensures db.repos <= d.repos && LatestBody(d.repos, key, sn) == Some(Trim(body))
    ensures Latest(d.repos, key, sn).value.sortOrder == SortOrderFor(db.repos, key, sn, None)
  {
    StripTwice(pattern, IsSpace);
    LatestAfterPublish(db.repos, key, sn, Trim(body), SortOrderFor(db.repos, key, sn, None));
  }

  // ---- the rows of one owner ----

  lemma {:induction false} LatestOfMeaning(t: Table, rows: seq<Row>, owner: string)
    ensures forall r :: r in LatestOf(t, rows, owner) <==>
      r in rows && r.owner == owner && r.version == MaxVersion(t, r.owner, r.section)
  {
    if rows != [] {
      LatestOfMeaning(t, rows[..|rows| - 1], owner);
      assert rows == rows[..|rows| - 1] + [rows[|rows| - 1]];
    }
  }

  ghost predicate DistinctSections(rows: seq<Row>) {
    forall i, j :: 0 <= i < j < |rows| ==> rows[i].section != rows[j].section
  }

  lemma {:induction false} LatestOfDistinct(t: Table, n: nat, owner: string)
    requires Unique(t) && n <= |t|
    ensures DistinctSections(LatestOf(t, t[..n], owner))
  {
    if n > 0 {
      LatestOfDistinct(t, n - 1, owner);
      LatestOfMeaning(t, t[..n - 1], owner);
      assert t[..n][..n - 1] == t[..n - 1];
      var front, r := LatestOf(t, t[..n - 1], owner), t[n - 1];
      forall i | 0 <= i < |front| && r.owner == owner && r.version == MaxVersion(t, r.owner, r.section)
        ensures front[i].section != r.section
      {
        assert front[i] in front;
        var j :| 0 <= j < n - 1 && t[j] == front[i];
        assert !(InStream(t[j], r.owner, r.section) && t[j].version == r.version);
      }
    }
  }

  lemma {:induction false} InsertMembers(rows: seq<Row>, r: Row)
    ensures forall x :: x in InsertBySection(rows, r) <==> x in rows || x == r
    ensures |InsertBySection(rows, r)| == |rows| + 1
  {
    if rows != [] && Leq(SectionKey(rows[0]), SectionKey(r)) {
      InsertMembers(rows[1..], r);
      assert rows == [rows[0]] + rows[1..];
    }
  }

  lemma {:induction false} InsertDistinct(rows: seq<Row>, r: Row)
    requires DistinctSections(rows) && forall x :: x in rows ==> x.section != r.section
    ensures DistinctSections(InsertBySection(rows, r))
  {
    if rows != [] && Leq(SectionKey(rows[0]), SectionKey(r)) {
      InsertDistinct(rows[1..], r);
      InsertMembers(rows[1..], r);
      var rest := InsertBySection(rows[1..], r);
      forall j | 0 <= j < |rest| ensures rows[0].section != rest[j].section {
        assert rest[j] in rest;
        if rest[j] != r {
          var k :| 0 <= k < |rows[1..]| && rows[1..][k] == rest[j];
          assert rows[k + 1] == rest[j];
        }
      }
    }
  }

  lemma {:induction false} SortMeaning(rows: seq<Row>)
    ensures forall x :: x in SortBySection(rows) <==> x in rows
    ensures DistinctSections(rows) ==> DistinctSections(SortBySection(rows))
  {
    if rows != [] {
      var front, r := rows[..|rows| - 1], rows[|rows| - 1];
      SortMeaning(front);
      InsertMembers(SortBySection(front), r);
      assert rows == front + [r];
      if DistinctSections(rows) {
        forall x | x in SortBySection(front) ensures x.section != r.section {
          var i :| 0 <= i < |front| && front[i] == x;
          assert rows[i] == x;
        }
        InsertDistinct(SortBySection(front), r);
      }
    }
  }

  /** An owner's served rows: exactly the latest row of each of its sections, each section once. */
  lemma SectionsMeaning(t: Table, owner: string)
    requires Unique(t)
    ensures forall r :: r in Sections(t, owner) <==> r.owner == owner && IsLatest(t, r)
    ensures DistinctSections(Sections(t, owner))
  {
    LatestOfMeaning(t, t, owner);
    LatestOfDistinct(t, |t|, owner);
    assert t[..|t|] == t;
    SortMeaning(LatestOf(t, t, owner));
  }

  // ---- non-interference ----

  lemma {:induction false} LatestOfElsewhere(t: Table, r: Row, rows: seq<Row>, owner: string)
    requires r.version == NextVersion(t, r.owner, r.section) && r.owner != owner
    ensures LatestOf(t + [r], rows, owner) == LatestOf(t, rows, owner)
  {
    if rows != [] {
      var last := rows[|rows| - 1];
      LatestOfElsewhere(t, r, rows[..|rows| - 1], owner);
      MaxAfterPublish(t, r, last.owner, last.section);
    }
  }

  /** Publishing for one owner leaves every other owner's served rows as they were. */
  lemma SectionsElsewhere(t: Table, owner: string, section: string, body: string, sortOrder: int, other: string)
    requires other != owner
    ensures Sections(Publish(t, owner, section, body, sortOrder), other) == Sections(t, other)
  {
    var r := Row(owner, section, NextVersion(t, owner, section), body, sortOrder);
    var t' := t + [r];
    assert t'[..|t'| - 1] == t && t'[|t'| - 1] == r;
    LatestOfElsewhere(t, r, t, other);
    assert LatestOf(t', t', other) == LatestOf(t', t, other) + [] == LatestOf(t, t, other);
  }

  lemma AppRowsLocal(db: Db, db': Db, key: string)
    requires db' == db.(apps := db'.apps)
    requires Sections(db'.apps, key) == Sections(db.apps, key)
    requires Sections(db'.apps, DEFAULT_APP) == Sections(db.apps, DEFAULT_APP)
    ensures AppRows(db', key) == AppRows(db, key)
  {
  }

  lemma SelectLocal(db: Db, db': Db, key: string, url: string)
    requires db' == db.(apps := db'.apps) && AppRows(db', key) == AppRows(db, key)
    ensures Select(db', key, url) == Select(db, key, url)
  {
    assert RepoRows(db', url) == RepoRows(db, url);
  }

  /** What one app serves depends on no other app but the default one. */
  lemma AppPublishIsLocal(db: Db, name: string, body: string, section: string, key: string, url: string)
    requires PublishApp(db, name, body, section).Some?
    requires AppKey(name) != key && AppKey(name) != DEFAULT_APP
    ensures Select(PublishApp(db, name, body, section).value, key, url) == Select(db, key, url)
  {
    var db' := PublishApp(db, name, body, section).value;
    SectionsElsewhere(db.apps, AppKey(name), SectionName(section), body, 0, key);
    SectionsElsewhere(db.apps, AppKey(name), SectionName(section), body, 0, DEFAULT_APP);
    AppRowsLocal(db, db', key);
    SelectLocal(db, db', key, url);
  }

  // ---- which pattern is chosen ----

  /** A candidate of `resolve_repo_row`: the latest row of its pattern's stream. */
  ghost predicate Candidate(t: Table, r: Row) {
    r.section == DEFAULT_SECTION && IsLatest(t, r)
  }

  predicate Matches(r: Row, url: string) {
    Trim(r.owner) != "" && OccursIn(Lower(Trim(r.owner)), Lower(Trim(url)))
  }

  lemma {:induction false} LeqTotal(a: string, b: string)
    ensures Leq(a, b) || Leq(b, a)
    ensures Leq(a, a)
  {
    if a != "" && b != "" {
      LeqTotal(a[1..], b[1..]);
    } else if a != "" {
      LeqTotal(a[1..], "");
    }
  }

  lemma {:induction false} LeqTransitive(a: string, b: string, c: string)
    requires Leq(a, b) && Leq(b, c)
    ensures Leq(a, c)
  {
    if a != "" && a[0] == b[0] == c[0] {
      LeqTransitive(a[1..], b[1..], c[1..]);
    }
  }

  lemma OrderedTotal(a: Row, b: Row)
    ensures Ordered(a, b) || Ordered(b, a)
    ensures Ordered(a, a)
  {
    LeqTotal(a.owner, b.owner);
    LeqTotal(a.owner, a.owner);
  }

  lemma OrderedTransitive(a: Row, b: Row, c: Row)
    requires Ordered(a, b) && Ordered(b, c)
    ensures Ordered(a, c)
  {
    if a.sortOrder == b.sortOrder == c.sortOrder {
      LeqTransitive(a.owner, b.owner, c.owner);
    }
  }

  ghost predicate Sorted(rows: seq<Row>) {
    forall i, j :: 0 <= i <= j < |rows| ==> Ordered(rows[i], rows[j])
  }

  lemma SortedTail(rows: seq<Row>)
    requires Sorted(rows) && rows != []
    ensures Sorted(rows[1..])
  {
    var tail := rows[1..];
    forall i, j | 0 <= i <= j < |tail| ensures Ordered(tail[i], tail[j]) {
      assert tail[i] == rows[i + 1] && tail[j] == rows[j + 1];
    }
  }

  lemma {:induction false} InsertSorted(rows: seq<Row>, r: Row)
    requires Sorted(rows)
    ensures Sorted(InsertByOrder(rows, r)) && forall x :: x in InsertByOrder(rows, r) <==> x in rows || x == r
  {
    OrderedTotal(r, r);
    if rows == [] {
    } else if !Ordered(rows[0], r) {
      OrderedTotal(rows[0], r);
      var out := [r] + rows;
      forall i, j | 0 <= i <= j < |out| ensures Ordered(out[i], out[j]) {
        if i == 0 && j > 0 {
          OrderedTransitive(r, rows[0], rows[j - 1]);
        }
      }
    } else {
      SortedTail(rows);
      InsertSorted(rows[1..], r);
      var rest := InsertByOrder(rows[1..], r);
      var out := [rows[0]] + rest;
      forall j | 0 <= j < |rest| ensures Ordered(rows[0], rest[j]) {
        assert rest[j] in rest;
        if rest[j] != r {
          var k :| 0 <= k < |rows[1..]| && rows[1..][k] == rest[j];
          assert rows[k + 1] == rest[j];
        }
      }
      assert Ordered(rows[0], rows[0]);
      assert rows == [rows[0]] + rows[1..];
    }
  }

  lemma {:induction false} PatternRowsMeaning(t: Table, rows: seq<Row>, section: string)
    ensures Sorted(PatternRows(t, rows, section))
    ensures forall r :: r in PatternRows(t, rows, section) <==>
      r in rows && r.section == section && r.version == MaxVersion(t, r.owner, section)
  {
    if rows != [] {
      var front, r := rows[..|rows| - 1], rows[|rows| - 1];
      PatternRowsMeaning(t, front, section);
      assert rows == front + [r];
      InsertSorted(PatternRows(t, front, section), r);
    }
  }

  lemma {:induction false} FirstMatchMeaning(rows: seq<Row>, url: string)
    requires Sorted(rows)
    ensures var hit := FirstMatch(rows, Lower(Trim(url)));
      && (hit.None? ==> forall r :: r in rows ==> !Matches(r, url))
      && (hit.Some? ==> hit.value in rows && Matches(hit.value, url))
      && (hit.Some? ==> forall r :: r in rows && Matches(r, url) ==> Ordered(hit.value, r))
  {
    if rows != [] {
      assert rows == [rows[0]] + rows[1..];
      SortedTail(rows);
      FirstMatchMeaning(rows[1..], url);
      if Matches(rows[0], url) {
        forall r | r in rows ensures Ordered(rows[0], r) {
          var j :| 0 <= j < |rows| && rows[j] == r;
        }
      }
    }
  }

  lemma {:induction false} FirstBlankMeaning(rows: seq<Row>)
    ensures var hit := FirstBlank(rows);
      && (hit.None? ==> forall r :: r in rows ==> Trim(r.owner) != "")
      && (hit.Some? ==> hit.value in rows && Trim(hit.value.owner) == "")
  {
    if rows != [] {
      FirstBlankMeaning(rows[1..]);
      assert rows == [rows[0]] + rows[1..];
    }
  }

  /** The chosen row: among the latest main rows whose pattern occurs in the URL, the least by sort order and
      then pattern; if there is none, a blank-pattern row; and nothing only if there is neither. */
  lemma ResolveRepoMeaning(t: Table, url: string)
    ensures var hit := ResolveRepo(t, url);
      && (hit.Some? ==> Candidate(t, hit.value) && (Matches(hit.value, url) || Trim(hit.value.owner) == ""))
      && (hit.Some? && Matches(hit.value, url) ==>
        forall r :: Candidate(t, r) && Matches(r, url) ==> Ordered(hit.value, r))
      && (hit.Some? && !Matches(hit.value, url) ==> forall r :: Candidate(t, r) ==> !Matches(r, url))
      && (hit.None? ==> forall r :: Candidate(t, r) ==> !Matches(r, url) && Trim(r.owner) != "")
  {
    var rows := PatternRows(t, t, DEFAULT_SECTION);
    PatternRowsMeaning(t, t, DEFAULT_SECTION);
    FirstMatchMeaning(rows, url);
    FirstBlankMeaning(rows);
    assert forall r :: r in rows <==> Candidate(t, r);
  }

  // ---- the order of the served sections ----

  /** Sections come in alphabetical order, `main` before all others. */
  ghost predicate SectionOrder(rows: seq<Row>) {
    forall i, j :: 0 <= i <= j < |rows| ==> Leq(SectionKey(rows[i]), SectionKey(rows[j]))
  }

  lemma {:induction false} InsertOrdered(rows: seq<Row>, r: Row)
    requires SectionOrder(rows)
    ensures SectionOrder(InsertBySection(rows, r))
  {
    LeqTotal(SectionKey(r), SectionKey(r));
    if rows == [] {
    } else if !Leq(SectionKey(rows[0]), SectionKey(r)) {
      LeqTotal(SectionKey(rows[0]), SectionKey(r));
      InFrontOrdered(r, rows);
    } else {
      var tail := rows[1..];
      forall i, j | 0 <= i <= j < |tail| ensures Leq(SectionKey(tail[i]), SectionKey(tail[j])) {
        assert tail[i] == rows[i + 1] && tail[j] == rows[j + 1];
      }
      InsertOrdered(tail, r);
      InsertHead(tail, r);
      var rest := InsertBySection(tail, r);
      assert rest[0] == r || (tail != [] && rest[0] == tail[0] == rows[1]);
      InFrontOrdered(rows[0], rest);
    }
  }

  lemma InsertHead(rows: seq<Row>, r: Row)
    ensures InsertBySection(rows, r) != []
    ensures InsertBySection(rows, r)[0] == r || (rows != [] && InsertBySection(rows, r)[0] == rows[0])
  {
  }

  lemma InFrontOrdered(r: Row, rows: seq<Row>)
    requires SectionOrder(rows) && rows != [] && Leq(SectionKey(r), SectionKey(rows[0]))
    ensures SectionOrder([r] + rows)
  {
    var all := [r] + rows;
    LeqTotal(SectionKey(r), SectionKey(r));
    forall i, j | 0 <= i <= j < |all| ensures Leq(SectionKey(all[i]), SectionKey(all[j])) {
      if i == 0 && j > 0 {
        LeqTransitive(SectionKey(r), SectionKey(rows[0]), SectionKey(rows[j - 1]));
      }
    }
  }

  lemma {:induction false} SortOrdered(rows: seq<Row>)
    ensures SectionOrder(SortBySection(rows))
  {
    if rows != [] {
      SortOrdered(rows[..|rows| - 1]);
      InsertOrdered(SortBySection(rows[..|rows| - 1]), rows[|rows| - 1]);
    }
  }

  lemma SectionsOrdered(t: Table, owner: string)
    ensures SectionOrder(Sections(t, owner))
  {
    SortOrdered(LatestOf(t, t, owner));
  }

  lemma SectionsInTable(t: Table, owner: string, r: Row)
    requires r in Sections(t, owner)
    ensures r in t && r.owner == owner
  {
    LatestOfMeaning(t, t, owner);
    SortMeaning(LatestOf(t, t, owner));
  }

  /** A published row is served, and was not there before. */
  lemma PublishedIsServed(t: Table, owner: string, section: string, body: string, sortOrder: int, r: Row)
    requires r == Row(owner, section, NextVersion(t, owner, section), body, sortOrder)
    ensures r in Sections(Publish(t, owner, section, body, sortOrder), owner) && r !in t
  {
    var t' := Publish(t, owner, section, body, sortOrder);
    MaxAfterPublish(t, r, owner, section);
    LatestOfMeaning(t', t', owner);
    SortMeaning(LatestOf(t', t', owner));
    assert t'[|t|] == r;
  }

  // ---- which rows a read serves ----

  /** The app part of a read: the latest rows of the app; and the default app's, if the app's option says so or
      the app has no rows of its own. */
  lemma AppServedExactly(db: Db, key: string, r: Row)
    requires Unique(db.apps) && key != ""
    ensures var (app, appDefault, added) := AppRows(db, key);
      (r in app || r in appDefault) <==> (IsLatest(db.apps, r)
        && (r.owner == key || (r.owner == DEFAULT_APP && (added || Sections(db.apps, key) == []))))
  {
    var own, fallback, added := Sections(db.apps, key), Sections(db.apps, DEFAULT_APP), IncludeApp(db, key);
    assert r in own <==> r.owner == key && IsLatest(db.apps, r) by {
      SectionsMeaning(db.apps, key);
    }
    assert r in fallback <==> r.owner == DEFAULT_APP && IsLatest(db.apps, r) by {
      SectionsMeaning(db.apps, DEFAULT_APP);
    }
    AppRowsMember(db, key, own, fallback, added, r);
  }

  lemma AppRowsMember(db: Db, key: string, own: seq<Row>, fallback: seq<Row>, added: bool, r: Row)
    requires key != "" && own == Sections(db.apps, key) && fallback == Sections(db.apps, DEFAULT_APP)
      && added == IncludeApp(db, key)
    ensures AppRows(db, key).2 == added
    ensures (r in AppRows(db, key).0 || r in AppRows(db, key).1)
      <==> (r in own || (r in fallback && (added || own == [])))
  {
    WithoutMeaning(fallback, own);
  }

  /** An app has no rows to serve exactly when nothing was ever published for it. */
  lemma NothingPublishedExactly(t: Table, owner: string)
    requires Unique(t) && Dense(t)
    ensures Sections(t, owner) == [] <==> forall r :: r in t ==> r.owner != owner
  {
    SectionsMeaning(t, owner);
    if r :| r in t && r.owner == owner {
      var i :| 0 <= i < |t| && t[i] == r;
      var latest := StreamHasLatest(t, i);
      assert latest in Sections(t, owner);
    }
    if Sections(t, owner) != [] {
      assert Sections(t, owner)[0] in Sections(t, owner);
    }
  }

  lemma StreamHasLatest(t: Table, i: nat) returns (r: Row)
    requires i < |t| && t[i].version >= 1
    ensures IsLatest(t, r) && InStream(r, t[i].owner, t[i].section)
  {
    var m := MaxVersion(t, t[i].owner, t[i].section);
    var j :| 0 <= j < |t| && InStream(t[j], t[i].owner, t[i].section) && t[j].version == m;
    r := t[j];
  }

  /** The repository part: the latest rows of the chosen pattern, and the blank pattern's if that pattern's
      option says so. */
  lemma RepoServedExactly(db: Db, url: string, r: Row)
    requires Unique(db.repos)
    ensures var (repo, repoDefault, added) := RepoRows(db, url);
      var hit := ResolveRepo(db.repos, url);
      (r in repo || r in repoDefault) <==> (IsLatest(db.repos, r)
        && ((hit.Some? && r.owner == Trim(hit.value.owner)) || (r.owner == "" && added)))
  {
    var hit := ResolveRepo(db.repos, url);
    var rows := if hit.Some? then Sections(db.repos, Trim(hit.value.owner)) else [];
    if hit.Some? {
      SectionsMeaning(db.repos, Trim(hit.value.owner));
    }
    SectionsMeaning(db.repos, "");
    WithoutMeaning(Sections(db.repos, ""), rows);
  }

  // ---- appending ----

  lemma TrimEndVisible(s: string)
    ensures Visible(TrimEnd(s), IsSpace) == Visible(s, IsSpace)
  {
    var n := Tail(s, IsSpace);
    assert s == s[..n] + s[n..];
    VisibleConcat(s[..n], s[n..], IsSpace);
    VisibleBlank(s[n..], IsSpace);
  }

  lemma AppendedVisible(base: string, more: string)
    ensures Visible(TrimEnd(base) + "\n\n" + more, IsSpace) == Visible(base, IsSpace) + Visible(more, IsSpace)
  {
    VisibleConcat(TrimEnd(base) + "\n\n", more, IsSpace);
    VisibleConcat(TrimEnd(base), "\n\n", IsSpace);
    VisibleBlank("\n\n", IsSpace);
    TrimEndVisible(base);
  }

  function BaseBody(base: Option<Row>): string {
    if base.None? then "" else base.value.body
  }

  /** The body an append writes when the latest text it read was that of the tables `seen`. */
  function AppendBody(seen: Db, key: string, section: string, addition: string): string {
    AppendedBody(AppendBase(seen, key, section), Trim(addition))
  }

  /** What a reader of the section's latest text sees, white space aside. */
  function BaseText(db: Db, key: string, section: string): string {
    Visible(BaseBody(AppendBase(db, key, section)), IsSpace)
  }

  lemma AppendBodyText(seen: Db, key: string, section: string, addition: string)
    ensures Visible(AppendBody(seen, key, section, addition), IsSpace) ==
      BaseText(seen, key, section) + Visible(addition, IsSpace)
  {
    VisibleStrip(addition, IsSpace);
    AppendedVisible(BaseBody(AppendBase(seen, key, section)), Trim(addition));
    if AppendBase(seen, key, section).None? {
      assert Visible("", IsSpace) == [];
    }
  }

  lemma PublishedText(db: Db, key: string, section: string, body: string, r: Option<Db>)
    requires Unique(db.apps) && Dense(db.apps) && AppKey(key) == key != "" && section != ""
      && SectionName(section) == section
    requires r == PublishApp(db, key, body, section)
    ensures r.Some? && Unique(r.value.apps) && Dense(r.value.apps)
    ensures BaseText(r.value, key, section) == Visible(body, IsSpace)
  {
    LatestAfterPublish(db.apps, key, section, body, 0);
    PublishKeeps(db.apps, key, section, body, 0);
  }

  /** An append reads the latest text from the tables `seen` and is published to the tables `db`. Afterwards the
      section's text is the text it read, followed by the addition. So nothing that anybody wrote in between is
      lost exactly when the section's text is, at the commit, still the one that was read. */
  lemma AppendConserves(seen: Db, db: Db, key: string, addition: string, section: string, r: Option<Db>)
    requires Unique(db.apps) && Dense(db.apps) && AppKey(key) == key != "" && section != ""
      && SectionName(section) == section
    requires r == PublishApp(db, key, AppendBody(seen, key, section, addition), section)
    ensures r.Some? && BaseText(r.value, key, section) == BaseText(seen, key, section) + Visible(addition, IsSpace)
    ensures BaseText(r.value, key, section) == BaseText(db, key, section) + Visible(addition, IsSpace)
      <==> BaseText(seen, key, section) == BaseText(db, key, section)
  {
    PublishedText(db, key, section, AppendBody(seen, key, section, addition), r);
    AppendBodyText(seen, key, section, addition);
    SameHead(BaseText(seen, key, section), BaseText(db, key, section), Visible(addition, IsSpace));
  }

  lemma SameHead(a: string, b: string, tail: string)
    ensures a + tail == b + tail <==> a == b
  {
    if a + tail == b + tail {
      assert a == (a + tail)[..|a|] && b == (b + tail)[..|b|];
    }
  }

  /** `append_to_app_rule` with nothing in between is the case where what was read is what is there. */
  lemma AppendIsUndisturbed(db: Db, name: string, addition: string, section: string)
    requires AppKey(name) != "" && Trim(addition) != ""
    ensures AppendApp(db, name, addition, section)
      == PublishApp(db, AppKey(name), AppendBody(db, AppKey(name), SectionName(section), addition),
                    SectionName(section))
  {
  }

  lemma VisibleAddition(addition: string)
    requires Trim(addition) != ""
    ensures Visible(addition, IsSpace) != []
  {
    var t := Trim(addition);
    var i, j := StripIsSlice(addition, IsSpace);
    assert t == [t[0]] + t[1..] && !IsSpace(t[0]);
    VisibleStrip(addition, IsSpace);
  }

  /** Of two appends that both read the text before either commits, the second to commit drops what the first
      added: for every store of rules, app, section and pair of additions. */
  lemma LostAppend(db: Db, key: string, section: string, first: string, second: string, db1: Db, db2: Db)
    requires Unique(db.apps) && Dense(db.apps) && AppKey(key) == key != "" && section != ""
      && SectionName(section) == section
    requires Trim(first) != "" && Trim(second) != ""
    requires PublishApp(db, key, AppendBody(db, key, section, first), section) == Some(db1)
    requires PublishApp(db1, key, AppendBody(db, key, section, second), section) == Some(db2)
    ensures BaseText(db1, key, section) == BaseText(db, key, section) + Visible(first, IsSpace)
    ensures BaseText(db2, key, section) == BaseText(db, key, section) + Visible(second, IsSpace)
    ensures BaseText(db2, key, section) != BaseText(db1, key, section) + Visible(second, IsSpace)
  {
    AppendConserves(db, db, key, first, section, Some(db1));
    PublishedText(db, key, section, AppendBody(db, key, section, first), Some(db1));
    AppendConserves(db, db1, key, second, section, Some(db2));
    VisibleAddition(first);
  }

  // ---- the served rows, and the version snapshot ----

  lemma {:induction false} WithoutMeaning(rows: seq<Row>, others: seq<Row>)
    ensures forall r :: r in Without(rows, others) <==> r in rows && r !in others
  {
    if rows != [] {
      WithoutMeaning(rows[1..], others);
      assert rows == [rows[0]] + rows[1..];
    }
  }

  lemma {:induction false} WithoutDistinct(rows: seq<Row>, others: seq<Row>)
    requires DistinctSections(rows)
    ensures DistinctSections(Without(rows, others))
  {
    if rows != [] {
      var tail := rows[1..];
      forall i, j | 0 <= i < j < |tail| ensures tail[i].section != tail[j].section {
        assert tail[i] == rows[i + 1] && tail[j] == rows[j + 1];
      }
      WithoutDistinct(tail, others);
      WithoutMeaning(tail, others);
      var rest := Without(tail, others);
      forall j | 0 <= j < |rest| ensures rest[j].section != rows[0].section {
        assert rest[j] in rest;
        var k :| 0 <= k < |tail| && tail[k] == rest[j];
        assert rows[k + 1] == rest[j];
      }
    }
  }

  /** Every row of the list is the latest of its stream, and no section comes twice. */
  ghost predicate Serves(t: Table, rows: seq<Row>) {
    DistinctSections(rows) && forall r :: r in rows ==> IsLatest(t, r)
  }

  ghost predicate Disjoint(a: seq<Row>, b: seq<Row>) {
    forall r :: r in a ==> r !in b
  }

  lemma SectionsServe(t: Table, owner: string)
    requires Unique(t)
    ensures Serves(t, Sections(t, owner))
  {
    SectionsMeaning(t, owner);
  }

  lemma WithoutServes(t: Table, rows: seq<Row>, others: seq<Row>)
    requires Serves(t, rows)
    ensures Serves(t, Without(rows, others)) && Disjoint(others, Without(rows, others))
  {
    WithoutMeaning(rows, others);
    WithoutDistinct(rows, others);
  }

  lemma RepoRowsServe(db: Db, url: string)
    requires Unique(db.repos)
    ensures var (repo, repoDefault, _) := RepoRows(db, url);
      Serves(db.repos, repo) && Serves(db.repos, repoDefault) && Disjoint(repo, repoDefault)
  {
    var hit := ResolveRepo(db.repos, url);
    var rows := if hit.Some? then Sections(db.repos, Trim(hit.value.owner)) else [];
    if hit.Some? {
      SectionsServe(db.repos, Trim(hit.value.owner));
    }
    SectionsServe(db.repos, "");
    WithoutServes(db.repos, Sections(db.repos, ""), rows);
  }

  lemma NothingDisjoint(t: Table, rows: seq<Row>)
    requires Serves(t, rows)
    ensures Serves(t, []) && Disjoint(rows, [])
  {
  }

  lemma AppRowsCases(db: Db, key: string, own: seq<Row>, fallback: seq<Row>, app: seq<Row>, appDefault: seq<Row>)
    requires own == Sections(db.apps, key) && fallback == Sections(db.apps, DEFAULT_APP)
    requires app == AppRows(db, key).0 && appDefault == AppRows(db, key).1
    ensures (app == own && appDefault == Without(fallback, own))
      || (appDefault == [] && (app == own || app == fallback))
  {
  }

  lemma AppRowsServe(db: Db, key: string)
    requires Unique(db.apps)
    ensures var (app, appDefault, _) := AppRows(db, key);
      Serves(db.apps, app) && Serves(db.apps, appDefault) && Disjoint(app, appDefault)
  {
    var own, fallback := Sections(db.apps, key), Sections(db.apps, DEFAULT_APP);
    SectionsServe(db.apps, key);
    SectionsServe(db.apps, DEFAULT_APP);
    WithoutServes(db.apps, fallback, own);
    NothingDisjoint(db.apps, own);
    NothingDisjoint(db.apps, fallback);
    AppRowsCases(db, key, own, fallback, AppRows(db, key).0, AppRows(db, key).1);
  }

  /** A read serves only latest rows, and none of them twice. */
  lemma SelectServesLatestOnce(db: Db, key: string, url: string)
    requires Unique(db.globals) && Unique(db.apps) && Unique(db.repos)
    ensures var s := Select(db, key, url);
      && Serves(db.globals, s.global)
      && Serves(db.repos, s.repo) && Serves(db.repos, s.repoDefault) && Disjoint(s.repo, s.repoDefault)
      && Serves(db.apps, s.app) && Serves(db.apps, s.appDefault) && Disjoint(s.app, s.appDefault)
  {
    SectionsServe(db.globals, "");
    RepoRowsServe(db, url);
    AppRowsServe(db, key);
  }

  function Versions(rows: seq<Row>): map<string, int> {
    if rows == [] then map[] else Versions(rows[..|rows| - 1])[rows[|rows| - 1].section := rows[|rows| - 1].version]
  }

  function MainVersion(rows: seq<Row>): Option<int> {
    if rows == [] then None
    else if rows[0].section == DEFAULT_SECTION then Some(rows[0].version)
    else MainVersion(rows[1..])
  }

  function FirstVersion(rows: seq<Row>): Option<int> {
    if rows == [] then None else Some(rows[0].version)
  }

  datatype Snapshot = Snapshot(
    globalSections: map<string, int>, globalVersion: Option<int>,
    appSections: Option<map<string, int>>, appVersion: Option<int>, appDefaultVersion: Option<int>,
    repoSections: Option<map<string, int>>, repoVersion: Option<int>, repoDefaultVersion: Option<int>,
    includeApp: bool, includeRepo: bool)

  function NonEmpty(rows: seq<Row>): Option<map<string, int>> {
    if rows == [] then None else Some(Versions(rows))
  }

  /** `get_rule_version_snapshot`, from its own queries. */
  function TakeSnapshot(db: Db, key: string, url: string): Snapshot {
    var global := Sections(db.globals, "");
    if key == "" then
      var added := IncludeRepo(db, "");
      Snapshot(Versions(global), MainVersion(global), None, None, None, None, None,
               if added then FirstVersion(Sections(db.repos, "")) else None, false, added)
    else
      var hit := ResolveRepo(db.repos, url);
      var added := IncludeRepo(db, if hit.Some? then hit.value.owner else "");
      var app, fallback := Sections(db.apps, key), Sections(db.apps, DEFAULT_APP);
      var repo := if hit.Some? then Sections(db.repos, Trim(hit.value.owner)) else [];
      Snapshot(Versions(global), MainVersion(global),
               NonEmpty(if app != [] then app else fallback),
               if app != [] then (if MainVersion(app).Some? then MainVersion(app) else FirstVersion(app)) else None,
               if app != [] then None else FirstVersion(fallback),
               NonEmpty(repo), if MainVersion(repo).Some? then MainVersion(repo) else FirstVersion(repo),
               if added then FirstVersion(Sections(db.repos, "")) else None,
               IncludeApp(db, key), added)
  }

  /** The snapshot agrees with the full read: the global and repository maps are those of the served rows; the
      app map is that of the app's own served rows, or of the default app's rows when it has none. Without an app
      there are neither app nor repository rows to agree on; the flag is then the blank pattern's. */
  lemma SnapshotAgrees(db: Db, key: string, url: string, snap: Snapshot, s: Selection)
    requires snap == TakeSnapshot(db, key, url) && s == Select(db, key, url)
    ensures snap.globalSections == Versions(s.global)
    ensures key != "" ==> snap.repoSections == NonEmpty(s.repo)
    ensures key != "" ==> snap.includeApp == s.includeApp && snap.includeRepo == s.includeRepo
    ensures key != "" ==> snap.appSections == NonEmpty(if s.app != [] then s.app else s.appDefault)
    ensures key == "" ==> snap.appSections == snap.repoSections == None && s.app == s.repo == []
    ensures key == "" ==> !snap.includeApp && snap.includeRepo == IncludeRepo(db, "")
  {
    if Sections(db.apps, key) == [] {
      WithoutNothing(Sections(db.apps, DEFAULT_APP));
    }
  }

  lemma {:induction false} WithoutNothing(rows: seq<Row>)
    ensures Without(rows, []) == rows
  {
    if rows != [] {
      WithoutNothing(rows[1..]);
    }
  }
}
