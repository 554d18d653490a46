/** What an exported file holds and what any file brings in (`export_rules_json` in app/services/versioned_rules.py,
    `import_rules` in app/routers/admin_rules.py), on the fields of the rows. */
module TransferMeaning {
  import opened Text
  import opened VersionedRules
  import opened RuleHistory
  import opened RuleMeaning
  import opened RuleTransfer

  // ---- the file ----

  /** The group lists exactly the newest rows of its owner. */
  ghost predicate Lists(t: Table, owner: string, g: Group) {
    forall r :: r in g.rows <==> r.owner == owner && Newest(t, r)
  }

  /** The global part: exactly the newest global rows. */
  lemma GlobalsExported(db: Db, r: Row)
    requires Positive(db.globals)
    ensures r in Export(db).globals <==> r.owner == "" && Newest(db.globals, r)
  {
    SectionsExactly(db.globals, "");
  }

  ghost predicate ByName(names: seq<string>) {
    forall i, j :: 0 <= i < j < |names| ==> Precedes(Lower(names[i]), Lower(names[j]))
  }

  lemma {:induction false} InsertByName(names: seq<string>, n: string)
    requires ByName(names)
    ensures ByName(InsertName(names, n)) && InsertName(names, n) != []
    ensures InsertName(names, n)[0] == n || (names != [] && InsertName(names, n)[0] == names[0])
  {
    if names == [] {
    } else if Leq(Lower(n), Lower(names[0])) {
      InFront(n, names);
    } else {
      var tail := names[1..];
      forall i, j | 0 <= i < j < |tail| ensures Precedes(Lower(tail[i]), Lower(tail[j])) {
        assert tail[i] == names[i + 1] && tail[j] == names[j + 1];
      }
      InsertByName(tail, n);
      LeqTotal(Lower(n), Lower(names[0]));
      LeqExactly(Lower(names[0]), Lower(n));
      if tail != [] {
        assert tail[0] == names[1];
        LeqExactly(Lower(names[0]), Lower(names[1]));
      }
      InFront(names[0], InsertName(tail, n));
    }
  }

  lemma InFront(n: string, names: seq<string>)
    requires ByName(names) && names != [] && Leq(Lower(n), Lower(names[0]))
    ensures ByName([n] + names)
  {
    var all := [n] + names;
    forall i, j | 0 <= i < j < |all| ensures Precedes(Lower(all[i]), Lower(all[j])) {
      if i == 0 {
        var x := names[j - 1];
        LeqExactly(Lower(names[0]), Lower(x));
        LeqTotal(Lower(x), Lower(x));
        LeqTransitive(Lower(n), Lower(names[0]), Lower(x));
        LeqExactly(Lower(n), Lower(x));
      }
    }
  }

  lemma {:induction false} NamesByName(t: Table, blank: bool)
    ensures ByName(Names(t, blank))
  {
    if t != [] {
      NamesByName(t[..|t| - 1], blank);
      InsertByName(Names(t[..|t| - 1], blank), t[|t| - 1].owner);
    }
  }

  predicate HasOwner(t: Table, name: string) {
    exists i :: 0 <= i < |t| && t[i].owner == name
  }

  lemma NamesExactly(t: Table, blank: bool, n: string)
    ensures n in Names(t, blank) <==> AllBlank(n) == blank && HasOwner(t, n)
  {
    NamesMeaning(t, blank);
    BlankText(n);
    if HasOwner(t, n) {
      var i :| 0 <= i < |t| && t[i].owner == n;
      assert t[i] in t && Owns(t[i], n);
    }
    if r :| r in t && Owns(r, n) {
      var i := Position(t, r);
    }
  }

  /** The app part: one group for each name that is not blank, in alphabetical order, with the app's newest rows. */
  lemma AppsExported(db: Db, groups: seq<Group>, n: string, i: nat, j: nat)
    requires Positive(db.apps) && groups == Export(db).apps
    ensures (exists k :: 0 <= k < |groups| && groups[k].name == n) <==> !AllBlank(n) && HasOwner(db.apps, n)
    ensures i < |groups| ==> Lists(db.apps, groups[i].name, groups[i])
    ensures i < j < |groups| ==>
      groups[i].name != groups[j].name && Precedes(Lower(groups[i].name), Lower(groups[j].name))
  {
    var names := Names(db.apps, false);
    ExportAppsMeaning(db.apps, names);
    NamesByName(db.apps, false);
    NamesMeaning(db.apps, false);
    GroupNames(db.apps, names, groups, n);
    if i < |groups| {
      SectionsExactly(db.apps, names[i]);
    }
  }

  lemma GroupNames(t: Table, names: seq<string>, groups: seq<Group>, n: string)
    requires names == Names(t, false) && |groups| == |names|
    requires forall i :: 0 <= i < |names| ==> groups[i].name == names[i]
    ensures (exists k :: 0 <= k < |groups| && groups[k].name == n) <==> !AllBlank(n) && HasOwner(t, n)
  {
    NamesExactly(t, false, n);
    if n in names {
      var k :| 0 <= k < |names| && names[k] == n;
      assert groups[k].name == n;
    }
  }

  /** The repository part: the blank pattern goes under `__default__`; every pattern but a literal `__default__` has
      its newest rows there; and every group is some pattern's. */
  lemma ReposExported(db: Db, r: Row, i: nat)
    requires Positive(db.repos) && TrimmedOwners(db.repos)
    ensures r in db.repos && r.owner != "__default__" ==>
      exists g :: g in Export(db).repos && g.name == (if r.owner == "" then "__default__" else r.owner)
        && Lists(db.repos, r.owner, g)
    ensures i < |Export(db).repos| ==> var g := Export(db).repos[i];
      exists n :: HasOwner(db.repos, n) && g.name == (if n == "" then "__default__" else n) && Lists(db.repos, n, g)
  {
    var groups := Export(db).repos;
    if r in db.repos && r.owner != "__default__" {
      PatternExported(db.repos, r);
      SectionsExactly(db.repos, r.owner);
      var g := Group(PatternKey(r.owner), Sections(db.repos, r.owner));
      assert g in groups && Lists(db.repos, r.owner, g);
    }
    if i < |groups| {
      ExportReposFrom(db.repos, Patterns(db.repos));
      assert groups[i] in groups;
      var n :| n in Patterns(db.repos) && ExportedAs(db.repos, n, groups[i]);
      NamesExactly(db.repos, true, n);
      NamesExactly(db.repos, false, n);
      SectionsExactly(db.repos, n);
      assert Lists(db.repos, n, groups[i]);
    }
  }

  // ---- any file ----

  /** One row to be published. */
  datatype Write = Write(owner: string, section: string, body: string)

  /** The table after the writes, one after another, each at the next version of its stream. */
  ghost predicate Written(t: Table, writes: seq<Write>, t': Table)
    decreases |writes|
  {
    if writes == [] then t' == t
    else
      var n, w := |writes| - 1, writes[|writes| - 1];
      exists m :: Written(t, writes[..n], m) && Adds(m, t', w.owner, w.section, w.body)
  }

  /** The rows of a group that have text, trimmed, in their order. */
  function RowWrites(owner: string, rows: seq<Row>): seq<Write> {
    if rows == [] then []
    else
      var r := rows[|rows| - 1];
      RowWrites(owner, rows[..|rows| - 1]) + RowWrite(owner, r)
  }

  function AppWrites(groups: seq<Group>): seq<Write> {
    if groups == [] then []
    else
      var g := groups[|groups| - 1];
      AppWrites(groups[..|groups| - 1]) + RowWrites(AppKey(g.name), g.rows)
  }

  function RepoWrites(groups: seq<Group>): seq<Write> {
    if groups == [] then []
    else
      var g := groups[|groups| - 1];
      RepoWrites(groups[..|groups| - 1]) + RowWrites(if g.name == "__default__" then "" else Trim(g.name), g.rows)
  }

  /** A section called `body` in a group without any text. */
  predicate Trips(g: Group) {
    && (forall i :: 0 <= i < |g.rows| ==> g.rows[i].body == "")
    && exists i :: 0 <= i < |g.rows| && g.rows[i].section == "body"
  }

  predicate HasText(rows: seq<Row>) {
    exists i :: 0 <= i < |rows| && !AllBlank(rows[i].body)
  }

  lemma TripsExactly(g: Group)
    ensures Trips(g) <==> Misread(g)
  {
  }

  lemma WrittenOne(t: Table, writes: seq<Write>, m: Table, w: Write, t': Table)
    requires Written(t, writes, m) && Adds(m, t', w.owner, w.section, w.body)
    ensures Written(t, writes + [w], t')
  {
    assert (writes + [w])[..|writes|] == writes;
  }

  lemma {:induction false} WrittenConcat(t: Table, xs: seq<Write>, m: Table, ys: seq<Write>, t': Table)
    requires Written(t, xs, m) && Written(m, ys, t')
    ensures Written(t, xs + ys, t')
    decreases |ys|
  {
    if ys == [] {
      assert xs + ys == xs;
    } else {
      var front, w := ys[..|ys| - 1], ys[|ys| - 1];
      var k :| Written(m, front, k) && Adds(k, t', w.owner, w.section, w.body);
      WrittenConcat(t, xs, m, front, k);
      WrittenOne(t, xs + front, k, w, t');
      assert xs + ys == (xs + front) + [w];
    }
  }

  /** What a row adds to the writes. */
  function RowWrite(owner: string, r: Row): seq<Write> {
    if AllBlank(r.body) then [] else [Write(owner, StoredSection(r.section), Trim(r.body))]
  }

  lemma WrittenRow(t: Table, writes: seq<Write>, m: Table, owner: string, r: Row, t': Table)
    requires Written(t, writes, m)
    requires AllBlank(r.body) ==> t' == m
    requires !AllBlank(r.body) ==> Adds(m, t', owner, StoredSection(r.section), Trim(r.body))
    ensures Written(t, writes + RowWrite(owner, r), t')
  {
    if AllBlank(r.body) {
      assert writes + [] == writes;
    } else {
      WrittenOne(t, writes, m, Write(owner, StoredSection(r.section), Trim(r.body)), t');
    }
  }

  /** One more row of an app's group. */
  lemma AppRowImported(d: Db, name: string, r: Row, before: Outcome, o: Outcome)
    requires before.Done?
    requires o == if Trim(r.body) == "" then before
      else if PublishApp(before.db, name, Trim(r.body), r.section).None? then Crashed(before.db)
      else Done(PublishApp(before.db, name, Trim(r.body), r.section).value)
    ensures o.Done? <==> !(AllBlank(name) && !AllBlank(r.body))
    ensures o.Done? && AllBlank(r.body) ==> o == before
    ensures o.Done? && !AllBlank(r.body) ==>
      Adds(before.db.apps, o.db.apps, AppKey(name), StoredSection(r.section), Trim(r.body))
    ensures o.Done? ==> o.db == before.db.(apps := o.db.apps)
  {
    BlankText(r.body);
    AppWritten(before.db, name, Trim(r.body), r.section, PublishApp(before.db, name, Trim(r.body), r.section));
  }

  lemma {:induction false} AppRowsImported(d: Db, name: string, rows: seq<Row>)
    ensures ImportAppRows(Done(d), name, rows).Done? <==> !(AllBlank(name) && HasText(rows))
    ensures var o := ImportAppRows(Done(d), name, rows);
      o.Done? ==> Written(d.apps, RowWrites(AppKey(name), rows), o.db.apps) && o.db == d.(apps := o.db.apps)
  {
    if rows != [] {
      var front, r := rows[..|rows| - 1], rows[|rows| - 1];
      var before, o := ImportAppRows(Done(d), name, front), ImportAppRows(Done(d), name, rows);
      AppRowsImported(d, name, front);
      TextFurther(front, r, rows);
      if before.Done? {
        AppRowImported(d, name, r, before, o);
        if o.Done? {
          WrittenRow(d.apps, RowWrites(AppKey(name), front), before.db.apps, AppKey(name), r, o.db.apps);
        }
      }
    }
  }

  lemma TextFurther(front: seq<Row>, r: Row, rows: seq<Row>)
    requires rows == front + [r]
    ensures HasText(rows) <==> HasText(front) || !AllBlank(r.body)
  {
    if i :| 0 <= i < |front| && !AllBlank(front[i].body) {
      assert rows[i] == front[i];
    }
    assert rows[|front|] == r;
    if i :| 0 <= i < |rows| && !AllBlank(rows[i].body) && i < |front| {
      assert front[i] == rows[i];
    }
  }

  lemma TrimTwice(s: string)
    ensures Trim(Trim(s)) == Trim(s)
  {
    StripTwice(s, IsSpace);
  }

  /** One more row of a pattern's group. */
  lemma RepoRowImported(before: Db, pattern: string, r: Row, d: Db)
    requires d == if Trim(r.body) == "" then before else PublishRepo(before, pattern, Trim(r.body), r.section, None)
    ensures AllBlank(r.body) ==> d == before
    ensures !AllBlank(r.body) ==> Adds(before.repos, d.repos, Trim(pattern), StoredSection(r.section), Trim(r.body))
    ensures d == before.(repos := d.repos, repoOptions := d.repoOptions)
  {
    BlankText(r.body);
    TrimTwice(r.body);
    var key, sn := Trim(pattern), StoredSection(r.section);
    PublishAdds(before.repos, key, sn, Trim(r.body), SortOrderFor(before.repos, key, sn, None));
  }

  lemma {:induction false} RepoRowsImported(d: Db, pattern: string, rows: seq<Row>)
    ensures var d' := ImportRepoRows(d, pattern, rows);
      Written(d.repos, RowWrites(Trim(pattern), rows), d'.repos)
      && d' == d.(repos := d'.repos, repoOptions := d'.repoOptions)
  {
    if rows != [] {
      var front, r := rows[..|rows| - 1], rows[|rows| - 1];
      var before, d' := ImportRepoRows(d, pattern, front), ImportRepoRows(d, pattern, rows);
      RepoRowsImported(d, pattern, front);
      RepoRowImported(before, pattern, r, d');
      WrittenRow(d.repos, RowWrites(Trim(pattern), front), before.repos, Trim(pattern), r, d'.repos);
    }
  }

  predicate AppGroupGoes(g: Group) {
    !Trips(g) && !(AllBlank(g.name) && HasText(g.rows))
  }

  ghost predicate AllAppsGo(groups: seq<Group>) {
    forall i :: 0 <= i < |groups| ==> AppGroupGoes(groups[i])
  }

  ghost predicate AllReposGo(groups: seq<Group>) {
    forall i :: 0 <= i < |groups| ==> !Trips(groups[i])
  }

  lemma AllGoFurther(front: seq<Group>, g: Group, groups: seq<Group>)
    requires groups == front + [g]
    ensures AllAppsGo(groups) <==> AllAppsGo(front) && AppGroupGoes(g)
  {
    assert groups[|front|] == g && forall i :: 0 <= i < |front| ==> groups[i] == front[i];
  }

  lemma {:induction false} AppsImported(d: Db, groups: seq<Group>)
    ensures ImportApps(Done(d), groups).Done? <==> AllAppsGo(groups)
    ensures var o := ImportApps(Done(d), groups);
      o.Done? ==> Written(d.apps, AppWrites(groups), o.db.apps) && o.db == d.(apps := o.db.apps)
  {
    if groups != [] {
      var front, g := groups[..|groups| - 1], groups[|groups| - 1];
      AppsImported(d, front);
      assert groups == front + [g];
      AllGoFurther(front, g, groups);
      TripsExactly(g);
      var before := ImportApps(Done(d), front);
      if before.Done? && !Trips(g) {
        AppGroupImported(d, front, g, before.db);
      }
    }
  }

  lemma AppGroupImported(d: Db, front: seq<Group>, g: Group, before: Db)
    requires Written(d.apps, AppWrites(front), before.apps) && before == d.(apps := before.apps)
    ensures var o := ImportAppRows(Done(before), g.name, g.rows);
      && (o.Done? <==> !(AllBlank(g.name) && HasText(g.rows)))
      && (o.Done? ==> Written(d.apps, AppWrites(front) + RowWrites(AppKey(g.name), g.rows), o.db.apps))
      && (o.Done? ==> o.db == d.(apps := o.db.apps))
  {
    var o := ImportAppRows(Done(before), g.name, g.rows);
    AppRowsImported(before, g.name, g.rows);
    if o.Done? {
      WrittenConcat(d.apps, AppWrites(front), before.apps, RowWrites(AppKey(g.name), g.rows), o.db.apps);
    }
  }

  lemma {:induction false} ReposImported(d: Db, groups: seq<Group>)
    ensures ImportRepos(Done(d), groups).Done? <==> AllReposGo(groups)
    ensures var o := ImportRepos(Done(d), groups);
      o.Done? ==>
        Written(d.repos, RepoWrites(groups), o.db.repos)
        && o.db == d.(repos := o.db.repos, repoOptions := o.db.repoOptions)
  {
    if groups != [] {
      var front, g := groups[..|groups| - 1], groups[|groups| - 1];
      ReposImported(d, front);
      assert groups == front + [g];
      assert AllReposGo(groups) <==> AllReposGo(front) && !Trips(g);
      TripsExactly(g);
      var before := ImportRepos(Done(d), front);
      if before.Done? && !Trips(g) {
        RepoRowsImported(before.db, PatternOf(g.name), g.rows);
        assert Trim("") == "";
        WrittenConcat(d.repos, RepoWrites(front), before.db.repos, RowWrites(Trim(PatternOf(g.name)), g.rows),
                      ImportRepoRows(before.db, PatternOf(g.name), g.rows).repos);
      }
    }
  }

  /** The parts of a file that make its import fail: a global section called `body`, a group that trips, or text for
      a nameless app. */
  ghost predicate Goes(doc: Document) {
    && (forall i :: 0 <= i < |doc.globals| ==> doc.globals[i].section != "body")
    && AllAppsGo(doc.apps) && AllReposGo(doc.repos)
  }

  /** Importing any file into any tables: it goes through exactly when nothing in it makes it fail; then all its app
      and repository rows that have text are published, trimmed, in the order of the file, and nothing else changes
      but the patterns' settings. */
  lemma ImportExactly(db: Db, doc: Document)
    ensures Import(db, doc).Done? <==> Goes(doc)
    ensures var o := Import(db, doc);
      o.Done? ==>
        && Written(db.apps, AppWrites(doc.apps), o.db.apps) && Written(db.repos, RepoWrites(doc.repos), o.db.repos)
        && o.db == db.(apps := o.db.apps, repos := o.db.repos, repoOptions := o.db.repoOptions)
  {
    AppsImported(db, doc.apps);
    var between := ImportApps(Done(db), doc.apps);
    if between.Done? {
      ReposImported(between.db, doc.repos);
    } else {
      CrashStays(between, doc.repos);
    }
  }

  lemma {:induction false} CrashStays(o: Outcome, groups: seq<Group>)
    requires o.Crashed?
    ensures ImportRepos(o, groups).Crashed?
  {
    if groups != [] {
      CrashStays(o, groups[..|groups| - 1]);
    }
  }
}
