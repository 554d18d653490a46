/** Exporting all rules and importing the file again (`export_rules_json` in app/services/versioned_rules.py,
    `import_rules` in app/routers/admin_rules.py). */
module RuleTransfer {
  import opened Text
  import opened VersionedRules
  import opened RuleHistory

  /** The sections under one app name or pattern key, in the order of the file. */
  datatype Group = Group(name: string, rows: seq<Row>)

  datatype Document = Document(globals: seq<Row>, apps: seq<Group>, repos: seq<Group>)

  // ---- export ----

  function InsertName(names: seq<string>, n: string): seq<string> {
    if names == [] then [n]
    else if Leq(Lower(n), Lower(names[0])) then [n] + names
    else [names[0]] + InsertName(names[1..], n)
  }

  /** The distinct owners that are blank, or that are not, in order. */
  function Names(t: Table, blank: bool): seq<string> {
    if t == [] then []
    else
      var r, front := t[|t| - 1], Names(t[..|t| - 1], blank);
      if (Trim(r.owner) == "") == blank && r.owner !in front then InsertName(front, r.owner) else front
  }

  /** `list_distinct_repo_patterns`: blank patterns come last. */
  function Patterns(t: Table): seq<string> {
    Names(t, false) + Names(t, true)
  }

  function ExportApps(t: Table, names: seq<string>): seq<Group> {
    if names == [] then []
    else ExportApps(t, names[..|names| - 1]) + [Group(names[|names| - 1], Sections(t, names[|names| - 1]))]
  }

  /** Assigning to a key of a dictionary: an existing key keeps its place. */
  function Put(groups: seq<Group>, g: Group): seq<Group> {
    if groups == [] then [g]
    else if groups[0].name == g.name then [g] + groups[1..]
    else [groups[0]] + Put(groups[1..], g)
  }

  function PatternKey(pattern: string): string {
    if pattern == "" then DEFAULT_APP else pattern
  }

  function ExportRepos(t: Table, names: seq<string>): seq<Group> {
    if names == [] then []
    else Put(ExportRepos(t, names[..|names| - 1]),
             Group(PatternKey(names[|names| - 1]), Sections(t, names[|names| - 1])))
  }

  function Export(db: Db): Document {
    Document(Sections(db.globals, ""), ExportApps(db.apps, Names(db.apps, false)),
      ExportRepos(db.repos, Patterns(db.repos)))
  }

  // ---- import ----

  /** `Crashed`: an exception; what was published before it stays. */
  datatype Outcome = Done(db: Db) | Crashed(db: Db)

  predicate HasBodySection(rows: seq<Row>) {
    exists i :: 0 <= i < |rows| && rows[i].section == "body"
  }

  predicate AllEmpty(rows: seq<Row>) {
    forall i :: 0 <= i < |rows| ==> rows[i].body == ""
  }

  /** With no non-empty body the group is taken for the older shape, whose `body` is a string; a section of
      that name is not one. */
  predicate Misread(g: Group) {
    AllEmpty(g.rows) && HasBodySection(g.rows)
  }

  function ImportAppRows(o: Outcome, name: string, rows: seq<Row>): Outcome {
    if rows == [] then o
    else
      var before, r := ImportAppRows(o, name, rows[..|rows| - 1]), rows[|rows| - 1];
      if before.Crashed? || Trim(r.body) == "" then before
      else
        var published := PublishApp(before.db, name, Trim(r.body), r.section);
        if published.None? then Crashed(before.db) else Done(published.value)
  }

  function ImportApps(o: Outcome, groups: seq<Group>): Outcome {
    if groups == [] then o
    else
      var before, g := ImportApps(o, groups[..|groups| - 1]), groups[|groups| - 1];
      if before.Crashed? then before else if Misread(g) then Crashed(before.db)
      else ImportAppRows(before, g.name, g.rows)
  }

  function ImportRepoRows(db: Db, pattern: string, rows: seq<Row>): Db {
    if rows == [] then db
    else
      var before, r := ImportRepoRows(db, pattern, rows[..|rows| - 1]), rows[|rows| - 1];
      if Trim(r.body) == "" then before else PublishRepo(before, pattern, Trim(r.body), r.section, None)
  }

  function PatternOf(key: string): string {
    if key == DEFAULT_APP then "" else key
  }

  function ImportRepos(o: Outcome, groups: seq<Group>): Outcome {
    if groups == [] then o
    else
      var before, g := ImportRepos(o, groups[..|groups| - 1]), groups[|groups| - 1];
      if before.Crashed? then before
      else if Misread(g) then Crashed(before.db)
      else Done(ImportRepoRows(before.db, PatternOf(g.name), g.rows))
  }

  /** The global part is read in the older shape too: it has a `body` only if a section is called that. */
  function Import(db: Db, doc: Document): Outcome {
    if HasBodySection(doc.globals) then Crashed(db) else ImportRepos(ImportApps(Done(db), doc.apps), doc.repos)
  }

  method ImportAppGroup(db: Db, g: Group) returns (o: Outcome)
    ensures o == if Misread(g) then Crashed(db) else ImportAppRows(Done(db), g.name, g.rows)
  {
    if Misread(g) {
      return Crashed(db);
    }
    o := Done(db);
    var i := 0;
    while i < |g.rows|
      invariant 0 <= i <= |g.rows|
      invariant o == ImportAppRows(Done(db), g.name, g.rows[..i])
    {
      assert g.rows[..i + 1][..i] == g.rows[..i];
      var body := Trim(g.rows[i].body);
      if o.Done? && body != "" {
        var published := PublishApp(o.db, g.name, body, g.rows[i].section);
        o := if published.None? then Crashed(o.db) else Done(published.value);
      }
      i := i + 1;
    }
    assert g.rows[..i] == g.rows;
  }

  method ImportRepoGroup(db: Db, g: Group) returns (o: Outcome)
    ensures o == if Misread(g) then Crashed(db) else Done(ImportRepoRows(db, PatternOf(g.name), g.rows))
  {
    if Misread(g) {
      return Crashed(db);
    }
    var d, i := db, 0;
    while i < |g.rows|
      invariant 0 <= i <= |g.rows|
      invariant d == ImportRepoRows(db, PatternOf(g.name), g.rows[..i])
    {
      assert g.rows[..i + 1][..i] == g.rows[..i];
      var body := Trim(g.rows[i].body);
      if body != "" {
        d := PublishRepo(d, PatternOf(g.name), body, g.rows[i].section, None);
      }
      i := i + 1;
    }
    assert g.rows[..i] == g.rows;
    return Done(d);
  }

  /** `import_rules`. */
  method ImportRules(db: Db, doc: Document) returns (o: Outcome)
    ensures o == Import(db, doc)
  {
    if HasBodySection(doc.globals) {
      return Crashed(db);
    }
    o := Done(db);
    var i := 0;
    while i < |doc.apps|
      invariant 0 <= i <= |doc.apps|
      invariant o == ImportApps(Done(db), doc.apps[..i])
    {
      assert doc.apps[..i + 1][..i] == doc.apps[..i];
      if o.Done? {
        o := ImportAppGroup(o.db, doc.apps[i]);
      }
      i := i + 1;
    }
    assert doc.apps[..i] == doc.apps;
    ghost var apps := o;
    i := 0;
    while i < |doc.repos|
      invariant 0 <= i <= |doc.repos|
      invariant o == ImportRepos(apps, doc.repos[..i])
    {
      assert doc.repos[..i + 1][..i] == doc.repos[..i];
      if o.Done? {
        o := ImportRepoGroup(o.db, doc.repos[i]);
      }
      i := i + 1;
    }
    assert doc.repos[..i] == doc.repos;
  }

  // ---- what an import writes ----

  /** The row that carries `r` over. */
  function Carried(owner: string, r: Row, sortOrder: int): Row {
    Row(owner, r.section, 1, Trim(r.body), sortOrder)
  }

  function CarriedRows(owner: string, rows: seq<Row>, sortOrder: int): seq<Row> {
    if rows == [] then []
    else
      var r := rows[|rows| - 1];
      CarriedRows(owner, rows[..|rows| - 1], sortOrder)
      + if Trim(r.body) == "" then [] else [Carried(owner, r, sortOrder)]
  }

  predicate NormalSection(s: string) {
    s != "" && Trim(s) == s
  }

  /** Sections are distinct and under names that publishing leaves alone. */
  ghost predicate NormalRows(rows: seq<Row>) {
    DistinctSections(rows) && forall i :: 0 <= i < |rows| ==> NormalSection(rows[i].section)
  }

  lemma NormalFront(rows: seq<Row>)
    requires NormalRows(rows) && rows != []
    ensures NormalRows(rows[..|rows| - 1])
  {
  }

  ghost predicate NoStream(t: Table, owner: string, section: string) {
    forall i :: 0 <= i < |t| ==> !InStream(t[i], owner, section)
  }

  ghost predicate NoOwner(t: Table, owner: string) {
    forall i :: 0 <= i < |t| ==> t[i].owner != owner
  }

  predicate Carries(r: Row, owner: string, sortOrder: int, x: Row) {
    Trim(r.body) != "" && x == Carried(owner, r, sortOrder)
  }

  lemma {:induction false} CarriedMember(owner: string, rows: seq<Row>, sortOrder: int, x: Row)
    ensures x in CarriedRows(owner, rows, sortOrder) <==> exists r :: r in rows && Carries(r, owner, sortOrder, x)
  {
    if rows != [] {
      var front, last := rows[..|rows| - 1], rows[|rows| - 1];
      CarriedMember(owner, front, sortOrder, x);
      assert rows == front + [last];
      assert Carries(last, owner, sortOrder, x) <==> Trim(last.body) != "" && x == Carried(owner, last, sortOrder);
    }
  }

  lemma NoStreamCarried(owner: string, rows: seq<Row>, sortOrder: int, section: string)
    requires forall r :: r in rows ==> r.section != section
    ensures NoStream(CarriedRows(owner, rows, sortOrder), owner, section)
  {
    var carried := CarriedRows(owner, rows, sortOrder);
    forall i | 0 <= i < |carried| ensures !InStream(carried[i], owner, section) {
      CarriedMember(owner, rows, sortOrder, carried[i]);
    }
  }

  lemma NoStreamConcat(a: Table, b: Table, owner: string, section: string)
    requires NoOwner(a, owner) && NoStream(b, owner, section)
    ensures NoStream(a + b, owner, section)
  {
  }

  /** The next section of a group finds its stream empty. */
  lemma NextStreamEmpty(t: Table, owner: string, rows: seq<Row>, sortOrder: int)
    requires NoOwner(t, owner) && NormalRows(rows) && rows != []
    ensures NoStream(t + CarriedRows(owner, rows[..|rows| - 1], sortOrder), owner, rows[|rows| - 1].section)
  {
    var front, section := rows[..|rows| - 1], rows[|rows| - 1].section;
    forall r | r in front ensures r.section != section {
      var i :| 0 <= i < |front| && front[i] == r;
      assert rows[i] == r;
    }
    NoStreamCarried(owner, front, sortOrder, section);
    NoStreamConcat(t, CarriedRows(owner, front, sortOrder), owner, section);
  }

  lemma FirstVersionOf(t: Table, owner: string, section: string)
    requires NoStream(t, owner, section)
    ensures MaxVersion(t, owner, section) == 0
  {
    MaxIs(t, owner, section, 0);
  }

  lemma NormalSectionKept(s: string)
    requires NormalSection(s)
    ensures SectionName(s) == s
  {
  }

  lemma AppRowWrites(before: Db, t: Table, owner: string, rows: seq<Row>)
    requires AppKey(owner) == owner != "" && NormalRows(rows) && rows != [] && NoOwner(t, owner)
    requires before.apps == t + CarriedRows(owner, rows[..|rows| - 1], 0)
    ensures PublishApp(before, owner, Trim(rows[|rows| - 1].body), rows[|rows| - 1].section)
      == Some(before.(apps := before.apps + [Carried(owner, rows[|rows| - 1], 0)]))
  {
    NextStreamEmpty(t, owner, rows, 0);
    FirstVersionOf(before.apps, owner, rows[|rows| - 1].section);
    NormalSectionKept(rows[|rows| - 1].section);
  }

  lemma {:induction false} AppGroupWrites(db: Db, owner: string, rows: seq<Row>)
    requires AppKey(owner) == owner != "" && NormalRows(rows) && NoOwner(db.apps, owner)
    ensures ImportAppRows(Done(db), owner, rows) == Done(db.(apps := db.apps + CarriedRows(owner, rows, 0)))
  {
    if rows == [] {
      assert db.apps + [] == db.apps;
    } else {
      var front, r := rows[..|rows| - 1], rows[|rows| - 1];
      NormalFront(rows);
      AppGroupWrites(db, owner, front);
      if Trim(r.body) != "" {
        AppRowWrites(db.(apps := db.apps + CarriedRows(owner, front, 0)), db.apps, owner, rows);
      }
      Assoc(db.apps, CarriedRows(owner, front, 0), Carried(owner, r, 0));
    }
  }

  lemma {:induction false} AnyRowMeaning(t: Table, owner: string)
    ensures var any := AnyRow(t, owner); any.Some? ==> any.value in t && any.value.owner == owner
  {
    if t != [] && t[0].owner != owner {
      AnyRowMeaning(t[1..], owner);
    }
  }

  lemma CarriedSortOrder(t: Table, owner: string, rows: seq<Row>, x: Row)
    requires NoOwner(t, owner) && x in t + CarriedRows(owner, rows, 100) && x.owner == owner
    ensures x.sortOrder == 100
  {
    assert x !in t;
    CarriedMember(owner, rows, 100, x);
  }

  lemma FirstSortOrder(t: Table, owner: string, rows: seq<Row>, section: string)
    requires NoOwner(t, owner) && NoStream(t + CarriedRows(owner, rows, 100), owner, section)
    ensures SortOrderFor(t + CarriedRows(owner, rows, 100), owner, section, None) == 100
  {
    var all := t + CarriedRows(owner, rows, 100);
    assert Latest(all, owner, section).None?;
    AnyRowMeaning(all, owner);
    var any := AnyRow(all, owner);
    if any.Some? {
      CarriedSortOrder(t, owner, rows, any.value);
    }
  }

  lemma PublishFirst(db: Db, owner: string, r: Row)
    requires Trim(owner) == owner && NormalSection(r.section) && NoStream(db.repos, owner, r.section)
    requires SortOrderFor(db.repos, owner, r.section, None) == 100
    ensures var d := PublishRepo(db, owner, Trim(r.body), r.section, None);
      d.repos == db.repos + [Carried(owner, r, 100)] && d.apps == db.apps && d.globals == db.globals
  {
    FirstVersionOf(db.repos, owner, r.section);
    StripTwice(r.body, IsSpace);
  }

  lemma RepoRowWrites(before: Db, t: Table, owner: string, rows: seq<Row>, d: Db)
    requires Trim(owner) == owner && NormalRows(rows) && rows != [] && NoOwner(t, owner)
    requires before.repos == t + CarriedRows(owner, rows[..|rows| - 1], 100)
    requires d == PublishRepo(before, owner, Trim(rows[|rows| - 1].body), rows[|rows| - 1].section, None)
    ensures d.repos == before.repos + [Carried(owner, rows[|rows| - 1], 100)] && d.apps == before.apps
      && d.globals == before.globals
  {
    NextStreamEmpty(t, owner, rows, 100);
    FirstSortOrder(t, owner, rows[..|rows| - 1], rows[|rows| - 1].section);
    PublishFirst(before, owner, rows[|rows| - 1]);
  }

  lemma {:induction false} RepoGroupWrites(db: Db, owner: string, rows: seq<Row>)
    requires Trim(owner) == owner && NormalRows(rows) && NoOwner(db.repos, owner)
    ensures var d := ImportRepoRows(db, owner, rows);
      d.repos == db.repos + CarriedRows(owner, rows, 100) && d.apps == db.apps && d.globals == db.globals
  {
    if rows == [] {
      assert db.repos + [] == db.repos;
    } else {
      var front, r := rows[..|rows| - 1], rows[|rows| - 1];
      NormalFront(rows);
      RepoGroupWrites(db, owner, front);
      var before := ImportRepoRows(db, owner, front);
      if Trim(r.body) != "" {
        RepoRowWrites(before, db.repos, owner, rows, ImportRepoRows(db, owner, rows));
      }
      Assoc(db.repos, CarriedRows(owner, front, 100), Carried(owner, r, 100));
    }
  }

  lemma Assoc(a: seq<Row>, b: seq<Row>, r: Row)
    ensures (a + b) + [r] == a + (b + [r])
    ensures a + b == a + (b + [])
  {
    assert b + [] == b;
  }

  // ---- whole documents ----

  /** The rows written for all groups; `owner` says under which name. */
  function Built(groups: seq<Group>, owner: string -> string, sortOrder: int): seq<Row> {
    if groups == [] then []
    else
      var g := groups[|groups| - 1];
      Built(groups[..|groups| - 1], owner, sortOrder) + CarriedRows(owner(g.name), g.rows, sortOrder)
  }

  ghost predicate DistinctOwners(groups: seq<Group>, owner: string -> string) {
    forall i, j :: 0 <= i < j < |groups| ==> owner(groups[i].name) != owner(groups[j].name)
  }

  ghost predicate CarriedFrom(groups: seq<Group>, owner: string -> string, sortOrder: int, x: Row) {
    exists g :: g in groups && x in CarriedRows(owner(g.name), g.rows, sortOrder)
  }

  lemma {:induction false} BuiltMember(groups: seq<Group>, owner: string -> string, sortOrder: int, x: Row)
    ensures x in Built(groups, owner, sortOrder) <==> CarriedFrom(groups, owner, sortOrder, x)
  {
    if groups != [] {
      var front, last := groups[..|groups| - 1], groups[|groups| - 1];
      BuiltMember(front, owner, sortOrder, x);
      assert groups == front + [last];
    }
  }

  lemma BuiltNoOwner(groups: seq<Group>, owner: string -> string, sortOrder: int)
    requires DistinctOwners(groups, owner) && groups != []
    ensures NoOwner(Built(groups[..|groups| - 1], owner, sortOrder), owner(groups[|groups| - 1].name))
  {
    var front, g := groups[..|groups| - 1], groups[|groups| - 1];
    var rows := Built(front, owner, sortOrder);
    forall k | 0 <= k < |rows| ensures rows[k].owner != owner(g.name) {
      assert rows[k] in rows;
      BuiltMember(front, owner, sortOrder, rows[k]);
      var h :| h in front && rows[k] in CarriedRows(owner(h.name), h.rows, sortOrder);
      CarriedMember(owner(h.name), h.rows, sortOrder, rows[k]);
      var j :| 0 <= j < |front| && front[j] == h;
      assert owner(groups[j].name) != owner(g.name);
    }
  }

  function Same(name: string): string { name }

  ghost predicate AppGroupsOk(groups: seq<Group>) {
    && DistinctOwners(groups, Same)
    && forall i :: 0 <= i < |groups| ==>
      !Misread(groups[i]) && NormalRows(groups[i].rows) && AppKey(groups[i].name) == groups[i].name != ""
  }

  ghost predicate RepoGroupsOk(groups: seq<Group>) {
    && DistinctOwners(groups, PatternOf)
    && forall i :: 0 <= i < |groups| ==>
      !Misread(groups[i]) && NormalRows(groups[i].rows) && Trim(groups[i].name) == groups[i].name
  }

  lemma {:induction false} AppsWrite(db: Db, groups: seq<Group>)
    requires db.apps == [] && AppGroupsOk(groups)
    ensures ImportApps(Done(db), groups) == Done(db.(apps := Built(groups, Same, 0)))
  {
    if groups != [] {
      var front, g := groups[..|groups| - 1], groups[|groups| - 1];
      AppsWrite(db, front);
      BuiltNoOwner(groups, Same, 0);
      AppGroupWrites(db.(apps := Built(front, Same, 0)), g.name, g.rows);
    }
  }

  lemma PatternTrimmed(name: string)
    requires Trim(name) == name
    ensures Trim(PatternOf(name)) == PatternOf(name)
  {
  }

  lemma {:induction false} ReposWrite(db: Db, groups: seq<Group>)
    requires db.repos == [] && RepoGroupsOk(groups)
    ensures var o := ImportRepos(Done(db), groups);
      o.Done? && o.db.repos == Built(groups, PatternOf, 100) && o.db.apps == db.apps && o.db.globals == db.globals
  {
    if groups != [] {
      var front, g := groups[..|groups| - 1], groups[|groups| - 1];
      ReposWrite(db, front);
      BuiltNoOwner(groups, PatternOf, 100);
      PatternTrimmed(g.name);
      RepoGroupWrites(ImportRepos(Done(db), front).db, PatternOf(g.name), g.rows);
    }
  }

  // ---- what an export holds ----

  ghost predicate Distinct(names: seq<string>) {
    forall i, j :: 0 <= i < j < |names| ==> names[i] != names[j]
  }

  lemma DistinctCons(head: string, rest: seq<string>)
    requires Distinct(rest) && head !in rest
    ensures Distinct([head] + rest)
  {
  }

  lemma DistinctTail(names: seq<string>)
    requires Distinct(names) && names != []
    ensures Distinct(names[1..]) && names[0] !in names[1..]
  {
    var rest := names[1..];
    forall i, j | 0 <= i < j < |rest| ensures rest[i] != rest[j] {
      assert rest[i] == names[i + 1] && rest[j] == names[j + 1];
    }
    forall i | 0 <= i < |rest| ensures rest[i] != names[0] {
      assert rest[i] == names[i + 1];
    }
  }

  lemma {:induction false} InsertNameMeaning(names: seq<string>, n: string)
    requires Distinct(names) && n !in names
    ensures Distinct(InsertName(names, n)) && forall m :: m in InsertName(names, n) <==> m in names || m == n
  {
    if names == [] {
    } else if Leq(Lower(n), Lower(names[0])) {
      DistinctCons(n, names);
    } else {
      DistinctTail(names);
      InsertNameMeaning(names[1..], n);
      assert names == [names[0]] + names[1..];
      DistinctCons(names[0], InsertName(names[1..], n));
    }
  }

  predicate Owns(r: Row, n: string) {
    r.owner == n
  }

  lemma {:induction false} NamesMeaning(t: Table, blank: bool)
    ensures Distinct(Names(t, blank))
    ensures forall n :: n in Names(t, blank) <==> (Trim(n) == "") == blank && exists r :: r in t && Owns(r, n)
  {
    if t != [] {
      var front, last := t[..|t| - 1], t[|t| - 1];
      NamesMeaning(front, blank);
      assert t == front + [last];
      if (Trim(last.owner) == "") == blank && last.owner !in Names(front, blank) {
        InsertNameMeaning(Names(front, blank), last.owner);
      }
      forall n ensures n in Names(t, blank) <==> (Trim(n) == "") == blank && exists r :: r in t && Owns(r, n) {
        assert (exists r :: r in t && Owns(r, n)) <==> (exists r :: r in front && Owns(r, n)) || Owns(last, n);
      }
    }
  }

  ghost predicate NormalSections(t: Table) {
    forall r :: r in t ==> NormalSection(r.section)
  }

  lemma SectionsNormal(t: Table, owner: string)
    requires Unique(t) && NormalSections(t)
    ensures NormalRows(Sections(t, owner))
  {
    SectionsMeaning(t, owner);
    var rows := Sections(t, owner);
    forall i | 0 <= i < |rows| ensures NormalSection(rows[i].section) {
      assert rows[i] in rows && rows[i] in t;
    }
  }

  lemma {:induction false} ExportAppsMeaning(t: Table, names: seq<string>)
    ensures |ExportApps(t, names)| == |names|
    ensures forall i :: 0 <= i < |names| ==> ExportApps(t, names)[i] == Group(names[i], Sections(t, names[i]))
  {
    if names != [] {
      ExportAppsMeaning(t, names[..|names| - 1]);
    }
  }

  lemma {:induction false} PutMeaning(groups: seq<Group>, g: Group)
    requires DistinctOwners(groups, Same)
    ensures DistinctOwners(Put(groups, g), Same)
    ensures forall h :: h in Put(groups, g) <==> h == g || (h in groups && h.name != g.name)
  {
    if groups != [] {
      var head, rest := groups[0], groups[1..];
      assert groups == [head] + rest;
      forall i, j | 0 <= i < j < |rest| ensures Same(rest[i].name) != Same(rest[j].name) {
        assert rest[i] == groups[i + 1] && rest[j] == groups[j + 1];
      }
      forall h | h in rest ensures h.name != head.name {
        var i :| 0 <= i < |rest| && rest[i] == h;
        assert Same(groups[0].name) != Same(groups[i + 1].name);
      }
      PutMeaning(rest, g);
    }
  }

  predicate ExportedAs(t: Table, n: string, g: Group) {
    g == Group(PatternKey(n), Sections(t, n))
  }

  lemma {:induction false} ExportReposFrom(t: Table, names: seq<string>)
    ensures DistinctOwners(ExportRepos(t, names), Same)
    ensures forall g :: g in ExportRepos(t, names) ==> exists n :: n in names && ExportedAs(t, n, g)
  {
    if names != [] {
      var front, last := names[..|names| - 1], names[|names| - 1];
      var g := Group(PatternKey(last), Sections(t, last));
      ExportReposFrom(t, front);
      PutMeaning(ExportRepos(t, front), g);
      assert names == front + [last];
      assert ExportedAs(t, last, g);
    }
  }

  /** A pattern whose key is no other's is exported. */
  lemma {:induction false} ExportReposHas(t: Table, names: seq<string>, n: string)
    requires n in names && n != "" && n != DEFAULT_APP
    ensures Group(n, Sections(t, n)) in ExportRepos(t, names)
  {
    var front, last := names[..|names| - 1], names[|names| - 1];
    assert names == front + [last];
    ExportReposFrom(t, front);
    PutMeaning(ExportRepos(t, front), Group(PatternKey(last), Sections(t, last)));
    if last != n {
      ExportReposHas(t, front, n);
    }
  }

  /** Patterns as publishing stores them. */
  ghost predicate TrimmedOwners(t: Table) {
    forall r :: r in t ==> Trim(r.owner) == r.owner
  }

  lemma BlankLast(t: Table, r: Row)
    requires TrimmedOwners(t) && r in t && r.owner == ""
    ensures Patterns(t) != [] && Patterns(t)[|Patterns(t)| - 1] == ""
  {
    var blank := Names(t, true);
    NamesMeaning(t, true);
    assert Owns(r, "") && Trim("") == "";
    assert "" in blank;
    var last := blank[|blank| - 1];
    assert last in blank;
    var q :| q in t && Owns(q, last);
    assert last == "";
    assert Patterns(t)[|Patterns(t)| - 1] == last;
  }

  lemma IsPattern(t: Table, r: Row)
    requires r in t
    ensures r.owner in Patterns(t)
  {
    NamesMeaning(t, true);
    NamesMeaning(t, false);
    assert Owns(r, r.owner);
  }

  lemma BlankExported(t: Table, r: Row)
    requires TrimmedOwners(t) && r in t && r.owner == ""
    ensures Group(PatternKey(""), Sections(t, "")) in ExportRepos(t, Patterns(t))
  {
    BlankLast(t, r);
    var names := Patterns(t);
    var front := names[..|names| - 1];
    ExportReposFrom(t, front);
    PutMeaning(ExportRepos(t, front), Group(PatternKey(""), Sections(t, "")));
  }

  /** The rows of every pattern but a literal `__default__` are in the file. */
  lemma PatternExported(t: Table, r: Row)
    requires TrimmedOwners(t) && r in t && r.owner != DEFAULT_APP
    ensures Group(PatternKey(r.owner), Sections(t, r.owner)) in ExportRepos(t, Patterns(t))
  {
    if r.owner == "" {
      BlankExported(t, r);
    } else {
      IsPattern(t, r);
      ExportReposHas(t, Patterns(t), r.owner);
    }
  }

  // ---- the round trip ----

  /** `x` carries over a latest row of the table. */
  ghost predicate FromLatest(t: Table, sortOrder: int, x: Row) {
    exists r :: IsLatest(t, r) && Carries(r, r.owner, sortOrder, x)
  }

  ghost predicate NormalApps(t: Table) {
    Unique(t) && NormalSections(t) && forall r :: r in t ==> AppKey(r.owner) == r.owner != ""
  }

  ghost predicate NormalRepos(t: Table) {
    Unique(t) && NormalSections(t) && TrimmedOwners(t)
  }

  ghost predicate NoneMisread(groups: seq<Group>) {
    forall i :: 0 <= i < |groups| ==> !Misread(groups[i])
  }

  lemma AppNamesNormal(t: Table)
    requires NormalApps(t)
    ensures forall n :: n in Names(t, false) ==> AppKey(n) == n != ""
    ensures forall r :: r in t ==> r.owner in Names(t, false)
  {
    NamesMeaning(t, false);
    forall n | n in Names(t, false) ensures AppKey(n) == n != "" {
      var r :| r in t && Owns(r, n);
    }
    forall r | r in t ensures r.owner in Names(t, false) {
      assert Owns(r, r.owner);
      NormalNotBlank(r.owner);
    }
  }

  lemma NormalNotBlank(n: string)
    requires AppKey(n) == n != ""
    ensures Trim(n) != ""
  {
    TrimLower(n);
    assert |Lower(Trim(n))| == |Trim(n)|;
  }

  lemma AppGroupsNormal(t: Table)
    requires NormalApps(t) && NoneMisread(ExportApps(t, Names(t, false)))
    ensures AppGroupsOk(ExportApps(t, Names(t, false)))
  {
    var names := Names(t, false);
    var groups := ExportApps(t, names);
    NamesMeaning(t, false);
    AppNamesNormal(t);
    ExportAppsMeaning(t, names);
    forall i | 0 <= i < |groups|
      ensures NormalRows(groups[i].rows) && AppKey(groups[i].name) == groups[i].name != ""
    {
      SectionsNormal(t, names[i]);
      assert names[i] in names;
    }
  }

  lemma AppCarriedBack(t: Table, x: Row)
    requires NormalApps(t) && x in Built(ExportApps(t, Names(t, false)), Same, 0)
    ensures FromLatest(t, 0, x)
  {
    var names := Names(t, false);
    var groups := ExportApps(t, names);
    BuiltMember(groups, Same, 0, x);
    var g :| g in groups && x in CarriedRows(Same(g.name), g.rows, 0);
    ExportAppsMeaning(t, names);
    SectionsMeaning(t, g.name);
    CarriedMember(g.name, g.rows, 0, x);
    var r :| r in g.rows && Carries(r, g.name, 0, x);
    assert IsLatest(t, r) && Carries(r, r.owner, 0, x);
  }

  lemma AppCarriedOver(t: Table, r: Row, x: Row)
    requires NormalApps(t) && IsLatest(t, r) && Carries(r, r.owner, 0, x)
    ensures x in Built(ExportApps(t, Names(t, false)), Same, 0)
  {
    var names := Names(t, false);
    var groups := ExportApps(t, names);
    AppNamesNormal(t);
    ExportAppsMeaning(t, names);
    var i :| 0 <= i < |names| && names[i] == r.owner;
    var g := groups[i];
    assert g in groups;
    SectionsMeaning(t, r.owner);
    CarriedMember(r.owner, g.rows, 0, x);
    assert Same(g.name) == r.owner;
    BuiltMember(groups, Same, 0, x);
  }

  lemma AppsCarried(t: Table, x: Row)
    requires NormalApps(t)
    ensures x in Built(ExportApps(t, Names(t, false)), Same, 0) <==> FromLatest(t, 0, x)
  {
    if x in Built(ExportApps(t, Names(t, false)), Same, 0) {
      AppCarriedBack(t, x);
    }
    if r :| IsLatest(t, r) && Carries(r, r.owner, 0, x) {
      AppCarriedOver(t, r, x);
    }
  }

  lemma RepoGroupsNormal(t: Table)
    requires NormalRepos(t) && NoneMisread(ExportRepos(t, Patterns(t)))
    ensures RepoGroupsOk(ExportRepos(t, Patterns(t)))
  {
    var names := Patterns(t);
    var groups := ExportRepos(t, names);
    ExportReposFrom(t, names);
    forall i | 0 <= i < |groups|
      ensures NormalRows(groups[i].rows) && Trim(groups[i].name) == groups[i].name && groups[i].name != ""
    {
      assert groups[i] in groups;
      var n :| n in names && ExportedAs(t, n, groups[i]);
      SectionsNormal(t, n);
      PatternNormal(t, n);
    }
    forall i, j | 0 <= i < j < |groups| ensures PatternOf(groups[i].name) != PatternOf(groups[j].name) {
      assert Same(groups[i].name) != Same(groups[j].name);
    }
  }

  lemma PatternNormal(t: Table, n: string)
    requires TrimmedOwners(t) && n in Patterns(t)
    ensures Trim(PatternKey(n)) == PatternKey(n) != ""
  {
    NamesMeaning(t, false);
    NamesMeaning(t, true);
    var r :| r in t && Owns(r, n);
    StripFixed(DEFAULT_APP, IsSpace);
  }

  /** No section of a pattern literally called `__default__` has a body that would be carried over. */
  ghost predicate NoDefaultPattern(t: Table) {
    forall r :: IsLatest(t, r) && r.owner == DEFAULT_APP ==> Trim(r.body) == ""
  }

  lemma RepoCarriedBack(t: Table, x: Row)
    requires NormalRepos(t) && NoDefaultPattern(t) && x in Built(ExportRepos(t, Patterns(t)), PatternOf, 100)
    ensures FromLatest(t, 100, x)
  {
    var groups := ExportRepos(t, Patterns(t));
    BuiltMember(groups, PatternOf, 100, x);
    var g :| g in groups && x in CarriedRows(PatternOf(g.name), g.rows, 100);
    ExportReposFrom(t, Patterns(t));
    var n :| n in Patterns(t) && ExportedAs(t, n, g);
    CarriedMember(PatternOf(g.name), g.rows, 100, x);
    var r :| r in g.rows && Carries(r, PatternOf(g.name), 100, x);
    SectionsMeaning(t, n);
    assert IsLatest(t, r) && r.owner == n;
    assert Carries(r, r.owner, 100, x);
  }

  lemma RepoCarriedOver(t: Table, r: Row, x: Row)
    requires NormalRepos(t) && IsLatest(t, r) && r.owner != DEFAULT_APP && Carries(r, r.owner, 100, x)
    ensures x in Built(ExportRepos(t, Patterns(t)), PatternOf, 100)
  {
    var groups := ExportRepos(t, Patterns(t));
    var g := Group(PatternKey(r.owner), Sections(t, r.owner));
    PatternExported(t, r);
    SectionsMeaning(t, r.owner);
    CarriedMember(r.owner, g.rows, 100, x);
    assert PatternOf(g.name) == r.owner;
    BuiltMember(groups, PatternOf, 100, x);
  }

  /** The repository rows that an import of the exported file writes. */
  ghost function RepoRowsBack(t: Table): seq<Row> {
    Built(ExportRepos(t, Patterns(t)), PatternOf, 100)
  }

  ghost predicate ReposCarried(t: Table, rows: seq<Row>) {
    forall x :: x in rows <==> FromLatest(t, 100, x)
  }

  lemma ReposComeBack(t: Table, rows: seq<Row>)
    requires NormalRepos(t) && NoDefaultPattern(t) && rows == RepoRowsBack(t)
    ensures ReposCarried(t, rows)
  {
    forall x ensures x in rows <==> FromLatest(t, 100, x) {
      if x in rows {
        RepoCarriedBack(t, x);
      }
      if r :| IsLatest(t, r) && Carries(r, r.owner, 100, x) {
        RepoCarriedOver(t, r, x);
      }
    }
  }

  lemma DefaultPatternLost(t: Table, r: Row, rows: seq<Row>)
    requires IsLatest(t, r) && r.owner == DEFAULT_APP && Trim(r.body) != "" && rows == RepoRowsBack(t)
    ensures !ReposCarried(t, rows)
  {
    var x := Carried(DEFAULT_APP, r, 100);
    assert Carries(r, r.owner, 100, x);
    assert FromLatest(t, 100, x);
    if x in rows {
      NeverDefault(ExportRepos(t, Patterns(t)), x);
    }
  }

  /** The repository part comes back exactly when no pattern is literally `__default__`. */
  lemma ReposCarriedExactly(t: Table, rows: seq<Row>)
    requires NormalRepos(t) && rows == RepoRowsBack(t)
    ensures ReposCarried(t, rows) <==> NoDefaultPattern(t)
  {
    if NoDefaultPattern(t) {
      ReposComeBack(t, rows);
    } else {
      var r :| IsLatest(t, r) && r.owner == DEFAULT_APP && Trim(r.body) != "";
      DefaultPatternLost(t, r, rows);
    }
  }

  lemma NeverDefault(groups: seq<Group>, x: Row)
    requires x in Built(groups, PatternOf, 100)
    ensures x.owner != DEFAULT_APP
  {
    BuiltMember(groups, PatternOf, 100, x);
    var g :| g in groups && x in CarriedRows(PatternOf(g.name), g.rows, 100);
    CarriedMember(PatternOf(g.name), g.rows, 100, x);
  }

  ghost predicate AppsCarriedOver(t: Table, rows: seq<Row>) {
    forall x :: x in rows <==> FromLatest(t, 0, x)
  }

  lemma AppsComeBack(t: Table, rows: seq<Row>)
    requires NormalApps(t) && rows == Built(ExportApps(t, Names(t, false)), Same, 0)
    ensures AppsCarriedOver(t, rows)
  {
    forall x ensures x in rows <==> FromLatest(t, 0, x) {
      AppsCarried(t, x);
    }
  }

  // ---- when an import gives up ----

  lemma {:induction false} AppsGiveUp(o: Outcome, groups: seq<Group>)
    requires !NoneMisread(groups) || o.Crashed?
    ensures ImportApps(o, groups).Crashed?
  {
    if groups != [] {
      var front, g := groups[..|groups| - 1], groups[|groups| - 1];
      if !Misread(g) {
        if o.Done? {
          var i :| 0 <= i < |groups| && Misread(groups[i]);
          assert front[i] == groups[i];
        }
        AppsGiveUp(o, front);
      }
    }
  }

  lemma {:induction false} ReposGiveUp(o: Outcome, groups: seq<Group>)
    requires !NoneMisread(groups) || o.Crashed?
    ensures ImportRepos(o, groups).Crashed?
  {
    if groups != [] {
      var front, g := groups[..|groups| - 1], groups[|groups| - 1];
      if !Misread(g) {
        if o.Done? {
          var i :| 0 <= i < |groups| && Misread(groups[i]);
          assert front[i] == groups[i];
        }
        ReposGiveUp(o, front);
      }
    }
  }

  lemma {:induction false} AppRowsKeepGlobals(o: Outcome, name: string, rows: seq<Row>)
    ensures ImportAppRows(o, name, rows).db.globals == o.db.globals
      && ImportAppRows(o, name, rows).db.repos == o.db.repos
  {
    if rows != [] {
      AppRowsKeepGlobals(o, name, rows[..|rows| - 1]);
    }
  }

  lemma {:induction false} AppsKeepGlobals(o: Outcome, groups: seq<Group>)
    ensures ImportApps(o, groups).db.globals == o.db.globals && ImportApps(o, groups).db.repos == o.db.repos
  {
    if groups != [] {
      var front, g := groups[..|groups| - 1], groups[|groups| - 1];
      AppsKeepGlobals(o, front);
      AppRowsKeepGlobals(ImportApps(o, front), g.name, g.rows);
    }
  }

  lemma {:induction false} RepoRowsKeepGlobals(db: Db, pattern: string, rows: seq<Row>)
    ensures ImportRepoRows(db, pattern, rows).globals == db.globals
  {
    if rows != [] {
      RepoRowsKeepGlobals(db, pattern, rows[..|rows| - 1]);
    }
  }

  lemma {:induction false} ReposKeepGlobals(o: Outcome, groups: seq<Group>)
    ensures ImportRepos(o, groups).db.globals == o.db.globals
  {
    if groups != [] {
      var front, g := groups[..|groups| - 1], groups[|groups| - 1];
      ReposKeepGlobals(o, front);
      RepoRowsKeepGlobals(ImportRepos(o, front).db, PatternOf(g.name), g.rows);
    }
  }

  /** No file whatever that has the exported shape brings a global rule back. */
  lemma GlobalsNeverImported(db: Db, doc: Document)
    ensures Import(db, doc).db.globals == db.globals
  {
    AppsKeepGlobals(Done(db), doc.apps);
    ReposKeepGlobals(ImportApps(Done(db), doc.apps), doc.repos);
  }

  /** The file has nothing that the import takes for the older shape and trips over. */
  ghost predicate Readable(doc: Document) {
    !HasBodySection(doc.globals) && NoneMisread(doc.apps) && NoneMisread(doc.repos)
  }

  lemma UnreadableCrashes(db: Db, doc: Document)
    requires !Readable(doc)
    ensures Import(db, doc).Crashed?
  {
    if !HasBodySection(doc.globals) {
      if !NoneMisread(doc.apps) {
        AppsGiveUp(Done(db), doc.apps);
        ReposGiveUp(ImportApps(Done(db), doc.apps), doc.repos);
      } else {
        ReposGiveUp(ImportApps(Done(db), doc.apps), doc.repos);
      }
    }
  }

  lemma ReadableImports(source: Db, target: Db, doc: Document)
    requires NormalApps(source.apps) && NormalRepos(source.repos) && target.apps == [] && target.repos == []
    requires doc == Export(source) && Readable(doc)
    ensures var o := Import(target, doc);
      o.Done? && o.db.apps == Built(doc.apps, Same, 0) && o.db.repos == Built(doc.repos, PatternOf, 100)
  {
    AppGroupsNormal(source.apps);
    RepoGroupsNormal(source.repos);
    AppsWrite(target, doc.apps);
    ReposWrite(target.(apps := Built(doc.apps, Same, 0)), doc.repos);
  }

  /** Exporting and importing into tables without app or repository rules. It goes through exactly when the
      file is readable. Then the app rules written are exactly the latest bodies that are not blank, trimmed,
      each as version 1; the repository rules likewise, with sort order 100, exactly when no pattern is
      literally `__default__`; and the global rules are never among them. */
  lemma ExportThenImport(source: Db, target: Db)
    requires NormalApps(source.apps) && NormalRepos(source.repos) && target.apps == [] && target.repos == []
    ensures var doc := Export(source);
      var o := Import(target, doc);
      && (o.Done? <==> Readable(doc))
      && (o.Done? ==> AppsCarriedOver(source.apps, o.db.apps))
      && (o.Done? ==> (ReposCarried(source.repos, o.db.repos) <==> NoDefaultPattern(source.repos)))
      && o.db.globals == target.globals
  {
    var doc := Export(source);
    GlobalsNeverImported(target, doc);
    if Readable(doc) {
      ReadableImports(source, target, doc);
      AppsComeBack(source.apps, Import(target, doc).db.apps);
      ReposCarriedExactly(source.repos, Import(target, doc).db.repos);
    } else {
      UnreadableCrashes(target, doc);
    }
  }
}
