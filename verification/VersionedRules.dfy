/** The versioned rule tables (app/services/versioned_rules.py, app/db/rule_models.py): publishing,
    rolling back, and the selection of rows that one read serves. Names are ASCII. */
module VersionedRules {
  import opened Text

  const DEFAULT_SECTION: string := "main"
  const DEFAULT_APP: string := "__default__"

  /** A row of any of the three tables; `owner` is the app name, the repository pattern, or "" for a
      global rule. */
  datatype Row = Row(owner: string, section: string, version: int, body: string, sortOrder: int)

  /** Rows in the order in which they were inserted. */
  type Table = seq<Row>

  datatype Defaults = Defaults(includeApp: bool, includeRepo: bool)

  datatype Db = Db(
    globals: Table, apps: Table, repos: Table,
    appOptions: map<string, bool>, repoOptions: map<string, bool>, defaults: Option<Defaults>)

  // ---- names ----

  predicate IsSpace(c: char) {
    c == ' ' || ('\t' <= c <= '\r') || ('\U{1C}' <= c <= '\U{1F}')
  }

  function LowerChar(c: char): char {
    if 'A' <= c <= 'Z' then (c as int + 32) as char else c
  }

  function Lower(s: string): (r: string)
    ensures |r| == |s| && forall i :: 0 <= i < |s| ==> r[i] == LowerChar(s[i])
  {
    if s == "" then "" else [LowerChar(s[0])] + Lower(s[1..])
  }

  function Trim(s: string): string {
    Strip(s, IsSpace)
  }

  /** `name.lower().strip()`, the name under which an app's rows are stored. */
  function AppKey(name: string): string {
    Trim(Lower(name))
  }

  /** The visible stretch of a text starts and ends at the same places as that of a text with its spaces. */
  lemma SameStretch(s: string, t: string, i: nat, j: nat, a: nat, b: nat)
    requires |s| == |t| && forall k :: 0 <= k < |s| ==> IsSpace(s[k]) == IsSpace(t[k])
    requires i <= j <= |s| && (forall k :: 0 <= k < i || j <= k < |s| ==> IsSpace(s[k]))
    requires a <= b <= |t| && (forall k :: 0 <= k < a || b <= k < |t| ==> IsSpace(t[k]))
    requires i < j ==> !IsSpace(s[i]) && !IsSpace(s[j - 1])
    requires a < b ==> !IsSpace(t[a]) && !IsSpace(t[b - 1])
    ensures i < j ==> a == i && b == j
    ensures i == j ==> a == b
  {
    if a < b {
      assert !IsSpace(s[a]) && !IsSpace(s[b - 1]);
    }
    if i < j {
      assert !IsSpace(t[i]) && !IsSpace(t[j - 1]);
    }
  }

  lemma LowerIs(s: string, t: string)
    requires |s| == |t| && forall k :: 0 <= k < |s| ==> t[k] == LowerChar(s[k])
    ensures Lower(s) == t
  {
    var low := Lower(s);
    assert forall k :: 0 <= k < |s| ==> low[k] == t[k];
  }

  lemma LowerSlice(s: string, i: nat, j: nat)
    requires i <= j <= |s|
    ensures Lower(s[i..j]) == Lower(s)[i..j]
  {
    var part, t := s[i..j], Lower(s)[i..j];
    forall k | 0 <= k < |part| ensures t[k] == LowerChar(part[k]) {
      assert part[k] == s[i + k];
    }
    LowerIs(part, t);
  }

  /** Lower-casing and trimming commute, so writers and readers agree on the key. */
  lemma TrimLower(s: string)
    ensures Trim(Lower(s)) == Lower(Trim(s))
  {
    var low := Lower(s);
    var i, j := StripIsSlice(s, IsSpace);
    var a, b := StripIsSlice(low, IsSpace);
    SameStretch(s, low, i, j, a, b);
    LowerSlice(s, i, j);
    assert i == j ==> low[a..b] == low[i..j] == "";
  }

  /** Lexicographic order on strings. */
  predicate Leq(a: string, b: string) {
    a == "" || (b != "" && (a[0] < b[0] || (a[0] == b[0] && Leq(a[1..], b[1..]))))
  }

  // ---- streams ----

  predicate InStream(r: Row, owner: string, section: string) {
    r.owner == owner && r.section == section
  }

  /** `max(version)` of a stream, 0 when it is empty. */
  function MaxVersion(t: Table, owner: string, section: string): (m: int)
    ensures m >= 0
    ensures forall i :: 0 <= i < |t| && InStream(t[i], owner, section) ==> t[i].version <= m
    ensures m > 0 ==> exists i :: 0 <= i < |t| && InStream(t[i], owner, section) && t[i].version == m
  {
    if t == [] then 0
    else
      var m := MaxVersion(t[..|t| - 1], owner, section);
      var r := t[|t| - 1];
      assert t == t[..|t| - 1] + [r];
      if InStream(r, owner, section) && r.version > m then r.version else m
  }

  function NextVersion(t: Table, owner: string, section: string): int {
    MaxVersion(t, owner, section) + 1
  }

  predicate IsLatest(t: Table, r: Row) {
    r in t && r.version == MaxVersion(t, r.owner, r.section)
  }

  /** The unique constraint on (owner, section, version). */
  ghost predicate Unique(t: Table) {
    forall i, j :: 0 <= i < j < |t| ==> !(InStream(t[i], t[j].owner, t[j].section) && t[i].version == t[j].version)
  }

  /** The stream holds the versions 1, 2, ..., n and no other. */
  ghost predicate Dense(t: Table) {
    && (forall i :: 0 <= i < |t| ==> t[i].version >= 1)
    && (forall i :: 0 <= i < |t| && t[i].version > 1 ==>
      exists j :: 0 <= j < |t| && InStream(t[j], t[i].owner, t[i].section) && t[j].version == t[i].version - 1)
  }

  /** Rows of one owner at their section's latest version, in table order. */
  function LatestOf(t: Table, rows: seq<Row>, owner: string): seq<Row> {
    if rows == [] then []
    else
      var r := rows[|rows| - 1];
      LatestOf(t, rows[..|rows| - 1], owner)
      + if r.owner == owner && r.version == MaxVersion(t, r.owner, r.section) then [r] else []
  }

  function SectionKey(r: Row): string {
    if r.section == DEFAULT_SECTION then "" else r.section
  }

  function InsertBySection(rows: seq<Row>, r: Row): seq<Row> {
    if rows == [] || !Leq(SectionKey(rows[0]), SectionKey(r)) then [r] + rows
    else [rows[0]] + InsertBySection(rows[1..], r)
  }

  function SortBySection(rows: seq<Row>): seq<Row> {
    if rows == [] then [] else InsertBySection(SortBySection(rows[..|rows| - 1]), rows[|rows| - 1])
  }

  /** All sections of an owner at their latest version, `main` first. */
  function Sections(t: Table, owner: string): seq<Row> {
    SortBySection(LatestOf(t, t, owner))
  }

  // ---- which repository pattern an origin URL selects ----

  predicate OccursIn(part: string, whole: string) {
    Find(whole, part, 0) >= 0
  }

  predicate Ordered(a: Row, b: Row) {
    a.sortOrder < b.sortOrder || (a.sortOrder == b.sortOrder && Leq(a.owner, b.owner))
  }

  function InsertByOrder(rows: seq<Row>, r: Row): seq<Row> {
    if rows == [] || !Ordered(rows[0], r) then [r] + rows else [rows[0]] + InsertByOrder(rows[1..], r)
  }

  /** The latest rows of the section, one per pattern, by (sort_order, pattern). */
  function PatternRows(t: Table, rows: seq<Row>, section: string): seq<Row> {
    if rows == [] then []
    else
      var r, front := rows[|rows| - 1], PatternRows(t, rows[..|rows| - 1], section);
      if r.section == section && r.version == MaxVersion(t, r.owner, section) then InsertByOrder(front, r) else front
  }

  function FirstMatch(rows: seq<Row>, url: string): Option<Row> {
    if rows == [] then None
    else
      var pattern := Trim(rows[0].owner);
      if pattern != "" && OccursIn(Lower(pattern), url) then Some(rows[0]) else FirstMatch(rows[1..], url)
  }

  function FirstBlank(rows: seq<Row>): Option<Row> {
    if rows == [] then None else if Trim(rows[0].owner) == "" then Some(rows[0]) else FirstBlank(rows[1..])
  }

  /** `resolve_repo_row`: the first pattern found in the URL, else the blank pattern. */
  function ResolveRepo(t: Table, url: string): Option<Row> {
    var rows := PatternRows(t, t, DEFAULT_SECTION);
    var hit := FirstMatch(rows, Lower(Trim(url)));
    if hit.Some? then hit else FirstBlank(rows)
  }

  // ---- what one read serves ----

  function IncludeRepo(db: Db, pattern: string): bool {
    if pattern in db.repoOptions then db.repoOptions[pattern]
    else db.defaults.Some? && db.defaults.value.includeRepo
  }

  function IncludeApp(db: Db, key: string): bool {
    if key == "" || key == DEFAULT_APP then false
    else if key in db.appOptions then db.appOptions[key]
    else db.defaults.Some? && db.defaults.value.includeApp
  }

  /** `set_mcp_include_app_default_for_app`; nothing is flushed. */
  function SetAppOption(db: Db, key: string, value: bool): Db {
    db.(appOptions := db.appOptions[key := value])
  }

  /** `set_mcp_include_repo_default_for_pattern`; nothing is flushed. */
  function SetRepoOption(db: Db, pattern: string, value: bool): Db {
    db.(repoOptions := db.repoOptions[pattern := value])
  }

  /** The setters of the two fallback settings, which share one row; nothing is flushed. */
  function SetDefaults(db: Db, value: Defaults): Db {
    db.(defaults := Some(value))
  }

  datatype Selection = Selection(
    global: seq<Row>, repo: seq<Row>, repoDefault: seq<Row>, app: seq<Row>, appDefault: seq<Row>,
    includeRepo: bool, includeApp: bool)

  function Without(rows: seq<Row>, others: seq<Row>): seq<Row> {
    if rows == [] then [] else (if rows[0] in others then [] else [rows[0]]) + Without(rows[1..], others)
  }

  /** The repository rows for a URL: the matched pattern's sections, and the blank pattern's if included. */
  function RepoRows(db: Db, url: string): (seq<Row>, seq<Row>, bool) {
    var hit := ResolveRepo(db.repos, url);
    var rows := if hit.Some? then Sections(db.repos, Trim(hit.value.owner)) else [];
    var added := IncludeRepo(db, if hit.Some? then hit.value.owner else "");
    (rows, if added then Without(Sections(db.repos, ""), rows) else [], added)
  }

  /** The app rows for a key: its own sections, with the default app's added or standing in. */
  function AppRows(db: Db, key: string): (seq<Row>, seq<Row>, bool) {
    var own, added := Sections(db.apps, key), IncludeApp(db, key);
    if added && key != DEFAULT_APP then (own, Without(Sections(db.apps, DEFAULT_APP), own), added)
    else if own == [] && key != DEFAULT_APP then (Sections(db.apps, DEFAULT_APP), [], added)
    else (own, [], added)
  }

  /** The rows of `get_rules_markdown`; `key` is the trimmed app name in lower case, "" for none. The
      version argument of that function takes no part in the selection. */
  function Select(db: Db, key: string, url: string): Selection {
    var global := Sections(db.globals, "");
    if key == "" then Selection(global, [], [], [], [], false, false)
    else
      var (repo, repoDefault, includeRepo) := RepoRows(db, url);
      var (app, appDefault, includeApp) := AppRows(db, key);
      Selection(global, repo, repoDefault, app, appDefault, includeRepo, includeApp)
  }

  // ---- publishing ----

  function Publish(t: Table, owner: string, section: string, body: string, sortOrder: int): Table {
    t + [Row(owner, section, NextVersion(t, owner, section), body, sortOrder)]
  }

  function PublishGlobal(db: Db, body: string, section: string): Db {
    db.(globals := Publish(db.globals, "", section, body, 0))
  }

  function SectionName(section: string): string {
    Trim(if section == "" then DEFAULT_SECTION else section)
  }

  /** None: the app name is blank, and a ValueError is raised. */
  function PublishApp(db: Db, name: string, body: string, section: string): Option<Db> {
    if AppKey(name) == "" then None
    else Some(db.(apps := Publish(db.apps, AppKey(name), SectionName(section), body, 0)))
  }

  function FindRow(t: Table, owner: string, section: string, version: int): (r: Option<Row>)
    ensures r.Some? ==> r.value in t && InStream(r.value, owner, section) && r.value.version == version
    ensures r.None? ==> forall i :: 0 <= i < |t| ==> !(InStream(t[i], owner, section) && t[i].version == version)
  {
    if t == [] then None
    else if InStream(t[0], owner, section) && t[0].version == version then Some(t[0])
    else FindRow(t[1..], owner, section, version)
  }

  function Latest(t: Table, owner: string, section: string): Option<Row> {
    FindRow(t, owner, section, MaxVersion(t, owner, section))
  }

  function AnyRow(t: Table, owner: string): Option<Row> {
    if t == [] then None else if t[0].owner == owner then Some(t[0]) else AnyRow(t[1..], owner)
  }

  /** The new row keeps the stream's sort order; a new stream takes the one given, or its pattern's, or 100. */
  function SortOrderFor(t: Table, key: string, section: string, given: Option<int>): int {
    var prev := Latest(t, key, section);
    if NextVersion(t, key, section) == 1 && given.Some? then given.value
    else if prev.Some? then prev.value.sortOrder
    else if AnyRow(t, key).Some? then AnyRow(t, key).value.sortOrder
    else 100
  }

  /** The first version of a pattern also fixes its pull option. */
  function PublishRepo(db: Db, pattern: string, body: string, section: string, given: Option<int>): Db {
    var key, sn := Trim(pattern), SectionName(section);
    db.(repos := Publish(db.repos, key, sn, Trim(body), SortOrderFor(db.repos, key, sn, given)),
        repoOptions := if key in db.repoOptions then db.repoOptions
                       else db.repoOptions[key := db.defaults.Some? && db.defaults.value.includeRepo])
  }

  /** The row an addition goes after: the latest of the section, the default app's if the app has none. */
  function AppendBase(db: Db, key: string, section: string): Option<Row> {
    var own := Latest(db.apps, key, section);
    if own.None? && key != DEFAULT_APP then Latest(db.apps, DEFAULT_APP, section) else own
  }

  function AppendedBody(base: Option<Row>, more: string): string {
    if base.None? then more else TrimEnd(base.value.body) + "\n\n" + more
  }

  /** `append_to_app_rule`; None when the name or the addition is blank. */
  function AppendApp(db: Db, name: string, addition: string, section: string): Option<Db> {
    var key, sn, more := AppKey(name), SectionName(section), Trim(addition);
    if key == "" || more == "" then None
    else PublishApp(db, key, AppendedBody(AppendBase(db, key, sn), more), sn)
  }

  function TrimEnd(s: string): string {
    s[..Tail(s, IsSpace)]
  }

  /** Rolling back publishes the old body as a new version; None when there is no such version. */
  function RollbackGlobal(db: Db, version: int, section: string): Option<Db> {
    match FindRow(db.globals, "", section, version)
    case None => None
    case Some(r) => Some(PublishGlobal(db, r.body, section))
  }

  function RollbackApp(db: Db, name: string, version: int, section: string): Option<Db> {
    match FindRow(db.apps, AppKey(name), section, version)
    case None => None
    case Some(r) => PublishApp(db, AppKey(name), r.body, section)
  }

  function RollbackRepo(db: Db, pattern: string, version: int, section: string): Option<Db> {
    match FindRow(db.repos, Trim(pattern), section, version)
    case None => None
    case Some(r) => Some(PublishRepo(db, Trim(pattern), r.body, section, None))
  }
}
