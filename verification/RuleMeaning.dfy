/** What the rule tables' vocabulary means (app/services/versioned_rules.py), on the fields of the rows: which row
    is the newest, in which order sections and patterns come, what a read serves, and what a write adds. */
module RuleMeaning {
  import opened Text
  import opened VersionedRules
  import opened RuleHistory

  // ---- names and texts ----

  /** White space among the ASCII characters: tab to carriage return, the four separators, and the blank. */
  predicate Blank(c: char) {
    c as int in {9, 10, 11, 12, 13, 28, 29, 30, 31, 32}
  }

  predicate AllBlank(s: string) {
    forall i :: 0 <= i < |s| ==> Blank(s[i])
  }

  lemma BlankExactly(c: char)
    ensures Blank(c) <==> IsSpace(c)
  {
  }

  /** Trimming cuts white space off both ends, all of it, and nothing else. */
  lemma TrimExactly(s: string) returns (i: nat, j: nat)
    ensures i <= j <= |s| && Trim(s) == s[i..j] && AllBlank(s[..i]) && AllBlank(s[j..])
    ensures i < j ==> !Blank(s[i]) && !Blank(s[j - 1])
  {
    i, j := StripIsSlice(s, IsSpace);
  }

  /** The small letter of a capital, and every other character itself. */
  function Small(c: char): char {
    if 'A' <= c <= 'Z' then (c as int + 32) as char else c
  }

  /** An app is stored under its name, trimmed, with capital letters made small. */
  lemma AppKeyExactly(name: string) returns (i: nat, j: nat)
    ensures i <= j <= |name| && AllBlank(name[..i]) && AllBlank(name[j..])
    ensures i < j ==> !Blank(name[i]) && !Blank(name[j - 1])
    ensures SmallOf(AppKey(name), name[i..j])
  {
    i, j := TrimExactly(name);
    TrimLower(name);
    assert AppKey(name) == Lower(Trim(name));
  }

  predicate SmallOf(low: string, s: string) {
    |low| == |s| && forall k :: 0 <= k < |s| ==> low[k] == Small(s[k])
  }

  lemma LowerExactly(s: string)
    ensures SmallOf(Lower(s), s)
  {
  }

  /** `a` comes no later than `b` in the alphabet: it is a beginning of it, or smaller where they first differ. */
  ghost predicate Precedes(a: string, b: string) {
    a <= b || exists i :: SmallerAt(a, b, i)
  }

  predicate SmallerAt(a: string, b: string, i: int) {
    0 <= i < |a| && i < |b| && a[..i] == b[..i] && a[i] < b[i]
  }

  lemma {:induction false} LeqExactly(a: string, b: string)
    ensures Leq(a, b) <==> Precedes(a, b)
  {
    if a != "" && b != "" {
      var x, y := a[1..], b[1..];
      LeqExactly(x, y);
      if a[0] == b[0] {
        SameStart(a, b, x, y);
      } else {
        OtherStart(a, b);
      }
    }
  }

  lemma SameStart(a: string, b: string, x: string, y: string)
    requires a != "" && b != "" && a[0] == b[0] && x == a[1..] && y == b[1..]
    ensures Precedes(a, b) <==> Precedes(x, y)
  {
    assert a == [a[0]] + x && b == [b[0]] + y;
    assert a <= b <==> x <= y;
    if i :| SmallerAt(x, y, i) {
      assert a[..i + 1] == [a[0]] + x[..i] && b[..i + 1] == [b[0]] + y[..i];
      assert SmallerAt(a, b, i + 1);
    }
    if i :| SmallerAt(a, b, i) {
      assert x[..i - 1] == a[..i][1..] && y[..i - 1] == b[..i][1..];
      assert SmallerAt(x, y, i - 1);
    }
  }

  lemma OtherStart(a: string, b: string)
    requires a != "" && b != "" && a[0] != b[0]
    ensures Precedes(a, b) <==> a[0] < b[0]
  {
    assert a[..0] == b[..0];
    assert a[0] < b[0] ==> SmallerAt(a, b, 0);
    if i :| SmallerAt(a, b, i) && i > 0 {
      StartsDiffer(a, b, i);
    }
  }

  lemma StartsDiffer(a: string, b: string, i: nat)
    requires 0 < i <= |a| && i <= |b| && a[0] != b[0]
    ensures a[..i] != b[..i]
  {
    assert a[..i][0] == a[0] && b[..i][0] == b[0];
  }

  lemma OccursExactly(part: string, whole: string)
    ensures OccursIn(part, whole) <==> Contains(whole, part)
  {
  }

  // ---- streams ----

  predicate Positive(t: Table) {
    forall i :: 0 <= i < |t| ==> t[i].version >= 1
  }

  /** No two rows have the same owner, section and version. */
  predicate NoTwins(t: Table) {
    forall i, j :: 0 <= i < j < |t| ==>
      t[i].owner != t[j].owner || t[i].section != t[j].section || t[i].version != t[j].version
  }

  predicate HasVersion(t: Table, owner: string, section: string, version: int) {
    exists i :: 0 <= i < |t| && t[i].owner == owner && t[i].section == section && t[i].version == version
  }

  /** No version is left out: below each there is the one before, down to 1. */
  predicate Gapless(t: Table) {
    Positive(t) && forall i :: 0 <= i < |t| && t[i].version > 1 ==>
      HasVersion(t, t[i].owner, t[i].section, t[i].version - 1)
  }

  /** The row has the greatest version of its owner and section. */
  ghost predicate Newest(t: Table, r: Row) {
    r in t && forall x :: x in t && x.owner == r.owner && x.section == r.section ==> x.version <= r.version
  }

  /** The words in which the histories are stated. */
  lemma StreamWords(t: Table)
    ensures Unique(t) <==> NoTwins(t)
    ensures Dense(t) <==> Gapless(t)
  {
    if Gapless(t) {
      forall i | 0 <= i < |t| && t[i].version > 1
        ensures exists j ::
          0 <= j < |t| && InStream(t[j], t[i].owner, t[i].section) && t[j].version == t[i].version - 1
      {
        assert HasVersion(t, t[i].owner, t[i].section, t[i].version - 1);
        var j :| 0 <= j < |t| && t[j].owner == t[i].owner && t[j].section == t[i].section
          && t[j].version == t[i].version - 1;
        assert InStream(t[j], t[i].owner, t[i].section);
      }
    }
    if Dense(t) {
      forall i | 0 <= i < |t| && t[i].version > 1
        ensures HasVersion(t, t[i].owner, t[i].section, t[i].version - 1)
      {
        var j :| 0 <= j < |t| && InStream(t[j], t[i].owner, t[i].section) && t[j].version == t[i].version - 1;
        assert t[j].owner == t[i].owner && t[j].section == t[i].section;
      }
    }
  }

  lemma NewestExactly(t: Table, r: Row)
    requires Positive(t)
    ensures IsLatest(t, r) <==> Newest(t, r)
  {
    if r in t {
      var m := MaxVersion(t, r.owner, r.section);
      var k := Position(t, r);
      assert t[k].version <= m;
      var i :| 0 <= i < |t| && InStream(t[i], r.owner, r.section) && t[i].version == m;
      assert t[i] in t;
      forall x | x in t && x.owner == r.owner && x.section == r.section ensures x.version <= m {
        var j := Position(t, x);
        assert InStream(t[j], r.owner, r.section);
      }
    }
  }

  lemma Position(t: Table, r: Row) returns (k: nat)
    requires r in t
    ensures k < |t| && t[k] == r
  {
    k :| 0 <= k < |t| && t[k] == r;
  }

  /** The version that a publish takes: above all of the stream, and next to the greatest. */
  ghost predicate NextFree(t: Table, owner: string, section: string, v: int) {
    && (forall x :: x in t && x.owner == owner && x.section == section ==> x.version < v)
    && (v == 1 || HasVersion(t, owner, section, v - 1)) && v >= 1
  }

  lemma NextVersionExactly(t: Table, owner: string, section: string)
    ensures NextFree(t, owner, section, NextVersion(t, owner, section))
  {
    var m := MaxVersion(t, owner, section);
    forall x | x in t && x.owner == owner && x.section == section ensures x.version <= m {
      var j := Position(t, x);
      assert InStream(t[j], owner, section);
    }
    if m > 0 {
      var i :| 0 <= i < |t| && InStream(t[i], owner, section) && t[i].version == m;
      assert t[i].owner == owner && t[i].section == section;
    }
  }

  // ---- the rows of one owner ----

  /** `main` and the nameless section come first, in the order in which the table gives them. */
  predicate Front(section: string) {
    section == "main" || section == ""
  }

  lemma FrontExactly(a: Row, b: Row)
    requires Leq(SectionKey(a), SectionKey(b))
    ensures Front(a.section) || (!Front(b.section) && Precedes(a.section, b.section))
  {
    LeqExactly(SectionKey(a), SectionKey(b));
    LeqExactly(a.section, b.section);
  }

  /** An owner is served exactly the newest row of each of its sections; `main` first, the others by name. */
  lemma SectionsExactly(t: Table, owner: string)
    requires Positive(t)
    ensures forall r :: r in Sections(t, owner) <==> r.owner == owner && Newest(t, r)
    ensures forall i, j :: 0 <= i < j < |Sections(t, owner)| ==>
      Front(Sections(t, owner)[i].section)
      || (!Front(Sections(t, owner)[j].section)
        && Precedes(Sections(t, owner)[i].section, Sections(t, owner)[j].section))
  {
    var rows := Sections(t, owner);
    forall r ensures r in rows <==> r.owner == owner && Newest(t, r) {
      LatestOfMeaning(t, t, owner);
      SortMeaning(LatestOf(t, t, owner));
      NewestExactly(t, r);
    }
    SectionsOrdered(t, owner);
    forall i, j | 0 <= i < j < |rows|
      ensures Front(rows[i].section) || (!Front(rows[j].section) && Precedes(rows[i].section, rows[j].section))
    {
      FrontExactly(rows[i], rows[j]);
    }
  }

  /** No section is served twice, and `main` is the first one wherever sections have names. */
  lemma MainComesFirst(t: Table, owner: string, j: nat)
    requires Positive(t) && NoTwins(t) && j < |Sections(t, owner)|
    ensures forall i :: 0 <= i < j ==> Sections(t, owner)[i].section != Sections(t, owner)[j].section
    ensures Sections(t, owner)[j].section == "main" && (forall r :: r in t ==> r.section != "") ==> j == 0
  {
    var rows := Sections(t, owner);
    StreamWords(t);
    SectionsMeaning(t, owner);
    SectionsExactly(t, owner);
    if rows[j].section == "main" && j > 0 {
      assert Front(rows[0].section) && rows[0] in rows && rows[0] in t;
      assert rows[0].section != rows[j].section;
    }
  }

  // ---- which pattern is chosen ----

  /** The newest main row of its pattern. */
  ghost predicate MainRow(t: Table, r: Row) {
    r.section == "main" && Newest(t, r)
  }

  /** The pattern is not blank and occurs in the URL, capitals and surrounding white space aside. */
  ghost predicate Suits(r: Row, url: string) {
    Trim(r.owner) != "" && Contains(Lower(Trim(url)), Lower(Trim(r.owner)))
  }

  /** Smaller sort orders first, and the same ones by name. */
  ghost predicate Sooner(a: Row, b: Row) {
    a.sortOrder < b.sortOrder || (a.sortOrder == b.sortOrder && Precedes(a.owner, b.owner))
  }

  lemma SoonerExactly(a: Row, b: Row)
    ensures Ordered(a, b) <==> Sooner(a, b)
  {
    LeqExactly(a.owner, b.owner);
  }

  lemma SuitsExactly(r: Row, url: string)
    ensures Matches(r, url) <==> Suits(r, url)
  {
    OccursExactly(Lower(Trim(r.owner)), Lower(Trim(url)));
  }

  lemma MainRowExactly(t: Table, r: Row)
    requires Positive(t)
    ensures Candidate(t, r) <==> MainRow(t, r)
  {
    NewestExactly(t, r);
  }

  /** Of the patterns that suit, the one with the smallest sort order and then name; if none does, a blank one,
      the soonest; and none only if there is neither. */
  ghost predicate Chooses(t: Table, url: string, hit: Option<Row>) {
    match hit
    case None => forall r :: MainRow(t, r) ==> !Suits(r, url) && Trim(r.owner) != ""
    case Some(h) =>
      && MainRow(t, h)
      && (if Suits(h, url) then forall r :: MainRow(t, r) && Suits(r, url) ==> Sooner(h, r)
          else Trim(h.owner) == ""
               && forall r :: MainRow(t, r) ==> !Suits(r, url) && (Trim(r.owner) == "" ==> Sooner(h, r)))
  }

  lemma {:induction false} FirstBlankSoonest(rows: seq<Row>)
    requires Sorted(rows) && FirstBlank(rows).Some?
    ensures forall r :: r in rows && Trim(r.owner) == "" ==> Ordered(FirstBlank(rows).value, r)
  {
    if Trim(rows[0].owner) == "" {
      forall r | r in rows ensures Ordered(rows[0], r) {
        var j :| 0 <= j < |rows| && rows[j] == r;
      }
    } else {
      SortedTail(rows);
      FirstBlankSoonest(rows[1..]);
      assert rows == [rows[0]] + rows[1..];
    }
  }

  lemma BlankHit(t: Table, url: string, r: Row)
    requires Candidate(t, r) && Trim(r.owner) == "" && ResolveRepo(t, url).Some?
    requires !Matches(ResolveRepo(t, url).value, url)
    ensures Ordered(ResolveRepo(t, url).value, r)
  {
    var rows := PatternRows(t, t, DEFAULT_SECTION);
    PatternRowsMeaning(t, t, DEFAULT_SECTION);
    FirstMatchMeaning(rows, url);
    FirstBlankMeaning(rows);
    FirstBlankSoonest(rows);
  }

  lemma ResolveExactly(t: Table, url: string)
    requires Positive(t)
    ensures Chooses(t, url, ResolveRepo(t, url))
  {
    var hit := ResolveRepo(t, url);
    ResolveRepoMeaning(t, url);
    if hit.Some? {
      MainRowExactly(t, hit.value);
      SuitsExactly(hit.value, url);
    }
    forall r | MainRow(t, r)
      ensures Candidate(t, r) && (Matches(r, url) <==> Suits(r, url))
      ensures hit.Some? ==> (Ordered(hit.value, r) <==> Sooner(hit.value, r))
      ensures hit.Some? && !Matches(hit.value, url) && Trim(r.owner) == "" ==> Ordered(hit.value, r)
    {
      MainRowExactly(t, r);
      SuitsExactly(r, url);
      if hit.Some? {
        SoonerExactly(hit.value, r);
        if !Matches(hit.value, url) && Trim(r.owner) == "" {
          BlankHit(t, url, r);
        }
      }
    }
  }

  // ---- what a read serves ----

  /** The setting of a name: its own row, else the fallback. */
  predicate Setting(options: map<string, bool>, name: string, fallback: bool) {
    if name in options then options[name] else fallback
  }

  predicate NoRowsOf(t: Table, owner: string) {
    forall i :: 0 <= i < |t| ==> t[i].owner != owner
  }

  lemma NoSectionsExactly(t: Table, owner: string)
    requires Positive(t)
    ensures Sections(t, owner) == [] <==> NoRowsOf(t, owner)
  {
    SectionsExactly(t, owner);
    if i :| 0 <= i < |t| && t[i].owner == owner {
      var latest := StreamHasLatest(t, i);
      NewestExactly(t, latest);
      assert latest in Sections(t, owner);
    }
    if Sections(t, owner) != [] {
      var r := Sections(t, owner)[0];
      assert r in Sections(t, owner);
      var k := Position(t, r);
    }
  }

  /** The two settings that a read shows. */
  lemma FlagsExactly(db: Db, key: string, url: string, s: Selection)
    requires key != "" && s == Select(db, key, url)
    ensures s.includeApp <==>
      (key != "__default__" && Setting(db.appOptions, key, db.defaults.Some? && db.defaults.value.includeApp))
    ensures var hit := ResolveRepo(db.repos, url);
      s.includeRepo <==>
        Setting(db.repoOptions, if hit.Some? then hit.value.owner else "",
                db.defaults.Some? && db.defaults.value.includeRepo)
  {
  }

  /** The repository part of a read: the newest rows of the chosen pattern, and beside them those of the blank
      pattern if the chosen one's setting says so. */
  lemma RepoExactly(db: Db, key: string, url: string, s: Selection, r: Row)
    requires Positive(db.repos) && key != "" && s == Select(db, key, url)
    ensures var hit := ResolveRepo(db.repos, url);
      && (r in s.repo <==> hit.Some? && r.owner == Trim(hit.value.owner) && Newest(db.repos, r))
      && (r in s.repoDefault <==> s.includeRepo && r.owner == "" && Newest(db.repos, r) && r !in s.repo)
  {
    var hit := ResolveRepo(db.repos, url);
    var rows := if hit.Some? then Sections(db.repos, Trim(hit.value.owner)) else [];
    if hit.Some? {
      SectionsExactly(db.repos, Trim(hit.value.owner));
    }
    SectionsExactly(db.repos, "");
    WithoutMeaning(Sections(db.repos, ""), rows);
    assert s.repo == rows;
  }

  /** The app part: the app's newest rows, and beside them the default app's if the app's setting says so; without
      that, the default app's stand in exactly when the app has no rows at all. */
  lemma AppExactly(db: Db, key: string, url: string, s: Selection, r: Row)
    requires Positive(db.apps) && key != "" && s == Select(db, key, url)
    ensures r in s.app <==>
      (Newest(db.apps, r)
       && (r.owner == key || (r.owner == "__default__" && !s.includeApp && NoRowsOf(db.apps, key))))
    ensures r in s.appDefault <==> s.includeApp && r.owner == "__default__" && Newest(db.apps, r)
  {
    var own, fallback := Sections(db.apps, key), Sections(db.apps, DEFAULT_APP);
    assert r in own <==> r.owner == key && Newest(db.apps, r) by { SectionsExactly(db.apps, key); }
    assert r in fallback <==> r.owner == DEFAULT_APP && Newest(db.apps, r) by { SectionsExactly(db.apps, DEFAULT_APP); }
    NoSectionsExactly(db.apps, key);
    AppParts(db, key, url, s, own, fallback, r);
  }

  lemma AppParts(db: Db, key: string, url: string, s: Selection, own: seq<Row>, fallback: seq<Row>, r: Row)
    requires key != "" && s == Select(db, key, url)
    requires own == Sections(db.apps, key) && fallback == Sections(db.apps, DEFAULT_APP)
    ensures s.includeApp ==> key != DEFAULT_APP
    ensures r in s.app <==> r in own || (r in fallback && !s.includeApp && own == [])
    ensures r in s.appDefault <==> s.includeApp && r in fallback && r !in own
  {
    WithoutMeaning(fallback, own);
  }

  /** The global part; and without an app there is nothing else. */
  lemma GlobalExactly(db: Db, key: string, url: string, s: Selection, r: Row)
    requires Positive(db.globals) && s == Select(db, key, url)
    ensures r in s.global <==> r.owner == "" && Newest(db.globals, r)
    ensures key == "" ==> s == Selection(s.global, [], [], [], [], false, false)
  {
    SectionsExactly(db.globals, "");
  }

  // ---- what a write adds ----

  /** The name a section is stored under. */
  function StoredSection(section: string): string {
    Trim(if section == "" then "main" else section)
  }

  /** One row more, at the next version of its stream. */
  ghost predicate Adds(t: Table, t': Table, owner: string, section: string, body: string) {
    && |t'| == |t| + 1 && t'[..|t|] == t
    && t'[|t|].owner == owner && t'[|t|].section == section && t'[|t|].body == body
    && NextFree(t, owner, section, t'[|t|].version)
  }

  lemma PublishAdds(t: Table, owner: string, section: string, body: string, sortOrder: int)
    ensures Adds(t, Publish(t, owner, section, body, sortOrder), owner, section, body)
  {
    NextVersionExactly(t, owner, section);
  }

  lemma GlobalWritten(db: Db, body: string, section: string, db': Db)
    requires db' == PublishGlobal(db, body, section)
    ensures Adds(db.globals, db'.globals, "", section, body) && db' == db.(globals := db'.globals)
  {
    PublishAdds(db.globals, "", section, body, 0);
  }

  lemma AppWritten(db: Db, name: string, body: string, section: string, r: Option<Db>)
    requires r == PublishApp(db, name, body, section)
    ensures r.Some? <==> !AllBlank(name)
    ensures r.Some? ==>
      Adds(db.apps, r.value.apps, AppKey(name), StoredSection(section), body) && r.value == db.(apps := r.value.apps)
  {
    BlankName(name);
    PublishAdds(db.apps, AppKey(name), StoredSection(section), body, 0);
  }

  lemma BlankName(name: string)
    ensures AppKey(name) == "" <==> AllBlank(name)
  {
    var i, j := AppKeyExactly(name);
    if i == j {
      assert name == name[..i] + name[j..];
    }
  }

  /** A first version takes the sort order it is given, else its pattern's, else 100; a later one keeps its
      predecessor's. */
  ghost predicate KeepsOrder(t: Table, owner: string, section: string, version: int, given: Option<int>, order: int) {
    if version == 1 then
      if given.Some? then order == given.value
      else if NoRowsOf(t, owner) then order == 100
      else exists i :: 0 <= i < |t| && t[i].owner == owner && t[i].sortOrder == order
    else
      exists i :: 0 <= i < |t| && t[i].owner == owner && t[i].section == section && t[i].version == version - 1
        && t[i].sortOrder == order
  }

  lemma {:induction false} AnyRowExactly(t: Table, owner: string)
    ensures AnyRow(t, owner).None? <==> NoRowsOf(t, owner)
    ensures AnyRow(t, owner).Some? ==> AnyRow(t, owner).value in t && AnyRow(t, owner).value.owner == owner
  {
    if t != [] {
      AnyRowExactly(t[1..], owner);
      assert t == [t[0]] + t[1..];
      assert forall i :: 0 <= i < |t[1..]| ==> t[1..][i] == t[i + 1];
    }
  }

  lemma FoundExactly(t: Table, owner: string, section: string, version: int)
    ensures FindRow(t, owner, section, version).Some? <==> HasVersion(t, owner, section, version)
    ensures FindRow(t, owner, section, version).Some? ==>
      var r := FindRow(t, owner, section, version).value;
      r in t && r.owner == owner && r.section == section && r.version == version
  {
    var found := FindRow(t, owner, section, version);
    if found.Some? {
      var k := Position(t, found.value);
    }
  }

  lemma OrderKept(t: Table, owner: string, section: string, given: Option<int>, version: int)
    requires Positive(t) && version == NextVersion(t, owner, section)
    ensures KeepsOrder(t, owner, section, version, given, SortOrderFor(t, owner, section, given))
  {
    var prev := Latest(t, owner, section);
    FoundExactly(t, owner, section, version - 1);
    AnyRowExactly(t, owner);
    if prev.Some? {
      var k := Position(t, prev.value);
    } else if version > 1 {
      NextVersionExactly(t, owner, section);
    }
    if AnyRow(t, owner).Some? {
      var k := Position(t, AnyRow(t, owner).value);
    }
  }

  lemma RepoWritten(db: Db, pattern: string, body: string, section: string, given: Option<int>, db': Db)
    requires Positive(db.repos) && db' == PublishRepo(db, pattern, body, section, given)
    ensures Adds(db.repos, db'.repos, Trim(pattern), StoredSection(section), Trim(body))
    ensures var row := db'.repos[|db.repos|];
      KeepsOrder(db.repos, Trim(pattern), StoredSection(section), row.version, given, row.sortOrder)
    ensures db' == db.(repos := db'.repos, repoOptions := db'.repoOptions)
    ensures db'.repoOptions == if Trim(pattern) in db.repoOptions then db.repoOptions
      else db.repoOptions[Trim(pattern) := db.defaults.Some? && db.defaults.value.includeRepo]
  {
    var key, sn := Trim(pattern), StoredSection(section);
    PublishAdds(db.repos, key, sn, Trim(body), SortOrderFor(db.repos, key, sn, given));
    OrderKept(db.repos, key, sn, given, NextVersion(db.repos, key, sn));
  }

  // ---- appending and rolling back ----

  /** What an append goes after: the newest row of the app's section; without one, the newest of the default app's;
      without that, nothing. */
  ghost predicate AppendsTo(t: Table, key: string, section: string, base: Option<Row>) {
    match base
    case None => NoneIn(t, key, section) && NoneIn(t, "__default__", section)
    case Some(r) =>
      r.section == section && Newest(t, r)
      && (r.owner == key || (r.owner == "__default__" && NoneIn(t, key, section)))
  }

  predicate NoneIn(t: Table, owner: string, section: string) {
    forall i :: 0 <= i < |t| ==> t[i].owner != owner || t[i].section != section
  }

  lemma LatestExactly(t: Table, owner: string, section: string)
    requires Positive(t)
    ensures Latest(t, owner, section).None? <==> NoneIn(t, owner, section)
    ensures Latest(t, owner, section).Some? ==>
      var r := Latest(t, owner, section).value; r.owner == owner && r.section == section && Newest(t, r)
  {
    if i: nat :| i < |t| && t[i].owner == owner && t[i].section == section {
      MaximumHeld(t, i);
    }
    var found := Latest(t, owner, section);
    FoundExactly(t, owner, section, MaxVersion(t, owner, section));
    if found.Some? {
      NewestExactly(t, found.value);
      var k := Position(t, found.value);
    }
  }

  lemma MaximumHeld(t: Table, i: nat)
    requires Positive(t) && i < |t|
    ensures HasVersion(t, t[i].owner, t[i].section, MaxVersion(t, t[i].owner, t[i].section))
  {
    var owner, section := t[i].owner, t[i].section;
    assert InStream(t[i], owner, section);
    var j :| 0 <= j < |t| && InStream(t[j], owner, section) && t[j].version == MaxVersion(t, owner, section);
    assert InStream(t[j], owner, section) && t[j].owner == owner && t[j].section == section;
  }

  lemma AppendBaseExactly(db: Db, key: string, section: string)
    requires Positive(db.apps)
    ensures AppendsTo(db.apps, key, section, AppendBase(db, key, section))
  {
    LatestExactly(db.apps, key, section);
    LatestExactly(db.apps, DEFAULT_APP, section);
  }

  /** The text of an append: what it goes after without trailing white space, a blank line, and the addition
      trimmed; or the addition alone. */
  ghost predicate AppendsText(base: Option<Row>, addition: string, body: string) {
    match base
    case None => body == Trim(addition)
    case Some(r) => exists n :: EndsAt(r.body, n) && body == r.body[..n] + "\n\n" + Trim(addition)
  }

  /** All that follows is white space, and what is before does not end in it. */
  predicate EndsAt(s: string, n: int) {
    0 <= n <= |s| && AllBlank(s[n..]) && (n > 0 ==> !Blank(s[n - 1]))
  }

  lemma AppendedExactly(base: Option<Row>, addition: string)
    ensures AppendsText(base, addition, AppendedBody(base, Trim(addition)))
  {
    if base.Some? {
      assert EndsAt(base.value.body, Tail(base.value.body, IsSpace));
    }
  }

  /** An append is refused exactly for a blank name or addition; else it adds one row to the app's section. */
  lemma AppendWritten(db: Db, name: string, addition: string, section: string, r: Option<Db>)
    requires Positive(db.apps) && r == AppendApp(db, name, addition, section)
    ensures r.Some? <==> !AllBlank(name) && !AllBlank(addition)
    ensures r.Some? ==> |r.value.apps| == |db.apps| + 1 && r.value == db.(apps := r.value.apps)
    ensures r.Some? ==> exists base ::
      AppendsTo(db.apps, AppKey(name), StoredSection(section), base)
      && AppendsText(base, addition, r.value.apps[|db.apps|].body)
      && Adds(db.apps, r.value.apps, AppKey(name), StoredSection(StoredSection(section)), r.value.apps[|db.apps|].body)
  {
    BlankName(name);
    BlankText(addition);
    KeyStable(name);
    if r.Some? {
      var key, sn := AppKey(name), StoredSection(section);
      var base := AppendBase(db, key, sn);
      AppendBaseExactly(db, key, sn);
      AppendedExactly(base, addition);
      AppWritten(db, key, AppendedBody(base, Trim(addition)), sn, r);
    }
  }

  lemma BlankText(s: string)
    ensures Trim(s) == "" <==> AllBlank(s)
  {
    var i, j := TrimExactly(s);
    if i == j {
      assert s == s[..i] + s[j..];
    }
  }

  /** A rollback needs the version it names, and publishes that version's body again. */
  lemma RollbacksWritten(db: Db, name: string, pattern: string, version: int, section: string, g: Option<Db>,
                         a: Option<Db>, p: Option<Db>)
    requires g == RollbackGlobal(db, version, section)
    requires a == RollbackApp(db, name, version, section) && p == RollbackRepo(db, pattern, version, section)
    ensures g.Some? <==> HasVersion(db.globals, "", section, version)
    ensures a.Some? <==> !AllBlank(name) && HasVersion(db.apps, AppKey(name), section, version)
    ensures p.Some? <==> HasVersion(db.repos, Trim(pattern), section, version)
    ensures g.Some? ==> Republishes(db.globals, g.value.globals, "", section, version, section, false)
    ensures a.Some?
      ==> Republishes(db.apps, a.value.apps, AppKey(name), section, version, StoredSection(section), false)
    ensures p.Some?
      ==> Republishes(db.repos, p.value.repos, Trim(pattern), section, version, StoredSection(section), true)
  {
    GlobalRolledBack(db, version, section, g);
    AppRolledBack(db, name, version, section, a);
    RepoRolledBack(db, pattern, version, section, p);
  }

  /** The table has one row more, with the body of the version named, under the stored section name. */
  ghost predicate Republishes(t: Table, t': Table, owner: string, section: string, version: int, stored: string,
                              trimmed: bool) {
    exists x :: x in t && x.owner == owner && x.section == section && x.version == version
      && Adds(t, t', owner, stored, if trimmed then Trim(x.body) else x.body)
  }

  lemma GlobalRolledBack(db: Db, version: int, section: string, g: Option<Db>)
    requires g == RollbackGlobal(db, version, section)
    ensures g.Some? <==> HasVersion(db.globals, "", section, version)
    ensures g.Some? ==> Republishes(db.globals, g.value.globals, "", section, version, section, false)
  {
    FoundExactly(db.globals, "", section, version);
    if g.Some? {
      GlobalWritten(db, FindRow(db.globals, "", section, version).value.body, section, g.value);
    }
  }

  lemma AppRolledBack(db: Db, name: string, version: int, section: string, a: Option<Db>)
    requires a == RollbackApp(db, name, version, section)
    ensures a.Some? <==> !AllBlank(name) && HasVersion(db.apps, AppKey(name), section, version)
    ensures a.Some?
      ==> Republishes(db.apps, a.value.apps, AppKey(name), section, version, StoredSection(section), false)
  {
    BlankName(name);
    KeyStable(name);
    FoundExactly(db.apps, AppKey(name), section, version);
    if a.Some? {
      AppWritten(db, AppKey(name), FindRow(db.apps, AppKey(name), section, version).value.body, section, a);
    } else if HasVersion(db.apps, AppKey(name), section, version) {
      assert AppKey(name) == "";
    }
  }

  lemma RepoRolledBack(db: Db, pattern: string, version: int, section: string, p: Option<Db>)
    requires p == RollbackRepo(db, pattern, version, section)
    ensures p.Some? <==> HasVersion(db.repos, Trim(pattern), section, version)
    ensures p.Some?
      ==> Republishes(db.repos, p.value.repos, Trim(pattern), section, version, StoredSection(section), true)
  {
    StripTwice(pattern, IsSpace);
    FoundExactly(db.repos, Trim(pattern), section, version);
    if p.Some? {
      var key, sn, x := Trim(pattern), StoredSection(section), FindRow(db.repos, Trim(pattern), section, version).value;
      PublishAdds(db.repos, key, sn, Trim(x.body), SortOrderFor(db.repos, key, sn, None));
    }
  }

  // ---- the version snapshot ----

  ghost predicate NoRepeats(rows: seq<Row>) {
    forall i, j :: 0 <= i < j < |rows| ==> rows[i].section != rows[j].section
  }

  /** The map lists exactly the sections of the rows, each with its row's version. */
  ghost predicate Maps(m: map<string, int>, rows: seq<Row>) {
    && (forall r :: r in rows ==> r.section in m && m[r.section] == r.version)
    && (forall sec :: sec in m ==> exists i :: 0 <= i < |rows| && rows[i].section == sec)
  }

  lemma {:induction false} VersionsExactly(rows: seq<Row>)
    requires NoRepeats(rows)
    ensures Maps(Versions(rows), rows)
  {
    if rows != [] {
      var front, last := rows[..|rows| - 1], rows[|rows| - 1];
      VersionsExactly(front);
      assert rows == front + [last];
      MapsMore(Versions(front), front, last);
    }
  }

  lemma MapsMore(m: map<string, int>, front: seq<Row>, last: Row)
    requires Maps(m, front) && forall i :: 0 <= i < |front| ==> front[i].section != last.section
    ensures Maps(m[last.section := last.version], front + [last])
  {
    var m', rows := m[last.section := last.version], front + [last];
    forall sec | sec in m' ensures exists i :: 0 <= i < |rows| && rows[i].section == sec {
      if sec == last.section {
        assert rows[|front|].section == sec;
      } else {
        var i :| 0 <= i < |front| && front[i].section == sec;
        assert rows[i].section == sec;
      }
    }
  }

  /** The version of the main section, if there is one. */
  ghost predicate OfMain(rows: seq<Row>, v: Option<int>) {
    match v
    case None => forall r :: r in rows ==> r.section != "main"
    case Some(n) => exists r :: r in rows && r.section == "main" && r.version == n
  }

  lemma {:induction false} MainVersionExactly(rows: seq<Row>)
    ensures OfMain(rows, MainVersion(rows))
  {
    if rows != [] {
      MainVersionExactly(rows[1..]);
      assert rows == [rows[0]] + rows[1..];
      assert rows[0] in rows;
    }
  }

  /** The version shown for an owner: main's, else the first section's, else none. */
  ghost predicate Shown(rows: seq<Row>, v: Option<int>) {
    if exists r :: r in rows && r.section == "main" then v.Some? && OfMain(rows, v)
    else v == if rows == [] then None else Some(rows[0].version)
  }

  lemma ShownExactly(rows: seq<Row>)
    ensures Shown(rows, if MainVersion(rows).Some? then MainVersion(rows) else FirstVersion(rows))
  {
    MainVersionExactly(rows);
  }

  /** The numbers of the snapshot, on the rows that a read of the same tables serves. */
  lemma SnapshotVersions(db: Db, key: string, url: string, snap: Snapshot, s: Selection, own: seq<Row>,
                         fallback: seq<Row>)
    requires snap == TakeSnapshot(db, key, url) && s == Select(db, key, url)
    requires own == Sections(db.apps, key) && fallback == Sections(db.apps, "__default__")
    ensures OfMain(s.global, snap.globalVersion)
    ensures key != "" ==> Shown(s.repo, snap.repoVersion)
    ensures key != "" && own != [] ==> Shown(own, snap.appVersion) && snap.appDefaultVersion == None
    ensures key != "" && own == [] ==> snap.appVersion == None
    ensures key != "" && own == [] ==>
      snap.appDefaultVersion == if fallback == [] then None else Some(fallback[0].version)
    ensures key == "" ==> snap.appVersion == snap.appDefaultVersion == snap.repoVersion == None
    ensures snap.repoDefaultVersion ==
      if !snap.includeRepo || Sections(db.repos, "") == [] then None else Some(Sections(db.repos, "")[0].version)
  {
    MainVersionExactly(s.global);
    ShownExactly(own);
    ShownExactly(s.repo);
  }

  /** And its maps: each lists exactly the sections served, with their versions. */
  lemma SnapshotMaps(db: Db, key: string, url: string, snap: Snapshot, s: Selection)
    requires NoTwins(db.globals) && NoTwins(db.apps) && NoTwins(db.repos)
    requires snap == TakeSnapshot(db, key, url) && s == Select(db, key, url)
    ensures Maps(snap.globalSections, s.global)
    ensures key != "" && s.repo != [] ==> snap.repoSections.Some? && Maps(snap.repoSections.value, s.repo)
    ensures key != "" && s.app != [] ==> snap.appSections.Some? && Maps(snap.appSections.value, s.app)
    ensures key != "" && s.repo == [] ==> snap.repoSections == None
    ensures key != "" && s.app == [] && s.appDefault == [] ==> snap.appSections == None
  {
    StreamWords(db.globals);
    StreamWords(db.apps);
    StreamWords(db.repos);
    SelectServesLatestOnce(db, key, url);
    SnapshotAgrees(db, key, url, snap, s);
    VersionsExactly(s.global);
    VersionsExactly(s.repo);
    VersionsExactly(s.app);
  }
}
