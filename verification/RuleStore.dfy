/** The rule service as its callers use it, one call after another (app/services/versioned_rules.py,
    app/services/rule_cache.py): publishing and rolling back change the tables and flush the cache, reading
    fills it. Every call keeps the cache coherent. */
module RuleStore {
  import opened Text
  import opened VersionedRules
  import opened RuleHistory
  import opened CacheKeys
  import opened RuleCache

  datatype Line = Line(value: Selection, expires: real)

  type Cache = map<string, Line>

  function Kept(cache: Cache, pattern: string): Cache {
    map k | k in cache && !Flushes(pattern, k) :: cache[k]
  }

  function Matching(keys: set<string>, pattern: string): set<string> {
    set k | k in keys && Flushes(pattern, k)
  }

  function Live(cache: Cache, key: string, now: real): Option<Selection> {
    if key in cache && now <= cache[key].expires then Some(cache[key].value) else None
  }

  /** The URL that picks the repository pattern: the caller's, else the server's own checkout. */
  function MatchUrl(q: Request, serverUrl: string): string {
    if Trim(q.origin) != "" then q.origin else if Trim(serverUrl) != "" then Trim(serverUrl) else "Unknown"
  }

  function FreshAnswer(db: Db, q: Request, serverUrl: string): Selection {
    Select(db, AppKey(q.name), MatchUrl(q, serverUrl))
  }

  /** What the caller gets: a live entry, else the selection. */
  function Answer(cache: Cache, key: Option<string>, answer: Selection, now: real): Selection {
    if key.Some? && Live(cache, key.value, now).Some? then Live(cache, key.value, now).value else answer
  }

  function Filled(cache: Cache, key: Option<string>, answer: Selection, now: real): Cache {
    if key.Some? && Live(cache, key.value, now).None? then cache[key.value := Line(answer, now + TTL)] else cache
  }

  /** The cache key, None when the answer is not to be cached. */
  function CacheKey(q: Request): Option<string> {
    if Cacheable(q) then Some(Key(q)) else None
  }

  /** Every plain request that has an entry would be answered with it if it were asked afresh. */
  ghost predicate AllFresh(db: Db, cache: Cache) {
    forall q :: Plain(q) && Key(q) in cache ==> Fits(db, q, cache[Key(q)])
  }

  predicate Fits(db: Db, q: Request, line: Line) {
    line.value == Served(db, q)
  }

  ghost predicate Regular(db: Db) {
    && Unique(db.globals) && Dense(db.globals)
    && Unique(db.apps) && Dense(db.apps)
    && Unique(db.repos) && Dense(db.repos)
  }

  lemma PublishRegular(db: Db, op: Op, db': Db)
    requires Committed(db, op) == Some(db') && Regular(db)
    ensures Regular(db')
  {
    match op
    case OnGlobal(body, section) => PublishKeeps(db.globals, "", section, body, 0);
    case OnApp(name, body, section) => PublishKeeps(db.apps, AppKey(name), SectionName(section), body, 0);
    case OnRepo(pattern, body, section, order) =>
      var key, sn := Trim(pattern), SectionName(section);
      PublishKeeps(db.repos, key, sn, Trim(body), SortOrderFor(db.repos, key, sn, order));
  }

  lemma PublishCoherent(db: Db, op: Op, db': Db, cache: Cache)
    requires Committed(db, op) == Some(db') && AllFresh(db, cache)
    ensures AllFresh(db', Kept(cache, FlushPattern(op)))
  {
    forall q | Plain(q) && Key(q) in Kept(cache, FlushPattern(op)) ensures Fits(db', q, cache[Key(q)]) {
      assert Fits(db, q, cache[Key(q)]);
      PublishCovers(db, op, db', q);
    }
  }

  lemma FreshIsServed(db: Db, q: Request, serverUrl: string)
    requires Cacheable(q)
    ensures FreshAnswer(db, q, serverUrl) == Served(db, q)
  {
    KeyShape(q);
    SelectByOrigin(db, AppKey(q.name), MatchUrl(q, serverUrl), q.origin);
  }

  lemma FillCoherent(db: Db, cache: Cache, q: Request, answer: Selection, now: real)
    requires AllFresh(db, cache) && Plain(q) && answer == Served(db, q)
    ensures AllFresh(db, Filled(cache, Some(Key(q)), answer, now))
  {
    var cache' := Filled(cache, Some(Key(q)), answer, now);
    forall r | Plain(r) && Key(r) in cache' ensures Fits(db, r, cache'[Key(r)]) {
      if Key(r) == Key(q) && cache' != cache {
        KeyDetermines(db, q, r);
      } else {
        assert Fits(db, r, cache[Key(r)]);
      }
    }
  }

  /** With a coherent cache the answer is that of the tables alone, whoever reads through it. */
  lemma AnswerFresh(db: Db, cache: Cache, q: Request, answer: Selection, now: real)
    requires AllFresh(db, cache) && Plain(q) && answer == Served(db, q)
    ensures Answer(cache, Some(Key(q)), answer, now) == Served(db, q)
  {
    if Key(q) in cache {
      assert Fits(db, q, cache[Key(q)]);
    }
  }

  // ---- the scan that deletes ----

  /** What has been deleted so far, and how many. */
  ghost predicate Deleted(before: Cache, pattern: string, cache: Cache, gone: set<string>, deleted: nat) {
    gone <= Matching(before.Keys, pattern) && deleted == |gone| && cache == before - gone
  }

  /** All matches on the pages that have been looked at are gone. */
  ghost predicate Scanned(before: Cache, pattern: string, scan: seq<set<string>>, cursor: nat, gone: set<string>)
    requires cursor <= |scan|
  {
    forall i, k :: 0 <= i < cursor && k in scan[i] && k in before && Flushes(pattern, k) ==> k in gone
  }

  lemma DeletedMore(before: Cache, pattern: string, cache: Cache, gone: set<string>, deleted: nat, found: set<string>)
    requires Deleted(before, pattern, cache, gone, deleted)
    requires forall k :: k in found ==> k in cache && Flushes(pattern, k)
    ensures Deleted(before, pattern, cache - found, gone + found, deleted + |found|)
  {
    assert gone !! found;
    assert before - gone - found == before - (gone + found);
  }

  lemma ScannedMore(before: Cache, pattern: string, scan: seq<set<string>>, cursor: nat, cache: Cache,
                    gone: set<string>, found: set<string>)
    requires cursor < |scan| && Scanned(before, pattern, scan, cursor, gone) && cache == before - gone
    requires found == set k | k in scan[cursor] && k in cache && Flushes(pattern, k)
    ensures Scanned(before, pattern, scan, cursor + 1, gone + found)
  {
  }

  ghost predicate Covers(scan: seq<set<string>>, keys: set<string>) {
    forall k :: k in keys ==> exists i :: 0 <= i < |scan| && k in scan[i]
  }

  lemma AllDeleted(before: Cache, pattern: string, scan: seq<set<string>>, cache: Cache, gone: set<string>)
    requires Covers(scan, before.Keys) && Scanned(before, pattern, scan, |scan|, gone)
    requires gone <= Matching(before.Keys, pattern) && cache == before - gone
    ensures gone == Matching(before.Keys, pattern) && cache == Kept(before, pattern)
  {
    forall k | k in Matching(before.Keys, pattern) ensures k in gone {
      var i :| 0 <= i < |scan| && k in scan[i];
    }
  }

  /** An append is a publish of the new body under the app's key. */
  lemma AppendsAs(db: Db, name: string, addition: string, section: string, key: string, sn: string, body: string)
    requires key == AppKey(name) != "" && Trim(addition) != "" && sn == SectionName(section)
    requires body == AppendedBody(AppendBase(db, key, sn), Trim(addition))
    ensures VersionedRules.AppendApp(db, name, addition, section) == Committed(db, OnApp(key, body, sn))
    ensures AppKey(key) != ""
  {
    KeyStable(name);
  }

  class Store {
    var db: Db
    var cache: Cache

    constructor (tables: Db)
      ensures db == tables && cache == map[]
      ensures AllFresh(db, cache)
    {
      db := tables;
      cache := map[];
    }

    /** `invalidate_rule`: the scan hands out the keys in pages of its own choosing, `scan`; each page's matches
        are deleted and counted. */
    method Invalidate(pattern: string, scan: seq<set<string>>) returns (deleted: nat)
      requires Covers(scan, cache.Keys)
      modifies this`cache
      ensures cache == Kept(old(cache), pattern)
      ensures deleted == |Matching(old(cache).Keys, pattern)|
    {
      deleted := 0;
      var cursor := 0;
      ghost var gone: set<string> := {};
      while cursor < |scan|
        invariant 0 <= cursor <= |scan|
        invariant Deleted(old(cache), pattern, cache, gone, deleted)
        invariant Scanned(old(cache), pattern, scan, cursor, gone)
      {
        var found := set k | k in scan[cursor] && k in cache && Flushes(pattern, k);
        DeletedMore(old(cache), pattern, cache, gone, deleted, found);
        ScannedMore(old(cache), pattern, scan, cursor, cache, gone, found);
        cache := cache - found;
        deleted := deleted + |found|;
        gone := gone + found;
        cursor := cursor + 1;
      }
      AllDeleted(old(cache), pattern, scan, cache, gone);
    }

    method PublishGlobal(body: string, section: string, scan: seq<set<string>>) returns (version: int)
      requires Covers(scan, cache.Keys)
      modifies this
      ensures Committed(old(db), OnGlobal(body, section)) == Some(db)
      ensures version == MaxVersion(old(db.globals), "", section) + 1
      ensures cache == Kept(old(cache), "*")
      ensures old(AllFresh(db, cache)) ==> AllFresh(db, cache)
      ensures old(Regular(db)) ==> Regular(db)
    {
      version := NextVersion(db.globals, "", section);
      ghost var op := OnGlobal(body, section);
      ghost var before := db;
      db := db.(globals := db.globals + [Row("", section, version, body, 0)]);
      assert Committed(before, op) == Some(db);
      var _ := Invalidate("*", scan);
      if AllFresh(before, old(cache)) { PublishCoherent(before, op, db, old(cache)); }
      if Regular(before) { PublishRegular(before, op, db); }
    }

    /** None: the app name is blank. */
    method PublishApp(name: string, body: string, section: string, scan: seq<set<string>>)
      returns (version: Option<int>)
      requires Covers(scan, cache.Keys)
      modifies this
      ensures version.None? <==> AppKey(name) == ""
      ensures version.None? ==> db == old(db) && cache == old(cache)
      ensures version.Some? ==> Committed(old(db), OnApp(name, body, section)) == Some(db)
      ensures version.Some? ==> version.value == MaxVersion(old(db.apps), AppKey(name), SectionName(section)) + 1
      ensures version.Some? ==> cache == Kept(old(cache), FlushPattern(OnApp(name, body, section)))
      ensures old(AllFresh(db, cache)) ==> AllFresh(db, cache)
      ensures old(Regular(db)) ==> Regular(db)
    {
      var key := AppKey(name);
      if key == "" {
        return None;
      }
      var sn := SectionName(section);
      var nv := NextVersion(db.apps, key, sn);
      ghost var op := OnApp(name, body, section);
      ghost var before := db;
      db := db.(apps := db.apps + [Row(key, sn, nv, body, 0)]);
      assert Committed(before, op) == Some(db);
      if key == DEFAULT_APP {
        var _ := Invalidate("*", scan);
      } else {
        var _ := Invalidate(key + ":*", scan);
      }
      if AllFresh(before, old(cache)) { PublishCoherent(before, op, db, old(cache)); }
      if Regular(before) { PublishRegular(before, op, db); }
      return Some(nv);
    }

    method PublishRepo(pattern: string, body: string, section: string, order: Option<int>, scan: seq<set<string>>)
      returns (version: int)
      requires Covers(scan, cache.Keys)
      modifies this
      ensures Committed(old(db), OnRepo(pattern, body, section, order)) == Some(db)
      ensures version == MaxVersion(old(db.repos), Trim(pattern), SectionName(section)) + 1
      ensures cache == Kept(old(cache), "*")
      ensures old(AllFresh(db, cache)) ==> AllFresh(db, cache)
      ensures old(Regular(db)) ==> Regular(db)
    {
      var key, sn := Trim(pattern), SectionName(section);
      version := NextVersion(db.repos, key, sn);
      var prev := Latest(db.repos, key, sn);
      var so := 100;
      if version == 1 && order.Some? {
        so := order.value;
      } else if prev.Some? {
        so := prev.value.sortOrder;
      } else {
        var any := AnyRow(db.repos, key);
        if any.Some? { so := any.value.sortOrder; }
      }
      ghost var op := OnRepo(pattern, body, section, order);
      ghost var before := db;
      var options := db.repoOptions;
      if key !in options {
        options := options[key := db.defaults.Some? && db.defaults.value.includeRepo];
      }
      db := db.(repos := db.repos + [Row(key, sn, version, Trim(body), so)], repoOptions := options);
      assert Committed(before, op) == Some(db);
      var _ := Invalidate("*", scan);
      if AllFresh(before, old(cache)) { PublishCoherent(before, op, db, old(cache)); }
      if Regular(before) { PublishRegular(before, op, db); }
    }

    /** None: the app name or the addition is blank. */
    method AppendApp(name: string, addition: string, section: string, scan: seq<set<string>>)
      returns (version: Option<int>)
      requires Covers(scan, cache.Keys)
      modifies this
      ensures version.None? ==> db == old(db) && cache == old(cache)
      ensures VersionedRules.AppendApp(old(db), name, addition, section) == if version.Some? then Some(db) else None
      ensures version.Some? ==>
        version.value == MaxVersion(old(db.apps), AppKey(AppKey(name)), SectionName(SectionName(section))) + 1
      ensures old(AllFresh(db, cache)) ==> AllFresh(db, cache)
      ensures old(Regular(db)) ==> Regular(db)
    {
      var key := AppKey(name);
      var more := Trim(addition);
      if key == "" || more == "" {
        return None;
      }
      var sn := SectionName(section);
      var body := NewBody(key, sn, more);
      AppendsAs(db, name, addition, section, key, sn, body);
      version := PublishApp(key, body, sn, scan);
    }

    /** The latest body, the default app's if the app has none, and the addition after it. */
    method NewBody(key: string, sn: string, more: string) returns (body: string)
      ensures body == AppendedBody(AppendBase(db, key, sn), more)
    {
      var latest := Latest(db.apps, key, sn);
      if latest.None? && key != DEFAULT_APP {
        latest := Latest(db.apps, DEFAULT_APP, sn);
      }
      body := more;
      if latest.Some? {
        body := TrimEnd(latest.value.body) + "\n\n" + more;
      }
    }

    /** None: the app has no such version. */
    method RollbackApp(name: string, target: int, section: string, scan: seq<set<string>>)
      returns (version: Option<int>)
      requires Covers(scan, cache.Keys)
      modifies this
      ensures version.None? ==> db == old(db) && cache == old(cache)
      ensures VersionedRules.RollbackApp(old(db), name, target, section) == if version.Some? then Some(db) else None
      ensures version.Some? ==> version.value == NextVersion(old(db.apps), AppKey(name), SectionName(section))
      ensures old(AllFresh(db, cache)) ==> AllFresh(db, cache)
      ensures old(Regular(db)) ==> Regular(db)
    {
      var row := FindRow(db.apps, AppKey(name), section, target);
      if row.None? {
        return None;
      }
      assert AppKey(AppKey(name)) == AppKey(name) by { KeyStable(name); }
      version := PublishApp(AppKey(name), row.value.body, section, scan);
    }

    /** None: there is no such version. */
    method RollbackGlobal(target: int, section: string, scan: seq<set<string>>) returns (version: Option<int>)
      requires Covers(scan, cache.Keys)
      modifies this
      ensures version.None? ==> db == old(db) && cache == old(cache)
      ensures VersionedRules.RollbackGlobal(old(db), target, section) == if version.Some? then Some(db) else None
      ensures version.Some? ==> version.value == NextVersion(old(db.globals), "", section)
      ensures old(AllFresh(db, cache)) ==> AllFresh(db, cache)
      ensures old(Regular(db)) ==> Regular(db)
    {
      var row := FindRow(db.globals, "", section, target);
      if row.None? {
        return None;
      }
      var v := PublishGlobal(row.value.body, section, scan);
      version := Some(v);
    }

    /** None: the pattern has no such version. */
    method RollbackRepo(pattern: string, target: int, section: string, scan: seq<set<string>>)
      returns (version: Option<int>)
      requires Covers(scan, cache.Keys)
      modifies this
      ensures version.None? ==> db == old(db) && cache == old(cache)
      ensures VersionedRules.RollbackRepo(old(db), pattern, target, section) == if version.Some? then Some(db) else None
      ensures version.Some? ==> version.value == NextVersion(old(db.repos), Trim(pattern), SectionName(section))
      ensures old(AllFresh(db, cache)) ==> AllFresh(db, cache)
      ensures old(Regular(db)) ==> Regular(db)
    {
      var key := Trim(pattern);
      var row := FindRow(db.repos, key, section, target);
      if row.None? {
        return None;
      }
      assert Trim(key) == key by { StripTwice(pattern, IsSpace); }
      var v := PublishRepo(key, row.value.body, section, None, scan);
      version := Some(v);
    }

    /** `get_rules_markdown`, up to the rows it lays out. `serverUrl` is what the server's checkout says. */
    method GetRules(q: Request, serverUrl: string, now: real) returns (rows: Selection)
      modifies this`cache
      ensures rows == Answer(old(cache), CacheKey(q), FreshAnswer(db, q, serverUrl), now)
      ensures cache == Filled(old(cache), CacheKey(q), FreshAnswer(db, q, serverUrl), now)
      ensures old(AllFresh(db, cache)) && Plain(q) ==> rows == Served(db, q) && AllFresh(db, cache)
    {
      ghost var before, answer := cache, FreshAnswer(db, q, serverUrl);
      rows := Fetch(CacheKey(q), AppKey(q.name), MatchUrl(q, serverUrl), now);
      if AllFresh(db, before) && Plain(q) {
        FreshIsServed(db, q, serverUrl);
        FillCoherent(db, before, q, answer, now);
        AnswerFresh(db, before, q, answer, now);
      }
    }

    /** The queries of a read, one after another on the same tables. */
    method SelectRows(key: string, url: string) returns (s: Selection)
      ensures s == Select(db, key, url)
    {
      var global := Sections(db.globals, "");
      if key == "" {
        return Selection(global, [], [], [], [], false, false);
      }
      var hit := ResolveRepo(db.repos, url);
      var repo, repoDefault := [], [];
      if hit.Some? {
        repo := Sections(db.repos, Trim(hit.value.owner));
      }
      var addRepo := IncludeRepo(db, if hit.Some? then hit.value.owner else "");
      if addRepo {
        repoDefault := Without(Sections(db.repos, ""), repo);
      }
      assert (repo, repoDefault, addRepo) == RepoRows(db, url);
      var addApp := IncludeApp(db, key);
      var app, appDefault := Sections(db.apps, key), [];
      if addApp && key != DEFAULT_APP {
        appDefault := Without(Sections(db.apps, DEFAULT_APP), app);
      } else if app == [] && key != DEFAULT_APP {
        app := Sections(db.apps, DEFAULT_APP);
      }
      assert (app, appDefault, addApp) == AppRows(db, key);
      s := Selection(global, repo, repoDefault, app, appDefault, addRepo, addApp);
    }

    method Fetch(key: Option<string>, app: string, url: string, now: real) returns (rows: Selection)
      modifies this`cache
      ensures rows == Answer(old(cache), key, Select(db, app, url), now)
      ensures cache == Filled(old(cache), key, Select(db, app, url), now)
    {
      if key.Some? && key.value in cache && now <= cache[key.value].expires {
        return cache[key.value].value;
      }
      rows := SelectRows(app, url);
      if key.Some? {
        cache := cache[key.value := Line(rows, now + TTL)];
      }
    }
  }
}
