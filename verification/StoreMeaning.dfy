/** What a read and a write do to tables and cache (app/services/versioned_rules.py, app/services/rule_cache.py), on
    keys, entries and rows: which requests are cached, for how long, which entries a publish throws out, and which
    statement each part of an answer comes from. */
module StoreMeaning {
  import opened Text
  import opened VersionedRules
  import opened RuleHistory
  import opened RuleMeaning
  import opened CacheKeys
  import opened RuleQueries
  import opened RuleCache
  import S = RuleStore

  // ---- which requests share a key ----

  /** The number that a row of digits stands for. */
  function NumberOf(s: string): int {
    if s == "" then 0 else 10 * NumberOf(s[..|s| - 1]) + (s[|s| - 1] as int - '0' as int)
  }

  predicate AllDigits(s: string) {
    s != "" && forall i :: 0 <= i < |s| ==> '0' <= s[i] <= '9'
  }

  lemma {:induction false} DigitsExactly(n: nat)
    ensures AllDigits(Digits(n)) && NumberOf(Digits(n)) == n
  {
    if n < 10 {
      var s := Digits(n);
      assert s[..|s| - 1] == "";
    } else {
      DigitsExactly(n / 10);
      DigitsExactly(n % 10);
      var front, last := Digits(n / 10), Digits(n % 10);
      var s := front + last;
      assert |last| == 1 && s[..|s| - 1] == front && s[|s| - 1] == last[0];
      assert NumberOf(last) == last[0] as int - '0' as int by { assert last[..0] == ""; }
    }
  }

  /** The text is that of the version. */
  predicate Reads(s: string, v: Option<int>) {
    match v
    case None => s == "latest"
    case Some(n) =>
      if n < 0 then s != "" && s[0] == '-' && NumberOf(s[1..]) == -n else AllDigits(s) && NumberOf(s) == n
  }

  lemma VersionReads(v: Option<int>)
    ensures Reads(VersionText(v), v)
  {
    if v.Some? {
      DigitsExactly(if v.value < 0 then -v.value else v.value);
    }
  }

  lemma ReadsOnce(s: string, a: Option<int>, b: Option<int>)
    requires Reads(s, a) && Reads(s, b)
    ensures a == b
  {
    assert "latest"[0] == 'l';
  }

  lemma VersionExactly(a: Option<int>, b: Option<int>)
    ensures VersionText(a) == VersionText(b) <==> a == b
  {
    VersionReads(a);
    VersionReads(b);
    if VersionText(a) == VersionText(b) {
      ReadsOnce(VersionText(a), a, b);
    }
  }

  /** An answer for which the server's own checkout does not matter. */
  predicate Eligible(q: Request) {
    AllBlank(q.name) || !AllBlank(q.origin)
  }

  lemma CacheableExactly(q: Request)
    ensures Cacheable(q) <==> Eligible(q)
    ensures AppKey(q.name) == "" <==> AllBlank(q.name)
  {
    BlankText(q.name);
    BlankText(q.origin);
    BlankName(q.name);
  }

  /** Two plain requests share a key exactly when they agree on app, version, and (given an app) origin. */
  lemma KeysExactly(q: Request, r: Request)
    requires Plain(q) && Plain(r)
    ensures Key(q) == Key(r) <==>
      && AppKey(q.name) == AppKey(r.name) && q.version == r.version
      && (AllBlank(q.name) || Trim(q.origin) == Trim(r.origin))
  {
    SharedKeyExactly(q, r);
    VersionExactly(q.version, r.version);
    CacheableExactly(q);
  }

  // ---- which entries a publish throws out ----

  /** A name of ordinary characters only. */
  predicate Ordinary(name: string) {
    name != "" && name != "-" && forall i :: 0 <= i < |name| ==> name[i] !in "*?[\\:"
  }

  lemma {:induction false} NameMatches(a: string, b: string, rest: string)
    requires (forall i :: 0 <= i < |a| ==> a[i] !in "*?[\\:") && ':' !in b
    ensures Glob(a + ":*", b + ":" + rest) <==> a == b
  {
    var p, s := a + ":*", b + ":" + rest;
    if a == "" {
      assert p == ":*" && p[1..] == "*";
      GlobStar(s[1..]);
      assert b != "" ==> s[0] == b[0] && b[0] in b;
    } else {
      assert p[0] == a[0] && p[1..] == a[1..] + ":*";
      if b == "" {
        assert s[0] == ':';
      } else {
        assert s[0] == b[0] && s[1..] == b[1..] + ":" + rest;
        NameMatches(a[1..], b[1..], rest);
        assert a == [a[0]] + a[1..] && b == [b[0]] + b[1..];
      }
    }
  }

  /** An ordinary app's pattern matches a plain request's key exactly when the request is for that app. */
  lemma OwnPatternExactly(a: string, q: Request)
    requires Ordinary(a) && Plain(q)
    ensures Flushes(a + ":*", Key(q)) <==> AppKey(q.name) == a
  {
    KeyShape(q);
    var b, u, v := OrDash(AppKey(q.name)), OrDash(if AppKey(q.name) == "" then "" else Trim(q.origin)),
      VersionText(q.version);
    Regroup(b, u, v);
    NameMatches(a, b, u + ":" + v);
    FlushesIsGlob(a + ":*", Key(q));
  }

  /** A publish for an ordinary app leaves a plain request's entry exactly when that request is for another app and
      the app is not the default one; every other publish leaves none. */
  lemma FlushedExactly(op: Op, q: Request)
    requires Plain(q) && (op.OnApp? ==> Ordinary(AppKey(op.name)))
    ensures Flushes(FlushPattern(op), Key(q)) <==>
      !(op.OnApp? && AppKey(op.name) != "__default__" && AppKey(op.name) != AppKey(q.name))
  {
    StarFlushes(Key(q));
    if op.OnApp? {
      OwnPatternExactly(AppKey(op.name), q);
    }
  }

  /** So the store's cache, after a publish has flushed it. */
  lemma KeptExactly(cache: S.Cache, op: Op, q: Request)
    requires Plain(q) && Key(q) in cache && (op.OnApp? ==> Ordinary(AppKey(op.name)))
    ensures Key(q) in S.Kept(cache, FlushPattern(op)) <==>
      op.OnApp? && AppKey(op.name) != "__default__" && AppKey(op.name) != AppKey(q.name)
    ensures Key(q) in S.Kept(cache, FlushPattern(op)) ==> S.Kept(cache, FlushPattern(op))[Key(q)] == cache[Key(q)]
  {
    FlushedExactly(op, q);
  }

  /** The same for the protocol's cache. */
  lemma FlushStepExactly(s: State, tid: nat, op: Op, q: Request)
    requires tid in s.flushes && s.flushes[tid] == FlushPattern(op) && Key(q) in s.cache
    requires Plain(q) && (op.OnApp? ==> Ordinary(AppKey(op.name)))
    ensures var s' := Apply(s, Flush(tid));
      && (Key(q) in s'.cache <==> op.OnApp? && AppKey(op.name) != "__default__" && AppKey(op.name) != AppKey(q.name))
      && (Key(q) in s'.cache ==> s'.cache[Key(q)] == s.cache[Key(q)])
      && s'.db == s.db && s'.pending == s.pending && s'.flushes == s.flushes - {tid}
  {
    FlushedExactly(op, q);
  }

  // ---- what a publish commits ----

  /** The tables after a publish: one row more in one of them, and for a pattern its setting. */
  lemma CommittedExactly(db: Db, op: Op, r: Option<Db>)
    requires Positive(db.repos) && r == Committed(db, op)
    ensures r.None? <==> op.OnApp? && AllBlank(op.name)
    ensures r.Some? && op.OnGlobal? ==>
      Adds(db.globals, r.value.globals, "", op.section, op.body) && r.value == db.(globals := r.value.globals)
    ensures r.Some? && op.OnApp? ==>
      Adds(db.apps, r.value.apps, AppKey(op.name), StoredSection(op.section), op.body)
      && r.value == db.(apps := r.value.apps)
    ensures r.Some? && op.OnRepo? ==>
      Adds(db.repos, r.value.repos, Trim(op.pattern), StoredSection(op.section), Trim(op.body))
      && r.value == db.(repos := r.value.repos, repoOptions := r.value.repoOptions)
  {
    match op
    case OnGlobal(body, section) => GlobalWritten(db, body, section, r.value);
    case OnApp(name, body, section) => AppWritten(db, name, body, section, r);
    case OnRepo(pattern, body, section, order) => RepoWritten(db, pattern, body, section, order, r.value);
  }

  // ---- what a read returns, and what it leaves in the cache ----

  /** The URL by which the pattern is chosen. */
  function UrlOf(q: Request, serverUrl: string): string {
    if !AllBlank(q.origin) then q.origin else if !AllBlank(serverUrl) then Trim(serverUrl) else "Unknown"
  }

  /** An entry answers for 300 seconds; without one the tables do, and the answer is entered if the request is
      eligible. */
  lemma GetsExactly(db: Db, cache: S.Cache, q: Request, serverUrl: string, now: real, rows: Selection, cache': S.Cache)
    requires rows == S.Answer(cache, S.CacheKey(q), S.FreshAnswer(db, q, serverUrl), now)
    requires cache' == S.Filled(cache, S.CacheKey(q), S.FreshAnswer(db, q, serverUrl), now)
    ensures var hit := Eligible(q) && Key(q) in cache && now <= cache[Key(q)].expires;
      && (hit ==> rows == cache[Key(q)].value && cache' == cache)
      && (!hit ==> rows == Select(db, AppKey(q.name), UrlOf(q, serverUrl)))
      && (!hit && Eligible(q) ==> cache' == cache[Key(q) := S.Line(rows, now + 300.0)])
      && (!Eligible(q) ==> cache' == cache)
  {
    CacheableExactly(q);
    BlankText(q.origin);
    BlankText(serverUrl);
  }

  /** The same for a hit of the protocol. */
  lemma HitExactly(s: State, q: Request)
    ensures Hit(s, q).Some? <==> Eligible(q) && Key(q) in s.cache && s.now <= s.cache[Key(q)].stored + 300.0
    ensures Hit(s, q).Some? ==> Hit(s, q).value == s.cache[Key(q)].value
  {
    CacheableExactly(q);
  }

  // ---- which statement each part of an answer comes from ----

  /** The answers of a read for an app, each from its own statement's tables. */
  lemma StatementsExactly(key: string, url: string, seen: seq<Db>, a: Answers)
    requires key != "" && |seen| == 12 && a == Gathered(key, url, seen)
    ensures a.global == Sections(seen[0].globals, "") && a.hit == ResolveRepo(seen[1].repos, url)
    ensures a.repo == if a.hit.Some? then Sections(seen[2].repos, Trim(a.hit.value.owner)) else []
    ensures a.includeRepo ==
      Setting(seen[3].repoOptions, if a.hit.Some? then a.hit.value.owner else "",
              seen[4].defaults.Some? && seen[4].defaults.value.includeRepo)
    ensures a.shownApp ==
      (key != "__default__"
       && Setting(seen[5].appOptions, key, seen[6].defaults.Some? && seen[6].defaults.value.includeApp))
    ensures a.blank == if a.includeRepo then Sections(seen[7].repos, "") else []
    ensures a.includeApp ==
      (key != "__default__"
       && Setting(seen[8].appOptions, key, seen[9].defaults.Some? && seen[9].defaults.value.includeApp))
    ensures a.own == Sections(seen[10].apps, key)
    ensures a.fallback ==
      if key != "__default__" && (a.includeApp || a.own == []) then Sections(seen[11].apps, "__default__") else []
  {
    GlobalAnswer(key, url, seen, a);
    RepoAnswers(key, url, seen, a);
    RepoOptionAnswers(key, url, seen, a);
    AppOptionAnswers(key, url, seen, a);
    AppAnswers(key, url, seen, a);
  }

  /** And how the answers are laid out. */
  lemma LaidExactly(key: string, a: Answers, r: Row)
    requires key != ""
    ensures var v := Laid(key, a);
      && v.global == a.global && v.repo == a.repo && v.includeRepo == a.includeRepo && v.includeApp == a.shownApp
      && (r in v.repoDefault <==> r in a.blank && r !in a.repo)
      && v.app == (if a.includeApp || a.own != [] || key == "__default__" then a.own else a.fallback)
      && (r in v.appDefault <==>
        (a.includeApp || a.own != [] || key == "__default__") && r in a.fallback && r !in a.own)
  {
    WithoutMeaning(a.blank, a.repo);
    WithoutMeaning(a.fallback, a.own);
  }
}
