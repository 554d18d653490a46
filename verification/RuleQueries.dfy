/** One read of the rules, statement by statement (`get_rules_markdown`, app/services/versioned_rules.py).
    The session runs at the database's default isolation (app/db/database.py), so each statement sees the
    tables as they stand at its own moment. */
module RuleQueries {
  import opened Text
  import opened VersionedRules

  /** What the statements of one read have returned so far; a later one may depend on an earlier one. The
      app's setting is asked for twice: once to be shown in the text, once to select the rows. */
  datatype Answers = Answers(
    global: seq<Row>, hit: Option<Row>, repo: seq<Row>, repoOption: Option<bool>, includeRepo: bool,
    shownOption: Option<bool>, shownApp: bool, blank: seq<Row>,
    appOption: Option<bool>, includeApp: bool, own: seq<Row>, fallback: seq<Row>)

  const NOTHING: Answers := Answers([], None, [], None, false, None, false, [], None, false, [], [])

  /** The number of statements of a read for the app `key`. */
  function Queries(key: string): nat {
    if key == "" then 1 else 12
  }

  function Chosen(hit: Option<Row>): string {
    if hit.Some? then hit.value.owner else ""
  }

  /** Neither without an app nor for the default app are the default app's rows asked for. */
  predicate NeedsFallback(key: string, a: Answers) {
    key != DEFAULT_APP && (a.includeApp || a.own == [])
  }

  function DefaultRepo(db: Db): bool {
    db.defaults.Some? && db.defaults.value.includeRepo
  }

  function DefaultApp(db: Db): bool {
    db.defaults.Some? && db.defaults.value.includeApp
  }

  /** The row of an app's own setting; the default app's is fixed. */
  function OwnOption(db: Db, key: string): Option<bool> {
    if key == DEFAULT_APP then Some(false) else if key in db.appOptions then Some(db.appOptions[key]) else None
  }

  function RepoOption(db: Db, pattern: string): Option<bool> {
    if pattern in db.repoOptions then Some(db.repoOptions[pattern]) else None
  }

  function Or(option: Option<bool>, default: bool): bool {
    if option.Some? then option.value else default
  }

  function AskRepo(db: Db, url: string, n: nat, a: Answers): Answers {
    if n == 1 then a.(hit := ResolveRepo(db.repos, url))
    else if n == 2 then a.(repo := if a.hit.Some? then Sections(db.repos, Trim(a.hit.value.owner)) else [])
    else if n == 3 then a.(repoOption := RepoOption(db, Chosen(a.hit)))
    else a.(includeRepo := Or(a.repoOption, DefaultRepo(db)))
  }

  function AskShown(db: Db, key: string, n: nat, a: Answers): Answers {
    if n == 5 then a.(shownOption := OwnOption(db, key))
    else if n == 6 then a.(shownApp := Or(a.shownOption, DefaultApp(db)))
    else a.(blank := if a.includeRepo then Sections(db.repos, "") else [])
  }

  function AskApp(db: Db, key: string, n: nat, a: Answers): Answers {
    if n == 8 then a.(appOption := OwnOption(db, key))
    else if n == 9 then a.(includeApp := Or(a.appOption, DefaultApp(db)))
    else if n == 10 then a.(own := Sections(db.apps, key))
    else a.(fallback := if NeedsFallback(key, a) then Sections(db.apps, DEFAULT_APP) else [])
  }

  /** The answers after statement number `n`, run on the tables `db`. */
  function Ask(db: Db, key: string, url: string, n: nat, a: Answers): Answers {
    if n == 0 then a.(global := Sections(db.globals, ""))
    else if n <= 4 then AskRepo(db, url, n, a)
    else if n <= 7 then AskShown(db, key, n, a)
    else AskApp(db, key, n, a)
  }

  /** The answers of the first statements, the i-th of them run on the tables `seen[i]`. */
  function Gathered(key: string, url: string, seen: seq<Db>): Answers {
    if seen == [] then NOTHING
    else Ask(seen[|seen| - 1], key, url, |seen| - 1, Gathered(key, url, seen[..|seen| - 1]))
  }

  function Copies(db: Db, n: nat): seq<Db> {
    seq(n, _ => db)
  }

  /** How the answers are laid out for the reader. */
  function Laid(key: string, a: Answers): Selection {
    if key == "" then Selection(a.global, [], [], [], [], false, false)
    else
      var own := !NeedsFallback(key, a) || a.includeApp;
      Selection(a.global, a.repo, Without(a.blank, a.repo), if own then a.own else a.fallback,
                if own then Without(a.fallback, a.own) else [], a.includeRepo, a.shownApp)
  }

  lemma GatheredNext(key: string, url: string, seen: seq<Db>, db: Db)
    ensures Gathered(key, url, seen + [db]) == Ask(db, key, url, |seen|, Gathered(key, url, seen))
  {
    assert (seen + [db])[..|seen|] == seen;
  }

  lemma PrefixNext(key: string, url: string, seen: seq<Db>, i: nat)
    requires i < |seen|
    ensures Gathered(key, url, seen[..i + 1]) == Ask(seen[i], key, url, i, Gathered(key, url, seen[..i]))
  {
    var longer := seen[..i + 1];
    assert longer[..i] == seen[..i] && longer[i] == seen[i];
  }

  lemma CopiesNext(db: Db, n: nat)
    ensures Copies(db, n + 1) == Copies(db, n) + [db]
  {
  }

  lemma CopyNext(db: Db, key: string, url: string, n: nat)
    ensures Gathered(key, url, Copies(db, n + 1)) == Ask(db, key, url, n, Gathered(key, url, Copies(db, n)))
  {
    CopiesNext(db, n);
    GatheredNext(key, url, Copies(db, n), db);
  }

  /** What agrees with a read of the tables `db` so far still does after one more statement on them. */
  lemma AgreesNext(key: string, url: string, seen: seq<Db>, db: Db, n: nat, a: Answers)
    requires n == |seen| && a == Gathered(key, url, seen) == Gathered(key, url, Copies(db, n))
    ensures Gathered(key, url, seen + [db]) == Gathered(key, url, Copies(db, n + 1))
  {
    GatheredNext(key, url, seen, db);
    CopyNext(db, key, url, n);
  }

  // ---- each answer and the tables it came from ----

  /** The answers of the first `n` statements only. */
  function First(n: nat, a: Answers): Answers {
    Answers(if n > 0 then a.global else [], if n > 1 then a.hit else None, if n > 2 then a.repo else [],
            if n > 3 then a.repoOption else None, n > 4 && a.includeRepo,
            if n > 5 then a.shownOption else None, n > 6 && a.shownApp, if n > 7 then a.blank else [],
            if n > 8 then a.appOption else None, n > 9 && a.includeApp, if n > 10 then a.own else [],
            if n > 11 then a.fallback else [])
  }

  lemma AskRepoKeeps(db: Db, url: string, n: nat, a: Answers, b: Answers, m: nat)
    requires m <= n && 1 <= n <= 4 && b == AskRepo(db, url, n, a)
    ensures First(m, b) == First(m, a) && (First(n, a) == a ==> First(n + 1, b) == b)
  {
  }

  lemma AskShownKeeps(db: Db, key: string, n: nat, a: Answers, b: Answers, m: nat)
    requires m <= n && 5 <= n <= 7 && b == AskShown(db, key, n, a)
    ensures First(m, b) == First(m, a) && (First(n, a) == a ==> First(n + 1, b) == b)
  {
  }

  lemma AskAppKeeps(db: Db, key: string, n: nat, a: Answers, b: Answers, m: nat)
    requires m <= n && 8 <= n < 12 && b == AskApp(db, key, n, a)
    ensures First(m, b) == First(m, a) && (First(n, a) == a ==> First(n + 1, b) == b)
  {
  }

  lemma AskKeeps(db: Db, key: string, url: string, n: nat, a: Answers, m: nat)
    requires m <= n < 12
    ensures First(m, Ask(db, key, url, n, a)) == First(m, a)
    ensures First(n, a) == a ==> First(n + 1, Ask(db, key, url, n, a)) == Ask(db, key, url, n, a)
  {
    if 1 <= n <= 4 {
      AskRepoKeeps(db, url, n, a, AskRepo(db, url, n, a), m);
    } else if 5 <= n <= 7 {
      AskShownKeeps(db, key, n, a, AskShown(db, key, n, a), m);
    } else if n >= 8 {
      AskAppKeeps(db, key, n, a, AskApp(db, key, n, a), m);
    }
  }

  lemma {:induction false} GatheredFirst(key: string, url: string, seen: seq<Db>, m: nat)
    requires m <= |seen| <= 12
    ensures First(m, Gathered(key, url, seen)) == Gathered(key, url, seen[..m])
    ensures First(|seen|, Gathered(key, url, seen)) == Gathered(key, url, seen)
  {
    if seen != [] {
      var front, n := seen[..|seen| - 1], |seen| - 1;
      AskKeeps(seen[n], key, url, n, Gathered(key, url, front), n);
      if m <= n {
        GatheredFirst(key, url, front, m);
        AskKeeps(seen[n], key, url, n, Gathered(key, url, front), m);
        assert front[..m] == seen[..m];
      } else {
        GatheredFirst(key, url, front, n);
        assert seen[..m] == seen;
      }
    }
  }

  lemma AnswerAt(key: string, url: string, seen: seq<Db>, i: nat, a: Answers)
    requires i < |seen| <= 12 && a == Gathered(key, url, seen)
    ensures First(i + 1, a) == Ask(seen[i], key, url, i, First(i, a))
  {
    GatheredFirst(key, url, seen, i);
    GatheredFirst(key, url, seen, i + 1);
    PrefixNext(key, url, seen, i);
  }

  lemma GlobalAnswer(key: string, url: string, seen: seq<Db>, a: Answers)
    requires 1 <= |seen| <= 12 && a == Gathered(key, url, seen)
    ensures a.global == Sections(seen[0].globals, "")
  {
    AnswerAt(key, url, seen, 0, a);
  }

  lemma RepoAnswers(key: string, url: string, seen: seq<Db>, a: Answers)
    requires |seen| == 12 && a == Gathered(key, url, seen)
    ensures a.hit == ResolveRepo(seen[1].repos, url)
    ensures a.repo == if a.hit.Some? then Sections(seen[2].repos, Trim(a.hit.value.owner)) else []
    ensures a.blank == if a.includeRepo then Sections(seen[7].repos, "") else []
  {
    AnswerAt(key, url, seen, 1, a);
    AnswerAt(key, url, seen, 2, a);
    AnswerAt(key, url, seen, 7, a);
  }

  lemma RepoOptionAnswers(key: string, url: string, seen: seq<Db>, a: Answers)
    requires |seen| == 12 && a == Gathered(key, url, seen)
    ensures a.includeRepo == Or(RepoOption(seen[3], Chosen(a.hit)), DefaultRepo(seen[4]))
  {
    AnswerAt(key, url, seen, 3, a);
    AnswerAt(key, url, seen, 4, a);
  }

  /** The setting that is shown, and the one that selects the rows, each from its own two statements. */
  lemma AppOptionAnswers(key: string, url: string, seen: seq<Db>, a: Answers)
    requires |seen| == 12 && a == Gathered(key, url, seen)
    ensures a.shownApp == Or(OwnOption(seen[5], key), DefaultApp(seen[6]))
    ensures a.includeApp == Or(OwnOption(seen[8], key), DefaultApp(seen[9]))
  {
    AnswerAt(key, url, seen, 5, a);
    AnswerAt(key, url, seen, 6, a);
    AnswerAt(key, url, seen, 8, a);
    AnswerAt(key, url, seen, 9, a);
  }

  lemma AppAnswers(key: string, url: string, seen: seq<Db>, a: Answers)
    requires |seen| == 12 && a == Gathered(key, url, seen)
    ensures a.own == Sections(seen[10].apps, key)
    ensures a.fallback == if NeedsFallback(key, a) then Sections(seen[11].apps, DEFAULT_APP) else []
  {
    AnswerAt(key, url, seen, 10, a);
    AnswerAt(key, url, seen, 11, a);
  }

  // ---- with nothing in between, a read is the selection ----

  lemma UndisturbedRepo(db: Db, key: string, url: string, a: Answers)
    requires a == Gathered(key, url, Copies(db, 12))
    ensures (a.repo, Without(a.blank, a.repo), a.includeRepo) == RepoRows(db, url)
  {
    RepoAnswers(key, url, Copies(db, 12), a);
    RepoOptionAnswers(key, url, Copies(db, 12), a);
  }

  lemma UndisturbedApp(db: Db, key: string, url: string, a: Answers)
    requires key != "" && a == Gathered(key, url, Copies(db, 12))
    ensures (Laid(key, a).app, Laid(key, a).appDefault, a.includeApp) == AppRows(db, key) && a.shownApp == a.includeApp
  {
    AppOptionAnswers(key, url, Copies(db, 12), a);
    AppAnswers(key, url, Copies(db, 12), a);
    assert a.includeApp == a.shownApp == IncludeApp(db, key);
  }

  /** A read whose statements all see the same tables returns what `Select` says. */
  lemma UndisturbedIsSelect(db: Db, key: string, url: string)
    ensures Laid(key, Gathered(key, url, Copies(db, Queries(key)))) == Select(db, key, url)
  {
    var a := Gathered(key, url, Copies(db, Queries(key)));
    GlobalAnswer(key, url, Copies(db, Queries(key)), a);
    if key != "" {
      UndisturbedRepo(db, key, url, a);
      UndisturbedApp(db, key, url, a);
    }
  }

  // ---- when a read is the answer of one moment ----

  /** Statement `i` of the read would have got the same answer from the tables `db`. */
  predicate Unaltered(key: string, url: string, seen: seq<Db>, db: Db, i: nat)
    requires i < |seen|
  {
    Ask(db, key, url, i, Gathered(key, url, seen[..i])) == Ask(seen[i], key, url, i, Gathered(key, url, seen[..i]))
  }

  lemma UnalteredNext(key: string, url: string, seen: seq<Db>, db: Db, i: nat, a: Answers)
    requires i < |seen| && Unaltered(key, url, seen, db, i)
    requires a == Gathered(key, url, seen[..i]) == Gathered(key, url, Copies(db, i))
    ensures Gathered(key, url, seen[..i + 1]) == Gathered(key, url, Copies(db, i + 1))
  {
    PrefixNext(key, url, seen, i);
    CopyNext(db, key, url, i);
  }

  lemma {:induction false} UnalteredPrefix(key: string, url: string, seen: seq<Db>, db: Db, m: nat)
    requires m <= |seen| && forall i :: 0 <= i < m ==> Unaltered(key, url, seen, db, i)
    ensures Gathered(key, url, seen[..m]) == Gathered(key, url, Copies(db, m))
  {
    if m > 0 {
      UnalteredPrefix(key, url, seen, db, m - 1);
      UnalteredNext(key, url, seen, db, m - 1, Gathered(key, url, seen[..m - 1]));
    }
  }

  lemma SameUnaltered(key: string, url: string, seen: seq<Db>, db: Db, i: nat)
    requires i < |seen| <= 12 && Gathered(key, url, seen) == Gathered(key, url, Copies(db, |seen|))
    ensures Unaltered(key, url, seen, db, i)
  {
    var a, same := Gathered(key, url, seen), Copies(db, |seen|);
    AnswerAt(key, url, seen, i, a);
    AnswerAt(key, url, same, i, a);
    GatheredFirst(key, url, seen, i);
  }

  /** A read has the answers of one set of tables exactly when none of its statements would have got another
      answer from them; with the last statement's tables, exactly when nothing that was read earlier has
      changed by the time the last statement runs. */
  lemma OneMomentExactly(key: string, url: string, seen: seq<Db>, db: Db)
    requires |seen| <= 12
    ensures Gathered(key, url, seen) == Gathered(key, url, Copies(db, |seen|))
      <==> forall i :: 0 <= i < |seen| ==> Unaltered(key, url, seen, db, i)
  {
    if Gathered(key, url, seen) == Gathered(key, url, Copies(db, |seen|)) {
      forall i | 0 <= i < |seen| ensures Unaltered(key, url, seen, db, i) {
        SameUnaltered(key, url, seen, db, i);
      }
    }
    if forall i :: 0 <= i < |seen| ==> Unaltered(key, url, seen, db, i) {
      UnalteredPrefix(key, url, seen, db, |seen|);
      assert seen[..|seen|] == seen;
    }
  }
}
