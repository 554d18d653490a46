/** Keys of the rule cache and the glob patterns that flush them (app/services/rule_cache.py). */
module CacheKeys {
  import opened Text
  import opened VersionedRules

  const KEY_PREFIX: string := "mcper:rule:"

  /** What a reader of the rules asks for; "" stands for no app, no origin URL. */
  datatype Request = Request(name: string, origin: string, version: Option<int>)

  function Digits(n: nat): string {
    if n < 10 then [('0' as int + n) as char] else Digits(n / 10) + Digits(n % 10)
  }

  function VersionText(version: Option<int>): string {
    match version
    case None => "latest"
    case Some(n) => if n < 0 then "-" + Digits(-n) else Digits(n)
  }

  function OrDash(s: string): string {
    if s == "" then "-" else s
  }

  /** `build_rule_cache_key`. */
  function BuildKey(name: string, origin: string, version: Option<int>): string {
    OrDash(Lower(Trim(name))) + ":" + OrDash(Trim(origin)) + ":" + VersionText(version)
  }

  /** A read without an app ignores the origin. */
  function Key(q: Request): string {
    BuildKey(q.name, if Trim(q.name) == "" then "" else q.origin, q.version)
  }

  /** Without an origin URL an app's answer depends on the server's own checkout and is not cached. */
  predicate Cacheable(q: Request) {
    Trim(q.name) == "" || Trim(q.origin) != ""
  }

  // ---- glob patterns, as the key scan reads them ----

  /** A character class after its `[` (and `^`): does it hold `c`, and where does the pattern go on? */
  function ClassMatch(p: string, c: char): (r: (bool, string))
    ensures |r.1| <= |p|
  {
    if p == "" then (false, "")
    else if p[0] == '\\' && |p| >= 2 then
      var (found, rest) := ClassMatch(p[2..], c);
      (found || p[1] == c, rest)
    else if p[0] == ']' then (false, p[1..])
    else if |p| >= 3 && p[1] == '-' then
      var (found, rest) := ClassMatch(p[3..], c);
      (found || p[0] <= c <= p[2] || p[2] <= c <= p[0], rest)
    else
      var (found, rest) := ClassMatch(p[1..], c);
      (found || p[0] == c, rest)
  }

  predicate Glob(p: string, s: string)
    decreases |p| + |s|
  {
    if p == "" then s == ""
    else if p[0] == '*' then Glob(p[1..], s) || (s != "" && Glob(p, s[1..]))
    else if s == "" then false
    else if p[0] == '?' then Glob(p[1..], s[1..])
    else if p[0] == '[' then
      var negated := |p| >= 2 && p[1] == '^';
      var (found, rest) := ClassMatch(if negated then p[2..] else p[1..], s[0]);
      found != negated && Glob(rest, s[1..])
    else if p[0] == '\\' && |p| >= 2 then p[1] == s[0] && Glob(p[2..], s[1..])
    else p[0] == s[0] && Glob(p[1..], s[1..])
  }

  /** The scan's own pattern and keys carry the prefix. */
  predicate Flushes(pattern: string, key: string) {
    Glob(KEY_PREFIX + pattern, KEY_PREFIX + key)
  }

  predicate Literal(c: char) {
    c !in "*?[\\"
  }

  lemma {:induction false} GlobLiteral(prefix: string, p: string, s: string)
    requires forall i :: 0 <= i < |prefix| ==> Literal(prefix[i])
    ensures Glob(prefix + p, prefix + s) == Glob(p, s)
  {
    if prefix == "" {
      assert prefix + p == p && prefix + s == s;
    } else {
      assert (prefix + p)[1..] == prefix[1..] + p && (prefix + s)[1..] == prefix[1..] + s;
      assert Literal(prefix[0]);
      GlobLiteral(prefix[1..], p, s);
    }
  }

  lemma {:induction false} GlobStar(s: string)
    ensures Glob("*", s)
  {
    if s != "" {
      GlobStar(s[1..]);
    } else {
      assert Glob("*"[1..], "");
    }
  }

  /** A name with wildcards still matches itself; only classes and escapes do not. */
  lemma {:induction false} GlobSelf(name: string, p: string, s: string)
    requires '[' !in name && '\\' !in name && Glob(p, s)
    ensures Glob(name + p, name + s)
  {
    if name == "" {
      assert name + p == p && name + s == s;
    } else {
      assert (name + p)[1..] == name[1..] + p && (name + s)[1..] == name[1..] + s;
      GlobSelf(name[1..], p, s);
      if name[0] == '*' {
        var np, ns := name + p, name + s;
        assert Glob(np[1..], ns[1..]);
        StarAbsorbs(np, ns);
      }
    }
  }

  lemma StarAbsorbs(p: string, s: string)
    requires p != "" && p[0] == '*' && s != "" && Glob(p[1..], s[1..])
    ensures Glob(p, s)
  {
    assert Glob(p, s[1..]);
  }

  /** A pattern with the prefix means what it says. */
  lemma FlushesIsGlob(pattern: string, key: string)
    ensures Flushes(pattern, key) == Glob(pattern, key)
  {
    GlobLiteral(KEY_PREFIX, pattern, key);
  }

  /** An app's pattern flushes all the keys that begin with the app's name and a colon. */
  lemma AppPatternFlushes(a: string, rest: string)
    requires '[' !in a && '\\' !in a
    ensures Flushes(a + ":*", a + ":" + rest)
  {
    var p, s := ":*", ":" + rest;
    GlobStar(rest);
    assert p[1..] == "*" && s[1..] == rest;
    GlobSelf(a, p, s);
    assert a + ":" + rest == a + s;
    FlushesIsGlob(a + p, a + s);
  }

  // ---- which requests share a key ----

  lemma {:induction false} DigitsNoColon(n: nat)
    ensures ':' !in Digits(n)
  {
    if n >= 10 {
      DigitsNoColon(n / 10);
      DigitsNoColon(n % 10);
    }
  }

  lemma VersionNoColon(version: Option<int>)
    ensures ':' !in VersionText(version)
  {
    match version
    case None =>
    case Some(n) => DigitsNoColon(if n < 0 then -n else n);
  }

  lemma SplitAtFirst(a: string, x: string, b: string, y: string)
    requires ':' !in a && ':' !in b && a + ":" + x == b + ":" + y
    ensures a == b && x == y
  {
    var s, t := a + ":" + x, b + ":" + y;
    assert forall i :: 0 <= i < |a| ==> s[i] == a[i] && a[i] in a;
    assert forall i :: 0 <= i < |b| ==> t[i] == b[i] && b[i] in b;
    assert s[|a|] == ':' && t[|b|] == ':';
    assert a == s[..|a|] && b == t[..|b|];
    assert x == s[|a| + 1..] && y == t[|b| + 1..];
  }

  lemma NoColonAfter(x: string, a: string, s: string)
    requires ':' !in a && s == x + ":" + a
    ensures s[|x|] == ':' && forall i :: |x| < i < |s| ==> s[i] != ':'
  {
    forall i | |x| < i < |s| ensures s[i] != ':' {
      assert s[i] == a[i - |x| - 1];
    }
  }

  lemma SplitAtLast(x: string, a: string, y: string, b: string)
    requires ':' !in a && ':' !in b && x + ":" + a == y + ":" + b
    ensures a == b && x == y
  {
    var s := x + ":" + a;
    NoColonAfter(x, a, s);
    NoColonAfter(y, b, s);
    assert |x| == |y|;
    assert x == s[..|x|] == y;
    assert a == s[|x| + 1..] == b;
  }

  /** An app name that neither confuses keys nor is misread as a pattern; "" (no app) is plain. */
  predicate PlainName(key: string) {
    key != "-" && ':' !in key && '[' !in key && '\\' !in key
  }

  predicate Plain(q: Request) {
    PlainName(AppKey(q.name)) && Cacheable(q)
  }

  lemma KeyShape(q: Request)
    ensures Key(q) == OrDash(AppKey(q.name)) + ":" + OrDash(if AppKey(q.name) == "" then "" else Trim(q.origin)) + ":"
      + VersionText(q.version)
    ensures Trim(q.name) == "" <==> AppKey(q.name) == ""
  {
    TrimLower(q.name);
    assert Trim("") == "";
    assert |Lower(Trim(q.name))| == |Trim(q.name)|;
  }

  lemma KeyTail(q: Request) returns (rest: string)
    requires AppKey(q.name) != ""
    ensures Key(q) == AppKey(q.name) + ":" + rest
  {
    KeyShape(q);
    var u, v := OrDash(Trim(q.origin)), VersionText(q.version);
    rest := u + ":" + v;
    Regroup(AppKey(q.name), u, v);
  }

  lemma Regroup(a: string, u: string, v: string)
    ensures a + ":" + u + ":" + v == a + ":" + (u + ":" + v)
  {
    assert a + ":" + u + ":" + v == a + ":" + (u + ":" + v);
  }

  /** Two plain requests share a key exactly when they agree on app, version, and (given an app) origin. */
  lemma SharedKeyExactly(q: Request, r: Request)
    requires Plain(q) && Plain(r)
    ensures Key(q) == Key(r) <==>
      && AppKey(q.name) == AppKey(r.name) && VersionText(q.version) == VersionText(r.version)
      && (AppKey(q.name) != "" ==> Trim(q.origin) == Trim(r.origin))
  {
    KeyShape(q);
    KeyShape(r);
    var a, b := OrDash(AppKey(q.name)), OrDash(AppKey(r.name));
    var u, w := OrDash(if AppKey(q.name) == "" then "" else Trim(q.origin)),
      OrDash(if AppKey(r.name) == "" then "" else Trim(r.origin));
    if Key(q) == Key(r) {
      VersionNoColon(q.version);
      VersionNoColon(r.version);
      SplitAtLast(a + ":" + u, VersionText(q.version), b + ":" + w, VersionText(r.version));
      SplitAtFirst(a, u, b, w);
    }
  }

  /** `b` goes on after `a` and a colon, and not with white space. */
  predicate Continues(a: string, b: string) {
    a + ":" <= b && (|b| == |a| + 1 || !IsSpace(b[|a| + 1]))
  }

  predicate IsKey(a: string) {
    a != "" && AppKey(a) == a
  }

  predicate IsOrigin(u: string) {
    u != "" && Trim(u) == u
  }

  /** Requests for the two apps with these origins have the same key. */
  ghost predicate Collide(a: string, u: string, b: string, w: string, version: Option<int>) {
    IsOrigin(u) && IsOrigin(w) && Key(Request(a, u, version)) == Key(Request(b, w, version))
  }

  lemma KeyOf(a: string, u: string, version: Option<int>)
    requires IsKey(a) && IsOrigin(u)
    ensures Key(Request(a, u, version)) == a + ":" + u + ":" + VersionText(version)
  {
    KeyShape(Request(a, u, version));
  }

  lemma CollideText(a: string, u: string, b: string, w: string, version: Option<int>)
    requires IsKey(a) && IsKey(b) && IsOrigin(u) && IsOrigin(w)
    ensures Collide(a, u, b, w, version) <==> a + ":" + u == b + ":" + w
  {
    KeyOf(a, u, version);
    KeyOf(b, w, version);
    if Collide(a, u, b, w, version) {
      VersionNoColon(version);
      SplitAtLast(a + ":" + u, VersionText(version), b + ":" + w, VersionText(version));
    }
  }

  lemma TrimEnds(t: string)
    requires t != "" && !IsSpace(t[0]) && !IsSpace(t[|t| - 1])
    ensures IsOrigin(t)
  {
    StripFixed(t, IsSpace);
  }

  lemma OriginStart(u: string)
    requires IsOrigin(u)
    ensures !IsSpace(u[0])
  {
    var i, j := StripIsSlice(u, IsSpace);
    assert |u| == j - i;
  }

  lemma CollideBy(a: string, b: string, u: string)
    requires Continues(a, b) && u == b[|a| + 1..] + ":x"
    ensures IsOrigin(u) && IsOrigin("x") && a + ":" + u == b + ":" + "x"
  {
    TrimEnds(u);
    TrimEnds("x");
    assert b == a + ":" + b[|a| + 1..];
  }

  lemma MayCollide(a: string, b: string, version: Option<int>) returns (u: string, w: string)
    requires IsKey(a) && IsKey(b) && Continues(a, b)
    ensures Collide(a, u, b, w, version)
  {
    u, w := b[|a| + 1..] + ":x", "x";
    CollideBy(a, b, u);
    CollideText(a, u, b, w, version);
  }

  lemma CollisionContinues(a: string, u: string, b: string, w: string)
    requires a != b && |a| <= |b| && a + ":" + u == b + ":" + w && IsOrigin(u)
    ensures Continues(a, b)
  {
    OriginStart(u);
    assert a + ":" + u == a + (":" + u) && b + ":" + w == b + (":" + w);
    AgreeUpTo(a, ":" + u, b, ":" + w);
  }

  /** One app's request may be answered from another's entry exactly when one name continues the other. */
  lemma NamesMayCollideExactly(a: string, b: string, version: Option<int>)
    requires IsKey(a) && IsKey(b) && a != b
    ensures (exists u, w :: Collide(a, u, b, w, version)) <==> Continues(a, b) || Continues(b, a)
  {
    if Continues(a, b) {
      var u, w := MayCollide(a, b, version);
    } else if Continues(b, a) {
      var u, w := MayCollide(b, a, version);
      assert Collide(a, w, b, u, version);
    }
    if u, w :| Collide(a, u, b, w, version) {
      CollideText(a, u, b, w, version);
      if |a| <= |b| {
        CollisionContinues(a, u, b, w);
      } else {
        CollisionContinues(b, w, a, u);
      }
    }
  }

  lemma AgreeUpTo(a: string, x: string, b: string, y: string)
    requires a + x == b + y && a != b && |a| <= |b| && |x| >= 2 && x[0] == ':' && !IsSpace(x[1])
    ensures Continues(a, b)
  {
    var s := a + x;
    assert a == s[..|a|] && b == s[..|b|];
    assert |a| < |b|;
    assert b[|a|] == s[|a|] == x[0];
    assert a + ":" == b[..|a| + 1];
    assert |b| > |a| + 1 ==> b[|a| + 1] == s[|a| + 1] == x[1];
  }

  // ---- names that are misread as patterns ----

  /** How much of the pattern the next element of an open class takes. */
  function ElementLength(p: string): (d: nat)
    requires p != ""
    ensures 1 <= d <= |p|
  {
    if p[0] == '\\' && |p| >= 2 then 2 else if |p| >= 3 && p[1] == '-' then 3 else 1
  }

  lemma ElementTaken(p: string, c: char)
    requires p != "" && p[0] != ']'
    ensures ClassMatch(p, c).1 == ClassMatch(p[ElementLength(p)..], c).1
  {
  }

  lemma FurtherOn(p: string, d: nat, n: nat)
    requires d + n <= |p|
    ensures p[d..][n..] == p[d + n..] && (n > 0 ==> p[d..][n - 1] == p[d + n - 1])
  {
  }

  /** A class ends at a `]`, or swallows the rest of the pattern. */
  lemma {:induction false} ClassRest(p: string, c: char) returns (k: nat)
    ensures k <= |p| && ClassMatch(p, c).1 == p[k..]
    ensures k == |p| || (k > 0 && p[k - 1] == ']')
  {
    if p == "" {
      k := 0;
    } else if p[0] == ']' {
      k := 1;
    } else {
      var d := ElementLength(p);
      var n := ClassRest(p[d..], c);
      k := d + n;
      ElementTaken(p, c);
      FurtherOn(p, d, n);
    }
  }

  predicate Simple(a: string) {
    ':' !in a && '*' !in a
  }

  /** After a class that begins at the start of `b`: nothing, or a later part of `b`. */
  lemma AfterClass(b: string, c: char) returns (k: nat)
    requires Simple(b)
    ensures ClassMatch(b + ":*", c).1 == "" || (0 < k <= |b| && ClassMatch(b + ":*", c).1 == b[k..] + ":*")
  {
    var p := b + ":*";
    k := ClassRest(p, c);
    if k < |p| {
      assert p[k - 1] != ':' && p[k - 1] != '*';
      assert p[k..] == b[k..] + ":*";
    }
  }

  lemma SimplePart(a: string, k: nat)
    requires Simple(a) && k <= |a|
    ensures Simple(a[k..])
  {
  }

  /** What is left to match after the class that a name starts with. */
  lemma ClassStep(b: string, s: string) returns (k: nat)
    requires Simple(b) && b != "" && b[0] == '[' && |s| >= 2
    ensures !Glob(b + ":*", s) || (1 < k <= |b| && Glob(b[k..] + ":*", s[1..]))
  {
    var p := b + ":*";
    var skip := if p[1] == '^' then 2 else 1;
    assert |b| == 1 ==> p[1] == ':';
    var inner := b[skip..];
    SimplePart(b, skip);
    assert p[skip..] == inner + ":*";
    var m := AfterClass(inner, s[0]);
    k := if 0 < m <= |inner| then skip + m else 0;
    if 0 < m <= |inner| {
      assert inner[m..] == b[k..];
    }
  }

  lemma EscapeStep(b: string, s: string)
    requires Simple(b) && b != "" && b[0] == '\\' && s != "" && s[0] != ':'
    ensures !Glob(b + ":*", s) || (|b| >= 2 && Glob(b[2..] + ":*", s[1..]))
  {
    var p := b + ":*";
    if |b| >= 2 {
      assert p[2..] == b[2..] + ":*";
    }
  }

  lemma CharStep(b: string, s: string)
    requires Simple(b) && b != "" && b[0] != '[' && b[0] != '\\'
    ensures !Glob(b + ":*", s) || (s != "" && Glob(b[1..] + ":*", s[1..]))
  {
    var p := b + ":*";
    assert p[1..] == b[1..] + ":*";
    assert b[0] in b;
  }

  /** Each part of a pattern without `*` takes one character, so a pattern cannot get past a longer text to
      its colon. */
  lemma {:induction false} TooShort(b: string, t: string, rest: string)
    requires Simple(b) && ':' !in t && |t| > |b|
    ensures !Glob(b + ":*", t + ":" + rest)
    decreases |b|
  {
    var s := t + ":" + rest;
    assert s[0] == t[0] && t[0] in t && s[1..] == t[1..] + ":" + rest;
    if b == "" {
      assert "" + ":*" == ":*";
    } else if b[0] == '[' {
      var k := ClassStep(b, s);
      if 1 < k <= |b| {
        SimplePart(b, k);
        TooShort(b[k..], t[1..], rest);
      }
    } else if b[0] == '\\' {
      EscapeStep(b, s);
      if |b| >= 2 {
        SimplePart(b, 2);
        TooShort(b[2..], t[1..], rest);
      }
    } else {
      CharStep(b, s);
      SimplePart(b, 1);
      TooShort(b[1..], t[1..], rest);
    }
  }

  lemma {:induction false} Misread(a: string, rest: string)
    requires Simple(a) && ('[' in a || '\\' in a)
    ensures !Glob(a + ":*", a + ":" + rest)
  {
    var s := a + ":" + rest;
    assert s[1..] == a[1..] + ":" + rest;
    SimplePart(a, 1);
    if a[0] == '[' {
      var k := ClassStep(a, s);
      if 1 < k <= |a| {
        SimplePart(a, k);
        TooShort(a[k..], a[1..], rest);
      }
    } else if a[0] == '\\' {
      EscapeStep(a, s);
      if |a| >= 2 {
        SimplePart(a, 2);
        TooShort(a[2..], a[1..], rest);
      }
    } else {
      CharStep(a, s);
      assert a == [a[0]] + a[1..];
      Misread(a[1..], rest);
    }
  }

  /** A publish flushes its app's own keys exactly when the app's name has neither `[` nor `\`. For each key
      and every name without `*` and without a colon. */
  lemma OwnKeysFlushedExactly(a: string, rest: string)
    requires Simple(a)
    ensures Flushes(a + ":*", a + ":" + rest) <==> '[' !in a && '\\' !in a
  {
    FlushesIsGlob(a + ":*", a + ":" + rest);
    if '[' !in a && '\\' !in a {
      AppPatternFlushes(a, rest);
    } else {
      Misread(a, rest);
    }
  }

  /** With a `*` in the name there is no such rule: `AppPatternFlushes` still holds, but beside a `\` or a `[`
      the star may save the flush, or not. */
  lemma StarDecidesNothing(rest: string)
    ensures Flushes("*\\*" + ":*", "*\\*" + ":" + rest)
    ensures !Flushes("[*" + ":*", "[*" + ":" + rest)
  {
    StarSaves(rest);
    StarLost(rest);
  }

  /** Nor is there one with a colon in the name: the pattern may get to it early, or not. */
  lemma ColonDecidesNothing(rest: string)
    ensures Flushes("[[:][[:]" + ":*", "[[:][[:]" + ":" + rest)
    ensures !Flushes(":[x" + ":*", ":[x" + ":" + rest)
  {
    ColonSaves(rest);
    ColonLost(rest);
  }

  lemma ColonSaves(rest: string)
    ensures Flushes("[[:][[:]" + ":*", "[[:][[:]" + ":" + rest)
  {
    var tail := "][[:]:" + rest;
    var p, s := "[[:]" + "[[:]:*", "[[:" + tail;
    assert p == "[[:][[:]" + ":*" && s == "[[:][[:]" + ":" + rest;
    assert s[1..] == "[:" + tail && s[1..][1..] == ":" + tail && (":" + tail)[1..] == tail;
    GlobStar(tail);
    assert ":*"[1..] == "*" && Glob(":*", ":" + tail);
    assert "[[:]:*" == "[[:]" + ":*";
    PastClass(":*", s[1..]);
    PastClass("[[:]:*", s);
    FlushesIsGlob(p, s);
  }

  lemma PastClass(after: string, s: string)
    requires s != "" && s[0] == '['
    ensures Glob("[[:]" + after, s) == Glob(after, s[1..])
  {
    var p := "[[:]" + after;
    assert p[1..] == "[:]" + after;
    ClassOfTwo(after);
  }

  /** The class of `[` and `:`, closed, takes a `[`. */
  lemma ClassOfTwo(after: string)
    ensures ClassMatch("[:]" + after, '[') == (true, after)
  {
    var p := "[:]" + after;
    assert p[1..] == ":]" + after && p[1..][1..] == "]" + after && ("]" + after)[1..] == after;
    assert ClassMatch("]" + after, '[') == (false, after);
    assert ClassMatch(":]" + after, '[') == (false, after);
  }

  lemma ColonLost(rest: string)
    ensures !Flushes(":[x" + ":*", ":[x" + ":" + rest)
  {
    var p, s := ":[x:*", ":[x:" + rest;
    assert p == ":[x" + ":*" && s == ":[x" + ":" + rest;
    assert s[1..] == "[x:" + rest;
    assert p[1..] == "[x:*" && "[x:*"[1..] == "x:*" && "x:*"[1..] == ":*" && ":*"[1..] == "*" && "*"[1..] == "";
    assert ClassMatch("*", '[') == (false, "");
    assert ClassMatch(":*", '[') == (false, "");
    assert ClassMatch("x:*", '[') == (false, "");
    assert !Glob("[x:*", s[1..]);
    FlushesIsGlob(p, s);
  }

  lemma StarSaves(rest: string)
    ensures Flushes("*\\*" + ":*", "*\\*" + ":" + rest)
  {
    var p, s := "*\\*:*", "*\\*:" + rest;
    GlobStar(rest);
    assert p == "*\\*" + ":*" && s == "*\\*" + ":" + rest;
    assert p[1..] == "\\*:*" && p[1..][2..] == ":*" && ":*"[1..] == "*";
    assert s[1..][1..] == "*:" + rest && ("*:" + rest)[1..] == ":" + rest && (":" + rest)[1..] == rest;
    assert Glob(":*", ":" + rest);
    assert Glob("\\*:*", "*:" + rest);
    assert Glob(p, s[1..][1..]);
    assert Glob(p, s[1..]);
    assert Glob(p, s);
    FlushesIsGlob(p, s);
  }

  lemma StarLost(rest: string)
    ensures !Flushes("[*" + ":*", "[*" + ":" + rest)
  {
    var p, s := "[*:*", "[*:" + rest;
    assert p == "[*" + ":*" && s == "[*" + ":" + rest;
    assert p[1..] == "*:*" && "*:*"[1..] == ":*" && ":*"[1..] == "*" && "*"[1..] == "";
    assert ClassMatch("*", '[') == (false, "");
    assert ClassMatch(":*", '[') == (false, "");
    assert ClassMatch("*:*", '[') == (false, "");
    FlushesIsGlob(p, s);
  }
}
