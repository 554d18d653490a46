/** Reciprocal rank fusion (app/services/search_hybrid.py), over exact rationals. */
module RankFusion {

  const RRF_K: nat := 60
  const SEARCH_LIMIT: nat := 40

  /** What rank `rank` (counted from 1) is worth. */
  function Share(k: nat, rank: nat): (s: real)
    requires rank >= 1
    ensures s > 0.0
  {
    1.0 / (k + rank) as real
  }

  /** The sum of the shares of every occurrence of `id` in one list. */
  function ListScore(ranks: seq<int>, id: int, k: nat): real {
    if ranks == [] then 0.0
    else
      var n := |ranks|;
      ListScore(ranks[..n - 1], id, k) + (if ranks[n - 1] == id then Share(k, n) else 0.0)
  }

  function Score(lists: seq<seq<int>>, id: int, k: nat): real {
    if lists == [] then 0.0
    else
      var n := |lists|;
      Score(lists[..n - 1], id, k) + ListScore(lists[n - 1], id, k)
  }

  /** The distinct ids in the order in which they are first met. */
  function Dedup(s: seq<int>): (r: seq<int>)
    ensures forall x :: x in r <==> x in s
    ensures Distinct(r)
  {
    if s == [] then []
    else
      var n := |s|;
      var r := Dedup(s[..n - 1]);
      assert s == s[..n - 1] + [s[n - 1]];
      if s[n - 1] in r then r else r + [s[n - 1]]
  }

  function Concat(lists: seq<seq<int>>): seq<int> {
    if lists == [] then [] else Concat(lists[..|lists| - 1]) + lists[|lists| - 1]
  }

  function FirstSeen(lists: seq<seq<int>>): seq<int> {
    Dedup(Concat(lists))
  }

  ghost predicate Distinct(s: seq<int>) {
    forall i, j :: 0 <= i < j < |s| ==> s[i] != s[j]
  }

  function IndexOf(s: seq<int>, x: int): (i: nat)
    requires x in s
    ensures i < |s| && s[i] == x && forall m :: 0 <= m < i ==> s[m] != x
  {
    if s[0] == x then 0 else 1 + IndexOf(s[1..], x)
  }

  // ---- the stable descending sort ----

  type Scores = map<int, real>

  ghost predicate Scored(s: seq<int>, scores: Scores) {
    forall i :: 0 <= i < |s| ==> s[i] in scores
  }

  /** `x` goes after everything that scores at least as much. */
  function Insert(s: seq<int>, x: int, scores: Scores): seq<int>
    requires Scored(s, scores) && x in scores
  {
    if s == [] || scores[s[0]] < scores[x] then [x] + s
    else [s[0]] + Insert(s[1..], x, scores)
  }

  function SortDescending(s: seq<int>, scores: Scores): (r: seq<int>)
    requires Scored(s, scores)
    ensures Scored(r, scores)
  {
    if s == [] then []
    else
      var n := |s|;
      var r := SortDescending(s[..n - 1], scores);
      InsertScored(r, s[n - 1], scores);
      Insert(r, s[n - 1], scores)
  }

  lemma {:induction false} InsertScored(s: seq<int>, x: int, scores: Scores)
    requires Scored(s, scores) && x in scores
    ensures Scored(Insert(s, x, scores), scores)
    ensures forall y :: y in Insert(s, x, scores) <==> y in s || y == x
  {
    if s != [] && !(scores[s[0]] < scores[x]) {
      InsertScored(s[1..], x, scores);
    }
  }

  /** `a` comes before `b`: a higher score, or the same score and seen earlier. */
  ghost predicate Before(order: seq<int>, scores: Scores, a: int, b: int) {
    && a in order && b in order && a in scores && b in scores
    && (scores[a] > scores[b] || (scores[a] == scores[b] && IndexOf(order, a) < IndexOf(order, b)))
  }

  ghost predicate InOrder(r: seq<int>, order: seq<int>, scores: Scores) {
    forall i, j :: 0 <= i < j < |r| ==> Before(order, scores, r[i], r[j])
  }

  lemma {:induction false} InsertInOrder(r: seq<int>, x: int, order: seq<int>, scores: Scores)
    requires Scored(r, scores) && x in scores && x in order
    requires InOrder(r, order, scores)
    requires forall y :: y in r ==> y in order && IndexOf(order, y) < IndexOf(order, x)
    ensures InOrder(Insert(r, x, scores), order, scores)
  {
    InsertScored(r, x, scores);
    if r == [] {
    } else if scores[r[0]] < scores[x] {
      forall j | 0 <= j < |r| ensures Before(order, scores, x, r[j]) {
        assert r[j] in r;
        assert j == 0 || Before(order, scores, r[0], r[j]);
      }
      ConsInOrder(x, r, order, scores);
    } else {
      TailInOrder(r, order, scores);
      InsertInOrder(r[1..], x, order, scores);
      InsertScored(r[1..], x, scores);
      var rest := Insert(r[1..], x, scores);
      forall j | 0 <= j < |rest| ensures Before(order, scores, r[0], rest[j]) {
        assert rest[j] in rest && r[0] in r;
        if rest[j] != x {
          var m :| 0 <= m < |r[1..]| && r[1..][m] == rest[j];
          assert Before(order, scores, r[0], r[m + 1]);
        }
      }
      ConsInOrder(r[0], rest, order, scores);
    }
  }

  lemma ConsInOrder(x: int, r: seq<int>, order: seq<int>, scores: Scores)
    requires InOrder(r, order, scores) && forall j :: 0 <= j < |r| ==> Before(order, scores, x, r[j])
    ensures InOrder([x] + r, order, scores)
  {
    var out := [x] + r;
    forall i, j | 0 <= i < j < |out| ensures Before(order, scores, out[i], out[j]) {
      assert out[j] == r[j - 1];
      if i > 0 {
        assert out[i] == r[i - 1];
      }
    }
  }

  lemma TailInOrder(r: seq<int>, order: seq<int>, scores: Scores)
    requires InOrder(r, order, scores) && r != []
    ensures InOrder(r[1..], order, scores)
  {
    forall i, j | 0 <= i < j < |r[1..]| ensures Before(order, scores, r[1..][i], r[1..][j]) {
      assert Before(order, scores, r[i + 1], r[j + 1]);
    }
  }

  lemma IndexPrefix(s: seq<int>, t: seq<int>, x: int)
    requires x in s
    ensures x in s + t && IndexOf(s + t, x) == IndexOf(s, x)
  {
    assert (s + t)[IndexOf(s, x)] == x;
  }

  lemma {:induction false} SortInOrder(s: seq<int>, n: nat, scores: Scores)
    requires Distinct(s) && Scored(s, scores) && n <= |s|
    ensures var r := SortDescending(s[..n], scores);
      InOrder(r, s, scores) && forall x :: x in r <==> x in s[..n]
  {
    if n > 0 {
      var x := s[n - 1];
      SortInOrder(s, n - 1, scores);
      assert s[..n][..n - 1] == s[..n - 1];
      var r := SortDescending(s[..n - 1], scores);
      assert IndexOf(s, x) == n - 1;
      forall y | y in r ensures y in s && IndexOf(s, y) < IndexOf(s, x) {
        assert s == s[..n - 1] + s[n - 1..];
        IndexPrefix(s[..n - 1], s[n - 1..], y);
      }
      InsertInOrder(r, x, s, scores);
      InsertScored(r, x, scores);
      assert s[..n] == s[..n - 1] + [x];
    }
  }

  // ---- reciprocal_rank_fusion ----

  /** The fused list: exactly the ids of the lists, each once, ordered by score and then by first sight. */
  ghost predicate Fused(out: seq<int>, lists: seq<seq<int>>, k: nat) {
    && Distinct(out)
    && (forall x :: x in out <==> x in Concat(lists))
    && (forall i, j :: 0 <= i < j < |out| ==> Ahead(lists, k, out[i], out[j]))
  }

  ghost predicate Ahead(lists: seq<seq<int>>, k: nat, a: int, b: int) {
    && a in FirstSeen(lists) && b in FirstSeen(lists)
    && (Score(lists, a, k) > Score(lists, b, k)
        || (Score(lists, a, k) == Score(lists, b, k)
            && IndexOf(FirstSeen(lists), a) < IndexOf(FirstSeen(lists), b)))
  }

  lemma DedupStep(s: seq<int>, x: int)
    ensures Dedup(s + [x]) == if x in Dedup(s) then Dedup(s) else Dedup(s) + [x]
  {
    assert (s + [x])[..|s|] == s;
  }

  /** `scores` is `scores0` with the shares of `ranks` added. */
  ghost predicate Added(scores: Scores, scores0: Scores, ranks: seq<int>, k: nat) {
    forall x :: Value(scores, x) == Value(scores0, x) + ListScore(ranks, x, k)
  }

  function Value(scores: Scores, x: int): real {
    if x in scores then scores[x] else 0.0
  }

  ghost predicate SameKeys(scores: Scores, keys: seq<int>) {
    forall x :: x in scores <==> x in keys
  }

  lemma ListScoreStep(ranks: seq<int>, i: nat, x: int, k: nat)
    requires i < |ranks|
    ensures ListScore(ranks[..i + 1], x, k) ==
      ListScore(ranks[..i], x, k) + if ranks[i] == x then Share(k, i + 1) else 0.0
  {
    assert ranks[..i + 1][..i] == ranks[..i];
  }

  lemma AddedStep(scores: Scores, scores0: Scores, ranks: seq<int>, i: nat, k: nat, scores': Scores)
    requires i < |ranks| && Added(scores, scores0, ranks[..i], k)
    requires scores' == scores[ranks[i] := Value(scores, ranks[i]) + Share(k, i + 1)]
    ensures Added(scores', scores0, ranks[..i + 1], k)
  {
    forall x ensures Value(scores', x) == Value(scores0, x) + ListScore(ranks[..i + 1], x, k) {
      ListScoreStep(ranks, i, x, k);
      assert Value(scores, x) == Value(scores0, x) + ListScore(ranks[..i], x, k);
    }
  }

  /** The first sight of an id appends it to the keys. */
  lemma KeysStep(seen: seq<int>, ranks: seq<int>, i: nat, keys: seq<int>, scores: Scores, keys': seq<int>,
                 scores': Scores, v: real)
    requires i < |ranks| && keys == Dedup(seen + ranks[..i]) && SameKeys(scores, keys)
    requires keys' == if ranks[i] in scores then keys else keys + [ranks[i]]
    requires scores' == scores[ranks[i] := v]
    ensures keys' == Dedup(seen + ranks[..i + 1]) && SameKeys(scores', keys')
  {
    DedupStep(seen + ranks[..i], ranks[i]);
    assert seen + ranks[..i + 1] == seen + ranks[..i] + [ranks[i]];
  }

  /** The inner loop: one list is added to the score table. */
  method AddList(scores0: Scores, keys0: seq<int>, ghost seen: seq<int>, ranks: seq<int>, k: nat)
    returns (scores: Scores, keys: seq<int>)
    requires keys0 == Dedup(seen) && SameKeys(scores0, keys0)
    ensures keys == Dedup(seen + ranks) && SameKeys(scores, keys)
    ensures Added(scores, scores0, ranks, k)
  {
    scores, keys := scores0, keys0;
    assert seen + ranks[..0] == seen;
    for i := 0 to |ranks|
      invariant keys == Dedup(seen + ranks[..i]) && SameKeys(scores, keys)
      invariant Added(scores, scores0, ranks[..i], k)
    {
      var id := ranks[i];
      ghost var keysBefore, before := keys, scores;
      if id !in scores {
        keys := keys + [id];
      }
      scores := scores[id := Value(scores, id) + Share(k, i + 1)];
      KeysStep(seen, ranks, i, keysBefore, before, keys, scores, Value(before, id) + Share(k, i + 1));
      AddedStep(before, scores0, ranks, i, k, scores);
    }
    assert ranks[..|ranks|] == ranks;
  }

  method Fuse(lists: seq<seq<int>>, k: nat) returns (out: seq<int>)
    ensures Fused(out, lists, k)
  {
    var scores: Scores, keys := map[], [];
    assert lists[..0] == [];
    for l := 0 to |lists|
      invariant keys == FirstSeen(lists[..l]) && SameKeys(scores, keys)
      invariant forall x :: Value(scores, x) == Score(lists[..l], x, k)
    {
      assert lists[..l + 1][..l] == lists[..l];
      ghost var before := scores;
      scores, keys := AddList(scores, keys, Concat(lists[..l]), lists[l], k);
      forall x ensures Value(scores, x) == Score(lists[..l + 1], x, k) {
        assert Value(before, x) == Score(lists[..l], x, k);
      }
    }
    assert lists[..|lists|] == lists;
    out := SortDescending(keys, scores);
    FusedBySorting(lists, k, keys, scores);
  }

  lemma FusedBySorting(lists: seq<seq<int>>, k: nat, keys: seq<int>, scores: Scores)
    requires keys == FirstSeen(lists) && SameKeys(scores, keys)
    requires forall x :: Value(scores, x) == Score(lists, x, k)
    ensures Scored(keys, scores) && Fused(SortDescending(keys, scores), lists, k)
  {
    var out := SortDescending(keys, scores);
    assert keys[..|keys|] == keys;
    SortInOrder(keys, |keys|, scores);
    forall i, j | 0 <= i < j < |out| ensures Ahead(lists, k, out[i], out[j]) && out[i] != out[j] {
      assert Before(keys, scores, out[i], out[j]);
      assert Value(scores, out[i]) == Score(lists, out[i], k) && Value(scores, out[j]) == Score(lists, out[j], k);
    }
  }

  // ---- what the order means ----

  /** The specification leaves no choice: there is only one fused list. */
  lemma FusedUnique(a: seq<int>, b: seq<int>, lists: seq<seq<int>>, k: nat)
    requires Fused(a, lists, k) && Fused(b, lists, k)
    ensures a == b
  {
    FusedUniqueFrom(a, b, lists, k, 0);
    FusedUniqueFrom(b, a, lists, k, 0);
  }

  /** Two fused lists that agree so far agree on the next id. */
  lemma SameNext(a: seq<int>, b: seq<int>, lists: seq<seq<int>>, k: nat, n: nat)
    requires Fused(a, lists, k) && Fused(b, lists, k)
    requires n < |a| && n <= |b| && a[..n] == b[..n]
    ensures n < |b| && a[n] == b[n]
  {
    var x := a[n];
    assert x in b;
    var j :| 0 <= j < |b| && b[j] == x;
    NotBefore(a, b, n, j);
    var y := b[n];
    assert y in a;
    var m :| 0 <= m < |a| && a[m] == y;
    NotBefore(b, a, n, m);
    assert m > n ==> Ahead(lists, k, x, y);
    assert j > n ==> Ahead(lists, k, y, x);
  }

  /** An id of a list without repeats is not among the ids before it. */
  lemma NotBefore(a: seq<int>, b: seq<int>, n: nat, j: nat)
    requires Distinct(a) && n < |a| && n <= |b| && a[..n] == b[..n] && j < |b| && b[j] == a[n]
    ensures j >= n
  {
    forall i | 0 <= i < n ensures a[i] == b[i] {
      assert a[..n][i] == b[..n][i];
    }
  }

  lemma {:induction false} FusedUniqueFrom(a: seq<int>, b: seq<int>, lists: seq<seq<int>>, k: nat, n: nat)
    requires Fused(a, lists, k) && Fused(b, lists, k)
    requires n <= |a| && n <= |b| && a[..n] == b[..n]
    ensures |a| <= |b| && a == b[..|a|]
    decreases |a| - n
  {
    if n == |a| {
      assert a == a[..n] && b[..n] == b[..|a|];
    } else {
      SameNext(a, b, lists, k, n);
      assert a[..n + 1] == a[..n] + [a[n]] == b[..n + 1];
      FusedUniqueFrom(a, b, lists, k, n + 1);
    }
  }

  lemma PlaceOrAhead(out: seq<int>, lists: seq<seq<int>>, k: nat, a: int, b: int)
    requires Fused(out, lists, k) && a in out && b in out && a != b
    ensures IndexOf(out, a) < IndexOf(out, b) || Ahead(lists, k, b, a)
  {
    var i, j := IndexOf(out, a), IndexOf(out, b);
    if j < i {
      assert Ahead(lists, k, out[j], out[i]);
    }
  }

  /** A higher score means an earlier place. */
  lemma ScoreOrders(out: seq<int>, lists: seq<seq<int>>, k: nat, a: int, b: int)
    requires Fused(out, lists, k) && a in Concat(lists) && b in Concat(lists)
    requires Score(lists, a, k) > Score(lists, b, k)
    ensures a in out && b in out && IndexOf(out, a) < IndexOf(out, b)
  {
    PlaceOrAhead(out, lists, k, a, b);
  }

  lemma ShareMonotone(k: nat, r: nat, r': nat)
    requires 1 <= r <= r'
    ensures Share(k, r) >= Share(k, r')
    ensures r < r' ==> Share(k, r) > Share(k, r')
  {
    var x, y := (k + r) as real, (k + r') as real;
    assert 0.0 < x <= y;
    Reciprocal(x, y);
  }

  lemma Reciprocal(x: real, y: real)
    requires 0.0 < x <= y
    ensures 1.0 / x >= 1.0 / y
    ensures x < y ==> 1.0 / x > 1.0 / y
  {
    assert 1.0 / x - 1.0 / y == (y - x) / (x * y);
  }

  lemma {:induction false} ListScoreDistinct(ranks: seq<int>, id: int, k: nat)
    requires Distinct(ranks)
    ensures ListScore(ranks, id, k) == if id in ranks then Share(k, IndexOf(ranks, id) + 1) else 0.0
  {
    if ranks != [] {
      var n := |ranks|;
      var front := ranks[..n - 1];
      assert ranks == front + [ranks[n - 1]];
      ListScoreDistinct(front, id, k);
      if id in front {
        IndexPrefix(front, [ranks[n - 1]], id);
      } else if ranks[n - 1] == id {
        assert IndexOf(ranks, id) == n - 1;
      }
    }
  }

  ghost predicate AllDistinct(lists: seq<seq<int>>) {
    forall l :: 0 <= l < |lists| ==> Distinct(lists[l])
  }

  /** Wherever `b` is listed, `a` is listed and ranked no worse. */
  ghost predicate Dominates(lists: seq<seq<int>>, a: int, b: int) {
    forall l :: 0 <= l < |lists| && b in lists[l] ==> a in lists[l] && IndexOf(lists[l], a) <= IndexOf(lists[l], b)
  }

  lemma {:induction false} DominatesScore(lists: seq<seq<int>>, a: int, b: int, k: nat)
    requires AllDistinct(lists) && a != b && Dominates(lists, a, b)
    ensures Score(lists, a, k) >= Score(lists, b, k)
    ensures b in Concat(lists) ==> Score(lists, a, k) > Score(lists, b, k) && a in Concat(lists)
  {
    if lists != [] {
      var n := |lists|;
      var front, last := lists[..n - 1], lists[n - 1];
      DominatesScore(front, a, b, k);
      ListScoreDistinct(last, a, k);
      ListScoreDistinct(last, b, k);
      if b in last {
        ShareMonotone(k, IndexOf(last, a) + 1, IndexOf(last, b) + 1);
      }
    }
  }

  /** An id that another one dominates comes after it. */
  lemma ParetoOrder(out: seq<int>, lists: seq<seq<int>>, k: nat, a: int, b: int)
    requires Fused(out, lists, k) && AllDistinct(lists)
    requires a != b && b in Concat(lists) && Dominates(lists, a, b)
    ensures a in out && b in out && IndexOf(out, a) < IndexOf(out, b)
  {
    DominatesScore(lists, a, b, k);
    ScoreOrders(out, lists, k, a, b);
  }

  /** Two worst ranks outweigh one best rank exactly while the lists are shorter than k + 2. */
  lemma TwoWorstBeatOneBest(k: nat, limit: nat)
    requires limit >= 1
    ensures Share(k, limit) + Share(k, limit) > Share(k, 1) <==> limit < k + 2
  {
    var x, y := (k + limit) as real, (k + 1) as real;
    assert 1.0 / x + 1.0 / x - 1.0 / y == (y + y - x) / (x * y);
    assert x * y > 0.0;
    assert y + y - x == (k + 2 - limit) as real;
    Sign(y + y - x, x * y);
  }

  lemma Sign(n: real, d: real)
    requires d > 0.0
    ensures n / d > 0.0 <==> n > 0.0
  {
    var q := n / d;
    assert q * d == n;
  }

  lemma PairScore(first: seq<int>, second: seq<int>, id: int, k: nat)
    ensures Score([first, second], id, k) == ListScore(first, id, k) + ListScore(second, id, k)
    ensures id in Concat([first, second]) <==> id in first || id in second
    ensures Concat([first, second]) == first + second
  {
    assert [first, second][..1] == [first] && [first][..0] == [];
    assert Score([first], id, k) == ListScore(first, id, k);
    assert Concat([first]) == first;
  }

  lemma ListScoreRange(ranks: seq<int>, id: int, k: nat, limit: nat)
    requires Distinct(ranks) && |ranks| <= limit
    ensures id !in ranks ==> ListScore(ranks, id, k) == 0.0
    ensures id in ranks ==> Share(k, limit) <= ListScore(ranks, id, k) <= Share(k, 1)
  {
    ListScoreDistinct(ranks, id, k);
    if id in ranks {
      ShareMonotone(k, IndexOf(ranks, id) + 1, limit);
      ShareMonotone(k, 1, IndexOf(ranks, id) + 1);
    }
  }

  /** With two lists of distinct ids, none longer than `limit` < k + 2: an id in both lists comes
      before every id that is in only one of them. */
  lemma BothBeforeOne(out: seq<int>, first: seq<int>, second: seq<int>, k: nat, limit: nat, a: int, b: int)
    requires Fused(out, [first, second], k) && Distinct(first) && Distinct(second)
    requires |first| <= limit && |second| <= limit && limit < k + 2
    requires a in first && a in second && (b in first) != (b in second)
    ensures a in out && b in out && IndexOf(out, a) < IndexOf(out, b)
  {
    PairScore(first, second, a, k);
    PairScore(first, second, b, k);
    ListScoreRange(first, a, k, limit);
    ListScoreRange(second, a, k, limit);
    ListScoreRange(first, b, k, limit);
    ListScoreRange(second, b, k, limit);
    TwoWorstBeatOneBest(k, limit);
    ScoreOrders(out, [first, second], k, a, b);
  }

  /** The rule and spec searches: two lists of at most 40 ids, fused with k = 60. */
  lemma SearchBothBeforeOne(out: seq<int>, vector: seq<int>, text: seq<int>, a: int, b: int)
    requires Fused(out, [vector, text], RRF_K) && Distinct(vector) && Distinct(text)
    requires |vector| <= SEARCH_LIMIT && |text| <= SEARCH_LIMIT
    requires a in vector && a in text && (b in vector) != (b in text)
    ensures a in out && b in out && IndexOf(out, a) < IndexOf(out, b)
  {
    BothBeforeOne(out, vector, text, RRF_K, SEARCH_LIMIT, a, b);
  }

  /** When the scores do not decide for `a`, the id met first in the lists wins. */
  lemma FirstSeenWins(out: seq<int>, first: seq<int>, second: seq<int>, k: nat, a: int, b: int)
    requires Fused(out, [first, second], k) && Distinct(first)
    requires a in first && b in first && IndexOf(first, b) < IndexOf(first, a)
    requires Score([first, second], b, k) >= Score([first, second], a, k)
    ensures a in out && b in out && IndexOf(out, b) < IndexOf(out, a)
  {
    var order := FirstSeen([first, second]);
    PairScore(first, second, a, k);
    DedupDistinct(first);
    DedupKeeps(first, second);
    assert order == first + order[|first|..];
    IndexPrefix(first, order[|first|..], a);
    IndexPrefix(first, order[|first|..], b);
    PlaceOrAhead(out, [first, second], k, b, a);
  }

  /** The bound is exact: from length k + 2 on, two lists exist in which an id that is in only one
      list comes before an id that is in both. */
  lemma BothBeforeOneFails(k: nat, limit: nat) returns (first: seq<int>, second: seq<int>, a: int, b: int)
    requires limit >= k + 2
    ensures |first| == |second| == limit && Distinct(first) && Distinct(second)
    ensures a in first && a in second && b in first && b !in second
    ensures forall out :: Fused(out, [first, second], k) ==> a in out && b in out && IndexOf(out, b) < IndexOf(out, a)
  {
    a, b := -1, 0;
    first := seq(limit - 1, i => i) + [a];
    second := seq(limit - 1, i => i + limit) + [a];
    WorstInBoth(first, second, k, limit, a, b);
    forall out | Fused(out, [first, second], k)
      ensures a in out && b in out && IndexOf(out, b) < IndexOf(out, a)
    {
      FirstSeenWins(out, first, second, k, a, b);
    }
  }

  lemma WorstInBoth(first: seq<int>, second: seq<int>, k: nat, limit: nat, a: int, b: int)
    requires limit >= k + 2 && |first| == |second| == limit && Distinct(first) && Distinct(second)
    requires first[0] == b && first[limit - 1] == a && second[limit - 1] == a && b !in second
    ensures a in first && b in first && IndexOf(first, b) < IndexOf(first, a)
    ensures Score([first, second], b, k) >= Score([first, second], a, k)
  {
    PairScore(first, second, a, k);
    PairScore(first, second, b, k);
    ListScoreDistinct(first, a, k);
    ListScoreDistinct(second, a, k);
    ListScoreDistinct(first, b, k);
    ListScoreDistinct(second, b, k);
    TwoWorstBeatOneBest(k, limit);
  }

  lemma {:induction false} DedupDistinct(s: seq<int>)
    requires Distinct(s)
    ensures Dedup(s) == s
  {
    if s != [] {
      DedupDistinct(s[..|s| - 1]);
      assert s == s[..|s| - 1] + [s[|s| - 1]];
    }
  }

  lemma {:induction false} DedupKeeps(s: seq<int>, t: seq<int>)
    ensures Dedup(s) <= Dedup(s + t)
  {
    if t == [] {
      assert s + t == s;
    } else {
      var front := t[..|t| - 1];
      assert s + t == s + front + [t[|t| - 1]];
      DedupKeeps(s, front);
      DedupStep(s + front, t[|t| - 1]);
    }
  }

  // ---- the order, on ranks ----

  /** What an id is worth in two lists without repeats: for each list that has it, one over `k` and its rank. */
  function Worth(first: seq<int>, second: seq<int>, id: int, k: nat): real {
    (if id in first then 1.0 / (k + IndexOf(first, id) + 1) as real else 0.0)
    + (if id in second then 1.0 / (k + IndexOf(second, id) + 1) as real else 0.0)
  }

  /** Worth more; or worth the same, and met earlier in the first list and then the second. */
  ghost predicate Better(first: seq<int>, second: seq<int>, k: nat, a: int, b: int) {
    && (a in first || a in second) && (b in first || b in second)
    && (Worth(first, second, a, k) > Worth(first, second, b, k)
        || (Worth(first, second, a, k) == Worth(first, second, b, k)
            && IndexOf(first + second, a) < IndexOf(first + second, b)))
  }

  lemma WorthExactly(first: seq<int>, second: seq<int>, id: int, k: nat)
    requires Distinct(first) && Distinct(second)
    ensures Score([first, second], id, k) == Worth(first, second, id, k)
  {
    PairScore(first, second, id, k);
    ListScoreDistinct(first, id, k);
    ListScoreDistinct(second, id, k);
  }

  lemma IndexAppend(s: seq<int>, t: seq<int>, x: int)
    requires x !in s && x in t
    ensures x in s + t && IndexOf(s + t, x) == |s| + IndexOf(t, x)
  {
    assert (s + t)[|s| + IndexOf(t, x)] == x;
    var i := IndexOf(s + t, x);
    assert i >= |s| && t[i - |s|] == x;
  }

  /** First sight in a list without its repeats comes in the order of first sight in the list. */
  lemma {:induction false} DedupOrder(s: seq<int>, a: int, b: int)
    requires a in s && b in s && IndexOf(Dedup(s), a) < IndexOf(Dedup(s), b)
    ensures IndexOf(s, a) < IndexOf(s, b)
  {
    var front, x := s[..|s| - 1], s[|s| - 1];
    assert s == front + [x];
    if a in front {
      IndexPrefix(front, [x], a);
      if b in front {
        IndexPrefix(front, [x], b);
        DedupEarlier(front, x, a, b);
        DedupOrder(front, a, b);
      } else {
        IndexAppend(front, [x], b);
      }
    } else {
      DedupLast(front, x, a, b);
    }
  }

  lemma DedupEarlier(front: seq<int>, x: int, a: int, b: int)
    requires a in front && b in front && IndexOf(Dedup(front + [x]), a) < IndexOf(Dedup(front + [x]), b)
    ensures IndexOf(Dedup(front), a) < IndexOf(Dedup(front), b)
  {
    DedupStep(front, x);
    IndexPrefix(Dedup(front), [x], a);
    IndexPrefix(Dedup(front), [x], b);
  }

  /** What is met last stands last. */
  lemma DedupLast(front: seq<int>, x: int, a: int, b: int)
    requires a == x && a !in front && b in front + [x]
    ensures IndexOf(Dedup(front + [x]), b) <= IndexOf(Dedup(front + [x]), a)
  {
    DedupStep(front, x);
    var d := Dedup(front);
    assert Dedup(front + [x]) == d + [x];
    IndexAppend(d, [x], a);
    if b in d {
      IndexPrefix(d, [x], b);
    }
  }

  /** The fused list of two lists without repeats: exactly their ids, each better than all that follow. */
  lemma FusedByWorth(out: seq<int>, first: seq<int>, second: seq<int>, k: nat, i: nat, j: nat)
    requires Fused(out, [first, second], k) && Distinct(first) && Distinct(second)
    ensures forall x :: x in out <==> x in first || x in second
    ensures i < j < |out| ==> out[i] != out[j] && Better(first, second, k, out[i], out[j])
  {
    PairScore(first, second, 0, k);
    if i < j < |out| {
      var a, b := out[i], out[j];
      assert Ahead([first, second], k, a, b);
      WorthExactly(first, second, a, k);
      WorthExactly(first, second, b, k);
      if Worth(first, second, a, k) == Worth(first, second, b, k) {
        DedupOrder(first + second, a, b);
      }
    }
  }

  /** With repeats, every occurrence counts. */
  lemma ScoreExactly(lists: seq<seq<int>>, ranks: seq<int>, x: int, id: int, k: nat)
    ensures Score(lists + [ranks], id, k) == Score(lists, id, k) + ListScore(ranks, id, k)
    ensures ListScore(ranks + [x], id, k) ==
      ListScore(ranks, id, k) + if x == id then 1.0 / (k + |ranks| + 1) as real else 0.0
    ensures Score([], id, k) == ListScore([], id, k) == 0.0
  {
    assert (lists + [ranks])[..|lists|] == lists && (ranks + [x])[..|ranks|] == ranks;
  }
}
