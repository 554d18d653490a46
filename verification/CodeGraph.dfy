/** Breadth-first traversal of the code graph (app/services/search_hybrid.py). */
module CodeGraph {

  /** A row of the edge table. */
  datatype Edge = Edge(app: string, source: int, target: int, relation: string)

  type Links = set<(int, int)>

  /** The links of one application, callers to callees. */
  function AppLinks(edges: seq<Edge>, app: string): Links {
    set e | e in edges && e.app == app :: (e.source, e.target)
  }

  function Reversed(links: Links): Links {
    set l | l in links :: (l.1, l.0)
  }

  function Ids(s: seq<int>): set<int> {
    set id | id in s
  }

  lemma NonEmpty(s: set<int>)
    requires s != {}
    ensures exists x :: x in s
  {
    assert (forall x :: x !in s) ==> s == {};
  }

  // ---- the reference: nodes within a number of steps, and paths ----

  function Successors(links: Links, from: set<int>): set<int> {
    set l | l in links && l.0 in from :: l.1
  }

  /** The nodes at most `n` steps away from a seed. */
  function Within(links: Links, seeds: set<int>, n: nat): set<int> {
    if n == 0 then seeds
    else
      var near := Within(links, seeds, n - 1);
      near + Successors(links, near)
  }

  /** A path of `|p| - 1` steps along the links. */
  ghost predicate IsPath(links: Links, p: seq<int>) {
    p != [] && forall i :: 0 <= i < |p| - 1 ==> (p[i], p[i + 1]) in links
  }

  /** `x` is reached from a seed in exactly `|p| - 1` steps. */
  ghost predicate Reaches(links: Links, seeds: set<int>, p: seq<int>, x: int) {
    IsPath(links, p) && p[0] in seeds && p[|p| - 1] == x
  }

  lemma {:induction false} PathWithin(links: Links, seeds: set<int>, p: seq<int>, x: int)
    requires Reaches(links, seeds, p, x)
    ensures x in Within(links, seeds, |p| - 1)
  {
    var n := |p| - 1;
    if n > 0 {
      var front := p[..n];
      assert forall i :: 0 <= i < |front| - 1 ==> (front[i], front[i + 1]) in links;
      PathWithin(links, seeds, front, p[n - 1]);
      assert (p[n - 1], p[n - 1 + 1]) in links;
    }
  }

  lemma {:induction false} WithinPath(links: Links, seeds: set<int>, n: nat, x: int) returns (p: seq<int>)
    requires x in Within(links, seeds, n)
    ensures Reaches(links, seeds, p, x) && |p| <= n + 1
    ensures forall y :: y in p ==> y in Within(links, seeds, n)
  {
    if n == 0 {
      p := [x];
    } else if x in Within(links, seeds, n - 1) {
      p := WithinPath(links, seeds, n - 1, x);
    } else {
      var l :| l in links && l.0 in Within(links, seeds, n - 1) && l.1 == x;
      var front := WithinPath(links, seeds, n - 1, l.0);
      p := front + [x];
      assert (l.0, x) == l;
    }
  }

  lemma {:induction false} WithinGrows(links: Links, seeds: set<int>, m: nat, n: nat)
    requires m <= n
    ensures Within(links, seeds, m) <= Within(links, seeds, n)
  {
    if m < n {
      WithinGrows(links, seeds, m, n - 1);
    }
  }

  lemma WithinNext(links: Links, seeds: set<int>, n: nat, next: nat)
    requires next == n + 1
    ensures Within(links, seeds, next) == Within(links, seeds, n) + Successors(links, Within(links, seeds, n))
  {
  }

  /** Once a step adds nothing, no further step does. */
  lemma {:induction false} WithinStops(links: Links, seeds: set<int>, m: nat, n: nat, near: set<int>)
    requires m <= n && near == Within(links, seeds, m) && Successors(links, near) <= near
    ensures Within(links, seeds, n) == near
  {
    if m < n {
      WithinStops(links, seeds, m, n - 1, near);
      WithinNext(links, seeds, n - 1, n);
    }
  }

  // ---- one direction of the traversal ----

  /** The nodes newly met by following one link out of the frontier. */
  method NextLevel(links: Links, frontier: set<int>, found: set<int>, seeds: set<int>) returns (next: set<int>)
    ensures next == Successors(links, frontier) - found - seeds
  {
    next := {};
    var todo := frontier;
    while todo != {}
      invariant todo <= frontier
      invariant next == Successors(links, frontier - todo) - found - seeds
      decreases todo
    {
      NonEmpty(todo);
      var id :| id in todo;
      var targets := set l | l in links && l.0 == id :: l.1;
      var rest := targets;
      ghost var before := next;
      while rest != {}
        invariant rest <= targets
        invariant next == before + ((targets - rest) - found - seeds)
        decreases rest
      {
        NonEmpty(rest);
        var t :| t in rest;
        if t !in found && t !in seeds {
          next := next + {t};
        }
        rest := rest - {t};
      }
      SuccessorsOf(links, frontier - todo, id);
      assert frontier - (todo - {id}) == frontier - todo + {id};
      todo := todo - {id};
    }
    assert frontier - {} == frontier;
  }

  lemma SuccessorsOf(links: Links, from: set<int>, id: int)
    ensures Successors(links, from + {id}) == Successors(links, from) + set l | l in links && l.0 == id :: l.1
  {
  }

  /** The traversal may run another round after `n`: something was met last, and both limits allow it. */
  ghost predicate MayContinue(links: Links, seeds: set<int>, maxDepth: int, maxNodes: int, n: nat) {
    && (n == 0 || Within(links, seeds, n) != Within(links, seeds, n - 1))
    && n < maxDepth
    && |Within(links, seeds, n) - seeds| < maxNodes
  }

  ghost predicate MightContinue(links: Links, seeds: set<int>, maxDepth: int, maxNodes: int, rounds: nat) {
    forall n :: 0 <= n < rounds ==> MayContinue(links, seeds, maxDepth, maxNodes, n)
  }

  /** `rounds` is where the traversal stops: the first round that may not be followed by another. */
  ghost predicate StopsAt(links: Links, seeds: set<int>, maxDepth: int, maxNodes: int, rounds: nat) {
    !MayContinue(links, seeds, maxDepth, maxNodes, rounds) && MightContinue(links, seeds, maxDepth, maxNodes, rounds)
  }

  /** The state of the traversal after `n` rounds. */
  ghost predicate Swept(links: Links, seeds: set<int>, n: nat, frontier: set<int>, found: set<int>) {
    && seeds <= Within(links, seeds, n) && found == Within(links, seeds, n) - seeds
    && frontier == Within(links, seeds, n) - (if n == 0 then {} else Within(links, seeds, n - 1))
  }

  lemma SweptContinues(links: Links, seeds: set<int>, n: nat, frontier: set<int>, found: set<int>, maxDepth: int,
                       maxNodes: int)
    requires Swept(links, seeds, n, frontier, found) && seeds != {}
    ensures MayContinue(links, seeds, maxDepth, maxNodes, n) <==> frontier != {} && n < maxDepth && |found| < maxNodes
  {
    if n > 0 {
      WithinGrows(links, seeds, n - 1, n);
      assert frontier == {} ==> Within(links, seeds, n) == Within(links, seeds, n - 1);
    }
  }

  /** The loop's own test agrees with `MayContinue`, and every earlier round might continue. */
  ghost predicate Running(links: Links, seeds: set<int>, maxDepth: int, maxNodes: int, n: nat, frontier: set<int>,
                          found: set<int>) {
    && Swept(links, seeds, n, frontier, found)
    && (MayContinue(links, seeds, maxDepth, maxNodes, n) <==> frontier != {} && n < maxDepth && |found| < maxNodes)
    && MightContinue(links, seeds, maxDepth, maxNodes, n)
  }

  lemma MightContinueOn(links: Links, seeds: set<int>, maxDepth: int, maxNodes: int, n: nat)
    requires MightContinue(links, seeds, maxDepth, maxNodes, n) && MayContinue(links, seeds, maxDepth, maxNodes, n)
    ensures MightContinue(links, seeds, maxDepth, maxNodes, n + 1)
  {
  }

  lemma RunningMay(links: Links, seeds: set<int>, maxDepth: int, maxNodes: int, n: nat, frontier: set<int>,
                   found: set<int>)
    requires Running(links, seeds, maxDepth, maxNodes, n, frontier, found)
    requires frontier != {} && n < maxDepth && |found| < maxNodes
    ensures MightContinue(links, seeds, maxDepth, maxNodes, n + 1)
  {
    MightContinueOn(links, seeds, maxDepth, maxNodes, n);
  }

  lemma RunningStep(links: Links, seeds: set<int>, maxDepth: int, maxNodes: int, n: nat,
                    frontier: set<int>, found: set<int>, next: set<int>, found': set<int>)
    requires Swept(links, seeds, n, frontier, found) && seeds != {}
      && MightContinue(links, seeds, maxDepth, maxNodes, n + 1)
    requires next == Successors(links, frontier) - found - seeds && found' == found + next
    ensures Running(links, seeds, maxDepth, maxNodes, n + 1, next, found')
  {
    LevelStep(links, seeds, n, frontier, found, next);
    SweptContinues(links, seeds, n + 1, next, found', maxDepth, maxNodes);
  }

  method Explore(links: Links, seedIds: seq<int>, maxDepth: int, maxNodes: int) returns (found: set<int>, rounds: nat)
    requires seedIds != []
    ensures found == Within(links, Ids(seedIds), rounds) - Ids(seedIds)
    ensures StopsAt(links, Ids(seedIds), maxDepth, maxNodes, rounds)
  {
    var seeds := Ids(seedIds);
    assert seedIds[0] in seeds;
    found := {};
    var frontier := seeds;
    rounds := 0;
    SweptContinues(links, seeds, 0, frontier, found, maxDepth, maxNodes);
    while frontier != {} && rounds < maxDepth && |found| < maxNodes
      invariant Running(links, seeds, maxDepth, maxNodes, rounds, frontier, found)
      decreases maxDepth - rounds
    {
      var next := NextLevel(links, frontier, found, seeds);
      RunningMay(links, seeds, maxDepth, maxNodes, rounds, frontier, found);
      RunningStep(links, seeds, maxDepth, maxNodes, rounds, frontier, found, next, found + next);
      found := found + next;
      frontier := next;
      rounds := rounds + 1;
    }
  }

  /** One round of the traversal adds exactly the next ring of nodes. */
  lemma LevelStep(links: Links, seeds: set<int>, n: nat, frontier: set<int>, found: set<int>, next: set<int>)
    requires Swept(links, seeds, n, frontier, found)
    requires next == Successors(links, frontier) - found - seeds
    ensures Swept(links, seeds, n + 1, next, found + next)
  {
    var near := Within(links, seeds, n);
    forall x | x in Successors(links, near) && x !in near ensures x in next {
      var l :| l in links && l.0 in near && l.1 == x;
      assert l.0 in frontier;
    }
    forall x | x in next ensures x in Successors(links, near) && x !in near {
      var l :| l in links && l.0 in frontier && l.1 == x;
    }
    assert Within(links, seeds, n + 1) == near + next;
  }

  /** Stopping before both limits means there was nothing new to meet. */
  lemma Exhausted(links: Links, seeds: set<int>, rounds: nat, n: nat)
    requires rounds > 0 && Within(links, seeds, rounds) == Within(links, seeds, rounds - 1)
    ensures Within(links, seeds, n) <= Within(links, seeds, rounds)
  {
    if n <= rounds {
      WithinGrows(links, seeds, n, rounds);
    } else {
      WithinNext(links, seeds, rounds - 1, rounds);
      WithinStops(links, seeds, rounds - 1, n, Within(links, seeds, rounds - 1));
    }
  }

  /** What the traversal finds: exactly the nodes on a path of at most `rounds` steps from a seed; and if it
      stopped short of both limits, every node on any path at all. */
  lemma ExploreMeaning(links: Links, seeds: set<int>, maxDepth: int, maxNodes: int, rounds: nat, x: int)
    requires StopsAt(links, seeds, maxDepth, maxNodes, rounds)
    ensures rounds <= if maxDepth > 0 then maxDepth else 0
    ensures x in Within(links, seeds, rounds) <==> exists p :: Reaches(links, seeds, p, x) && |p| <= rounds + 1
    ensures rounds < maxDepth && |Within(links, seeds, rounds) - seeds| < maxNodes ==>
      (x in Within(links, seeds, rounds) <==> exists p :: Reaches(links, seeds, p, x))
  {
    assert rounds > 0 ==> MayContinue(links, seeds, maxDepth, maxNodes, rounds - 1);
    WithinMeaning(links, seeds, rounds, x);
    if rounds < maxDepth && |Within(links, seeds, rounds) - seeds| < maxNodes {
      ExhaustedMeaning(links, seeds, rounds, x);
    }
  }

  lemma WithinMeaning(links: Links, seeds: set<int>, n: nat, x: int)
    ensures x in Within(links, seeds, n) <==> exists p :: Reaches(links, seeds, p, x) && |p| <= n + 1
  {
    if x in Within(links, seeds, n) {
      var p := WithinPath(links, seeds, n, x);
    }
    forall p | Reaches(links, seeds, p, x) && |p| <= n + 1 ensures x in Within(links, seeds, n) {
      PathWithin(links, seeds, p, x);
      WithinGrows(links, seeds, |p| - 1, n);
    }
  }

  lemma ExhaustedMeaning(links: Links, seeds: set<int>, n: nat, x: int)
    requires n > 0 && Within(links, seeds, n) == Within(links, seeds, n - 1)
    ensures x in Within(links, seeds, n) <==> exists p :: Reaches(links, seeds, p, x)
  {
    if x in Within(links, seeds, n) {
      var p := WithinPath(links, seeds, n, x);
    }
    forall p | Reaches(links, seeds, p, x) ensures x in Within(links, seeds, n) {
      PathWithin(links, seeds, p, x);
      Exhausted(links, seeds, n, |p| - 1);
    }
  }

  /** The links decide the outcome: the round at which the traversal stops is unique. */
  lemma StopsOnce(links: Links, seeds: set<int>, maxDepth: int, maxNodes: int, m: nat, n: nat)
    requires StopsAt(links, seeds, maxDepth, maxNodes, m) && StopsAt(links, seeds, maxDepth, maxNodes, n)
    ensures m == n
  {
    assert m < n ==> MayContinue(links, seeds, maxDepth, maxNodes, m);
    assert n < m ==> MayContinue(links, seeds, maxDepth, maxNodes, n);
  }

  // ---- traverse_code_graph ----

  /** The ids in increasing order. */
  ghost predicate Ascending(r: seq<int>, ids: set<int>) {
    && (forall i, j :: 0 <= i < j < |r| ==> r[i] < r[j])
    && (forall x :: x in r <==> x in ids)
  }

  method SortIds(ids: set<int>) returns (r: seq<int>)
    ensures Ascending(r, ids)
  {
    r := [];
    var rest := ids;
    while rest != {}
      invariant rest <= ids && Ascending(r, ids - rest)
      invariant forall x, y :: x in ids - rest && y in rest ==> x < y
      decreases rest
    {
      var least := Least(rest);
      assert ids - (rest - {least}) == ids - rest + {least};
      assert forall i :: 0 <= i < |r| ==> r[i] in r;
      r := r + [least];
      rest := rest - {least};
    }
    assert ids - {} == ids;
  }

  method Least(ids: set<int>) returns (least: int)
    requires ids != {}
    ensures least in ids && forall x :: x in ids ==> least <= x
  {
    NonEmpty(ids);
    least :| least in ids;
    var rest := ids - {least};
    while rest != {}
      invariant rest <= ids && least in ids
      invariant forall x :: x in ids - rest ==> least <= x
      decreases rest
    {
      NonEmpty(rest);
      var x :| x in rest;
      assert ids - (rest - {x}) == ids - rest + {x};
      if x < least {
        least := x;
      }
      rest := rest - {x};
    }
    assert ids - rest == ids;
  }

  function Select(ids: seq<int>, nodes: set<int>): (r: seq<int>)
    ensures forall x :: x in r <==> x in ids && x in nodes
  {
    if ids == [] then [] else (if ids[0] in nodes then [ids[0]] else []) + Select(ids[1..], nodes)
  }

  function EdgesAmong(edges: seq<Edge>, app: string, ids: set<int>): (r: seq<Edge>)
    ensures forall e :: e in r <==> e in edges && e.app == app && e.source in ids && e.target in ids
  {
    if edges == [] then []
    else
      var e := edges[0];
      (if e.app == app && e.source in ids && e.target in ids then [e] else []) + EdgesAmong(edges[1..], app, ids)
  }

  // ---- paths over the rows of the edge table ----

  /** Some row of the application's leads from one node to the other. */
  ghost predicate Leads(edges: seq<Edge>, app: string, from: int, to: int) {
    exists e :: e in edges && e.app == app && e.source == from && e.target == to
  }

  /** One step towards the callees, or towards the callers. */
  ghost predicate StepTo(edges: seq<Edge>, app: string, down: bool, from: int, to: int) {
    if down then Leads(edges, app, from, to) else Leads(edges, app, to, from)
  }

  /** From a seed to `x` in `|p| - 1` steps. */
  ghost predicate EdgePath(edges: seq<Edge>, app: string, down: bool, seedIds: seq<int>, p: seq<int>, x: int) {
    && p != [] && p[0] in seedIds && p[|p| - 1] == x
    && forall i :: 0 <= i < |p| - 1 ==> StepTo(edges, app, down, p[i], p[i + 1])
  }

  /** `x` is at most `n` steps away from a seed. */
  ghost predicate Met(edges: seq<Edge>, app: string, down: bool, seedIds: seq<int>, n: nat, x: int) {
    exists p :: EdgePath(edges, app, down, seedIds, p, x) && |p| <= n + 1
  }

  /** The links that one direction follows. */
  function Followed(edges: seq<Edge>, app: string, down: bool): Links {
    if down then AppLinks(edges, app) else Reversed(AppLinks(edges, app))
  }

  lemma FollowedExactly(edges: seq<Edge>, app: string, down: bool, from: int, to: int)
    ensures (from, to) in Followed(edges, app, down) <==> StepTo(edges, app, down, from, to)
  {
    var links := AppLinks(edges, app);
    if StepTo(edges, app, down, from, to) {
      var e :| e in edges && e.app == app && (e.source, e.target) == if down then (from, to) else (to, from);
      assert (e.source, e.target) in links;
    }
  }

  lemma PathsAgree(edges: seq<Edge>, app: string, down: bool, seedIds: seq<int>, p: seq<int>, x: int)
    ensures Reaches(Followed(edges, app, down), Ids(seedIds), p, x) <==> EdgePath(edges, app, down, seedIds, p, x)
  {
    forall i | 0 <= i < |p| - 1
      ensures (p[i], p[i + 1]) in Followed(edges, app, down) <==> StepTo(edges, app, down, p[i], p[i + 1])
    {
      FollowedExactly(edges, app, down, p[i], p[i + 1]);
    }
  }

  lemma MetExactly(edges: seq<Edge>, app: string, down: bool, seedIds: seq<int>, n: nat, x: int)
    ensures x in Within(Followed(edges, app, down), Ids(seedIds), n) <==> Met(edges, app, down, seedIds, n, x)
  {
    var links := Followed(edges, app, down);
    WithinMeaning(links, Ids(seedIds), n, x);
    if p :| Reaches(links, Ids(seedIds), p, x) && |p| <= n + 1 {
      PathsAgree(edges, app, down, seedIds, p, x);
    }
    if p :| EdgePath(edges, app, down, seedIds, p, x) && |p| <= n + 1 {
      PathsAgree(edges, app, down, seedIds, p, x);
    }
  }

  /** When a direction stops, on the sets of nodes met: after each earlier round something was met in it, and
      neither limit was reached; after the last round, nothing was, or a limit is. */
  lemma StopsExactly(links: Links, seeds: set<int>, maxDepth: int, maxNodes: int, rounds: nat, n: nat)
    requires StopsAt(links, seeds, maxDepth, maxNodes, rounds)
    ensures n < rounds ==> n < maxDepth && |Within(links, seeds, n) - seeds| < maxNodes
    ensures 0 < n < rounds ==> Within(links, seeds, n) != Within(links, seeds, n - 1)
    ensures rounds >= maxDepth || |Within(links, seeds, rounds) - seeds| >= maxNodes
      || (rounds > 0 && Within(links, seeds, rounds) == Within(links, seeds, rounds - 1))
  {
    assert n < rounds ==> MayContinue(links, seeds, maxDepth, maxNodes, n);
  }

  ghost predicate Increasing(r: seq<int>) {
    forall i, j :: 0 <= i < j < |r| ==> r[i] < r[j]
  }

  lemma {:induction false} SelectIncreasing(ids: seq<int>, nodes: set<int>)
    requires Increasing(ids)
    ensures Increasing(Select(ids, nodes))
  {
    if ids != [] {
      var tail := ids[1..];
      forall i, j | 0 <= i < j < |tail| ensures tail[i] < tail[j] {
        assert tail[i] == ids[i + 1] && tail[j] == ids[j + 1];
      }
      SelectIncreasing(tail, nodes);
      forall j | 0 <= j < |Select(tail, nodes)| ensures ids[0] < Select(tail, nodes)[j] {
        assert Select(tail, nodes)[j] in tail;
        var k :| 0 <= k < |tail| && tail[k] == Select(tail, nodes)[j];
        assert tail[k] == ids[k + 1];
      }
    }
  }

  /** The list has, in increasing order, exactly the known nodes that are no seeds and were met. */
  ghost predicate Lists(r: seq<int>, edges: seq<Edge>, nodes: set<int>, app: string, down: bool, seedIds: seq<int>,
                        n: nat) {
    Increasing(r) && forall x :: x in r <==> x in nodes && x !in seedIds && Met(edges, app, down, seedIds, n, x)
  }

  lemma ListsMet(edges: seq<Edge>, nodes: set<int>, app: string, down: bool, seedIds: seq<int>, n: nat, found: set<int>,
                 sorted: seq<int>)
    requires found == Within(Followed(edges, app, down), Ids(seedIds), n) - Ids(seedIds) && Ascending(sorted, found)
    ensures Lists(Select(sorted, nodes), edges, nodes, app, down, seedIds, n)
  {
    SelectIncreasing(sorted, nodes);
    forall x ensures x in found <==> x !in seedIds && Met(edges, app, down, seedIds, n, x) {
      MetExactly(edges, app, down, seedIds, n, x);
    }
  }

  /** The node is a seed, or was met in one of the directions. */
  ghost predicate Seen(edges: seq<Edge>, app: string, seedIds: seq<int>, downRounds: nat, upRounds: nat, x: int) {
    || x in seedIds
    || Met(edges, app, true, seedIds, downRounds, x)
    || Met(edges, app, false, seedIds, upRounds, x)
  }

  /** Exactly the application's rows between nodes that were seen. */
  ghost predicate Returned(out: seq<Edge>, edges: seq<Edge>, app: string, seedIds: seq<int>, downRounds: nat,
                           upRounds: nat) {
    forall e :: e in out <==>
      (e in edges && e.app == app && Seen(edges, app, seedIds, downRounds, upRounds, e.source)
       && Seen(edges, app, seedIds, downRounds, upRounds, e.target))
  }

  lemma SeenExactly(edges: seq<Edge>, app: string, seedIds: seq<int>, downRounds: nat, upRounds: nat, down: set<int>,
                    up: set<int>)
    requires down == Within(AppLinks(edges, app), Ids(seedIds), downRounds) - Ids(seedIds)
    requires up == Within(Reversed(AppLinks(edges, app)), Ids(seedIds), upRounds) - Ids(seedIds)
    ensures forall x :: x in Ids(seedIds) + down + up <==> Seen(edges, app, seedIds, downRounds, upRounds, x)
  {
    forall x ensures x in Ids(seedIds) + down + up <==> Seen(edges, app, seedIds, downRounds, upRounds, x) {
      MetExactly(edges, app, true, seedIds, downRounds, x);
      MetExactly(edges, app, false, seedIds, upRounds, x);
    }
  }

  datatype Graph = Graph(seedNodes: seq<int>, downstream: seq<int>, upstream: seq<int>, edges: seq<Edge>)

  /** Both directions, then the known nodes among the ids met and the edges between them. */
  method Traverse(edges: seq<Edge>, nodes: set<int>, app: string, seedIds: seq<int>,
                  maxDown: int, maxUp: int, maxNodes: int)
    returns (g: Graph, ghost downRounds: nat, ghost upRounds: nat)
    ensures seedIds == [] ==> g == Graph([], [], [], [])
    ensures seedIds != [] ==>
      var links, seeds := AppLinks(edges, app), Ids(seedIds);
      var down := Within(links, seeds, downRounds) - seeds;
      var up := Within(Reversed(links), seeds, upRounds) - seeds;
      && StopsAt(links, seeds, maxDown, maxNodes, downRounds)
      && StopsAt(Reversed(links), seeds, maxUp, maxNodes, upRounds)
      && g.seedNodes == Select(seedIds, nodes)
      && (exists r :: Ascending(r, down) && g.downstream == Select(r, nodes))
      && (exists r :: Ascending(r, up) && g.upstream == Select(r, nodes))
      && g.edges == EdgesAmong(edges, app, seeds + down + up)
    ensures seedIds != [] ==>
      && (forall x :: x in g.seedNodes <==> x in seedIds && x in nodes)
      && Lists(g.downstream, edges, nodes, app, true, seedIds, downRounds)
      && Lists(g.upstream, edges, nodes, app, false, seedIds, upRounds)
      && Returned(g.edges, edges, app, seedIds, downRounds, upRounds)
  {
    downRounds, upRounds := 0, 0;
    if seedIds == [] {
      return Graph([], [], [], []), 0, 0;
    }
    var links := AppLinks(edges, app);
    var down, rd := Explore(links, seedIds, maxDown, maxNodes);
    var up, ru := Explore(Reversed(links), seedIds, maxUp, maxNodes);
    downRounds, upRounds := rd, ru;
    var all := Ids(seedIds) + down + up;
    var sortedDown := SortIds(down);
    var sortedUp := SortIds(up);
    ListsMet(edges, nodes, app, true, seedIds, rd, down, sortedDown);
    ListsMet(edges, nodes, app, false, seedIds, ru, up, sortedUp);
    SeenExactly(edges, app, seedIds, rd, ru, down, up);
    g := Graph(Select(seedIds, nodes), Select(sortedDown, nodes), Select(sortedUp, nodes), EdgesAmong(edges, app, all));
  }

  /** A prefix of a path is a path. */
  lemma PathPrefix(edges: seq<Edge>, app: string, down: bool, seedIds: seq<int>, p: seq<int>, x: int, n: nat, i: nat)
    requires EdgePath(edges, app, down, seedIds, p, x) && |p| <= n + 1 && i < |p|
    ensures Met(edges, app, down, seedIds, n, p[i])
  {
    var q := p[..i + 1];
    assert EdgePath(edges, app, down, seedIds, q, p[i]);
  }

  /** What one direction met hangs on a seed by returned edges only: whatever edges are returned, if they are the
      application's rows between nodes that were seen, then every node met is at the end of a path over them. */
  lemma Joined(edges: seq<Edge>, app: string, down: bool, seedIds: seq<int>, n: nat, x: int, returned: seq<Edge>,
               seen: set<int>)
    requires forall e :: e in edges && e.app == app && e.source in seen && e.target in seen ==> e in returned
    requires forall y :: Met(edges, app, down, seedIds, n, y) ==> y in seen
    requires Met(edges, app, down, seedIds, n, x)
    ensures Met(returned, app, down, seedIds, n, x)
  {
    var p :| EdgePath(edges, app, down, seedIds, p, x) && |p| <= n + 1;
    forall i | 0 <= i < |p| - 1 ensures StepTo(returned, app, down, p[i], p[i + 1]) {
      PathPrefix(edges, app, down, seedIds, p, x, n, i);
      PathPrefix(edges, app, down, seedIds, p, x, n, i + 1);
      assert StepTo(edges, app, down, p[i], p[i + 1]);
      var e :| e in edges && e.app == app
        && (e.source, e.target) == if down then (p[i], p[i + 1]) else (p[i + 1], p[i]);
      assert e in returned;
    }
    assert EdgePath(returned, app, down, seedIds, p, x);
  }

  /** So every downstream node of a traversal is called, step by step, along edges that are returned with it. */
  lemma DownstreamJoined(edges: seq<Edge>, app: string, seedIds: seq<int>, downRounds: nat, upRounds: nat, g: Graph,
                         x: int)
    requires Returned(g.edges, edges, app, seedIds, downRounds, upRounds)
    requires Met(edges, app, true, seedIds, downRounds, x)
    ensures Met(g.edges, app, true, seedIds, downRounds, x)
  {
    var seen := SeenEnds(edges, app, seedIds, downRounds, upRounds);
    Joined(edges, app, true, seedIds, downRounds, x, g.edges, seen);
  }

  /** And every upstream node calls, step by step, along edges that are returned with it. */
  lemma UpstreamJoined(edges: seq<Edge>, app: string, seedIds: seq<int>, downRounds: nat, upRounds: nat, g: Graph,
                       x: int)
    requires Returned(g.edges, edges, app, seedIds, downRounds, upRounds)
    requires Met(edges, app, false, seedIds, upRounds, x)
    ensures Met(g.edges, app, false, seedIds, upRounds, x)
  {
    var seen := SeenEnds(edges, app, seedIds, downRounds, upRounds);
    Joined(edges, app, false, seedIds, upRounds, x, g.edges, seen);
  }

  /** The nodes seen, as a set. */
  lemma SeenEnds(edges: seq<Edge>, app: string, seedIds: seq<int>, downRounds: nat, upRounds: nat)
    returns (seen: set<int>)
    ensures forall x :: x in seen <==> Seen(edges, app, seedIds, downRounds, upRounds, x)
  {
    var down := Within(AppLinks(edges, app), Ids(seedIds), downRounds) - Ids(seedIds);
    var up := Within(Reversed(AppLinks(edges, app)), Ids(seedIds), upRounds) - Ids(seedIds);
    SeenExactly(edges, app, seedIds, downRounds, upRounds, down, up);
    seen := Ids(seedIds) + down + up;
  }
}
