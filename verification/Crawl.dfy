/** The cycle-safe traversal of benchmarks/benchmark_source_discovery.py:155-168, over any finite link
    graph: a queue, a visited set and a limit on the number of pages.
 */
module Crawl {
  import opened Util

  type Graph = map<string, seq<string>>

  function Links(g: Graph, n: string): seq<string> {
    if n in g then g[n] else []
  }

  /** k links lead from a to b. */
  ghost predicate Walk(g: Graph, a: string, b: string, k: nat)
    decreases k
  {
    if k == 0 then a == b else exists m :: Walk(g, a, m, k - 1) && b in Links(g, m)
  }

  ghost predicate Reachable(g: Graph, a: string, b: string) {
    exists k: nat :: Walk(g, a, b, k)
  }

  function Nodes(g: Graph, seed: string): set<string> {
    {seed} + set k, n | k in g && n in g[k] :: n
  }

  lemma {:induction false} WalkStaysInNodes(g: Graph, seed: string, n: string, k: nat)
    requires Walk(g, seed, n, k)
    ensures n in Nodes(g, seed)
  {
    if k > 0 {
      var m :| Walk(g, seed, m, k - 1) && n in Links(g, m);
    }
  }

  /** The pages reachable from the seed. */
  ghost function ReachableSet(g: Graph, seed: string): set<string> {
    set n | n in Nodes(g, seed) && Reachable(g, seed, n)
  }

  lemma ReachableSetIs(g: Graph, seed: string, n: string)
    ensures n in ReachableSet(g, seed) <==> Reachable(g, seed, n)
  {
    if Reachable(g, seed, n) {
      var k: nat :| Walk(g, seed, n, k);
      WalkStaysInNodes(g, seed, n, k);
    }
  }

  /** The traversal's bookkeeping, with the distance at which each page was met: visited pages are no
      farther than queued ones, the queue is in order of distance and spans at most two distances, and
      every link of a visited page leads to a visited or queued page at most one link farther. */
  ghost predicate Layered(g: Graph, seed: string, d: map<string, nat>, queue: seq<string>, qd: seq<nat>) {
    && |qd| == |queue|
    && (forall v :: v in d ==> Walk(g, seed, v, d[v]))
    && (forall i :: 0 <= i < |queue| ==> Walk(g, seed, queue[i], qd[i]))
    && (forall i, j :: 0 <= i < j < |qd| ==> qd[i] <= qd[j] <= qd[0] + 1)
    && (forall v, i :: v in d && 0 <= i < |qd| ==> d[v] <= qd[i])
    && (if seed in d then d[seed] == 0 else 0 < |queue| && queue[0] == seed && qd[0] == 0)
  }

  ghost predicate LinkMet(d: map<string, nat>, queue: seq<string>, qd: seq<nat>, w: string, limit: nat)
    requires |qd| == |queue|
  {
    (w in d && d[w] <= limit) || exists i :: 0 <= i < |queue| && queue[i] == w && qd[i] <= limit
  }

  ghost predicate LinksFollowed(g: Graph, d: map<string, nat>, queue: seq<string>, qd: seq<nat>)
    requires |qd| == |queue|
  {
    forall v, w :: v in d && w in Links(g, v) ==> LinkMet(d, queue, qd, w, d[v] + 1)
  }

  /** A page k links away has been visited, or something queued is at most k links away. */
  lemma {:induction false} Frontier(g: Graph, seed: string, d: map<string, nat>, queue: seq<string>, qd: seq<nat>,
                                    w: string, k: nat)
    requires Layered(g, seed, d, queue, qd) && LinksFollowed(g, d, queue, qd) && Walk(g, seed, w, k)
    ensures (w in d && d[w] <= k) || (exists i :: 0 <= i < |qd| && qd[i] <= k)
    decreases k
  {
    if k > 0 {
      var m :| Walk(g, seed, m, k - 1) && w in Links(g, m);
      Frontier(g, seed, d, queue, qd, m, k - 1);
      if m in d && d[m] <= k - 1 {
        assert LinkMet(d, queue, qd, w, d[m] + 1);
      }
    }
  }

  /** Nothing unvisited is nearer to the seed than a visited page. */
  ghost predicate NearestFirst(g: Graph, seed: string, visited: set<string>) {
    forall v, w, k: nat :: v in visited && w !in visited && Walk(g, seed, w, k) ==> WithinReach(g, seed, v, k)
  }

  ghost predicate WithinReach(g: Graph, seed: string, v: string, k: nat) {
    exists j :: 0 <= j <= k && Walk(g, seed, v, j)
  }

  lemma LayersAreNearestFirst(g: Graph, seed: string, d: map<string, nat>, queue: seq<string>, qd: seq<nat>)
    requires Layered(g, seed, d, queue, qd) && LinksFollowed(g, d, queue, qd)
    ensures NearestFirst(g, seed, d.Keys)
    ensures queue == [] ==> forall w :: Reachable(g, seed, w) ==> w in d
  {
    forall v, w, k: nat | v in d && w !in d && Walk(g, seed, w, k) ensures WithinReach(g, seed, v, k) {
      Frontier(g, seed, d, queue, qd, w, k);
    }
    forall w | Reachable(g, seed, w) && queue == [] ensures w in d {
      var k: nat :| Walk(g, seed, w, k);
      Frontier(g, seed, d, queue, qd, w, k);
    }
  }

  lemma SkipVisited(g: Graph, seed: string, d: map<string, nat>, queue: seq<string>, qd: seq<nat>)
    requires Layered(g, seed, d, queue, qd) && LinksFollowed(g, d, queue, qd)
    requires queue != [] && queue[0] in d
    ensures Layered(g, seed, d, queue[1..], qd[1..]) && LinksFollowed(g, d, queue[1..], qd[1..])
  {
    hide Walk;
    forall v, w | v in d && w in Links(g, v) ensures LinkMet(d, queue[1..], qd[1..], w, d[v] + 1) {
      assert LinkMet(d, queue, qd, w, d[v] + 1);
      if !(w in d && d[w] <= d[v] + 1) {
        var i :| 0 <= i < |queue| && queue[i] == w && qd[i] <= d[v] + 1;
        assert i > 0;
        assert queue[1..][i - 1] == w && qd[1..][i - 1] == qd[i];
      }
    }
  }

  function NotVisited(links: seq<string>, visited: set<string>): seq<string> {
    if links == [] then []
    else
      var n := |links| - 1;
      NotVisited(links[..n], visited) + (if links[n] in visited then [] else [links[n]])
  }

  lemma {:induction false} NotVisitedFirst(links: seq<string>, visited: set<string>)
    requires links != []
    ensures NotVisited(links, visited)
         == (if links[0] in visited then [] else [links[0]]) + NotVisited(links[1..], visited)
  {
    var n := |links| - 1;
    if n > 0 {
      NotVisitedFirst(links[..n], visited);
      assert links[..n][1..] == links[1..][..n - 1];
    }
  }

  /** A page's links that were not visited yet are queued, all of them and in their order. */
  lemma {:induction false} NotVisitedSelects(links: seq<string>, visited: set<string>)
    ensures Selects(NotVisited(links, visited), links, (l: string) => l !in visited)
  {
    if links == [] {
      SelectsNone((l: string) => l !in visited);
    } else {
      NotVisitedFirst(links, visited);
      NotVisitedSelects(links[1..], visited);
      SelectsCons(NotVisited(links[1..], visited), links[0], links[1..], (l: string) => l !in visited);
      assert [links[0]] + links[1..] == links;
    }
  }

  lemma NotVisitedStep(links: seq<string>, j: nat, visited: set<string>)
    requires j < |links|
    ensures NotVisited(links[..j + 1], visited)
         == NotVisited(links[..j], visited) + (if links[j] in visited then [] else [links[j]])
  {
    assert links[..j + 1][..j] == links[..j];
  }

  lemma {:induction false} NotVisitedMembers(links: seq<string>, visited: set<string>)
    ensures forall w :: w in NotVisited(links, visited) <==> w in links && w !in visited
  {
    if links != [] {
      var n := |links| - 1;
      NotVisitedMembers(links[..n], visited);
      assert links == links[..n] + [links[n]];
    }
  }

  function Depths(qd: seq<nat>, more: nat): (r: seq<nat>)
    requires qd != []
    ensures |r| == |qd| - 1 + more
    ensures forall i :: 0 <= i < |r| ==> r[i] == if i < |qd| - 1 then qd[i + 1] else qd[0] + 1
  {
    qd[1..] + seq(more, i => qd[0] + 1)
  }

  lemma VisitIsLayered(g: Graph, seed: string, d: map<string, nat>, queue: seq<string>, qd: seq<nat>,
                       more: seq<string>)
    requires Layered(g, seed, d, queue, qd) && queue != [] && queue[0] !in d
    requires forall w :: w in more ==> w in Links(g, queue[0])
    ensures Layered(g, seed, d[queue[0] := qd[0]], queue[1..] + more, Depths(qd, |more|))
  {
    var c, d', queue', qd' := queue[0], d[queue[0] := qd[0]], queue[1..] + more, Depths(qd, |more|);
    forall i | 0 <= i < |queue'| ensures Walk(g, seed, queue'[i], qd'[i]) {
      if i < |queue| - 1 {
        assert queue'[i] == queue[i + 1] && qd'[i] == qd[i + 1];
      } else {
        assert queue'[i] in more;
        assert Walk(g, seed, c, qd[0]) && queue'[i] in Links(g, c);
        assert Walk(g, seed, queue'[i], qd[0] + 1);
      }
    }
    hide Walk;
  }

  lemma VisitFollowsLinks(g: Graph, seed: string, d: map<string, nat>, queue: seq<string>, qd: seq<nat>,
                          more: seq<string>)
    requires Layered(g, seed, d, queue, qd) && LinksFollowed(g, d, queue, qd)
    requires queue != [] && queue[0] !in d
    requires forall w :: w in more <==> w in Links(g, queue[0]) && w !in d && w != queue[0]
    ensures LinksFollowed(g, d[queue[0] := qd[0]], queue[1..] + more, Depths(qd, |more|))
  {
    hide Walk;
    var c, d', queue', qd' := queue[0], d[queue[0] := qd[0]], queue[1..] + more, Depths(qd, |more|);
    forall v, w | v in d' && w in Links(g, v) ensures LinkMet(d', queue', qd', w, d'[v] + 1) {
      if v == c {
        if w !in d' {
          var i :| 0 <= i < |more| && more[i] == w;
          assert queue'[|queue| - 1 + i] == w && qd'[|queue| - 1 + i] == qd[0] + 1;
        }
      } else {
        assert LinkMet(d, queue, qd, w, d[v] + 1);
        if !(w in d && d[w] <= d[v] + 1) {
          var i :| 0 <= i < |queue| && queue[i] == w && qd[i] <= d[v] + 1;
          if i > 0 {
            assert queue'[i - 1] == w && qd'[i - 1] == qd[i];
          }
        }
      }
    }
  }

  lemma VisitedAreReachable(g: Graph, seed: string, d: map<string, nat>, queue: seq<string>, qd: seq<nat>)
    requires Layered(g, seed, d, queue, qd)
    ensures d.Keys <= ReachableSet(g, seed)
  {
    forall v | v in d ensures v in ReachableSet(g, seed) {
      assert Walk(g, seed, v, d[v]);
      ReachableSetIs(g, seed, v);
    }
  }

  /** The inner loop: links to pages not visited join the queue, in order. */
  method QueueLinks(queue: seq<string>, links: seq<string>, visited: set<string>) returns (longer: seq<string>)
    ensures longer == queue + NotVisited(links, visited)
  {
    longer := queue;
    for j := 0 to |links|
      invariant longer == queue + NotVisited(links[..j], visited)
    {
      NotVisitedStep(links, j, visited);
      if links[j] !in visited {
        Reassociate(queue, NotVisited(links[..j], visited), [links[j]]);
        longer := longer + [links[j]];
      }
    }
    assert links[..|links|] == links;
  }

  ghost predicate Explored(g: Graph, seed: string, d: map<string, nat>, queue: seq<string>, qd: seq<nat>) {
    Layered(g, seed, d, queue, qd) && LinksFollowed(g, d, queue, qd)
  }

  lemma StartExplored(g: Graph, seed: string)
    ensures Explored(g, seed, map[], [seed], [0])
  {
  }

  lemma SkipExplored(g: Graph, seed: string, d: map<string, nat>, queue: seq<string>, qd: seq<nat>)
    returns (qd': seq<nat>)
    requires Explored(g, seed, d, queue, qd) && queue != [] && queue[0] in d
    ensures Explored(g, seed, d, queue[1..], qd')
  {
    SkipVisited(g, seed, d, queue, qd);
    qd' := qd[1..];
  }

  lemma VisitExplored(g: Graph, seed: string, d: map<string, nat>, queue: seq<string>, qd: seq<nat>)
    returns (d': map<string, nat>, qd': seq<nat>)
    requires Explored(g, seed, d, queue, qd) && queue != [] && queue[0] !in d
    ensures d'.Keys == d.Keys + {queue[0]}
    ensures Explored(g, seed, d', queue[1..] + NotVisited(Links(g, queue[0]), d'.Keys), qd')
  {
    hide Walk, NotVisited, Links;
    var c := queue[0];
    d' := d[c := qd[0]];
    var links := Links(g, c);
    var more := NotVisited(links, d'.Keys);
    NotVisitedMembers(links, d'.Keys);
    VisitIsLayered(g, seed, d, queue, qd, more);
    VisitFollowsLinks(g, seed, d, queue, qd, more);
    qd' := Depths(qd, |more|);
  }

  /** What is left in the queue is reachable, and tells whether the limit cut the traversal short: fewer
      pages than the limit leave it empty, more leave something.  With exactly as many, what is left are
      further links to pages visited already. */
  ghost predicate QueueTells(g: Graph, seed: string, queue: seq<string>, maxHops: nat) {
    && (forall q :: q in queue ==> q in ReachableSet(g, seed))
    && (|ReachableSet(g, seed)| < maxHops ==> queue == [])
    && (|ReachableSet(g, seed)| > maxHops ==> queue != [])
  }

  lemma QueuedAreReachable(g: Graph, seed: string, d: map<string, nat>, queue: seq<string>, qd: seq<nat>)
    requires Layered(g, seed, d, queue, qd)
    ensures forall q :: q in queue ==> q in ReachableSet(g, seed)
  {
    forall q | q in queue ensures q in ReachableSet(g, seed) {
      var i :| 0 <= i < |queue| && queue[i] == q;
      assert Walk(g, seed, q, qd[i]);
      ReachableSetIs(g, seed, q);
    }
  }

  lemma EndExplored(g: Graph, seed: string, d: map<string, nat>, queue: seq<string>, qd: seq<nat>, maxHops: nat)
    requires Explored(g, seed, d, queue, qd) && |d.Keys| <= maxHops
    requires queue == [] || |d.Keys| >= maxHops
    ensures d.Keys <= ReachableSet(g, seed) && NearestFirst(g, seed, d.Keys)
    ensures |d.Keys| == MinInt(maxHops, |ReachableSet(g, seed)|)
    ensures d.Keys == ReachableSet(g, seed) <==> |ReachableSet(g, seed)| <= maxHops
    ensures QueueTells(g, seed, queue, maxHops)
  {
    QueuedAreReachable(g, seed, d, queue, qd);
    LayersAreNearestFirst(g, seed, d, queue, qd);
    VisitedAreReachable(g, seed, d, queue, qd);
    SubsetSize(d.Keys, ReachableSet(g, seed));
    if queue == [] {
      assert forall w :: w in ReachableSet(g, seed) ==> Reachable(g, seed, w);
      assert d.Keys == ReachableSet(g, seed);
    }
  }

  /** The traversal.  It terminates on every graph, cycles included; it counts each page once; it visits
      only reachable pages, min(max hops, how many there are) of them, so all of them exactly when they
      are at most max hops; and when the limit cuts it short, it has visited the nearest ones. */
  method Traverse(g: Graph, seed: string, maxHops: nat)
    returns (visited: set<string>, traversed: nat, queue: seq<string>)
    ensures traversed == |visited| && visited <= ReachableSet(g, seed)
    ensures |visited| == MinInt(maxHops, |ReachableSet(g, seed)|)
    ensures visited == ReachableSet(g, seed) <==> |ReachableSet(g, seed)| <= maxHops
    ensures NearestFirst(g, seed, visited)
    ensures QueueTells(g, seed, queue, maxHops)
  {
    hide *;
    visited, queue, traversed := {}, [seed], 0;
    ghost var d: map<string, nat>, qd: seq<nat> := map[], [0];
    StartExplored(g, seed);
    while queue != [] && traversed < maxHops
      invariant traversed == |visited| <= maxHops && visited == d.Keys
      invariant Explored(g, seed, d, queue, qd)
      decreases maxHops - traversed, |queue|
    {
      var current := queue[0];
      if current in visited {
        qd := SkipExplored(g, seed, d, queue, qd);
        queue := queue[1..];
        continue;
      }
      d, qd := VisitExplored(g, seed, d, queue, qd);
      visited := visited + {current};
      traversed := traversed + 1;
      queue := QueueLinks(queue[1..], Links(g, current), visited);
    }
    EndExplored(g, seed, d, queue, qd, maxHops);
  }

  /** The benchmark's own graph, which has two cycles. */
  function Sites(): Graph {
    map["a" := ["b", "d"], "b" := ["c"], "c" := ["a"], "d" := ["e"], "e" := ["b"]]
  }

  lemma OneLinkFarther(g: Graph, a: string, m: string, b: string)
    requires Reachable(g, a, m) && b in Links(g, m)
    ensures Reachable(g, a, b)
  {
    var k: nat :| Walk(g, a, m, k);
    assert Walk(g, a, b, k + 1);
  }

  lemma SiteLinks()
    ensures "b" in Links(Sites(), "a") && "d" in Links(Sites(), "a")
    ensures "c" in Links(Sites(), "b") && "e" in Links(Sites(), "d")
    ensures Nodes(Sites(), "a") <= {"a", "b", "c", "d", "e"}
  {
  }

  /** All of its five pages are reachable, so the benchmark's verdict, five pages visited and an empty
      queue at limit 100, is what Traverse promises. */
  lemma SitesAreReachable()
    ensures |ReachableSet(Sites(), "a")| == 5
  {
    hide Sites, Links, Nodes, Reachable;
    var g, all := Sites(), {"a", "b", "c", "d", "e"};
    SiteLinks();
    SeedIsReachable(g, "a");
    OneLinkFarther(g, "a", "a", "b");
    OneLinkFarther(g, "a", "a", "d");
    OneLinkFarther(g, "a", "b", "c");
    OneLinkFarther(g, "a", "d", "e");
    forall n ensures n in ReachableSet(g, "a") <==> n in all {
      ReachableSetIs(g, "a", n);
    }
    assert ReachableSet(g, "a") == all;
  }

  lemma SeedIsReachable(g: Graph, seed: string)
    ensures Reachable(g, seed, seed)
  {
    assert Walk(g, seed, seed, 0);
  }
}
