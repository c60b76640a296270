// Bounded expansion of an undirected multigraph from a set of seeds: the
// reference meaning, and the two ways the stores enumerate paths.
module Graph {
  datatype Node = Node(kind: string, id: string)

  datatype Edge = Edge(source: Node, target: Node)

  // The edges of one project; an edge's identity is its position.
  type Edges = seq<Edge>

  datatype Found = Found(node: Node, distance: nat)

  predicate Touches(edge: Edge, n: Node) { edge.source == n || edge.target == n }

  // The end an edge leads to from n.
  function Other(edge: Edge, n: Node): Node {
    if edge.source == n then edge.target else edge.source
  }

  // ------------------------------------------------------------- what is meant

  // n can be reached from a seed in at most d steps, whatever the steps repeat.
  predicate Within(g: Edges, seeds: seq<Node>, n: Node, d: nat)
    decreases d
  {
    n in seeds
    || (d > 0 && exists i | 0 <= i < |g| :: Touches(g[i], n) && Within(g, seeds, Other(g[i], n), d - 1))
  }

  predicate AtDistance(g: Edges, seeds: seq<Node>, n: Node, d: nat) {
    Within(g, seeds, n, d) && (d > 0 ==> !Within(g, seeds, n, d - 1))
  }

  lemma {:induction false} Farther(g: Edges, seeds: seq<Node>, n: Node, d: nat, e: nat)
    requires Within(g, seeds, n, d) && d <= e
    ensures Within(g, seeds, n, e)
    decreases d
  {
    if n !in seeds {
      var i :| 0 <= i < |g| && Touches(g[i], n) && Within(g, seeds, Other(g[i], n), d - 1);
      Farther(g, seeds, Other(g[i], n), d - 1, e - 1);
    }
  }

  lemma {:induction false} OneDistance(g: Edges, seeds: seq<Node>, n: Node, d: nat, e: nat)
    requires AtDistance(g, seeds, n, d) && AtDistance(g, seeds, n, e)
    ensures d == e
  {
    if d < e { Farther(g, seeds, n, d, e - 1); }
    if e < d { Farther(g, seeds, n, e, d - 1); }
  }

  lemma {:induction false} HasDistance(g: Edges, seeds: seq<Node>, n: Node, d: nat) returns (e: nat)
    requires Within(g, seeds, n, d)
    ensures e <= d && AtDistance(g, seeds, n, e)
  {
    if d > 0 && Within(g, seeds, n, d - 1) { e := HasDistance(g, seeds, n, d - 1); } else { e := d; }
  }

  lemma {:induction false} StepBack(edge: Edge, n: Node)
    requires Touches(edge, n)
    ensures Touches(edge, Other(edge, n)) && Other(edge, Other(edge, n)) == n
  {
  }

  lemma {:induction false} StepOut(g: Edges, seeds: seq<Node>, n: Node, d: nat, i: nat)
    requires Within(g, seeds, n, d) && i < |g| && Touches(g[i], n)
    ensures Within(g, seeds, Other(g[i], n), d + 1)
  {
    StepBack(g[i], n);
  }

  // A node at distance d has a neighbour at distance d - 1.
  lemma {:induction false} Closer(g: Edges, seeds: seq<Node>, n: Node, d: nat) returns (i: nat, m: Node)
    requires AtDistance(g, seeds, n, d) && d > 0
    ensures i < |g| && Touches(g[i], m) && Other(g[i], m) == n && AtDistance(g, seeds, m, d - 1)
  {
    i :| 0 <= i < |g| && Touches(g[i], n) && Within(g, seeds, Other(g[i], n), d - 1);
    m := Other(g[i], n);
    StepBack(g[i], n);
    assert d > 1 ==> !Within(g, seeds, m, d - 2);
  }

  // --------------------------------------------- the recursive query's walk

  // A row of the walk carries its whole path; the node is its last one and the
  // depth the number of steps.
  type Path = p: seq<Node> | |p| > 0 witness [Node("", "")]

  function End(p: Path): Node { p[|p| - 1] }

  // One row joined with the edges: no node twice on a path.
  function Joined(g: Edges, p: Path): seq<Path> {
    if g == [] then []
    else (if Touches(g[0], End(p)) && Other(g[0], End(p)) !in p then [p + [Other(g[0], End(p))]] else [])
         + Joined(g[1..], p)
  }

  function JoinedAll(g: Edges, rows: seq<Path>): seq<Path> {
    if rows == [] then [] else Joined(g, rows[0]) + JoinedAll(g, rows[1..])
  }

  function SeedRows(seeds: seq<Node>): seq<Path> {
    if seeds == [] then [] else [[seeds[0]]] + SeedRows(seeds[1..])
  }

  // The rows of depth d.
  function WalkRows(g: Edges, seeds: seq<Node>, d: nat): seq<Path> {
    if d == 0 then SeedRows(seeds) else JoinedAll(g, WalkRows(g, seeds, d - 1))
  }

  lemma {:induction false} JoinedRows(g: Edges, p: Path, q: Path)
    ensures q in Joined(g, p) <==>
            exists i | 0 <= i < |g| ::
              Touches(g[i], End(p)) && Other(g[i], End(p)) !in p && q == p + [Other(g[i], End(p))]
  {
    if g != [] {
      JoinedRows(g[1..], p, q);
      assert forall i | 0 < i < |g| :: g[i] == g[1..][i - 1];
      assert forall i | 0 <= i < |g[1..]| :: g[1..][i] == g[i + 1];
    }
  }

  lemma {:induction false} JoinedAllRows(g: Edges, rows: seq<Path>, q: Path)
    ensures q in JoinedAll(g, rows) <==> exists p :: p in rows && q in Joined(g, p)
  {
    if rows != [] {
      JoinedAllRows(g, rows[1..], q);
      assert rows == [rows[0]] + rows[1..];
      assert q in JoinedAll(g, rows) <==> q in Joined(g, rows[0]) || q in JoinedAll(g, rows[1..]);
    }
  }

  lemma {:induction false} SeedRow(seeds: seq<Node>, q: Path)
    ensures q in SeedRows(seeds) <==> |q| == 1 && q[0] in seeds
  {
    if seeds != [] {
      SeedRow(seeds[1..], q);
      assert seeds == [seeds[0]] + seeds[1..];
      assert q in SeedRows(seeds) <==> q == [seeds[0]] || q in SeedRows(seeds[1..]);
    }
  }

  lemma {:induction false} RowsAreNear(g: Edges, seeds: seq<Node>, d: nat, q: Path)
    requires q in WalkRows(g, seeds, d)
    ensures |q| == d + 1 && forall k | 0 <= k < |q| :: Within(g, seeds, q[k], d)
  {
    hide Within, Touches, Other, Joined, JoinedAll, SeedRows;
    if d == 0 {
      SeedRow(seeds, q);
      SeedNear(g, seeds, q[0]);
    } else {
      JoinedAllRows(g, WalkRows(g, seeds, d - 1), q);
      var p :| p in WalkRows(g, seeds, d - 1) && q in Joined(g, p);
      JoinedRows(g, p, q);
      RowsAreNear(g, seeds, d - 1, p);
      var i :| 0 <= i < |g| && Touches(g[i], End(p)) && q == p + [Other(g[i], End(p))];
      StepOut(g, seeds, End(p), d - 1, i);
      forall k | 0 <= k < |p| ensures Within(g, seeds, p[k], d) { Farther(g, seeds, p[k], d - 1, d); }
    }
  }

  lemma SeedNear(g: Edges, seeds: seq<Node>, n: Node)
    ensures n in seeds <==> Within(g, seeds, n, 0)
  {
  }

  // A shortest path never meets a node twice, so the walk keeps it.
  lemma {:induction false} ShortestRow(g: Edges, seeds: seq<Node>, n: Node, d: nat) returns (q: Path)
    requires AtDistance(g, seeds, n, d)
    ensures q in WalkRows(g, seeds, d) && End(q) == n
    decreases d
  {
    hide Within, Touches, Other, Joined, JoinedAll, SeedRows;
    if d == 0 {
      q := [n];
      SeedNear(g, seeds, n);
      SeedRow(seeds, q);
    } else {
      var i, m := Closer(g, seeds, n, d);
      var p := ShortestRow(g, seeds, m, d - 1);
      q := p + [n];
      RowsAreNear(g, seeds, d - 1, p);
      JoinedRows(g, p, q);
      JoinedAllRows(g, WalkRows(g, seeds, d - 1), q);
    }
  }

  // A walk of at most hops steps ends at n, and d is the least depth of those.
  ghost predicate MinDepth(g: Edges, seeds: seq<Node>, hops: nat, n: Node, d: nat) {
    && d <= hops
    && (exists q :: q in WalkRows(g, seeds, d) && End(q) == n)
    && forall e: nat, q | e <= hops && q in WalkRows(g, seeds, e) && End(q) == n :: d <= e
  }

  // The walk over node-distinct paths computes undirected distance.
  lemma {:induction false} WalkIsDistance(g: Edges, seeds: seq<Node>, hops: nat, n: Node, d: nat)
    ensures MinDepth(g, seeds, hops, n, d) <==> d <= hops && AtDistance(g, seeds, n, d)
  {
    hide Within, WalkRows;
    forall e: nat, q | e <= hops && q in WalkRows(g, seeds, e) && End(q) == n ensures Within(g, seeds, n, e) {
      RowsAreNear(g, seeds, e, q);
    }
    if d <= hops && AtDistance(g, seeds, n, d) {
      var q := ShortestRow(g, seeds, n, d);
      forall e: nat, r | e <= hops && r in WalkRows(g, seeds, e) && End(r) == n ensures d <= e {
        if e < d { Farther(g, seeds, n, e, d - 1); }
      }
    }
    if MinDepth(g, seeds, hops, n, d) && d > 0 && Within(g, seeds, n, d - 1) {
      var e := HasDistance(g, seeds, n, d - 1);
      var q := ShortestRow(g, seeds, n, e);
    }
  }

  // ---------------------------------------------------- the traversal's trails

  // A trail uses no edge twice; it may come back to a node.
  datatype Trail = Trail(end: Node, used: seq<nat>)

  // The trail extended by each edge from position i on.
  function Extended(g: Edges, t: Trail, i: nat): seq<Trail>
    decreases |g| - i
  {
    if i >= |g| then []
    else (if Touches(g[i], t.end) && i !in t.used then [Trail(Other(g[i], t.end), t.used + [i])] else [])
         + Extended(g, t, i + 1)
  }

  function ExtendedAll(g: Edges, trails: seq<Trail>): seq<Trail> {
    if trails == [] then [] else Extended(g, trails[0], 0) + ExtendedAll(g, trails[1..])
  }

  // The trails of k edges from a seed.
  function Trails(g: Edges, seed: Node, k: nat): seq<Trail> {
    if k == 0 then [Trail(seed, [])] else ExtendedAll(g, Trails(g, seed, k - 1))
  }

  function TrailEnds(trails: seq<Trail>, k: nat): seq<Found> {
    if trails == [] then [] else [Found(trails[0].end, k)] + TrailEnds(trails[1..], k)
  }

  // Every row of the pattern -[*1..hops]- from the seed.
  function TrailRows(g: Edges, seed: Node, hops: nat): seq<Found> {
    if hops == 0 then [] else TrailRows(g, seed, hops - 1) + TrailEnds(Trails(g, seed, hops), hops)
  }

  lemma {:induction false} ExtendedTrails(g: Edges, t: Trail, from: nat, u: Trail)
    ensures u in Extended(g, t, from) <==>
            exists i | from <= i < |g| ::
              Touches(g[i], t.end) && i !in t.used && u == Trail(Other(g[i], t.end), t.used + [i])
    decreases |g| - from
  {
    if from < |g| { ExtendedTrails(g, t, from + 1, u); }
  }

  lemma {:induction false} ExtendedAllTrails(g: Edges, trails: seq<Trail>, u: Trail)
    ensures u in ExtendedAll(g, trails) <==> exists t :: t in trails && u in Extended(g, t, 0)
  {
    if trails != [] {
      ExtendedAllTrails(g, trails[1..], u);
      assert trails == [trails[0]] + trails[1..];
      assert u in ExtendedAll(g, trails) <==> u in Extended(g, trails[0], 0) || u in ExtendedAll(g, trails[1..]);
    }
  }

  lemma {:induction false} EndRows(trails: seq<Trail>, k: nat, f: Found)
    ensures f in TrailEnds(trails, k) <==> f.distance == k && exists t :: t in trails && t.end == f.node
  {
    if trails != [] {
      EndRows(trails[1..], k, f);
      assert trails == [trails[0]] + trails[1..];
      assert f in TrailEnds(trails, k) <==> f == Found(trails[0].end, k) || f in TrailEnds(trails[1..], k);
    }
  }

  lemma {:induction false} RowsOfTrails(g: Edges, seed: Node, hops: nat, f: Found)
    ensures f in TrailRows(g, seed, hops) <==>
            1 <= f.distance <= hops && exists t :: t in Trails(g, seed, f.distance) && t.end == f.node
  {
    hide Trails, TrailEnds;
    if hops > 0 {
      RowsOfTrails(g, seed, hops - 1, f);
      EndRows(Trails(g, seed, hops), hops, f);
    }
  }

  predicate UsesNear(g: Edges, seeds: seq<Node>, t: Trail, k: nat) {
    forall j | 0 <= j < |t.used| ::
      && t.used[j] < |g|
      && Within(g, seeds, g[t.used[j]].source, k) && Within(g, seeds, g[t.used[j]].target, k)
  }

  lemma {:induction false} TrailsAreNear(g: Edges, seeds: seq<Node>, seed: Node, k: nat, u: Trail)
    requires seed in seeds && u in Trails(g, seed, k)
    ensures Within(g, seeds, u.end, k) && UsesNear(g, seeds, u, k)
  {
    hide Within, Extended, ExtendedAll;
    if k == 0 {
      SeedNear(g, seeds, seed);
    } else {
      ExtendedAllTrails(g, Trails(g, seed, k - 1), u);
      var t :| t in Trails(g, seed, k - 1) && u in Extended(g, t, 0);
      ExtendedTrails(g, t, 0, u);
      TrailsAreNear(g, seeds, seed, k - 1, t);
      var i :| 0 <= i < |g| && Touches(g[i], t.end) && u == Trail(Other(g[i], t.end), t.used + [i]);
      StepOut(g, seeds, t.end, k - 1, i);
      Farther(g, seeds, t.end, k - 1, k);
      forall j | 0 <= j < |t.used|
        ensures Within(g, seeds, g[t.used[j]].source, k) && Within(g, seeds, g[t.used[j]].target, k)
      {
        Farther(g, seeds, g[t.used[j]].source, k - 1, k);
        Farther(g, seeds, g[t.used[j]].target, k - 1, k);
      }
    }
  }

  // A shortest path never uses an edge twice, so it is a trail from its seed.
  lemma {:induction false} ShortestTrail(g: Edges, seeds: seq<Node>, n: Node, d: nat) returns (seed: Node, u: Trail)
    requires AtDistance(g, seeds, n, d)
    ensures seed in seeds && u in Trails(g, seed, d) && u.end == n
    decreases d
  {
    hide Within, Extended, ExtendedAll;
    if d == 0 {
      SeedNear(g, seeds, n);
      seed, u := n, Trail(n, []);
    } else {
      var i, m := Closer(g, seeds, n, d);
      var t;
      seed, t := ShortestTrail(g, seeds, m, d - 1);
      u := Trail(n, t.used + [i]);
      TrailsAreNear(g, seeds, seed, d - 1, t);
      ExtendedTrails(g, t, 0, u);
      ExtendedAllTrails(g, Trails(g, seed, d - 1), u);
    }
  }
}
