// The one right answer to an expansion: every node in reach, nearest first,
// and that an ordered, cut list of them always exists and hangs together.
module GraphAnswers {
  import opened Sorting
  import opened Graph

  datatype Subgraph = Subgraph(nodes: seq<Found>, truncated: bool)

  // ---------------------------------------------------- the order of the nodes

  predicate Nearer(a: Found, b: Found) {
    if a.distance != b.distance then a.distance < b.distance
    else if a.node.kind != b.node.kind then StringLess(a.node.kind, b.node.kind)
    else StringLess(a.node.id, b.node.id)
  }

  lemma {:induction false} NearerOrder()
    ensures StrictOrder(Nearer)
  {
    StringOrder();
    hide StringLess;
    forall x ensures !Nearer(x, x) { }
    forall x, y ensures x == y || Nearer(x, y) || Nearer(y, x) {
      assert x == y || x.distance != y.distance || x.node.kind != y.node.kind || x.node.id != y.node.id;
    }
    forall x, y, z | Nearer(x, y) && Nearer(y, z) ensures Nearer(x, z) { }
  }

  // ------------------------------------------------------------- the answer

  // Every node within hops of a seed, with its distance, nearest first.
  ghost predicate Expansion(g: Edges, seeds: seq<Node>, hops: nat, full: seq<Found>) {
    && Ascending(full, Nearer)
    && forall f: Found :: f in full <==> f.distance <= hops && AtDistance(g, seeds, f.node, f.distance)
  }

  function Cut<T>(s: seq<T>, limit: nat): seq<T> { if |s| <= limit then s else s[..limit] }

  ghost predicate Answer(g: Edges, seeds: seq<Node>, hops: nat, maxNodes: nat, a: Subgraph) {
    exists full :: Expansion(g, seeds, hops, full) && a == Subgraph(Cut(full, maxNodes), |full| > maxNodes)
  }

  lemma {:induction false} ExpansionUnique(g: Edges, seeds: seq<Node>, hops: nat, a: seq<Found>, b: seq<Found>)
    requires Expansion(g, seeds, hops, a) && Expansion(g, seeds, hops, b)
    ensures a == b
  {
    hide AtDistance, Nearer;
    NearerOrder();
    AscendingUnique(a, b, Nearer);
  }

  // There is exactly one right answer to a request.
  lemma {:induction false} AnswerUnique(g: Edges, seeds: seq<Node>, hops: nat, maxNodes: nat, a: Subgraph, b: Subgraph)
    requires Answer(g, seeds, hops, maxNodes, a) && Answer(g, seeds, hops, maxNodes, b)
    ensures a == b
  {
    hide Expansion;
    var x :| Expansion(g, seeds, hops, x) && a == Subgraph(Cut(x, maxNodes), |x| > maxNodes);
    var y :| Expansion(g, seeds, hops, y) && b == Subgraph(Cut(y, maxNodes), |y| > maxNodes);
    ExpansionUnique(g, seeds, hops, x, y);
  }

  // A right answer goes by distance, then by type, then by id.
  lemma {:induction false} AnswerOrdered(g: Edges, seeds: seq<Node>, hops: nat, maxNodes: nat, a: Subgraph, i: nat,
                                         j: nat)
    requires Answer(g, seeds, hops, maxNodes, a) && i < j < |a.nodes|
    ensures var x, y := a.nodes[i], a.nodes[j];
            && x.distance <= y.distance
            && (x.distance == y.distance ==> x.node.kind == y.node.kind || StringLess(x.node.kind, y.node.kind))
            && (x.distance == y.distance && x.node.kind == y.node.kind ==> StringLess(x.node.id, y.node.id))
  {
    hide AtDistance, StringLess;
    var full :| Expansion(g, seeds, hops, full) && a == Subgraph(Cut(full, maxNodes), |full| > maxNodes);
    assert Nearer(full[i], full[j]);
  }

  predicate Adjacent(g: Edges, m: Node, n: Node) {
    exists i | 0 <= i < |g| :: Touches(g[i], m) && Other(g[i], m) == n
  }

  // A path of edges that starts at a seed.
  predicate SeedToNode(g: Edges, seeds: seq<Node>, p: Path) {
    && p[0] in seeds
    && forall j | 0 < j < |p| :: Adjacent(g, p[j - 1], p[j])
  }

  lemma {:induction false} PathGrows(g: Edges, seeds: seq<Node>, p: Path, i: nat, n: Node)
    requires SeedToNode(g, seeds, p) && i < |g| && Touches(g[i], End(p)) && Other(g[i], End(p)) == n
    ensures SeedToNode(g, seeds, p + [n])
  {
    hide Adjacent;
    var q := p + [n];
    forall j | 0 < j < |q| ensures Adjacent(g, q[j - 1], q[j]) {
      if j < |p| {
        assert q[j - 1] == p[j - 1] && q[j] == p[j];
      } else {
        assert q[j - 1] == End(p) && q[j] == n;
        EdgeJoins(g, i, End(p));
      }
    }
  }

  lemma EdgeJoins(g: Edges, i: nat, m: Node)
    requires i < |g| && Touches(g[i], m)
    ensures Adjacent(g, m, Other(g[i], m))
  {
  }

  // However many nodes are kept, each has a whole shortest path from a seed
  // among the kept ones.
  lemma {:induction false} KeptIsConnected(g: Edges, seeds: seq<Node>, hops: nat, full: seq<Found>, limit: nat,
                                           n: Node, d: nat)
    returns (p: Path)
    requires Expansion(g, seeds, hops, full) && Found(n, d) in Cut(full, limit)
    ensures |p| == d + 1 && End(p) == n && SeedToNode(g, seeds, p)
    ensures forall j | 0 <= j < |p| :: Found(p[j], j) in Cut(full, limit)
    decreases d
  {
    hide Within, SeedToNode, Nearer, Cut;
    assert Found(n, d) in full by { KeptIsFull(full, limit, Found(n, d)); }
    if d == 0 {
      SeedNear(g, seeds, n);
      p := [n];
      assert SeedToNode(g, seeds, p) by { SeedPath(g, seeds, n); }
    } else {
      var i, m := Closer(g, seeds, n, d);
      assert Found(m, d - 1) in full;
      assert Found(m, d - 1) in Cut(full, limit) by { EarlierKept(full, limit, Found(m, d - 1), Found(n, d)); }
      var q := KeptIsConnected(g, seeds, hops, full, limit, m, d - 1);
      PathGrows(g, seeds, q, i, n);
      p := q + [n];
    }
  }

  lemma SeedPath(g: Edges, seeds: seq<Node>, n: Node)
    requires n in seeds
    ensures SeedToNode(g, seeds, [n])
  {
  }

  lemma KeptIsFull(full: seq<Found>, limit: nat, f: Found)
    requires f in Cut(full, limit)
    ensures f in full
  {
  }

  lemma {:induction false} EarlierKept(full: seq<Found>, limit: nat, a: Found, b: Found)
    requires Ascending(full, Nearer) && a in full && b in Cut(full, limit) && a.distance < b.distance
    ensures a in Cut(full, limit)
  {
    hide Ascending, Nearer;
    var i :| 0 <= i < |full| && full[i] == a;
    var j :| 0 <= j < |Cut(full, limit)| && full[j] == b;
    if j < i { NotFarther(full, j, i); }
  }

  lemma NotFarther(full: seq<Found>, i: nat, j: nat)
    requires Ascending(full, Nearer) && i < j < |full|
    ensures full[i].distance <= full[j].distance
  {
    assert Nearer(full[i], full[j]);
  }

  // What the database answers: the groups of the walk with their least depths,
  // ordered, and no more than limit of them.
  ghost predicate QueryAnswer(g: Edges, seeds: seq<Node>, hops: nat, limit: nat, rows: seq<Found>) {
    exists full ::
      && Ascending(full, Nearer)
      && (forall f: Found :: f in full <==> MinDepth(g, seeds, hops, f.node, f.distance))
      && rows == Cut(full, limit)
  }

  lemma {:induction false} NoSeeds(g: Edges, seeds: seq<Node>, hops: nat, full: seq<Found>)
    requires Expansion(g, seeds, hops, full) && seeds == []
    ensures full == []
  {
    if full != [] {
      var f := full[0];
      assert f in full;
      var seed, t := ShortestTrail(g, seeds, f.node, f.distance);
      assert false;
    }
  }

  // --------------------------------------------------- an answer always exists

  predicate Known(g: Edges, seeds: seq<Node>, n: Node) {
    n in seeds || exists i | 0 <= i < |g| :: Touches(g[i], n)
  }

  function NodesOf(g: Edges, seeds: seq<Node>): (nodes: set<Node>)
    ensures forall n :: Known(g, seeds, n) ==> n in nodes
  {
    (set n | n in seeds) + (set i | 0 <= i < |g| :: g[i].source) + (set i | 0 <= i < |g| :: g[i].target)
  }

  lemma {:induction false} DistancesListed(g: Edges, seeds: seq<Node>, hops: nat, nodes: set<Node>)
    returns (list: seq<Found>)
    ensures Distinct(list)
    ensures forall f: Found ::
              f in list <==> f.node in nodes && f.distance <= hops && AtDistance(g, seeds, f.node, f.distance)
    decreases |nodes|
  {
    hide Within;
    if nodes == {} {
      list := [];
    } else {
      var n :| n in nodes;
      var rest := DistancesListed(g, seeds, hops, nodes - {n});
      list := rest;
      if Within(g, seeds, n, hops) {
        var d := HasDistance(g, seeds, n, hops);
        list := rest + [Found(n, d)];
        forall e: nat | AtDistance(g, seeds, n, e) ensures e == d { OneDistance(g, seeds, n, d, e); }
      } else {
        forall e: nat | e <= hops && AtDistance(g, seeds, n, e) ensures false { Farther(g, seeds, n, e, hops); }
      }
    }
  }

  // The recursive query always has an answer, and so has every request.
  lemma {:induction false} QueryHasAnswer(g: Edges, seeds: seq<Node>, hops: nat, limit: nat) returns (rows: seq<Found>)
    ensures QueryAnswer(g, seeds, hops, limit, rows)
    ensures exists full :: Expansion(g, seeds, hops, full) && rows == Cut(full, limit)
  {
    hide MinDepth, AtDistance, Nearer, Ascending;
    var list := DistancesListed(g, seeds, hops, NodesOf(g, seeds));
    NearerOrder();
    SortAscends(list, Nearer);
    var full := Sort(list, Nearer);
    rows := Cut(full, limit);
    forall f: Found ensures f in full <==> f.distance <= hops && AtDistance(g, seeds, f.node, f.distance) {
      if AtDistance(g, seeds, f.node, f.distance) { NearIsKnown(g, seeds, f.node, f.distance); }
    }
    forall f: Found ensures f in full <==> MinDepth(g, seeds, hops, f.node, f.distance) {
      WalkIsDistance(g, seeds, hops, f.node, f.distance);
    }
    assert Expansion(g, seeds, hops, full);
  }

  lemma NearIsKnown(g: Edges, seeds: seq<Node>, n: Node, d: nat)
    requires AtDistance(g, seeds, n, d)
    ensures Known(g, seeds, n)
  {
  }
}
