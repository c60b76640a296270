// Turning the nodes of an answer into what the caller may see: only nodes with
// a record of the project, and the edges between them.
module GraphHydration {
  import opened Sorting
  import opened Graph
  import opened GraphAnswers

  const KINDS: seq<string> := ["repository", "code_entity", "knowledge_item"]

  // The records that may be read, each with the project it belongs to.
  type Records = map<Node, string>

  // Edges are positions in the project's edges, which stand in the order of
  // type and id.
  datatype Hydrated = Hydrated(nodes: seq<Found>, edges: seq<nat>, truncated: bool)

  // ------------------------------------------------------------- what is meant

  predicate Visible(records: Records, project: string, n: Node) {
    n.kind in KINDS && n in records && records[n] == project
  }

  function VisibleIn(records: Records, project: string, nodes: seq<Found>): set<Node> {
    set f | f in nodes && Visible(records, project, f.node) :: f.node
  }

  function NodesIn(nodes: seq<Found>): set<Node> { set f | f in nodes :: f.node }

  function KeptIn(nodes: seq<Found>, visible: set<Node>): seq<Found> {
    if nodes == [] then []
    else
      var k := |nodes| - 1;
      KeptIn(nodes[..k], visible) + if nodes[k].node in visible then [nodes[k]] else []
  }

  predicate Between(g: Edges, visible: set<Node>, i: nat) {
    i < |g| && g[i].source in visible && g[i].target in visible
  }

  function EdgesBetween(g: Edges, visible: set<Node>): seq<nat> {
    if g == [] then []
    else
      var k := |g| - 1;
      EdgesBetween(g[..k], visible) + if Between(g, visible, k) then [k] else []
  }

  function Hydration(g: Edges, records: Records, project: string, a: Subgraph, maxEdges: nat): Hydrated {
    var visible := VisibleIn(records, project, a.nodes);
    var between := EdgesBetween(g, visible);
    Hydrated(KeptIn(a.nodes, visible), Cut(between, maxEdges), |between| > maxEdges || a.truncated)
  }

  lemma {:induction false} KeptExactly(nodes: seq<Found>, visible: set<Node>, f: Found)
    ensures f in KeptIn(nodes, visible) <==> f in nodes && f.node in visible
  {
    if nodes != [] {
      var k := |nodes| - 1;
      KeptExactly(nodes[..k], visible, f);
      assert nodes == nodes[..k] + [nodes[k]];
    }
  }

  lemma {:induction false} KeptAscends(nodes: seq<Found>, visible: set<Node>)
    requires Ascending(nodes, Nearer)
    ensures Ascending(KeptIn(nodes, visible), Nearer)
  {
    hide Nearer;
    if nodes != [] {
      var k := |nodes| - 1;
      var kept := KeptIn(nodes[..k], visible);
      KeptAscends(nodes[..k], visible);
      forall i | 0 <= i < |kept| ensures Nearer(kept[i], nodes[k]) {
        assert kept[i] in kept;
        KeptExactly(nodes[..k], visible, kept[i]);
      }
    }
  }

  lemma {:induction false} AllKept(nodes: seq<Found>, visible: set<Node>)
    requires forall f | f in nodes :: f.node in visible
    ensures KeptIn(nodes, visible) == nodes
  {
    if nodes != [] {
      var k := |nodes| - 1;
      assert nodes == nodes[..k] + [nodes[k]];
      AllKept(nodes[..k], visible);
    }
  }

  lemma {:induction false} BetweenExactly(g: Edges, visible: set<Node>, i: nat)
    ensures i in EdgesBetween(g, visible) <==> Between(g, visible, i)
  {
    if g != [] {
      var k := |g| - 1;
      BetweenExactly(g[..k], visible, i);
      assert i < k ==> g[..k][i] == g[i];
    }
  }

  lemma {:induction false} NothingHydrated(g: Edges, records: Records, project: string, maxEdges: nat)
    ensures Hydration(g, records, project, Subgraph([], false), maxEdges) == Hydrated([], [], false)
  {
    hide EdgesBetween;
    assert VisibleIn(records, project, []) == {};
    var between := EdgesBetween(g, {});
    if between != [] {
      assert between[0] in between;
      BetweenExactly(g, {}, between[0]);
      assert false;
    }
  }

  lemma {:induction false} BetweenAscends(g: Edges, visible: set<Node>)
    ensures |EdgesBetween(g, visible)| <= |g|
    ensures forall i, j | 0 <= i < j < |EdgesBetween(g, visible)| ::
              EdgesBetween(g, visible)[i] < EdgesBetween(g, visible)[j]
  {
    if g != [] {
      var k := |g| - 1;
      var front := EdgesBetween(g[..k], visible);
      BetweenAscends(g[..k], visible);
      forall i | 0 <= i < |front| ensures front[i] < k {
        assert front[i] in front;
        BetweenExactly(g[..k], visible, front[i]);
      }
    }
  }

  // ---------------------------------------------------------- the repository

  // One kind's records: those of the project join the nodes.
  method AddVisible(records: Records, project: string, nodes: set<Node>, kind: string, ids: seq<string>)
    returns (nodeSet: set<Node>)
    requires kind in KINDS
    ensures forall n :: n in nodeSet <==>
              n in nodes || (n.kind == kind && n.id in ids && Visible(records, project, n))
  {
    nodeSet := nodes;
    for i := 0 to |ids|
      invariant forall n :: n in nodeSet <==>
                  n in nodes || (n.kind == kind && n.id in ids[..i] && Visible(records, project, n))
    {
      var item := Node(kind, ids[i]);
      if item in records && records[item] == project { nodeSet := nodeSet + {item}; }
      assert ids[..i + 1] == ids[..i] + [ids[i]];
    }
    assert ids[..|ids|] == ids;
  }

  method IdsByType(nodes: seq<Found>) returns (ids: map<string, seq<string>>)
    ensures forall kind | kind in KINDS :: kind in ids
    ensures forall kind, id | kind in ids :: id in ids[kind] <==> exists f :: f in nodes && f.node == Node(kind, id)
  {
    ids := map["repository" := [], "code_entity" := [], "knowledge_item" := []];
    for i := 0 to |nodes|
      invariant forall kind | kind in KINDS :: kind in ids
      invariant forall f | f in nodes[..i] :: f.node.kind in ids
      invariant forall kind, id | kind in ids ::
                  id in ids[kind] <==> exists f :: f in nodes[..i] && f.node == Node(kind, id)
    {
      var node := nodes[i].node;
      var before := if node.kind in ids then ids[node.kind] else [];
      ids := ids[node.kind := before + [node.id]];
      assert nodes[..i + 1] == nodes[..i] + [nodes[i]];
    }
    assert nodes[..|nodes|] == nodes;
  }

  method HydrateKnowledgeSubgraph(g: Edges, records: Records, project: string, nodes: seq<Found>, maxEdges: nat)
    returns (r: Hydrated)
    ensures r == Hydration(g, records, project, Subgraph(nodes, false), maxEdges)
  {
    hide Visible;
    var ids := IdsByType(nodes);
    var nodeSet := AddVisible(records, project, {}, "repository", ids["repository"]);
    nodeSet := AddVisible(records, project, nodeSet, "code_entity", ids["code_entity"]);
    nodeSet := AddVisible(records, project, nodeSet, "knowledge_item", ids["knowledge_item"]);
    forall n ensures n in nodeSet <==> n in VisibleIn(records, project, nodes) {
      KnownKind(records, project, n);
      assert n.kind in KINDS ==> (n.id in ids[n.kind] <==> exists f :: f in nodes && f.node == n);
    }
    assert nodeSet == VisibleIn(records, project, nodes);
    var kept: seq<Found> := [];
    for i := 0 to |nodes|
      invariant kept == KeptIn(nodes[..i], nodeSet)
    {
      if nodes[i].node in nodeSet { kept := kept + [nodes[i]]; }
      assert nodes[..i + 1][..i] == nodes[..i];
    }
    assert nodes[..|nodes|] == nodes;
    var edges := Cut(EdgesBetween(g, nodeSet), maxEdges + 1);
    var truncated := false;
    if |edges| > maxEdges {
      edges := edges[..maxEdges];
      truncated := true;
    }
    return Hydrated(kept, edges, truncated);
  }

  lemma VisibleMeans(records: Records, project: string, n: Node)
    ensures Visible(records, project, n) <==>
              n in records && records[n] == project
              && (n.kind == "repository" || n.kind == "code_entity" || n.kind == "knowledge_item")
  {
    assert KINDS[0] == "repository" && KINDS[1] == "code_entity" && KINDS[2] == "knowledge_item";
  }

  lemma KnownKind(records: Records, project: string, n: Node)
    ensures Visible(records, project, n) ==>
              n.kind == "repository" || n.kind == "code_entity" || n.kind == "knowledge_item"
  {
  }

  // ------------------------------------------------------- what a caller gets

  ghost predicate HydratedAnswer(g: Edges, seeds: seq<Node>, hops: nat, maxNodes: nat, records: Records,
                                 project: string, maxEdges: nat, r: Hydrated) {
    exists a :: Answer(g, seeds, hops, maxNodes, a) && r == Hydration(g, records, project, a, maxEdges)
  }

  lemma {:induction false} HydrationFacts(g: Edges, records: Records, project: string, a: Subgraph, maxEdges: nat)
    ensures var r := Hydration(g, records, project, a, maxEdges);
            && |r.nodes| <= |a.nodes|
            && (forall f :: f in r.nodes <==> f in a.nodes && Visible(records, project, f.node))
            && r.edges == Cut(EdgesBetween(g, NodesIn(r.nodes)), maxEdges)
            && (r.truncated <==> a.truncated || |EdgesBetween(g, NodesIn(r.nodes))| > maxEdges)
  {
    hide Visible, EdgesBetween, KeptIn, Cut;
    var visible := VisibleIn(records, project, a.nodes);
    var kept := KeptIn(a.nodes, visible);
    KeptFewer(a.nodes, visible);
    forall f ensures f in kept <==> f in a.nodes && Visible(records, project, f.node) {
      KeptExactly(a.nodes, visible, f);
    }
    assert visible == NodesIn(kept);
  }

  lemma {:induction false} HydrationAscends(g: Edges, records: Records, project: string, a: Subgraph, maxEdges: nat)
    requires Ascending(a.nodes, Nearer)
    ensures Ascending(Hydration(g, records, project, a, maxEdges).nodes, Nearer)
  {
    hide Nearer;
    KeptAscends(a.nodes, VisibleIn(records, project, a.nodes));
  }

  lemma {:induction false} KeptFewer(nodes: seq<Found>, visible: set<Node>)
    ensures |KeptIn(nodes, visible)| <= |nodes|
  {
    if nodes != [] { KeptFewer(nodes[..|nodes| - 1], visible); }
  }

  ghost predicate AllVisible(g: Edges, seeds: seq<Node>, records: Records, project: string) {
    forall n | Known(g, seeds, n) :: Visible(records, project, n)
  }

  // Nothing hidden and no edge cut: what a caller gets tells the answer.
  lemma {:induction false} HydrationTells(g: Edges, records: Records, project: string, a: Subgraph, b: Subgraph,
                                          maxEdges: nat)
    requires forall f | f in a.nodes || f in b.nodes :: Visible(records, project, f.node)
    requires |g| <= maxEdges
    requires Hydration(g, records, project, a, maxEdges) == Hydration(g, records, project, b, maxEdges)
    ensures a == b
  {
    hide EdgesBetween, Visible;
    AllKept(a.nodes, VisibleIn(records, project, a.nodes));
    AllKept(b.nodes, VisibleIn(records, project, b.nodes));
    BetweenAscends(g, VisibleIn(records, project, a.nodes));
    BetweenAscends(g, VisibleIn(records, project, b.nodes));
  }

  // No edge leaves the reported nodes. Truncation is reported exactly when some
  // node in reach or some edge is missing; otherwise every visible node in reach
  // is there.
  lemma {:induction false} HydratedIsWhole(g: Edges, seeds: seq<Node>, hops: nat, maxNodes: nat, records: Records,
                                           project: string, maxEdges: nat, r: Hydrated)
    requires HydratedAnswer(g, seeds, hops, maxNodes, records, project, maxEdges, r)
    ensures Ascending(r.nodes, Nearer) && |r.nodes| <= maxNodes && |r.edges| <= maxEdges
    ensures forall f | f in r.nodes ::
              Visible(records, project, f.node) && f.distance <= hops && AtDistance(g, seeds, f.node, f.distance)
    ensures forall i | i in r.edges :: Between(g, NodesIn(r.nodes), i)
    ensures r.truncated <==> (exists full :: Expansion(g, seeds, hops, full) && |full| > maxNodes)
                             || exists i :: Between(g, NodesIn(r.nodes), i) && i !in r.edges
    ensures !r.truncated ==>
              forall f: Found | f.distance <= hops && AtDistance(g, seeds, f.node, f.distance)
                                && Visible(records, project, f.node) :: f in r.nodes
  {
    hide Nearer, AtDistance, Visible, EdgesBetween, NodesIn, Between, KeptIn, Hydration, VisibleIn;
    var a :| Answer(g, seeds, hops, maxNodes, a) && r == Hydration(g, records, project, a, maxEdges);
    var full :| Expansion(g, seeds, hops, full) && a == Subgraph(Cut(full, maxNodes), |full| > maxNodes);
    HydrationFacts(g, records, project, a, maxEdges);
    HydrationAscends(g, records, project, a, maxEdges);
    EdgesCut(g, NodesIn(r.nodes), maxEdges);
    forall other | Expansion(g, seeds, hops, other) ensures other == full {
      ExpansionUnique(g, seeds, hops, full, other);
    }
  }

  lemma {:induction false} EdgesCut(g: Edges, nodes: set<Node>, maxEdges: nat)
    ensures var edges := Cut(EdgesBetween(g, nodes), maxEdges);
            && (forall i | i in edges :: Between(g, nodes, i))
            && (|EdgesBetween(g, nodes)| > maxEdges <==> exists i :: Between(g, nodes, i) && i !in edges)
  {
    hide EdgesBetween, Between;
    var all := EdgesBetween(g, nodes);
    BetweenAscends(g, nodes);
    forall i ensures i in all <==> Between(g, nodes, i) { BetweenExactly(g, nodes, i); }
    if |all| > maxEdges {
      assert all[maxEdges] in all;
      assert Between(g, nodes, all[maxEdges]) && all[maxEdges] !in Cut(all, maxEdges);
    }
  }

  // ------------------------------------------- distances in what a caller gets

  predicate Positions(g: Edges, edges: seq<nat>) { forall i | i in edges :: i < |g| }

  // The reported edges as a graph of their own.
  function Induced(g: Edges, edges: seq<nat>): Edges
    requires Positions(g, edges)
  {
    seq(|edges|, k requires 0 <= k < |edges| => assert edges[k] in edges; g[edges[k]])
  }

  lemma {:induction false} PathWithin(g: Edges, seeds: seq<Node>, p: Path)
    requires SeedToNode(g, seeds, p)
    ensures Within(g, seeds, End(p), |p| - 1)
  {
    if |p| > 1 {
      var q := p[..|p| - 1];
      PathWithin(g, seeds, q);
      assert Adjacent(g, p[|p| - 2], p[|p| - 1]);
      NextWithin(g, seeds, End(q), End(p), |p| - 2);
    }
  }

  lemma {:induction false} NextWithin(g: Edges, seeds: seq<Node>, m: Node, n: Node, d: nat)
    requires Adjacent(g, m, n) && Within(g, seeds, m, d)
    ensures Within(g, seeds, n, d + 1)
  {
    var i :| 0 <= i < |g| && Touches(g[i], m) && Other(g[i], m) == n;
    StepOut(g, seeds, m, d, i);
  }

  // On a shortest path every node stands at its distance.
  lemma {:induction false} ShortestPath(g: Edges, seeds: seq<Node>, p: Path, j: nat)
    requires SeedToNode(g, seeds, p) && AtDistance(g, seeds, End(p), |p| - 1) && j < |p|
    ensures AtDistance(g, seeds, p[j], j)
  {
    hide Within, Adjacent;
    if j < |p| - 1 {
      var q := p[..|p| - 1];
      PathWithin(g, seeds, q);
      assert Adjacent(g, End(q), End(p));
      if |q| > 1 && Within(g, seeds, End(q), |q| - 2) { NextWithin(g, seeds, End(q), End(p), |q| - 2); }
      ShortestPath(g, seeds, q, j);
    }
  }

  lemma {:induction false} InducedPath(g: Edges, edges: seq<nat>, nodes: set<Node>, seeds: seq<Node>, n: Node, d: nat)
    returns (p: Path)
    requires Positions(g, edges) && forall i | i in edges :: Between(g, nodes, i)
    requires n in nodes && Within(Induced(g, edges), seeds, n, d)
    ensures |p| <= d + 1 && End(p) == n && SeedToNode(g, seeds, p) && forall m | m in p :: m in nodes
    decreases d
  {
    hide SeedToNode;
    if n in seeds {
      p := [n];
      SeedPath(g, seeds, n);
    } else {
      var h := Induced(g, edges);
      var k :| 0 <= k < |h| && Touches(h[k], n) && Within(h, seeds, Other(h[k], n), d - 1);
      var i := edges[k];
      assert i in edges && h[k] == g[i];
      StepBack(g[i], n);
      var q := InducedPath(g, edges, nodes, seeds, Other(g[i], n), d - 1);
      PathGrows(g, seeds, q, i, n);
      p := q + [n];
    }
  }

  lemma {:induction false} PathInduced(g: Edges, edges: seq<nat>, nodes: set<Node>, seeds: seq<Node>, p: Path)
    requires Positions(g, edges) && forall i :: i in edges <==> Between(g, nodes, i)
    requires SeedToNode(g, seeds, p) && forall m | m in p :: m in nodes
    ensures Within(Induced(g, edges), seeds, End(p), |p| - 1)
  {
    if |p| > 1 {
      var q, h := p[..|p| - 1], Induced(g, edges);
      PathInduced(g, edges, nodes, seeds, q);
      assert Adjacent(g, p[|p| - 2], p[|p| - 1]);
      var i :| 0 <= i < |g| && Touches(g[i], End(q)) && Other(g[i], End(q)) == End(p);
      assert End(q) in p && End(p) in p;
      StepBack(g[i], End(q));
      assert Between(g, nodes, i);
      var k :| 0 <= k < |edges| && edges[k] == i;
      assert h[k] == g[i];
      StepOut(h, seeds, End(q), |p| - 2, k);
    }
  }

  lemma BetweenPositions(g: Edges, nodes: set<Node>, edges: seq<nat>)
    requires forall i | i in edges :: Between(g, nodes, i)
    ensures Positions(g, edges)
  {
  }

  // A path of visible nodes, as long as the node is far.
  ghost predicate VisiblyReached(g: Edges, seeds: seq<Node>, records: Records, project: string, f: Found) {
    exists p: Path :: |p| == f.distance + 1 && End(p) == f.node && SeedToNode(g, seeds, p)
                      && forall n | n in p :: Visible(records, project, n)
  }

  // In the reported graph, unless edges were cut, a node is as near as reported
  // exactly if a shortest path to it is visible; it is never nearer.
  lemma {:induction false} ReportedDistance(g: Edges, seeds: seq<Node>, hops: nat, maxNodes: nat, records: Records,
                                            project: string, maxEdges: nat, r: Hydrated, f: Found)
    requires HydratedAnswer(g, seeds, hops, maxNodes, records, project, maxEdges, r) && f in r.nodes
    requires forall i :: i in r.edges <==> Between(g, NodesIn(r.nodes), i)
    ensures Positions(g, r.edges)
    ensures AtDistance(Induced(g, r.edges), seeds, f.node, f.distance)
            <==> VisiblyReached(g, seeds, records, project, f)
    ensures forall d: nat | Within(Induced(g, r.edges), seeds, f.node, d) :: f.distance <= d
  {
    hide Within, SeedToNode, Visible, Between, EdgesBetween, Induced, Nearer, Ascending, Cut;
    HydratedIsWhole(g, seeds, hops, maxNodes, records, project, maxEdges, r);
    assert AtDistance(g, seeds, f.node, f.distance);
    assert Positions(g, r.edges) by { BetweenPositions(g, NodesIn(r.nodes), r.edges); }
    var h := Induced(g, r.edges);
    forall d: nat | Within(h, seeds, f.node, d)
      ensures f.distance <= d && (d == f.distance ==> VisiblyReached(g, seeds, records, project, f))
    {
      var p := InducedPath(g, r.edges, NodesIn(r.nodes), seeds, f.node, d);
      PathWithin(g, seeds, p);
      if |p| - 1 < f.distance { Farther(g, seeds, f.node, |p| - 1, f.distance - 1); }
    }
    if VisiblyReached(g, seeds, records, project, f) {
      var p: Path :| |p| == f.distance + 1 && End(p) == f.node && SeedToNode(g, seeds, p)
                     && forall n | n in p :: Visible(records, project, n);
      PathReported(g, seeds, hops, maxNodes, records, project, maxEdges, r, f, p);
      PathInduced(g, r.edges, NodesIn(r.nodes), seeds, p);
    }
  }

  lemma {:induction false} PathReported(g: Edges, seeds: seq<Node>, hops: nat, maxNodes: nat, records: Records,
                                        project: string, maxEdges: nat, r: Hydrated, f: Found, p: Path)
    requires HydratedAnswer(g, seeds, hops, maxNodes, records, project, maxEdges, r) && f in r.nodes
    requires |p| == f.distance + 1 && End(p) == f.node && SeedToNode(g, seeds, p)
    requires forall n | n in p :: Visible(records, project, n)
    ensures forall n | n in p :: n in NodesIn(r.nodes)
  {
    hide AtDistance, SeedToNode, Visible, EdgesBetween, Nearer, Hydration, Cut;
    var a :| Answer(g, seeds, hops, maxNodes, a) && r == Hydration(g, records, project, a, maxEdges);
    var full :| Expansion(g, seeds, hops, full) && a == Subgraph(Cut(full, maxNodes), |full| > maxNodes);
    HydrationFacts(g, records, project, a, maxEdges);
    KeptIsFull(full, maxNodes, f);
    forall j | 0 <= j < |p| ensures p[j] in NodesIn(r.nodes) {
      ShortestPath(g, seeds, p, j);
      if j < f.distance { EarlierKept(full, maxNodes, Found(p[j], j), f); }
      assert p[j] in p;
      assert Found(p[j], j) in r.nodes;
    }
  }
}
