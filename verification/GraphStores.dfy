// The two graph stores and the fallback between them.
module GraphStores {
  import opened Wrappers
  import opened Sorting
  import opened Graph
  import opened GraphAnswers
  import opened GraphMerge
  import opened GraphHydration
  import opened Sets

  datatype Request = Request(project: string, knowledge: seq<string>, code: seq<string>, repositories: seq<string>,
                             maxHops: nat, maxNodes: nat, maxEdges: nat)

  datatype StoreError = ProjectionStale

  // ------------------------------------------------------------------ seeds

  function Tagged(kind: string, ids: seq<string>): seq<Node> {
    seq(|ids|, i requires 0 <= i < |ids| => Node(kind, ids[i]))
  }

  function SeedsOf(request: Request): seq<Node> {
    Tagged("knowledge_item", request.knowledge) + Tagged("code_entity", request.code)
    + Tagged("repository", request.repositories)
  }

  // Each id is a seed of its list's type, in the order of the lists.
  lemma {:induction false} SeedsAre(request: Request, i: nat)
    requires i < |request.knowledge| + |request.code| + |request.repositories|
    ensures var k, c := |request.knowledge|, |request.code|;
            && |SeedsOf(request)| == k + c + |request.repositories|
            && SeedsOf(request)[i] == if i < k then Node("knowledge_item", request.knowledge[i])
                                      else if i < k + c then Node("code_entity", request.code[i - k])
                                      else Node("repository", request.repositories[i - k - c])
  {
  }

  method AppendSeeds(seeds: seq<Node>, ids: seq<string>, kind: string) returns (r: seq<Node>)
    ensures r == seeds + Tagged(kind, ids)
  {
    r := seeds;
    for i := 0 to |ids|
      invariant r == seeds + Tagged(kind, ids)[..i]
    {
      r := r + [Node(kind, ids[i])];
    }
  }

  method CollectSeeds(request: Request) returns (seeds: seq<Node>)
    ensures seeds == SeedsOf(request)
  {
    seeds := AppendSeeds([], request.knowledge, "knowledge_item");
    seeds := AppendSeeds(seeds, request.code, "code_entity");
    seeds := AppendSeeds(seeds, request.repositories, "repository");
  }

  // The right answer, hydrated.
  ghost predicate Served(g: Edges, records: Records, request: Request, r: Hydrated) {
    HydratedAnswer(g, SeedsOf(request), request.maxHops, request.maxNodes, records, request.project, request.maxEdges,
                   r)
  }

  // ------------------------------------------------------ the recursive store

  method ExpandRecursive(g: Edges, records: Records, request: Request, rows: seq<Found>) returns (r: Hydrated)
    requires QueryAnswer(g, SeedsOf(request), request.maxHops, request.maxNodes + 1, rows)
    ensures Served(g, records, request, r)
  {
    hide MinDepth, AtDistance, Nearer, Ascending, Tagged, KeptIn, EdgesBetween, VisibleIn;
    var seeds := CollectSeeds(request);
    ghost var full :| Ascending(full, Nearer)
      && (forall f: Found :: f in full <==> MinDepth(g, seeds, request.maxHops, f.node, f.distance))
      && rows == Cut(full, request.maxNodes + 1);
    forall f: Found ensures f in full <==> f.distance <= request.maxHops && AtDistance(g, seeds, f.node, f.distance) {
      WalkIsDistance(g, seeds, request.maxHops, f.node, f.distance);
    }
    assert Expansion(g, seeds, request.maxHops, full);
    if |seeds| == 0 {
      NoSeeds(g, seeds, request.maxHops, full);
      NothingHydrated(g, records, request.project, request.maxEdges);
      assert Answer(g, seeds, request.maxHops, request.maxNodes, Subgraph([], false));
      return Hydrated([], [], false);
    }
    var nodes := rows;
    var truncated := |nodes| > request.maxNodes;
    if truncated { nodes := nodes[..request.maxNodes]; }
    assert nodes == Cut(full, request.maxNodes);
    assert Answer(g, seeds, request.maxHops, request.maxNodes, Subgraph(nodes, truncated));
    r := HydrateKnowledgeSubgraph(g, records, request.project, nodes, request.maxEdges);
    r := r.(truncated := r.truncated || truncated);
  }

  // ---------------------------------------------------------- the AGE store

  method MergeRows(m: map<Node, nat>, ghost offered: seq<Found>, nodes: seq<Found>) returns (nodeMap: map<Node, nat>)
    requires Least(m, offered)
    ensures Least(nodeMap, offered + nodes)
  {
    nodeMap := m;
    assert offered + nodes[..0] == offered;
    for i := 0 to |nodes|
      invariant Least(nodeMap, offered + nodes[..i])
    {
      var f := nodes[i];
      if f.node !in nodeMap || f.distance < nodeMap[f.node] {
        nodeMap := nodeMap[f.node := f.distance];
      }
      assert offered + nodes[..i + 1] == offered + nodes[..i] + [f];
    }
    assert nodes[..|nodes|] == nodes;
  }

  method MergeTrails(seeds: seq<Node>, answers: seq<seq<Found>>) returns (nodeMap: map<Node, nat>)
    requires |answers| == |seeds|
    ensures Least(nodeMap, Offers(seeds, answers))
  {
    nodeMap := map[];
    for k := 0 to |seeds|
      invariant Least(nodeMap, Offers(seeds[..k], answers[..k]))
    {
      nodeMap := nodeMap[seeds[k] := 0];
      nodeMap := MergeRows(nodeMap, Offers(seeds[..k], answers[..k]) + [Found(seeds[k], 0)], answers[k]);
      assert seeds[..k + 1][..k] == seeds[..k] && answers[..k + 1][..k] == answers[..k];
    }
    assert seeds[..|seeds|] == seeds && answers[..|seeds|] == answers;
  }

  method SortNodes(m: map<Node, nat>) returns (nodes: seq<Found>)
    ensures Lists(nodes, m)
  {
    var keys := m.Keys;
    nodes := [];
    while keys != {}
      invariant keys <= m.Keys
      invariant Distinct(nodes)
      invariant forall f: Found :: f in nodes <==> f.node in m && f.node !in keys && m[f.node] == f.distance
    {
      var n :| n in keys;
      nodes := nodes + [Found(n, m[n])];
      keys := keys - {n};
    }
    NearerOrder();
    SortAscends(nodes, Nearer);
    nodes := Sort(nodes, Nearer);
  }

  lemma OneAnswerEach(g: Edges, seeds: seq<Node>, hops: nat, limit: nat, answers: seq<seq<Found>>)
    requires Answers(g, seeds, hops, limit, answers)
    ensures |answers| == |seeds|
  {
  }

  // The exact condition under which a limit of rows does no harm.
  ghost predicate AgeSure(g: Edges, request: Request) {
    exists full :: Expansion(g, SeedsOf(request), request.maxHops, full)
                   && AnswerSure(g, SeedsOf(request), request.maxHops, request.maxNodes, full)
  }

  // current says whether the projection of every node met is up to date. No
  // node is reported that is out of reach or nearer than it is; one that is sure
  // to be offered is reported at its distance.
  method ExpandAge(g: Edges, records: Records, request: Request, answers: seq<seq<Found>>, current: bool)
    returns (r: Result<Hydrated, StoreError>)
    requires Answers(g, SeedsOf(request), request.maxHops, request.maxNodes + 1, answers)
    ensures r.Ok? <==> current
    ensures r.Ok? ==> forall f | f in r.value.nodes ::
              f.distance <= request.maxHops && Within(g, SeedsOf(request), f.node, f.distance)
    ensures r.Ok? ==> forall f, d: nat | f in r.value.nodes && AtDistance(g, SeedsOf(request), f.node, d)
                        && Sure(g, SeedsOf(request), request.maxHops, request.maxNodes + 1, iset{Found(f.node, d)}) ::
              f.distance == d
    ensures r.Ok? && AgeSure(g, request) ==> Served(g, records, request, r.value)
  {
    hide Within, AtDistance, Nearer, Ascending, Answers, Sure, AnswerSure, Tagged, Offers, Expansion, AgeSure,
         Hydration, Visible;
    if !current { return Err(ProjectionStale); }
    var seeds := CollectSeeds(request);
    OneAnswerEach(g, seeds, request.maxHops, request.maxNodes + 1, answers);
    var nodeMap := MergeTrails(seeds, answers);
    var nodes := SortNodes(nodeMap);
    ghost var list := nodes;
    forall f | f in list ensures f.distance <= request.maxHops && Within(g, seeds, f.node, f.distance) {
      OffersSound(g, seeds, request.maxHops, request.maxNodes + 1, answers, f);
    }
    forall f, d: nat | f in list && AtDistance(g, seeds, f.node, d)
      && Sure(g, seeds, request.maxHops, request.maxNodes + 1, iset{Found(f.node, d)})
      ensures f.distance == d
    {
      SureIsNearest(g, seeds, request.maxHops, request.maxNodes + 1, answers, nodeMap, Found(f.node, d));
    }
    if AgeSure(g, request) {
      var full := SureExpansion(g, request);
      SureAnswer(g, seeds, request.maxHops, request.maxNodes, full, answers, nodeMap, list);
    }
    var truncated := |nodes| > request.maxNodes;
    if truncated { nodes := nodes[..request.maxNodes]; }
    ghost var answer := Subgraph(nodes, truncated);
    HydrationFacts(g, records, request.project, answer, request.maxEdges);
    Combined(g, records, request.project, answer, request.maxEdges);
    var result := HydrateKnowledgeSubgraph(g, records, request.project, nodes, request.maxEdges);
    return Ok(result.(truncated := result.truncated || truncated));
  }

  lemma Combined(g: Edges, records: Records, project: string, a: Subgraph, maxEdges: nat)
    ensures var r := Hydration(g, records, project, Subgraph(a.nodes, false), maxEdges);
            Hydration(g, records, project, a, maxEdges) == r.(truncated := r.truncated || a.truncated)
  {
    hide EdgesBetween, KeptIn, VisibleIn;
  }

  lemma SureExpansion(g: Edges, request: Request) returns (full: seq<Found>)
    requires AgeSure(g, request)
    ensures Expansion(g, SeedsOf(request), request.maxHops, full)
    ensures AnswerSure(g, SeedsOf(request), request.maxHops, request.maxNodes, full)
  {
    hide Expansion, AnswerSure;
    full :| Expansion(g, SeedsOf(request), request.maxHops, full)
            && AnswerSure(g, SeedsOf(request), request.maxHops, request.maxNodes, full);
  }

  // No per-seed limit hit is one way to be sure.
  lemma {:induction false} UnlimitedIsSure(g: Edges, request: Request)
    requires AllRows(g, SeedsOf(request), request.maxHops, request.maxNodes + 1)
    ensures AgeSure(g, request)
  {
    hide Expansion, AllRows, AnswerSure, QueryAnswer;
    var rows := QueryHasAnswer(g, SeedsOf(request), request.maxHops, request.maxNodes);
    var full :| Expansion(g, SeedsOf(request), request.maxHops, full) && rows == Cut(full, request.maxNodes);
    AllRowsAreSure(g, SeedsOf(request), request.maxHops, request.maxNodes, full);
  }

  // The primary store's answer, or the fallback's if it fails: whenever the
  // primary is sure, a caller cannot tell which.
  method ExpandWithFallback(g: Edges, records: Records, request: Request, answers: seq<seq<Found>>, current: bool,
                            rows: seq<Found>)
    returns (r: Hydrated)
    requires Answers(g, SeedsOf(request), request.maxHops, request.maxNodes + 1, answers)
    requires QueryAnswer(g, SeedsOf(request), request.maxHops, request.maxNodes + 1, rows)
    ensures !current || AgeSure(g, request) ==> Served(g, records, request, r)
  {
    hide *;
    var primary := ExpandAge(g, records, request, answers, current);
    if primary.Ok? { return primary.value; }
    r := ExpandRecursive(g, records, request, rows);
  }

  // And only then: if it is not sure, the database may answer so that it is
  // wrong, and where every node is visible and no edge is cut the caller gets
  // that wrong answer.
  lemma {:induction false} UnsureCanBeWrong(g: Edges, request: Request)
    returns (answers: seq<seq<Found>>, m: map<Node, nat>, list: seq<Found>)
    requires !AgeSure(g, request)
    ensures Answers(g, SeedsOf(request), request.maxHops, request.maxNodes + 1, answers)
    ensures Least(m, Offers(SeedsOf(request), answers)) && Lists(list, m)
    ensures forall records | AllVisible(g, SeedsOf(request), records, request.project) && |g| <= request.maxEdges ::
              !Served(g, records, request, Hydration(g, records, request.project,
                                                     Reported(list, request.maxNodes), request.maxEdges))
  {
    hide Expansion, Answers, AnswerSure, QueryAnswer, Least, Lists, Offers, SeedsOf, Hydration, AllVisible, Known;
    var seeds, hops, maxNodes := SeedsOf(request), request.maxHops, request.maxNodes;
    var rows := QueryHasAnswer(g, seeds, hops, maxNodes);
    var full :| Expansion(g, seeds, hops, full) && rows == Cut(full, maxNodes);
    AnswerRightExactly(g, seeds, hops, maxNodes, full);
    answers, m, list :| Answers(g, seeds, hops, maxNodes + 1, answers) && Least(m, Offers(seeds, answers))
                        && Lists(list, m) && Reported(list, maxNodes) != Reported(full, maxNodes);
    assert Answer(g, seeds, hops, maxNodes, Reported(full, maxNodes));
    forall f | f in list ensures Known(g, seeds, f.node) {
      ListedIsKnown(g, seeds, hops, maxNodes, answers, m, list, f);
    }
    forall records | AllVisible(g, seeds, records, request.project) && |g| <= request.maxEdges
      ensures !Served(g, records, request, Hydration(g, records, request.project,
                                                     Reported(list, maxNodes), request.maxEdges))
    {
      NotServed(g, records, request, Reported(full, maxNodes), Reported(list, maxNodes));
    }
  }

  lemma {:induction false} ListedIsKnown(g: Edges, seeds: seq<Node>, hops: nat, maxNodes: nat, answers: seq<seq<Found>>,
                                         m: map<Node, nat>, list: seq<Found>, f: Found)
    requires Answers(g, seeds, hops, maxNodes + 1, answers) && Least(m, Offers(seeds, answers)) && Lists(list, m)
    requires f in list
    ensures Known(g, seeds, f.node)
  {
    hide Answers, Offers, Nearer, Ascending;
    OffersSound(g, seeds, hops, maxNodes + 1, answers, f);
  }

  lemma {:induction false} AnswerIsKnown(g: Edges, seeds: seq<Node>, hops: nat, maxNodes: nat, a: Subgraph, f: Found)
    requires Answer(g, seeds, hops, maxNodes, a) && f in a.nodes
    ensures Known(g, seeds, f.node)
  {
    hide Nearer, Ascending, AtDistance, Known;
    var full :| Expansion(g, seeds, hops, full) && a == Subgraph(Cut(full, maxNodes), |full| > maxNodes);
    NearIsKnown(g, seeds, f.node, f.distance);
  }

  lemma {:induction false} NotServed(g: Edges, records: Records, request: Request, right: Subgraph, wrong: Subgraph)
    requires AllVisible(g, SeedsOf(request), records, request.project) && |g| <= request.maxEdges
    requires Answer(g, SeedsOf(request), request.maxHops, request.maxNodes, right) && wrong != right
    requires forall f | f in wrong.nodes :: Known(g, SeedsOf(request), f.node)
    ensures !Served(g, records, request, Hydration(g, records, request.project, wrong, request.maxEdges))
  {
    hide Answer, SeedsOf, Hydration, Known, Visible;
    var seeds, hops, maxNodes := SeedsOf(request), request.maxHops, request.maxNodes;
    var r := Hydration(g, records, request.project, wrong, request.maxEdges);
    if Served(g, records, request, r) {
      var a :| Answer(g, seeds, hops, maxNodes, a) && r == Hydration(g, records, request.project, a, request.maxEdges);
      forall f | f in a.nodes ensures Known(g, seeds, f.node) { AnswerIsKnown(g, seeds, hops, maxNodes, a, f); }
      HydrationTells(g, records, request.project, a, wrong, request.maxEdges);
      AnswerUnique(g, seeds, hops, maxNodes, a, right);
    }
  }

  // --------------------------------------------- what a limit on rows can lose

  // Four parallel edges to one node and one edge to another: four rows are
  // allowed, and all four may be of the first node.
  const SEED := Node("repository", "s")
  const NEAR := Node("repository", "a")
  const LOST := Node("repository", "b")
  const PARALLEL: Edges := [Edge(SEED, NEAR), Edge(SEED, NEAR), Edge(SEED, NEAR), Edge(SEED, NEAR), Edge(SEED, LOST)]
  const REQUEST := Request("p", [], [], ["s"], 1, 3, 10)
  const FIRST_FOUR: seq<Found> := [Found(NEAR, 1), Found(NEAR, 1), Found(NEAR, 1), Found(NEAR, 1)]

  lemma {:induction false} FromSeed(g: Edges, i: nat)
    requires i < |g| && g[i].source == SEED
    ensures Extended(g, Trail(SEED, []), i) == [Trail(g[i].target, [i])] + Extended(g, Trail(SEED, []), i + 1)
  {
    assert [] + [i] == [i];
  }

  lemma {:induction false} ParallelTrails()
    ensures TrailRows(PARALLEL, SEED, 1) == FIRST_FOUR + [Found(LOST, 1)]
  {
    var t := Trail(SEED, []);
    FromSeed(PARALLEL, 4);
    FromSeed(PARALLEL, 3);
    FromSeed(PARALLEL, 2);
    FromSeed(PARALLEL, 1);
    FromSeed(PARALLEL, 0);
    assert Extended(PARALLEL, t, 5) == [];
    var all := [Trail(NEAR, [0]), Trail(NEAR, [1]), Trail(NEAR, [2]), Trail(NEAR, [3]), Trail(LOST, [4])];
    assert Extended(PARALLEL, t, 0) == all;
    OneEdge(PARALLEL, SEED);
    FiveEnds(all);
  }

  lemma OneEdge(g: Edges, seed: Node)
    ensures Trails(g, seed, 1) == Extended(g, Trail(seed, []), 0)
    ensures TrailRows(g, seed, 1) == TrailEnds(Trails(g, seed, 1), 1)
  {
    hide Extended, TrailEnds;
    var t := Trail(seed, []);
    assert Trails(g, seed, 0) == [t] && [t][1..] == [];
    assert ExtendedAll(g, [t]) == Extended(g, t, 0) + ExtendedAll(g, []);
    assert TrailRows(g, seed, 0) == [];
  }

  lemma {:induction false} FiveEnds(all: seq<Trail>)
    requires |all| == 5
    ensures TrailEnds(all, 1) == [Found(all[0].end, 1), Found(all[1].end, 1), Found(all[2].end, 1),
                                  Found(all[3].end, 1), Found(all[4].end, 1)]
  {
    assert TrailEnds(all[5..], 1) == [];
    assert all[4..][1..] == all[5..] && all[3..][1..] == all[4..] && all[2..][1..] == all[3..];
    assert all[1..][1..] == all[2..];
    assert TrailEnds(all[3..], 1) == [Found(all[3].end, 1)] + TrailEnds(all[4..], 1);
    assert TrailEnds(all[1..], 1) == [Found(all[1].end, 1)] + TrailEnds(all[2..], 1);
  }

  // The traversal then loses a node at distance one, and does not report truncation.
  lemma {:induction false} LimitLosesNode(m: map<Node, nat>)
    requires Least(m, Offers(SeedsOf(REQUEST), [FIRST_FOUR]))
    ensures Answers(PARALLEL, SeedsOf(REQUEST), REQUEST.maxHops, REQUEST.maxNodes + 1, [FIRST_FOUR])
    ensures !AllRows(PARALLEL, SeedsOf(REQUEST), REQUEST.maxHops, REQUEST.maxNodes + 1)
    ensures AtDistance(PARALLEL, SeedsOf(REQUEST), LOST, 1) && LOST !in m && |m| <= REQUEST.maxNodes
  {
    var seeds := SeedsOf(REQUEST);
    assert seeds == [SEED];
    ParallelTrails();
    forall f: Found ensures f in Offers(seeds, [FIRST_FOUR]) ==> f.node in {SEED, NEAR} {
      OfferedRows(seeds, [FIRST_FOUR], f);
    }
    assert m.Keys <= {SEED, NEAR};
    SmallSet(m);
    assert Touches(PARALLEL[4], LOST) && Other(PARALLEL[4], LOST) == SEED;
    SeedNear(PARALLEL, seeds, SEED);
    SeedNear(PARALLEL, seeds, LOST);
  }

  lemma SmallSet(m: map<Node, nat>)
    requires m.Keys <= {SEED, NEAR}
    ensures |m| <= 3
  {
    SubsetSize(m.Keys, {SEED, NEAR});
    assert |m| == |m.Keys|;
  }
}
