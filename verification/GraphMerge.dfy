// Merging the traversal's rows by least distance, and exactly when the limit
// on rows leaves the answer right.
module GraphMerge {
  import opened Sorting
  import opened Graph
  import opened GraphAnswers

  // m maps each offered node to the least distance it is offered at.
  predicate Least(m: map<Node, nat>, offers: seq<Found>) {
    && (forall n | n in m :: Found(n, m[n]) in offers)
    && (forall f | f in offers :: f.node in m && m[f.node] <= f.distance)
  }

  // What is put into the node map: each seed at zero, then its rows.
  function Offers(seeds: seq<Node>, answers: seq<seq<Found>>): seq<Found> {
    if seeds == [] || |answers| != |seeds| then []
    else
      var k := |seeds| - 1;
      Offers(seeds[..k], answers[..k]) + [Found(seeds[k], 0)] + answers[k]
  }

  lemma {:induction false} OfferedRows(seeds: seq<Node>, answers: seq<seq<Found>>, f: Found)
    requires |answers| == |seeds|
    ensures f in Offers(seeds, answers) <==>
            exists i | 0 <= i < |seeds| :: f == Found(seeds[i], 0) || f in answers[i]
  {
    if seeds != [] {
      var k := |seeds| - 1;
      OfferedRows(seeds[..k], answers[..k], f);
      assert forall i | 0 <= i < k :: seeds[..k][i] == seeds[i] && answers[..k][i] == answers[i];
      assert Offers(seeds, answers) == Offers(seeds[..k], answers[..k]) + [Found(seeds[k], 0)] + answers[k];
      hide Offers;
      assert f in Offers(seeds, answers) <==>
             f in Offers(seeds[..k], answers[..k]) || f == Found(seeds[k], 0) || f in answers[k];
    }
  }

  // A database answers all the rows, in any order, or as many as the limit allows.
  ghost predicate Limited(rows: seq<Found>, all: seq<Found>, limit: nat) {
    if |all| <= limit then multiset(rows) == multiset(all)
    else |rows| == limit && multiset(rows) <= multiset(all)
  }

  lemma {:induction false} LimitedRows(rows: seq<Found>, all: seq<Found>, limit: nat, f: Found)
    requires Limited(rows, all, limit)
    ensures f in rows ==> f in all
    ensures |all| <= limit ==> (f in rows <==> f in all)
  {
    assert f in rows <==> f in multiset(rows);
    assert f in all <==> f in multiset(all);
  }

  // The answers to the traversal queries, one for each seed.
  ghost predicate Answers(g: Edges, seeds: seq<Node>, hops: nat, limit: nat, answers: seq<seq<Found>>) {
    |answers| == |seeds| && forall i | 0 <= i < |seeds| :: Limited(answers[i], TrailRows(g, seeds[i], hops), limit)
  }

  // No per-seed limit is hit.
  ghost predicate AllRows(g: Edges, seeds: seq<Node>, hops: nat, limit: nat) {
    forall i | 0 <= i < |seeds| :: |TrailRows(g, seeds[i], hops)| <= limit
  }

  lemma {:induction false} OffersSound(g: Edges, seeds: seq<Node>, hops: nat, limit: nat, answers: seq<seq<Found>>,
                                       f: Found)
    requires Answers(g, seeds, hops, limit, answers) && f in Offers(seeds, answers)
    ensures f.distance <= hops && Within(g, seeds, f.node, f.distance)
  {
    hide Within, TrailRows, Limited;
    OfferedRows(seeds, answers, f);
    var i :| 0 <= i < |seeds| && (f == Found(seeds[i], 0) || f in answers[i]);
    if f == Found(seeds[i], 0) {
      SeedNear(g, seeds, f.node);
    } else {
      LimitedRows(answers[i], TrailRows(g, seeds[i], hops), limit, f);
      RowsOfTrails(g, seeds[i], hops, f);
      var t :| t in Trails(g, seeds[i], f.distance) && t.end == f.node;
      TrailsAreNear(g, seeds, seeds[i], f.distance, t);
    }
  }

  lemma {:induction false} OffersComplete(g: Edges, seeds: seq<Node>, hops: nat, limit: nat, answers: seq<seq<Found>>,
                                          f: Found)
    requires Answers(g, seeds, hops, limit, answers) && AllRows(g, seeds, hops, limit)
    requires f.distance <= hops && AtDistance(g, seeds, f.node, f.distance)
    ensures f in Offers(seeds, answers)
  {
    hide Within, TrailRows, Limited, Trails;
    OfferedRows(seeds, answers, f);
    if f.distance == 0 {
      SeedNear(g, seeds, f.node);
      var i :| 0 <= i < |seeds| && seeds[i] == f.node;
      assert f == Found(seeds[i], 0);
    } else {
      var seed, t := ShortestTrail(g, seeds, f.node, f.distance);
      var i :| 0 <= i < |seeds| && seeds[i] == seed;
      RowsOfTrails(g, seed, hops, f);
      LimitedRows(answers[i], TrailRows(g, seeds[i], hops), limit, f);
    }
  }

  // The merged map is the distance map when no limit is hit.
  lemma {:induction false} MergedIsDistance(g: Edges, seeds: seq<Node>, hops: nat, limit: nat, answers: seq<seq<Found>>,
                                            m: map<Node, nat>, f: Found)
    requires Answers(g, seeds, hops, limit, answers) && AllRows(g, seeds, hops, limit)
    requires Least(m, Offers(seeds, answers))
    ensures f.node in m && m[f.node] == f.distance <==> f.distance <= hops && AtDistance(g, seeds, f.node, f.distance)
  {
    hide Within, Answers, AllRows, Offers;
    if f.node in m {
      var e := m[f.node];
      OffersSound(g, seeds, hops, limit, answers, Found(f.node, e));
      var d := HasDistance(g, seeds, f.node, e);
      OffersComplete(g, seeds, hops, limit, answers, Found(f.node, d));
      assert d == e;
      if AtDistance(g, seeds, f.node, f.distance) { OneDistance(g, seeds, f.node, f.distance, e); }
    } else if f.distance <= hops && AtDistance(g, seeds, f.node, f.distance) {
      OffersComplete(g, seeds, hops, limit, answers, f);
    }
  }

  // ------------------------------------------------ what a limit cannot lose

  // The rows that are not hits.
  ghost function Misses(all: seq<Found>, hits: iset<Found>): seq<Found> {
    if all == [] then []
    else (if all[0] in hits then [] else [all[0]]) + Misses(all[1..], hits)
  }

  // Too few rows miss for the database to answer with misses only.
  ghost predicate Certain(all: seq<Found>, limit: nat, hits: iset<Found>) {
    |Misses(all, hits)| < |all| && |Misses(all, hits)| < limit
  }

  lemma {:induction false} MissedCount(all: seq<Found>, hits: iset<Found>)
    ensures |Misses(all, hits)| <= |all| && (|Misses(all, hits)| == |all| ==> Misses(all, hits) == all)
  {
    if all != [] {
      MissedCount(all[1..], hits);
      assert all == [all[0]] + all[1..];
    }
  }

  lemma {:induction false} MissedRows(all: seq<Found>, hits: iset<Found>, x: Found)
    ensures multiset(Misses(all, hits))[x] == if x in hits then 0 else multiset(all)[x]
  {
    if all != [] {
      MissedRows(all[1..], hits, x);
      assert all == [all[0]] + all[1..];
    }
  }

  // For one row: the rows of other nodes or lengths are those beyond its own count.
  lemma {:induction false} MissesOfOne(all: seq<Found>, f: Found)
    ensures |Misses(all, iset{f})| == |all| - multiset(all)[f]
  {
    if all != [] {
      MissesOfOne(all[1..], f);
      assert all == [all[0]] + all[1..];
    }
  }

  lemma {:induction false} SubBagSize(a: multiset<Found>, b: multiset<Found>)
    requires a <= b
    ensures |a| <= |b|
  {
    assert b == a + (b - a);
  }

  lemma {:induction false} MissesOnly(rows: seq<Found>, all: seq<Found>, limit: nat, hits: iset<Found>)
    requires Limited(rows, all, limit) && forall f | f in rows :: f !in hits
    ensures !Certain(all, limit, hits)
  {
    var misses := multiset(Misses(all, hits));
    forall x ensures multiset(rows)[x] <= misses[x] {
      MissedRows(all, hits, x);
      if x in hits { assert x !in multiset(rows); }
    }
    SubBagSize(multiset(rows), misses);
    assert |rows| == |multiset(rows)| && |Misses(all, hits)| == |misses|;
    assert |all| <= limit ==> |rows| == |multiset(all)| == |all|;
  }

  lemma {:induction false} CertainRow(rows: seq<Found>, all: seq<Found>, limit: nat, hits: iset<Found>)
    requires Limited(rows, all, limit) && Certain(all, limit, hits)
    ensures exists f :: f in rows && f in hits
  {
    hide Limited, Certain;
    if forall f | f in rows :: f !in hits { MissesOnly(rows, all, limit, hits); }
  }

  lemma {:induction false} MissesAreRows(all: seq<Found>, hits: iset<Found>)
    ensures multiset(Misses(all, hits)) <= multiset(all)
    ensures forall f | f in Misses(all, hits) :: f !in hits
  {
    forall x ensures multiset(Misses(all, hits))[x] <= multiset(all)[x] { MissedRows(all, hits, x); }
    forall f | f in Misses(all, hits) ensures f !in hits {
      assert f in multiset(Misses(all, hits));
      MissedRows(all, hits, f);
    }
  }

  lemma {:induction false} PrefixBag(s: seq<Found>, n: nat)
    requires n <= |s|
    ensures multiset(s[..n]) <= multiset(s)
  {
    assert s == s[..n] + s[n..];
  }

  lemma {:induction false} MissingAnswer(all: seq<Found>, limit: nat, hits: iset<Found>) returns (rows: seq<Found>)
    requires !Certain(all, limit, hits)
    ensures Limited(rows, all, limit) && forall f | f in rows :: f !in hits
  {
    hide Misses;
    var misses := Misses(all, hits);
    MissedCount(all, hits);
    MissesAreRows(all, hits);
    if |all| <= limit {
      rows := all;
    } else {
      rows := misses[..limit];
      PrefixBag(misses, limit);
    }
  }

  // A seed is a hit, or some seed's query is certain to answer one.
  ghost predicate Sure(g: Edges, seeds: seq<Node>, hops: nat, limit: nat, hits: iset<Found>) {
    || (exists i | 0 <= i < |seeds| :: Found(seeds[i], 0) in hits)
    || (exists i | 0 <= i < |seeds| :: Certain(TrailRows(g, seeds[i], hops), limit, hits))
  }

  ghost predicate Hit(offers: seq<Found>, hits: iset<Found>) { exists f :: f in offers && f in hits }

  lemma {:induction false} SureIsOffered(g: Edges, seeds: seq<Node>, hops: nat, limit: nat, hits: iset<Found>,
                                         answers: seq<seq<Found>>)
    requires Sure(g, seeds, hops, limit, hits) && Answers(g, seeds, hops, limit, answers)
    ensures Hit(Offers(seeds, answers), hits)
  {
    hide Limited, TrailRows, Certain, Offers;
    if i: nat :| i < |seeds| && Found(seeds[i], 0) in hits {
      OfferedRows(seeds, answers, Found(seeds[i], 0));
    } else {
      var i :| 0 <= i < |seeds| && Certain(TrailRows(g, seeds[i], hops), limit, hits);
      CertainRow(answers[i], TrailRows(g, seeds[i], hops), limit, hits);
      var f :| f in answers[i] && f in hits;
      OfferedRows(seeds, answers, f);
    }
  }

  lemma {:induction false} UnsureIsLost(g: Edges, seeds: seq<Node>, hops: nat, limit: nat, hits: iset<Found>)
    returns (answers: seq<seq<Found>>)
    requires !Sure(g, seeds, hops, limit, hits)
    ensures Answers(g, seeds, hops, limit, answers) && !Hit(Offers(seeds, answers), hits)
  {
    hide Limited, TrailRows, Certain, Offers;
    answers := [];
    while |answers| < |seeds|
      invariant |answers| <= |seeds|
      invariant forall i | 0 <= i < |answers| :: Limited(answers[i], TrailRows(g, seeds[i], hops), limit)
      invariant forall i, f | 0 <= i < |answers| && f in answers[i] :: f !in hits
    {
      var rows := MissingAnswer(TrailRows(g, seeds[|answers|], hops), limit, hits);
      answers := answers + [rows];
    }
    forall f | f in Offers(seeds, answers) ensures f !in hits { OfferedRows(seeds, answers, f); }
  }

  // A row, or one of some rows, is offered whatever the database picks exactly
  // when it is sure.
  lemma {:induction false} AlwaysOffered(g: Edges, seeds: seq<Node>, hops: nat, limit: nat, hits: iset<Found>)
    ensures (forall answers | Answers(g, seeds, hops, limit, answers) :: Hit(Offers(seeds, answers), hits))
            <==> Sure(g, seeds, hops, limit, hits)
  {
    hide Sure, Answers, Hit, Offers;
    if Sure(g, seeds, hops, limit, hits) {
      forall answers | Answers(g, seeds, hops, limit, answers) ensures Hit(Offers(seeds, answers), hits) {
        SureIsOffered(g, seeds, hops, limit, hits, answers);
      }
    } else {
      var answers := UnsureIsLost(g, seeds, hops, limit, hits);
    }
  }

  // --------------------------------------------------- when the map is right

  ghost predicate DistanceMap(g: Edges, seeds: seq<Node>, hops: nat, m: map<Node, nat>) {
    forall f: Found ::
      f.node in m && m[f.node] == f.distance <==> f.distance <= hops && AtDistance(g, seeds, f.node, f.distance)
  }

  ghost predicate MapSure(g: Edges, seeds: seq<Node>, hops: nat, limit: nat) {
    forall f: Found | f.distance <= hops && AtDistance(g, seeds, f.node, f.distance) ::
      Sure(g, seeds, hops, limit, iset{f})
  }

  // A node that is sure to be offered at its distance gets it.
  lemma {:induction false} SureIsNearest(g: Edges, seeds: seq<Node>, hops: nat, limit: nat, answers: seq<seq<Found>>,
                                         m: map<Node, nat>, f: Found)
    requires Answers(g, seeds, hops, limit, answers) && Least(m, Offers(seeds, answers))
    requires AtDistance(g, seeds, f.node, f.distance) && Sure(g, seeds, hops, limit, iset{f})
    ensures f.node in m && m[f.node] == f.distance
  {
    hide Within, Answers, Offers, Sure;
    SureIsOffered(g, seeds, hops, limit, iset{f}, answers);
    assert f in Offers(seeds, answers);
    OffersSound(g, seeds, hops, limit, answers, Found(f.node, m[f.node]));
    if m[f.node] < f.distance { Farther(g, seeds, f.node, m[f.node], f.distance - 1); }
  }

  // Nothing is in the map that is not in reach, or nearer than it is.
  lemma {:induction false} MergedIsSound(g: Edges, seeds: seq<Node>, hops: nat, limit: nat, answers: seq<seq<Found>>,
                                         m: map<Node, nat>, n: Node) returns (d: nat)
    requires Answers(g, seeds, hops, limit, answers) && Least(m, Offers(seeds, answers)) && n in m
    ensures d <= m[n] <= hops && AtDistance(g, seeds, n, d)
  {
    hide Within, Answers, Offers;
    OffersSound(g, seeds, hops, limit, answers, Found(n, m[n]));
    d := HasDistance(g, seeds, n, m[n]);
  }

  lemma {:induction false} SureMap(g: Edges, seeds: seq<Node>, hops: nat, limit: nat, answers: seq<seq<Found>>,
                                   m: map<Node, nat>)
    requires MapSure(g, seeds, hops, limit)
    requires Answers(g, seeds, hops, limit, answers) && Least(m, Offers(seeds, answers))
    ensures DistanceMap(g, seeds, hops, m)
  {
    hide Within, Answers, Offers, Sure, AtDistance, Least;
    forall f: Found
      ensures f.node in m && m[f.node] == f.distance <==> f.distance <= hops && AtDistance(g, seeds, f.node, f.distance)
    {
      if f.distance <= hops && AtDistance(g, seeds, f.node, f.distance) {
        SureIsNearest(g, seeds, hops, limit, answers, m, f);
      }
      if f.node in m {
        var d := MergedIsSound(g, seeds, hops, limit, answers, m, f.node);
        SureIsNearest(g, seeds, hops, limit, answers, m, Found(f.node, d));
      }
    }
  }

  lemma {:induction false} LeastExists(offers: seq<Found>) returns (m: map<Node, nat>)
    ensures Least(m, offers)
  {
    if offers == [] {
      m := map[];
    } else {
      var rest := LeastExists(offers[1..]);
      var f := offers[0];
      m := if f.node in rest && rest[f.node] <= f.distance then rest else rest[f.node := f.distance];
      assert offers == [f] + offers[1..];
    }
  }

  // The merged map is the distance map for every answer the database may give
  // exactly when every node in reach is sure to be offered at its distance.
  lemma {:induction false} MapRightExactly(g: Edges, seeds: seq<Node>, hops: nat, limit: nat)
    ensures (forall answers, m | Answers(g, seeds, hops, limit, answers) && Least(m, Offers(seeds, answers)) ::
               DistanceMap(g, seeds, hops, m))
            <==> MapSure(g, seeds, hops, limit)
  {
    hide Within, Answers, Offers, Sure, AtDistance;
    if MapSure(g, seeds, hops, limit) {
      forall answers, m | Answers(g, seeds, hops, limit, answers) && Least(m, Offers(seeds, answers))
        ensures DistanceMap(g, seeds, hops, m)
      {
        SureMap(g, seeds, hops, limit, answers, m);
      }
    } else {
      var f: Found :| f.distance <= hops && AtDistance(g, seeds, f.node, f.distance)
                      && !Sure(g, seeds, hops, limit, iset{f});
      var answers := UnsureIsLost(g, seeds, hops, limit, iset{f});
      var m := LeastExists(Offers(seeds, answers));
      NotMapped(g, seeds, hops, m, Offers(seeds, answers), f);
    }
  }

  lemma {:induction false} NotMapped(g: Edges, seeds: seq<Node>, hops: nat, m: map<Node, nat>, offers: seq<Found>,
                                     f: Found)
    requires Least(m, offers) && !Hit(offers, iset{f}) && f.distance <= hops && AtDistance(g, seeds, f.node, f.distance)
    ensures !DistanceMap(g, seeds, hops, m)
  {
    hide AtDistance;
    assert f.node in m && m[f.node] == f.distance ==> f in offers;
  }

  // ------------------------------------------------ when the answer is right

  // The nodes of the map, nearest first.
  ghost predicate Lists(list: seq<Found>, m: map<Node, nat>) {
    && Ascending(list, Nearer)
    && forall f: Found :: f in list <==> f.node in m && m[f.node] == f.distance
  }

  function Reported(list: seq<Found>, maxNodes: nat): Subgraph { Subgraph(Cut(list, maxNodes), |list| > maxNodes) }

  // The rows of nodes that are not kept.
  ghost function Beyond(kept: seq<Found>): iset<Found> {
    iset f: Found | forall k | k in kept :: k.node != f.node
  }

  // Every node to be kept is sure to be offered at its distance, and if some are
  // not kept, one of those is sure to be offered at all.
  ghost predicate AnswerSure(g: Edges, seeds: seq<Node>, hops: nat, maxNodes: nat, full: seq<Found>) {
    var kept := Cut(full, maxNodes);
    && (forall f | f in kept :: Sure(g, seeds, hops, maxNodes + 1, iset{f}))
    && (|full| > maxNodes ==> Sure(g, seeds, hops, maxNodes + 1, Beyond(kept)))
  }

  lemma {:induction false} NotNearer(f: Found, near: Found, far: Found)
    requires Nearer(f, near) && near.node == far.node && near.distance <= far.distance
    ensures Nearer(f, far)
  {
    hide StringLess;
  }

  // A list that has all of kept, and otherwise only what comes after, starts with it.
  lemma {:induction false} StartsWith(kept: seq<Found>, list: seq<Found>)
    requires Ascending(kept, Nearer) && Ascending(list, Nearer)
    requires forall f | f in kept :: f in list
    requires forall x, f | x in list && x !in kept && f in kept :: Nearer(f, x)
    ensures |kept| <= |list| && list[..|kept|] == kept
  {
    hide Nearer;
    NearerOrder();
    if kept != [] {
      assert kept[0] in list;
      assert list[0] in list;
      assert list[0] == kept[0] by { FirstIsFirst(kept, list); }
      TailOf(kept, list);
      StartsWith(kept[1..], list[1..]);
      assert list == [list[0]] + list[1..] && kept == [kept[0]] + kept[1..];
    }
  }

  lemma {:induction false} LeastFirst(s: seq<Found>, y: Found)
    requires Ascending(s, Nearer) && y in s
    ensures y == s[0] || Nearer(s[0], y)
  {
    hide Nearer;
    var i :| 0 <= i < |s| && s[i] == y;
  }

  lemma {:induction false} FirstIsFirst(kept: seq<Found>, list: seq<Found>)
    requires Ascending(kept, Nearer) && Ascending(list, Nearer) && kept != [] && kept[0] in list
    requires forall x, f | x in list && x !in kept && f in kept :: Nearer(f, x)
    ensures list[0] == kept[0]
  {
    hide Nearer, Ascending;
    NearerOrder();
    LeastFirst(list, kept[0]);
    if list[0] in kept { LeastFirst(kept, list[0]); }
  }

  lemma {:induction false} TailOf(kept: seq<Found>, list: seq<Found>)
    requires Ascending(kept, Nearer) && Ascending(list, Nearer) && kept != [] && list != [] && list[0] == kept[0]
    requires forall f | f in kept :: f in list
    requires forall x, f | x in list && x !in kept && f in kept :: Nearer(f, x)
    ensures Ascending(kept[1..], Nearer) && Ascending(list[1..], Nearer)
    ensures forall f | f in kept[1..] :: f in list[1..]
    ensures forall x, f | x in list[1..] && x !in kept[1..] && f in kept[1..] :: Nearer(f, x)
  {
    hide Nearer, Ascending;
    NearerOrder();
    forall y
      ensures y in kept[1..] <==> y in kept && y != kept[0]
      ensures y in list[1..] <==> y in list && y != list[0]
    {
      TailElement(kept, Nearer, y);
      TailElement(list, Nearer, y);
    }
    TailAscends(kept);
    TailAscends(list);
  }

  lemma {:induction false} TailAscends(s: seq<Found>)
    requires Ascending(s, Nearer) && s != []
    ensures Ascending(s[1..], Nearer)
  {
    hide Nearer;
    forall i, j | 0 <= i < j < |s[1..]| ensures Nearer(s[1..][i], s[1..][j]) {
      assert s[1..][i] == s[i + 1] && s[1..][j] == s[j + 1];
    }
  }

  lemma {:induction false} KeptBeforeRest(full: seq<Found>, maxNodes: nat, f: Found, x: Found)
    requires Ascending(full, Nearer) && f in Cut(full, maxNodes) && x in full && x !in Cut(full, maxNodes)
    ensures Nearer(f, x)
  {
    hide Nearer;
    var i :| 0 <= i < |Cut(full, maxNodes)| && full[i] == f;
    var j :| 0 <= j < |full| && full[j] == x;
    assert j < |Cut(full, maxNodes)| ==> Cut(full, maxNodes)[j] == x;
  }

  lemma {:induction false} SureAnswer(g: Edges, seeds: seq<Node>, hops: nat, maxNodes: nat, full: seq<Found>,
                                      answers: seq<seq<Found>>, m: map<Node, nat>, list: seq<Found>)
    requires Expansion(g, seeds, hops, full) && AnswerSure(g, seeds, hops, maxNodes, full)
    requires Answers(g, seeds, hops, maxNodes + 1, answers) && Least(m, Offers(seeds, answers)) && Lists(list, m)
    ensures Reported(list, maxNodes) == Reported(full, maxNodes)
  {
    hide Within, AtDistance, Answers, Offers, Sure, Least, Nearer, Ascending, Beyond, Cut;
    var kept := Cut(full, maxNodes);
    CutFacts(full, maxNodes);
    forall f | f in kept ensures f in list {
      SureIsNearest(g, seeds, hops, maxNodes + 1, answers, m, f);
    }
    forall x, f | x in list && x !in kept && f in kept ensures Nearer(f, x) {
      OthersAreFarther(g, seeds, hops, maxNodes, full, answers, m, x, f);
    }
    StartsWith(kept, list);
    if |full| > maxNodes {
      SureIsOffered(g, seeds, hops, maxNodes + 1, Beyond(kept), answers);
      var x := OneBeyond(kept, m, list, Offers(seeds, answers));
      assert list[..|list|] == list;
    } else {
      forall x | x in list ensures x in kept {
        var d := MergedIsSound(g, seeds, hops, maxNodes + 1, answers, m, x.node);
        assert Found(x.node, d) in kept;
      }
      NearerOrder();
      AscendingUnique(kept, list, Nearer);
    }
    CutOfPrefix(list, kept, maxNodes);
  }

  lemma CutFacts(full: seq<Found>, maxNodes: nat)
    ensures forall f | f in Cut(full, maxNodes) :: f in full
    ensures |full| <= maxNodes ==> Cut(full, maxNodes) == full
    ensures |full| > maxNodes ==> |Cut(full, maxNodes)| == maxNodes
    ensures Ascending(full, Nearer) ==> Ascending(Cut(full, maxNodes), Nearer)
  {
    hide Nearer;
  }

  lemma CutOfPrefix(list: seq<Found>, kept: seq<Found>, maxNodes: nat)
    requires |kept| <= |list| && list[..|kept|] == kept && (|list| > maxNodes ==> |kept| == maxNodes)
    requires |list| <= maxNodes ==> list == kept
    ensures Cut(list, maxNodes) == kept
  {
  }

  lemma {:induction false} OthersAreFarther(g: Edges, seeds: seq<Node>, hops: nat, maxNodes: nat, full: seq<Found>,
                                            answers: seq<seq<Found>>, m: map<Node, nat>, x: Found, f: Found)
    requires Expansion(g, seeds, hops, full) && AnswerSure(g, seeds, hops, maxNodes, full)
    requires Answers(g, seeds, hops, maxNodes + 1, answers) && Least(m, Offers(seeds, answers))
    requires x.node in m && m[x.node] == x.distance && x !in Cut(full, maxNodes) && f in Cut(full, maxNodes)
    ensures Nearer(f, x)
  {
    hide Within, AtDistance, Answers, Offers, Sure, Least, Nearer, Ascending, Beyond, Cut;
    var d := MergedIsSound(g, seeds, hops, maxNodes + 1, answers, m, x.node);
    var near := Found(x.node, d);
    CutFacts(full, maxNodes);
    if near in Cut(full, maxNodes) { SureIsNearest(g, seeds, hops, maxNodes + 1, answers, m, near); }
    KeptBeforeRest(full, maxNodes, f, near);
    NotNearer(f, near, x);
  }

  lemma {:induction false} OneBeyond(kept: seq<Found>, m: map<Node, nat>, list: seq<Found>, offers: seq<Found>)
    returns (x: Found)
    requires Least(m, offers) && Lists(list, m) && Hit(offers, Beyond(kept))
    ensures x in list && x !in kept
  {
    hide Ascending, Nearer;
    var f :| f in offers && f in Beyond(kept);
    x := Found(f.node, m[f.node]);
  }

  lemma {:induction false} KeysListed(m: map<Node, nat>, keys: set<Node>) returns (list: seq<Found>)
    requires keys <= m.Keys
    ensures Distinct(list)
    ensures forall f: Found :: f in list <==> f.node in keys && m[f.node] == f.distance
    decreases |keys|
  {
    if keys == {} {
      list := [];
    } else {
      var n :| n in keys;
      var rest := KeysListed(m, keys - {n});
      list := rest + [Found(n, m[n])];
    }
  }

  lemma {:induction false} ListExists(m: map<Node, nat>) returns (list: seq<Found>)
    ensures Lists(list, m)
  {
    hide Nearer, Ascending;
    var found := KeysListed(m, m.Keys);
    NearerOrder();
    SortAscends(found, Nearer);
    list := Sort(found, Nearer);
  }

  // Whatever the rows were, the two lists cannot agree without what was lost.
  lemma {:induction false} LostIsWrong(full: seq<Found>, maxNodes: nat, m: map<Node, nat>, list: seq<Found>,
                                       offers: seq<Found>)
    requires Least(m, offers) && Lists(list, m)
    requires Reported(list, maxNodes) == Reported(full, maxNodes)
    ensures forall f | f in Cut(full, maxNodes) :: Hit(offers, iset{f})
    ensures |full| > maxNodes ==> Hit(offers, Beyond(Cut(full, maxNodes)))
  {
    hide Nearer;
    NearerOrder();
    var kept := Cut(full, maxNodes);
    forall f | f in kept ensures Hit(offers, iset{f}) {
      assert f in list;
      assert f in offers;
    }
    if |full| > maxNodes {
      var x := list[maxNodes];
      assert x in list && x in offers;
      forall k | k in kept ensures k.node != x.node {
        var i :| 0 <= i < maxNodes && list[i] == k;
        assert Nearer(list[i], list[maxNodes]);
      }
      assert x in Beyond(kept);
    }
  }

  // What the store reports is right for every answer of the database exactly
  // when the kept nodes, and one beyond them if there is any, are sure.
  lemma {:induction false} AnswerRightExactly(g: Edges, seeds: seq<Node>, hops: nat, maxNodes: nat, full: seq<Found>)
    requires Expansion(g, seeds, hops, full)
    ensures (forall answers, m, list |
               Answers(g, seeds, hops, maxNodes + 1, answers) && Least(m, Offers(seeds, answers)) && Lists(list, m) ::
               Reported(list, maxNodes) == Reported(full, maxNodes))
            <==> AnswerSure(g, seeds, hops, maxNodes, full)
  {
    hide Expansion, Answers, Offers, Least, Lists, Reported, Sure, Hit, Cut, Beyond;
    if AnswerSure(g, seeds, hops, maxNodes, full) {
      forall answers, m, list |
        Answers(g, seeds, hops, maxNodes + 1, answers) && Least(m, Offers(seeds, answers)) && Lists(list, m)
        ensures Reported(list, maxNodes) == Reported(full, maxNodes)
      {
        SureAnswer(g, seeds, hops, maxNodes, full, answers, m, list);
      }
    } else {
      var hits := Unsure(g, seeds, hops, maxNodes, full);
      var answers := UnsureIsLost(g, seeds, hops, maxNodes + 1, hits);
      var m := LeastExists(Offers(seeds, answers));
      var list := ListExists(m);
      if Reported(list, maxNodes) == Reported(full, maxNodes) {
        LostIsWrong(full, maxNodes, m, list, Offers(seeds, answers));
      }
    }
  }

  lemma Unsure(g: Edges, seeds: seq<Node>, hops: nat, maxNodes: nat, full: seq<Found>) returns (hits: iset<Found>)
    requires !AnswerSure(g, seeds, hops, maxNodes, full)
    ensures !Sure(g, seeds, hops, maxNodes + 1, hits)
    ensures (exists f :: f in Cut(full, maxNodes) && hits == iset{f})
            || (|full| > maxNodes && hits == Beyond(Cut(full, maxNodes)))
  {
    hide Sure, Cut, Beyond;
    var kept := Cut(full, maxNodes);
    if f :| f in kept && !Sure(g, seeds, hops, maxNodes + 1, iset{f}) {
      hits := iset{f};
    } else {
      hits := Beyond(kept);
    }
  }

  // Without a limit hit everything in reach is sure.
  lemma {:induction false} AllRowsAreSure(g: Edges, seeds: seq<Node>, hops: nat, maxNodes: nat, full: seq<Found>)
    requires Expansion(g, seeds, hops, full) && AllRows(g, seeds, hops, maxNodes + 1)
    ensures AnswerSure(g, seeds, hops, maxNodes, full)
  {
    hide Answers, Offers, Sure, AllRows, Lists, Cut, Nearer, Beyond, Within, AtDistance;
    forall answers, m, list |
      Answers(g, seeds, hops, maxNodes + 1, answers) && Least(m, Offers(seeds, answers)) && Lists(list, m)
      ensures Reported(list, maxNodes) == Reported(full, maxNodes)
    {
      MergedList(g, seeds, hops, maxNodes + 1, full, answers, m, list);
    }
    AnswerRightExactly(g, seeds, hops, maxNodes, full);
  }

  lemma {:induction false} MergedList(g: Edges, seeds: seq<Node>, hops: nat, limit: nat, full: seq<Found>,
                                      answers: seq<seq<Found>>, m: map<Node, nat>, list: seq<Found>)
    requires Expansion(g, seeds, hops, full) && AllRows(g, seeds, hops, limit)
    requires Answers(g, seeds, hops, limit, answers) && Least(m, Offers(seeds, answers)) && Lists(list, m)
    ensures list == full
  {
    hide Answers, Offers, AllRows, Nearer, Within, AtDistance, Least, Ascending;
    forall f: Found ensures f in list <==> f in full { MergedIsDistance(g, seeds, hops, limit, answers, m, f); }
    NearerOrder();
    AscendingUnique(list, full, Nearer);
  }
}
