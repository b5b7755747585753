/** The greedy mesh builder: an adjacency matrix changed in place until every two nodes have
    enough paths of at most two hops. */
module MeshBuilder {
  import opened Mesh
  import opened MeshCost
  import opened Tables

  /** v is the smallest count over the pairs tried before row i, column j. */
  ghost predicate SmallestUpTo(links: Links, n: nat, v: nat, i: nat, j: nat) {
    && (forall a: nat, b: nat :: a < b < n && (a < i || (a == i && b < j)) ==> v <= Paths(links, n, a, b))
    && exists a: nat, b: nat :: Attains(links, n, v, a, b)
  }

  /** A candidate always beats the seed the search starts from. */
  lemma CandidateBeatsSeed(links: Links, n: nat, i: nat, j: nat)
    requires Simple(links, n) && Candidate(links, n, i, j)
    ensures |Outgoing(links, n, i)| + 1 + |Incoming(links, n, j)| + 1 <= 2 * n - 2
  {
    assert Outgoing(links, n, i) <= Nodes(n) - {i, j};
    assert Incoming(links, n, j) <= Nodes(n) - {i, j};
    SubsetCount(Outgoing(links, n, i), Nodes(n) - {i, j});
    SubsetCount(Incoming(links, n, j), Nodes(n) - {i, j});
    assert |Nodes(n) - {i, j}| == n - 2;
  }

  function Counted(links: Links, neighbours: seq<nat>, i: nat): set<nat> {
    set k | k in neighbours && (k == i || Adj(links, k, i))
  }

  lemma OneMoreCounted(links: Links, neighbours: seq<nat>, n: nat, i: nat)
    requires n !in neighbours
    ensures |Counted(links, neighbours + [n], i)| ==
            |Counted(links, neighbours, i)| + if n == i || Adj(links, n, i) then 1 else 0
  {
    assert Counted(links, neighbours + [n], i) ==
           Counted(links, neighbours, i) + if n == i || Adj(links, n, i) then {n} else {};
  }

  class Builder {
    const nodes: nat
    const conns: array2<int>

    /** The matrix holds zeros and ones. */
    ghost predicate Valid()
      reads this, conns
    {
      && conns.Length0 == nodes && conns.Length1 == nodes
      && forall i, j :: 0 <= i < nodes && 0 <= j < nodes ==> conns[i, j] == 0 || conns[i, j] == 1
    }

    ghost function Mesh(): Links
      requires conns.Length0 == nodes && conns.Length1 == nodes
      reads this, conns
    {
      set i: nat, j: nat | i < nodes && j < nodes && conns[i, j] != 0 :: (i, j)
    }

    constructor (n: nat)
      ensures nodes == n && fresh(conns) && Valid() && Mesh() == {}
    {
      nodes := n;
      conns := new int[n, n]((_, _) => 0);
    }

    predicate Linked(i: nat, j: nat)
      requires Valid() && i < nodes && j < nodes
      reads this, conns
      ensures Linked(i, j) <==> Adj(Mesh(), i, j)
    {
      conns[i, j] > 0 || conns[j, i] > 0
    }

    /** The neighbours of j, in increasing order. */
    method NeighboursOf(ghost links: Links, j: nat) returns (neighbours: seq<nat>)
      requires Valid() && j < nodes && Mesh() == links
      ensures forall k: nat :: k in neighbours <==> k < nodes && k != j && Adj(links, k, j)
      ensures forall a, b :: 0 <= a < b < |neighbours| ==> neighbours[a] < neighbours[b]
    {
      neighbours := [];
      for r := 0 to j
        invariant forall k: nat :: k in neighbours <==> k < r && Adj(links, k, j)
        invariant forall a :: 0 <= a < |neighbours| ==> neighbours[a] < r
        invariant forall a, b :: 0 <= a < b < |neighbours| ==> neighbours[a] < neighbours[b]
      {
        if Linked(r, j) { neighbours := neighbours + [r]; }
      }
      for c := j + 1 to nodes
        invariant forall k: nat :: k in neighbours <==> k < c && k != j && Adj(links, k, j)
        invariant forall a :: 0 <= a < |neighbours| ==> neighbours[a] < c
        invariant forall a, b :: 0 <= a < b < |neighbours| ==> neighbours[a] < neighbours[b]
      {
        if Linked(c, j) { neighbours := neighbours + [c]; }
      }
    }

    /** How many of the neighbours are i or linked to i. */
    method CountAmong(ghost links: Links, neighbours: seq<nat>, i: nat) returns (paths: nat)
      requires Valid() && i < nodes && Mesh() == links
      requires forall a :: 0 <= a < |neighbours| ==> neighbours[a] < nodes
      requires forall a, b :: 0 <= a < b < |neighbours| ==> neighbours[a] < neighbours[b]
      ensures paths == |Counted(links, neighbours, i)|
    {
      paths := 0;
      for t := 0 to |neighbours|
        invariant paths == |Counted(links, neighbours[..t], i)|
      {
        var n := neighbours[t];
        assert neighbours[..t + 1] == neighbours[..t] + [n] && n !in neighbours[..t];
        OneMoreCounted(links, neighbours[..t], n, i);
        if n == i || Linked(n, i) { paths := paths + 1; }
      }
      assert neighbours[..|neighbours|] == neighbours;
    }

    method CountPathsWithinTwo(ghost links: Links, i0: nat, j0: nat) returns (paths: nat)
      requires Valid() && i0 < nodes && j0 < nodes && Mesh() == links
      ensures i0 <= j0 ==> paths == Paths(links, nodes, i0, j0)
      ensures i0 > j0 ==> paths == Paths(links, nodes, j0, i0)
    {
      var i, j := i0, j0;
      if i > j { i, j := j, i; }
      var neighbours := NeighboursOf(links, j);
      assert forall a :: 0 <= a < |neighbours| ==> neighbours[a] in neighbours;
      paths := CountAmong(links, neighbours, i);
      assert Counted(links, neighbours, i) == PathSet(links, nodes, i, j);
    }

    method MinWithinTwo(ghost links: Links) returns (m: Option<nat>)
      requires Valid() && Mesh() == links
      ensures m.None? <==> nodes < 2
      ensures m.Some? ==> IsMin(links, nodes, m.value)
    {
      m := None;
      for i := 0 to nodes
        invariant Mesh() == links
        invariant m.Some? <==> i > 0 && nodes > 1
        invariant m.Some? ==> SmallestUpTo(links, nodes, m.value, i, 0)
      {
        for j := i + 1 to nodes
          invariant Mesh() == links
          invariant m.Some? <==> (i > 0 && nodes > 1) || j > i + 1
          invariant m.Some? ==> SmallestUpTo(links, nodes, m.value, i, j)
        {
          var c := CountPathsWithinTwo(links, i, j);
          assert Attains(links, nodes, c, i, j);
          if m.None? || c < m.value { m := Some(c); }
        }
      }
    }

    /** The inner loop of the count: pairs (i, j) with j after i. */
    method CountRow(ghost links: Links, i: nat, minPaths: int) returns (c: nat)
      requires Valid() && i < nodes && Mesh() == links
      ensures c == |PoorRow(links, nodes, minPaths, i)|
    {
      c := 0;
      ghost var counted: set<nat> := {};
      for j := i + 1 to nodes
        invariant Mesh() == links && c == |counted|
        invariant forall k: nat :: k in counted <==> i < k < j && Paths(links, nodes, i, k) <= minPaths
      {
        var paths := CountPathsWithinTwo(links, i, j);
        if paths <= minPaths {
          c := c + 1;
          counted := counted + {j};
        }
      }
      assert counted == PoorRow(links, nodes, minPaths, i);
    }

    method CountNotWithinTwo(ghost links: Links, minPaths: int) returns (c: nat)
      requires Valid() && Mesh() == links
      ensures c == |PoorSet(links, nodes, minPaths)|
    {
      c := 0;
      for i := 0 to nodes
        invariant Mesh() == links && c == PoorPairs(links, nodes, minPaths, i)
      {
        var row := CountRow(links, i, minPaths);
        c := c + row;
      }
      PoorPairsCount(links, nodes, minPaths, nodes);
    }

    method OutgoingConns(ghost links: Links, i: nat) returns (sum: int)
      requires Valid() && i < nodes && Mesh() == links
      ensures sum == |Outgoing(links, nodes, i)|
    {
      sum := 0;
      ghost var counted: set<nat> := {};
      for j := 0 to nodes
        invariant sum == |counted| && counted == set k: nat | k < j && (i, k) in links
      {
        sum := sum + conns[i, j];
        if conns[i, j] == 1 { counted := counted + {j}; }
      }
      assert counted == Outgoing(links, nodes, i);
    }

    method IncomingConns(ghost links: Links, j: nat) returns (sum: int)
      requires Valid() && j < nodes && Mesh() == links
      ensures sum == |Incoming(links, nodes, j)|
    {
      sum := 0;
      ghost var counted: set<nat> := {};
      for k := 0 to nodes
        invariant sum == |counted| && counted == set l: nat | l < k && (l, j) in links
      {
        sum := sum + conns[k, j];
        if conns[k, j] == 1 { counted := counted + {k}; }
      }
      assert counted == Incoming(links, nodes, j);
    }

    /** Tries one link and takes it back. */
    method TryLink(ghost links: Links, i: nat, j: nat, outgoing: nat, incoming: nat, minPaths: int)
      returns (c: Cost)
      requires Valid() && i < nodes && j < nodes && conns[i, j] == 0 && Mesh() == links
      requires outgoing == |Outgoing(links, nodes, i)| + 1
      requires incoming == |Incoming(links, nodes, j)| + 1
      modifies conns
      ensures Valid() && Mesh() == links
      ensures c == CostOf(links, nodes, minPaths, i, j)
    {
      conns[i, j] := 1;
      assert Mesh() == links + {(i, j)};
      var notWithin := CountNotWithinTwo(links + {(i, j)}, minPaths);
      c := Cost(outgoing + incoming, notWithin);
      conns[i, j] := 0;
      assert Mesh() == links;
    }

    /** Considers the link from i to j against the best one so far. */
    method TryPair(ghost links: Links, ghost seed: Cost, i: nat, j: nat, outgoing: nat, minPaths: int, best: Best)
      returns (r: Best)
      requires Valid() && i < nodes && j < nodes && Mesh() == links && Simple(links, nodes)
      requires seed.degrees == nodes + nodes && outgoing == |Outgoing(links, nodes, i)| + 1
      requires BestSoFar(links, nodes, Costs(links, nodes, minPaths), best, seed, i, j)
      modifies conns
      ensures Valid() && Mesh() == links
      ensures BestSoFar(links, nodes, Costs(links, nodes, minPaths), r, seed, i, j + 1)
    {
      var incoming := IncomingConns(links, j);
      if i == j || Linked(i, j) {
        BestSkip(links, nodes, Costs(links, nodes, minPaths), best, seed, i, j);
        return best;
      }
      var c := TryLink(links, i, j, outgoing, incoming + 1, minPaths);
      CandidateBeatsSeed(links, nodes, i, j);
      BestStep(links, nodes, Costs(links, nodes, minPaths), best, seed, i, j);
      if Less(c, best.cost) { return Best(c, i, j); } else { return best; }
    }

    /** Tries all links out of node i. */
    method TryRow(ghost links: Links, ghost seed: Cost, i: nat, minPaths: int, best: Best) returns (r: Best)
      requires Valid() && i < nodes && Mesh() == links && Simple(links, nodes)
      requires seed.degrees == nodes + nodes
      requires BestSoFar(links, nodes, Costs(links, nodes, minPaths), best, seed, i, 0)
      modifies conns
      ensures Valid() && Mesh() == links
      ensures BestSoFar(links, nodes, Costs(links, nodes, minPaths), r, seed, i + 1, 0)
    {
      r := best;
      var outgoing := OutgoingConns(links, i);
      for j := 0 to nodes
        invariant Valid() && Mesh() == links
        invariant BestSoFar(links, nodes, Costs(links, nodes, minPaths), r, seed, i, j)
      {
        r := TryPair(links, seed, i, j, outgoing + 1, minPaths, r);
      }
      BestRow(links, nodes, Costs(links, nodes, minPaths), r, seed, i);
    }

    method FindBest(ghost links: Links, minPaths: int) returns (bi: nat, bj: nat)
      requires Valid() && Mesh() == links && Simple(links, nodes)
      modifies conns
      ensures Valid() && Mesh() == links
      ensures if exists a: nat, b: nat :: Candidate(links, nodes, a, b)
              then FirstBest(links, nodes, Costs(links, nodes, minPaths), bi, bj) else (bi, bj) == (0, 0)
    {
      var notWithin := CountNotWithinTwo(links, minPaths);
      var seed := Cost(nodes + nodes, notWithin);
      var best := Best(seed, 0, 0);
      for i := 0 to nodes
        invariant Valid() && Mesh() == links
        invariant BestSoFar(links, nodes, Costs(links, nodes, minPaths), best, seed, i, 0)
      {
        best := TryRow(links, seed, i, minPaths, best);
      }
      BestEnd(links, nodes, Costs(links, nodes, minPaths), best, seed);
      bi, bj := best.i, best.j;
    }

    /** One round of the greedy loop: tries every link and makes the best one.  Without a
        candidate the seed position (0, 0) is set. */
    method AddBestConnection(ghost links: Links, minPaths: int) returns (bi: nat, bj: nat)
      requires Valid() && nodes > 0 && Mesh() == links && Simple(links, nodes)
      modifies conns
      ensures Valid() && Mesh() == links + {(bi, bj)}
      ensures if exists a: nat, b: nat :: Candidate(links, nodes, a, b)
              then FirstBest(links, nodes, Costs(links, nodes, minPaths), bi, bj) else (bi, bj) == (0, 0)
    {
      bi, bj := FindBest(links, minPaths);
      conns[bi, bj] := 1;
      assert Mesh() == links + {(bi, bj)};
    }

    /** Below n - 1 there is a candidate, so the link made is one. */
    method AddCandidate(ghost links: Links, minPaths: int) returns (bi: nat, bj: nat)
      requires Valid() && Mesh() == links && Simple(links, nodes)
      requires IsMin(links, nodes, minPaths) && minPaths < nodes - 1
      modifies conns
      ensures Valid() && Mesh() == links + {(bi, bj)}
      ensures FirstBest(links, nodes, Costs(links, nodes, minPaths), bi, bj)
    {
      ghost var x, y := CandidateExists(links, nodes, minPaths);
      bi, bj := AddBestConnection(links, minPaths);
    }

    /** A round as long as the smallest count is below n - 1: one new link, and no count falls. */
    method Round(ghost links: Links, minPaths: int) returns (m: nat, ghost link: (nat, nat))
      requires Valid() && Mesh() == links && Simple(links, nodes)
      requires IsMin(links, nodes, minPaths) && minPaths < nodes - 1
      modifies conns
      ensures Valid() && Mesh() == links + {link} && link !in links && Simple(links + {link}, nodes)
      ensures FirstBest(links, nodes, Costs(links, nodes, minPaths), link.0, link.1)
      ensures IsMin(links + {link}, nodes, m) && minPaths <= m
      ensures FreePairs(links + {link}, nodes, nodes) == FreePairs(links, nodes, nodes) - 1
    {
      var i, j := AddCandidate(links, minPaths);
      link := (i, j);
      var r := MinWithinTwo(links + {(i, j)});
      LinkAdded(links, nodes, minPaths, i, j, r.value);
      m := r.value;
    }

    /** A round on the way to a target. */
    method GreedyRound(ghost links: Links, minPaths: int, ghost target: int) returns (m: nat, ghost link: (nat, nat))
      requires Valid() && Mesh() == links && Simple(links, nodes)
      requires IsMin(links, nodes, minPaths) && minPaths < target <= nodes - 1
      modifies conns
      ensures Valid() && Mesh() == links + {link} && |links + {link}| == |links| + 1 && Simple(links + {link}, nodes)
      ensures GreedyLink(links, nodes, target, link) && IsMin(links + {link}, nodes, m)
      ensures FreePairs(links + {link}, nodes, nodes) == FreePairs(links, nodes, nodes) - 1
    {
      m, link := Round(links, minPaths);
    }

    /** The loop: rounds until the smallest count reaches the target. */
    method Grow(target: int) returns (rounds: nat, ghost made: seq<(nat, nat)>)
      requires Valid() && Mesh() == {} && target <= nodes - 1
      modifies conns
      ensures Valid() && Mesh() == LinksOf(made) && Simple(LinksOf(made), nodes)
      ensures AtLeast(LinksOf(made), nodes, target) && Greedy(made, nodes, target)
      ensures rounds == |made| == |LinksOf(made)| <= FreePairs({}, nodes, nodes)
    {
      var minPaths := 0;
      rounds, made := 0, [];
      if target >= 1 { NoLinks(nodes); }
      ghost var links: Links := {};
      while minPaths < target
        invariant Valid() && Mesh() == links == LinksOf(made) && Simple(links, nodes)
        invariant minPaths >= 0 && (target >= 1 ==> IsMin(links, nodes, minPaths))
        invariant rounds == |made| == |links| == FreePairs({}, nodes, nodes) - FreePairs(links, nodes, nodes)
        invariant Greedy(made, nodes, target)
        decreases FreePairs(links, nodes, nodes)
      {
        ghost var link;
        minPaths, link := GreedyRound(links, minPaths, target);
        OneMoreGreedy(made, nodes, target, link);
        links, made := links + {link}, made + [link];
        rounds := rounds + 1;
      }
    }
  }

  /** The best link so far and what it costs; the seed stands at (0, 0). */
  datatype Best = Best(cost: Cost, i: nat, j: nat)

  /** What the search knows when everything before row i, column j has been tried. */
  ghost predicate BestSoFar(links: Links, n: nat, cost: (nat, nat) -> Cost, best: Best, seed: Cost, i: nat, j: nat) {
    if best.cost == seed then
      best == Best(seed, 0, 0) && forall a: nat, b: nat :: Candidate(links, n, a, b) ==> !Before(a, b, i, j)
    else
      && Candidate(links, n, best.i, best.j) && best.cost == cost(best.i, best.j) && Before(best.i, best.j, i, j)
      && forall a: nat, b: nat :: Candidate(links, n, a, b) && Before(a, b, i, j) ==>
           NoBetter(cost, best.i, best.j, a, b)
  }

  lemma BestStep(links: Links, n: nat, cost: (nat, nat) -> Cost, best: Best, seed: Cost, i: nat, j: nat)
    requires BestSoFar(links, n, cost, best, seed, i, j) && Candidate(links, n, i, j)
    requires cost(i, j).degrees < seed.degrees
    ensures BestSoFar(links, n, cost, if Less(cost(i, j), best.cost) then Best(cost(i, j), i, j) else best,
                      seed, i, j + 1)
  {
    var c := cost(i, j);
    forall a: nat, b: nat | Candidate(links, n, a, b) && Before(a, b, i, j + 1) && Less(c, best.cost)
      ensures NoBetter(cost, i, j, a, b)
    {
      if (a, b) != (i, j) {
        assert Before(a, b, i, j);
        assert best.cost != seed;
        assert NoBetter(cost, best.i, best.j, a, b);
      }
    }
  }

  lemma BestSkip(links: Links, n: nat, cost: (nat, nat) -> Cost, best: Best, seed: Cost, i: nat, j: nat)
    requires BestSoFar(links, n, cost, best, seed, i, j) && !Candidate(links, n, i, j)
    ensures BestSoFar(links, n, cost, best, seed, i, j + 1)
  {
    assert forall a: nat, b: nat :: Candidate(links, n, a, b) && Before(a, b, i, j + 1) ==> Before(a, b, i, j);
  }

  lemma BestRow(links: Links, n: nat, cost: (nat, nat) -> Cost, best: Best, seed: Cost, i: nat)
    requires BestSoFar(links, n, cost, best, seed, i, n)
    ensures BestSoFar(links, n, cost, best, seed, i + 1, 0)
  {
    assert forall a: nat, b: nat :: Candidate(links, n, a, b) && Before(a, b, i + 1, 0) ==> Before(a, b, i, n);
  }

  lemma BestEnd(links: Links, n: nat, cost: (nat, nat) -> Cost, best: Best, seed: Cost)
    requires BestSoFar(links, n, cost, best, seed, n, 0)
    ensures if exists a: nat, b: nat :: Candidate(links, n, a, b)
            then FirstBest(links, n, cost, best.i, best.j) else (best.i, best.j) == (0, 0)
  {
    assert forall a: nat, b: nat :: Candidate(links, n, a, b) ==> Before(a, b, n, 0);
  }

  function LinksOf(made: seq<(nat, nat)>): Links { set p | p in made }

  /** A link that the builder makes on the way to a target: the first cheapest one, weighed with the
      smallest count so far, while that is below the target. */
  ghost predicate GreedyLink(links: Links, n: nat, target: int, link: (nat, nat)) {
    exists m: int :: m < target && IsMin(links, n, m) && FirstBest(links, n, Costs(links, n, m), link.0, link.1)
  }

  ghost predicate Greedy(made: seq<(nat, nat)>, n: nat, target: int) {
    forall k :: 0 <= k < |made| ==> GreedyLink(LinksOf(made[..k]), n, target, made[k])
  }

  lemma OneMoreGreedy(made: seq<(nat, nat)>, n: nat, target: int, link: (nat, nat))
    requires Greedy(made, n, target) && GreedyLink(LinksOf(made), n, target, link)
    ensures Greedy(made + [link], n, target) && LinksOf(made + [link]) == LinksOf(made) + {link}
  {
    var more := made + [link];
    forall k | 0 <= k < |more| ensures GreedyLink(LinksOf(more[..k]), n, target, more[k]) {
      assert more[..k] == made[..k];
      if k == |made| { assert made[..k] == made; }
    }
  }

  /** The whole builder, for any number of nodes and any target that a mesh can reach: the
      mesh it returns gives every two nodes enough paths, and it made the first cheapest link in each
      of at most n(n - 1)/2 rounds. */
  method Build(n: nat, target: int) returns (b: Builder, rounds: nat, ghost made: seq<(nat, nat)>)
    requires target <= n - 1
    ensures fresh(b) && fresh(b.conns) && b.nodes == n && b.Valid() && Simple(b.Mesh(), n)
    ensures AtLeast(b.Mesh(), n, target)
    ensures rounds == |made| == |b.Mesh()| && 2 * rounds <= n * (n - 1)
    ensures b.Mesh() == LinksOf(made) && Greedy(made, n, target)
  {
    b := new Builder(n);
    rounds, made := b.Grow(target);
    AllPairsFree(n, n);
  }

  /** What the mesh is for: after any target - 1 failures the other nodes stay within two hops. */
  lemma MeshToleratesFailures(links: Links, n: nat, target: int, down: set<nat>, i: nat, j: nat)
    requires AtLeast(links, n, target) && |down| < target
    requires i < n && j < n && i != j && i !in down && j !in down
    ensures WithinTwo(links, n, down, i, j)
  {
    PathsAreLinkPlusCommon(links, n, i, j);
    if i > j { PathsAreLinkPlusCommon(links, n, j, i); }
    SurvivesFailures(links, n, i, j, down);
  }

  /** How much two-hop connectivity a quorum of n nodes has to have. */
  function MinConnections(n: nat): int { if n <= 10 then 4 else 2 }

  /** A target below one is met without a round, one above n - 1 by no mesh: from five nodes on the
      script's targets are between them. */
  lemma MinConnectionsReachable(n: nat)
    ensures MinConnections(n) <= n - 1 <==> n >= 5
  {
  }

  /** The script for one number of nodes: up to ten of them any three may fail, and beyond that any
      one, and the others stay within two hops. */
  method BuildQuorum(n: nat) returns (b: Builder)
    requires n >= 5
    ensures fresh(b) && fresh(b.conns) && b.nodes == n && b.Valid() && Simple(b.Mesh(), n)
    ensures AtLeast(b.Mesh(), n, if n <= 10 then 4 else 2)
    ensures forall down: set<nat>, i: nat, j: nat ::
              |down| <= (if n <= 10 then 3 else 1) && i < n && j < n && i != j && i !in down && j !in down ==>
              WithinTwo(b.Mesh(), n, down, i, j)
    ensures exists made ::
              b.Mesh() == LinksOf(made) && |made| == |b.Mesh()| && Greedy(made, n, if n <= 10 then 4 else 2)
  {
    var rounds;
    ghost var made;
    b, rounds, made := Build(n, MinConnections(n));
    forall down: set<nat>, i: nat, j: nat |
      |down| <= (if n <= 10 then 3 else 1) && i < n && j < n && i != j && i !in down && j !in down
      ensures WithinTwo(b.Mesh(), n, down, i, j)
    {
      MeshToleratesFailures(b.Mesh(), n, MinConnections(n), down, i, j);
    }
  }
}
