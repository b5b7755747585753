/** What the mesh builder weighs a link by, and which link it makes. */
module MeshCost {
  import opened Mesh

  function Outgoing(links: Links, n: nat, i: nat): set<nat> { set j: nat | j < n && (i, j) in links }

  function Incoming(links: Links, n: nat, j: nat): set<nat> { set k: nat | k < n && (k, j) in links }

  /** The nodes after i that have no more than m paths to i. */
  function PoorRow(links: Links, n: nat, m: int, i: nat): set<nat> {
    set j: nat | i < j < n && Paths(links, n, i, j) <= m
  }

  /** The pairs with no more than m paths whose smaller node is below i. */
  function PoorPairs(links: Links, n: nat, m: int, i: nat): nat {
    if i == 0 then 0 else PoorPairs(links, n, m, i - 1) + |PoorRow(links, n, m, i - 1)|
  }

  /** The pairs with no more than m paths. */
  function PoorSet(links: Links, n: nat, m: int): set<(nat, nat)> { PoorBelow(links, n, m, n) }

  function PoorBelow(links: Links, n: nat, m: int, k: nat): set<(nat, nat)> {
    set i: nat, j: nat | i < k && j < n && i < j && Paths(links, n, i, j) <= m :: (i, j)
  }

  /** What the builder weighs: the degrees a new link leads to, then the poor pairs it leaves. */
  datatype Cost = Cost(degrees: nat, poor: nat)

  function CostOf(links: Links, n: nat, m: int, i: nat, j: nat): Cost {
    Cost(|Outgoing(links, n, i)| + 1 + |Incoming(links, n, j)| + 1, |PoorSet(links + {(i, j)}, n, m)|)
  }

  function Costs(links: Links, n: nat, m: int): (nat, nat) -> Cost {
    (i: nat, j: nat) => CostOf(links, n, m, i, j)
  }

  predicate Less(a: Cost, b: Cost) {
    a.degrees < b.degrees || (a.degrees == b.degrees && a.poor < b.poor)
  }

  /** Row-major order, in which the candidates are tried. */
  predicate Before(i: nat, j: nat, a: nat, b: nat) { i < a || (i == a && j < b) }

  /** (i, j) costs no more than any candidate, and less than any that was tried before it. */
  ghost predicate FirstBest(links: Links, n: nat, cost: (nat, nat) -> Cost, i: nat, j: nat) {
    && Candidate(links, n, i, j)
    && forall a: nat, b: nat :: Candidate(links, n, a, b) ==> NoBetter(cost, i, j, a, b)
  }

  ghost predicate NoBetter(cost: (nat, nat) -> Cost, i: nat, j: nat, a: nat, b: nat) {
    && !Less(cost(a, b), cost(i, j))
    && (Before(a, b, i, j) ==> Less(cost(i, j), cost(a, b)))
  }

  // ----- what is counted

  function Paired(i: nat, s: set<nat>): set<(nat, nat)> { set j | j in s :: (i, j) }

  lemma {:induction false} PairedCount(i: nat, s: set<nat>)
    ensures |Paired(i, s)| == |s|
    decreases s
  {
    if s != {} {
      var j :| j in s;
      PairedCount(i, s - {j});
      assert Paired(i, s) == Paired(i, s - {j}) + {(i, j)};
    }
  }

  lemma UnionCount<T>(a: set<T>, b: set<T>, c: set<T>)
    requires c == a + b && a !! b
    ensures |c| == |a| + |b|
  {
  }

  lemma OneMoreRow(links: Links, n: nat, m: int, i: nat)
    requires i < n
    ensures |PoorBelow(links, n, m, i + 1)| == |PoorBelow(links, n, m, i)| + |PoorRow(links, n, m, i)|
  {
    var row := Paired(i, PoorRow(links, n, m, i));
    forall p ensures p in PoorBelow(links, n, m, i + 1) <==> p in PoorBelow(links, n, m, i) || p in row {
      assert p in row <==> p.0 == i && p.1 in PoorRow(links, n, m, i);
    }
    PairedCount(i, PoorRow(links, n, m, i));
    UnionCount(PoorBelow(links, n, m, i), row, PoorBelow(links, n, m, i + 1));
  }

  /** Row by row the builder counts the pairs. */
  lemma {:induction false} PoorPairsCount(links: Links, n: nat, m: int, k: nat)
    requires k <= n
    ensures PoorPairs(links, n, m, k) == |PoorBelow(links, n, m, k)|
  {
    if k == 0 {
      assert PoorBelow(links, n, m, 0) == {};
    } else {
      PoorPairsCount(links, n, m, k - 1);
      OneMoreRow(links, n, m, k - 1);
    }
  }

  /** There are poor pairs unless every two nodes have more than m paths. */
  lemma PoorSetEmptyExactly(links: Links, n: nat, m: int)
    ensures PoorSet(links, n, m) == {} <==> AtLeast(links, n, m + 1)
    ensures IsMin(links, n, m) ==> |PoorSet(links, n, m)| > 0
  {
    if PoorSet(links, n, m) == {} {
      forall i: nat, j: nat | i < j < n ensures m + 1 <= Paths(links, n, i, j) {
        assert (i, j) !in PoorSet(links, n, m);
      }
    }
    if IsMin(links, n, m) {
      var i: nat, j: nat :| Attains(links, n, m, i, j);
      assert (i, j) in PoorSet(links, n, m);
    }
  }

  /** More links leave no more poor pairs. */
  lemma PoorSetShrinks(links: Links, more: Links, n: nat, m: int)
    requires links <= more
    ensures PoorSet(more, n, m) <= PoorSet(links, n, m) && |PoorSet(more, n, m)| <= |PoorSet(links, n, m)|
  {
    forall i: nat, j: nat ensures Paths(links, n, i, j) <= Paths(more, n, i, j) { PathsGrow(links, more, n, i, j); }
    SubsetCount(PoorSet(more, n, m), PoorSet(links, n, m));
  }

  /** The degrees of the two nodes that a link touches, in its direction. */
  function Degrees(links: Links, n: nat, i: nat, j: nat): nat {
    |set k: nat | k < n && (i, k) in links| + |set k: nat | k < n && (k, j) in links|
  }

  /** The link that is made is the first one, in row-major order, with the smallest degrees, and
      among those with the fewest pairs left that have no more than m paths. */
  lemma FirstBestExactly(links: Links, n: nat, m: int, i: nat, j: nat)
    ensures FirstBest(links, n, Costs(links, n, m), i, j) <==>
            && i < n && j < n && i != j && (i, j) !in links && (j, i) !in links
            && forall a: nat, b: nat {:trigger Candidate(links, n, a, b)} ::
                 a < n && b < n && a != b && (a, b) !in links && (b, a) !in links ==>
                 var d, e := Degrees(links, n, i, j), Degrees(links, n, a, b);
                 var p, q := |PoorSet(links + {(i, j)}, n, m)|, |PoorSet(links + {(a, b)}, n, m)|;
                 d < e || (d == e && (p < q || (p == q && (i < a || (i == a && j <= b)))))
  {
    var cost := Costs(links, n, m);
    forall a: nat, b: nat | Candidate(links, n, a, b)
      ensures cost(a, b) == Cost(Degrees(links, n, a, b) + 2, |PoorSet(links + {(a, b)}, n, m)|)
    {
    }
  }
}
