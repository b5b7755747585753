/** Quorum meshes as sets of links: paths of at most two hops, counting, and fault tolerance. */
module Mesh {

  type Links = set<(nat, nat)>

  predicate Adj(links: Links, i: nat, j: nat) { (i, j) in links || (j, i) in links }

  /** Links between different nodes below n, at most one way between two nodes. */
  ghost predicate Simple(links: Links, n: nat) {
    forall p :: p in links ==> p.0 < n && p.1 < n && p.0 != p.1 && (p.1, p.0) !in links
  }

  /** The nodes through which i and j are within two hops: i itself stands for the direct link. */
  function PathSet(links: Links, n: nat, i: nat, j: nat): set<nat> {
    set k: nat | k < n && k != j && Adj(links, k, j) && (k == i || Adj(links, k, i))
  }

  function Paths(links: Links, n: nat, i: nat, j: nat): nat { |PathSet(links, n, i, j)| }

  function CommonNeighbours(links: Links, n: nat, i: nat, j: nat): set<nat> {
    set k: nat | k < n && k != i && k != j && Adj(links, k, i) && Adj(links, k, j)
  }

  function Nodes(n: nat): (r: set<nat>)
    ensures |r| == n
    ensures forall k: nat :: k in r <==> k < n
  {
    if n == 0 then {} else Nodes(n - 1) + {n - 1}
  }

  lemma SubsetCount<T>(a: set<T>, b: set<T>)
    requires a <= b
    ensures |a| <= |b|
    ensures a != b ==> |a| < |b|
  {
    assert b == a + (b - a);
    if b - a == {} { assert a == b; }
  }

  /** The count is the direct link plus the common neighbours, in either direction. */
  lemma PathsAreLinkPlusCommon(links: Links, n: nat, i: nat, j: nat)
    requires i < n && j < n && i != j
    ensures Paths(links, n, i, j) ==
            (if Adj(links, i, j) then 1 else 0) + |CommonNeighbours(links, n, i, j)|
    ensures Paths(links, n, i, j) == Paths(links, n, j, i)
  {
    var c := CommonNeighbours(links, n, i, j);
    assert c == CommonNeighbours(links, n, j, i);
    assert PathSet(links, n, i, j) == c + if Adj(links, i, j) then {i} else {};
    assert PathSet(links, n, j, i) == c + if Adj(links, i, j) then {j} else {};
  }

  lemma PathsGrow(links: Links, more: Links, n: nat, i: nat, j: nat)
    requires links <= more
    ensures Paths(links, n, i, j) <= Paths(more, n, i, j)
  {
    SubsetCount(PathSet(links, n, i, j), PathSet(more, n, i, j));
  }

  lemma {:induction false} PathsBounded(links: Links, n: nat, i: nat, j: nat)
    requires j < n
    ensures PathSet(links, n, i, j) <= Nodes(n) - {j}
    ensures Paths(links, n, i, j) <= n - 1
  {
    SubsetCount(PathSet(links, n, i, j), Nodes(n) - {j});
  }

  // ----- the smallest count over all pairs

  ghost predicate AtLeast(links: Links, n: nat, m: int) {
    forall i: nat, j: nat :: i < j < n ==> m <= Paths(links, n, i, j)
  }

  predicate Attains(links: Links, n: nat, m: int, i: nat, j: nat) { i < j < n && Paths(links, n, i, j) == m }

  ghost predicate IsMin(links: Links, n: nat, m: int) {
    AtLeast(links, n, m) && exists i: nat, j: nat :: Attains(links, n, m, i, j)
  }

  lemma MinGrows(links: Links, more: Links, n: nat, m: int, m': int)
    requires links <= more && IsMin(links, n, m) && IsMin(more, n, m')
    ensures m <= m'
  {
    var i: nat, j: nat :| Attains(more, n, m', i, j);
    PathsGrow(links, more, n, i, j);
  }

  /** No mesh gets past n - 1, so a larger target keeps the builder going for ever. */
  lemma MinBounded(links: Links, n: nat, m: int)
    requires IsMin(links, n, m)
    ensures m <= n - 1
  {
    var i: nat, j: nat :| Attains(links, n, m, i, j);
    PathsBounded(links, n, i, j);
  }

  ghost predicate Candidate(links: Links, n: nat, i: nat, j: nat) {
    i < n && j < n && i != j && !Adj(links, i, j)
  }

  /** As long as the smallest count is below n - 1 two nodes are not linked. */
  lemma CandidateExists(links: Links, n: nat, m: int) returns (a: nat, b: nat)
    requires IsMin(links, n, m) && m < n - 1
    ensures Candidate(links, n, a, b)
  {
    var i: nat, j: nat :| Attains(links, n, m, i, j);
    PathsBounded(links, n, i, j);
    assert |Nodes(n) - {j}| == n - 1;
    assert PathSet(links, n, i, j) != Nodes(n) - {j};
    var k :| k in Nodes(n) - {j} && k !in PathSet(links, n, i, j);
    if !Adj(links, k, j) { a, b := k, j; } else { a, b := k, i; }
  }

  // ----- how many pairs are still unlinked

  /** The nodes after i that i is not linked to. */
  function FreeRow(links: Links, n: nat, i: nat): set<nat> {
    set j: nat | i < j < n && !Adj(links, i, j)
  }

  /** The unlinked pairs with their smaller node below i. */
  function FreePairs(links: Links, n: nat, i: nat): nat {
    if i == 0 then 0 else FreePairs(links, n, i - 1) + |FreeRow(links, n, i - 1)|
  }

  lemma {:induction false} FullRow(n: nat, i: nat)
    requires i < n
    ensures |FreeRow({}, n, i)| == n - 1 - i
  {
    assert FreeRow({}, n, i) == Nodes(n) - Nodes(i + 1);
    assert Nodes(n) == (Nodes(n) - Nodes(i + 1)) + Nodes(i + 1);
  }

  lemma Telescopes(n: nat, i: nat)
    requires 0 < i <= n
    ensures i * (2 * n - i - 1) == (i - 1) * (2 * n - i) + 2 * (n - i)
  {
    var a, b := i - 1, 2 * n - i - 1;
    assert (a + 1) * b == a * b + b && a * (b + 1) == a * b + a;
  }

  /** Without links all n(n - 1)/2 pairs are free. */
  lemma {:induction false} AllPairsFree(n: nat, i: nat)
    requires i <= n
    ensures 2 * FreePairs({}, n, i) == i * (2 * n - i - 1)
  {
    if i > 0 {
      AllPairsFree(n, i - 1);
      FullRow(n, i - 1);
      Telescopes(n, i);
    }
  }

  lemma {:induction false} FreePairsAfter(links: Links, n: nat, x: nat, y: nat, i: nat)
    requires x < y < n && !Adj(links, x, y) && i <= n
    ensures FreePairs(links + {(x, y)}, n, i) == FreePairs(links, n, i) - (if x < i then 1 else 0)
    ensures FreePairs(links + {(y, x)}, n, i) == FreePairs(links, n, i) - (if x < i then 1 else 0)
  {
    if i > 0 {
      FreePairsAfter(links, n, x, y, i - 1);
      var row := FreeRow(links, n, i - 1);
      if x == i - 1 {
        assert y in row;
        assert FreeRow(links + {(x, y)}, n, i - 1) == row - {y};
        assert FreeRow(links + {(y, x)}, n, i - 1) == row - {y};
      } else {
        assert FreeRow(links + {(x, y)}, n, i - 1) == row;
        assert FreeRow(links + {(y, x)}, n, i - 1) == row;
      }
    }
  }

  lemma LinkKeepsSimple(links: Links, n: nat, i: nat, j: nat)
    requires Simple(links, n) && Candidate(links, n, i, j)
    ensures Simple(links + {(i, j)}, n)
  {
  }

  /** One more link between two unlinked nodes uses up one pair. */
  lemma {:induction false} LinkUsesPair(links: Links, n: nat, i: nat, j: nat)
    requires Candidate(links, n, i, j)
    ensures FreePairs(links + {(i, j)}, n, n) == FreePairs(links, n, n) - 1
    ensures |links + {(i, j)}| == |links| + 1
  {
    if i < j { FreePairsAfter(links, n, i, j, n); } else { FreePairsAfter(links, n, j, i, n); }
  }

  /** What one more link between unlinked nodes does to a mesh. */
  lemma {:induction false} LinkAdded(links: Links, n: nat, m: int, i: nat, j: nat, m': int)
    requires Simple(links, n) && IsMin(links, n, m) && Candidate(links, n, i, j)
    requires IsMin(links + {(i, j)}, n, m')
    ensures var more := links + {(i, j)};
            && links < more && Simple(more, n) && m <= m' && |more| == |links| + 1
            && FreePairs(more, n, n) == FreePairs(links, n, n) - 1
  {
    LinkUsesPair(links, n, i, j);
    LinkKeepsSimple(links, n, i, j);
    MinGrows(links, links + {(i, j)}, n, m, m');
  }

  lemma NoLinks(n: nat)
    requires n >= 2
    ensures IsMin({}, n, 0)
  {
    assert PathSet({}, n, 0, 1) == {};
    assert Attains({}, n, 0, 0, 1);
  }

  // ----- fault tolerance

  /** i and j are linked, or have a common neighbour, without using the nodes in `down`. */
  ghost predicate WithinTwo(links: Links, n: nat, down: set<nat>, i: nat, j: nat) {
    Adj(links, i, j) || exists k: nat :: k < n && Relay(links, down, i, j, k)
  }

  predicate Relay(links: Links, down: set<nat>, i: nat, j: nat, k: nat) {
    k !in down && k != i && k != j && Adj(links, i, k) && Adj(links, k, j)
  }

  /** With t paths, any t - 1 nodes other than i and j may fail. */
  lemma SurvivesFailures(links: Links, n: nat, i: nat, j: nat, down: set<nat>)
    requires i < n && j < n && i != j && i !in down && j !in down
    requires |down| < Paths(links, n, i, j)
    ensures WithinTwo(links, n, down, i, j)
  {
    var s := PathSet(links, n, i, j);
    if s <= down { SubsetCount(s, down); }
    var k :| k in s && k !in down;
    if k != i { assert Relay(links, down, i, j, k); }
  }

  /** The count is exact: two nodes without a direct link survive every failure of fewer than t
      others if and only if they have at least t paths. */
  lemma SurvivesExactly(links: Links, n: nat, i: nat, j: nat, t: nat)
    requires i < n && j < n && i != j && !Adj(links, i, j)
    ensures t <= Paths(links, n, i, j) <==>
            forall down: set<nat> :: |down| < t && i !in down && j !in down ==> WithinTwo(links, n, down, i, j)
  {
    if t <= Paths(links, n, i, j) {
      forall down: set<nat> | |down| < t && i !in down && j !in down ensures WithinTwo(links, n, down, i, j) {
        SurvivesFailures(links, n, i, j, down);
      }
    } else {
      var down := PathSet(links, n, i, j);
      assert |down| < t && i !in down && j !in down;
      forall k: nat | k < n ensures !Relay(links, down, i, j, k) {
      }
    }
  }
}
