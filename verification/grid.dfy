/** The n-by-n grid shared by both implementations of the Percolation API:
    sites, 4-adjacency, the site encoding used by the union-find version, and the
    reference meaning of "full" and "percolates". */
module Grid {

  /** Site (row, col), 0-indexed. */
  datatype Site = Site(row: int, col: int)

  predicate InGrid(n: int, c: Site) {
    0 <= c.row < n && 0 <= c.col < n
  }

  /** The four neighbours of a site share an edge with it. */
  predicate Adjacent(a: Site, b: Site) {
    || (a.col == b.col && (a.row == b.row - 1 || a.row == b.row + 1))
    || (a.row == b.row && (a.col == b.col - 1 || a.col == b.col + 1))
  }

  /** S holds every open top-row site. */
  ghost predicate Seeded(n: int, open: set<Site>, S: iset<Site>) {
    forall c | c in open && InGrid(n, c) && c.row == 0 :: c in S
  }

  /** S is closed under stepping to an adjacent open site. */
  ghost predicate Spreads(n: int, open: set<Site>, S: iset<Site>) {
    forall a, b | a in S && b in open && InGrid(n, b) && Adjacent(a, b) :: b in S
  }

  /** Site c is full: it lies in every set of sites that holds the open top-row sites and is
      closed under adjacent open sites, i.e. c is reached from an open top-row site through
      open 4-adjacent sites (see FullIffPath). */
  ghost predicate Full(n: int, open: set<Site>, c: Site) {
    forall S: iset<Site> | Seeded(n, open, S) && Spreads(n, open, S) :: c in S
  }

  /** Some bottom-row site is full. */
  ghost predicate Percolating(n: int, open: set<Site>) {
    exists j | 0 <= j < n :: BottomFull(n, open, j)
  }

  /** Site (n-1, j) of the last row. */
  function BottomSite(n: int, j: int): Site {
    Site(n - 1, j)
  }

  /** Bottom-row site (n-1, j) is full. */
  ghost predicate BottomFull(n: int, open: set<Site>, j: int) {
    Full(n, open, BottomSite(n, j))
  }

  /** The sites named by a sequence of `open` calls. */
  function Opened(ops: seq<Site>): (r: set<Site>)
    ensures forall k | 0 <= k < |ops| :: ops[k] in r
    ensures forall c | c in r :: exists k | 0 <= k < |ops| :: ops[k] == c
  {
    if |ops| == 0 then {} else {ops[0]} + Opened(ops[1..])
  }

  /** Every site of a non-empty sequence is in the grid exactly when its head is and every
      site of its tail is. */
  lemma InGridSplit(n: int, ops: seq<Site>)
    requires |ops| > 0
    ensures (forall k | 0 <= k < |ops| :: InGrid(n, ops[k]))
        <==> InGrid(n, ops[0]) && forall k | 0 <= k < |ops[1..]| :: InGrid(n, ops[1..][k])
  {
    if InGrid(n, ops[0]) && forall k | 0 <= k < |ops[1..]| :: InGrid(n, ops[1..][k]) {
      forall k | 0 <= k < |ops|
        ensures InGrid(n, ops[k])
      {
        if k > 0 {
          assert ops[k] == ops[1..][k - 1];
        }
      }
    }
  }

  /** A sequence of open sites, each adjacent to the next. */
  ghost predicate OpenPath(n: int, open: set<Site>, p: seq<Site>) {
    && |p| > 0
    && (forall k | 0 <= k < |p| :: p[k] in open && InGrid(n, p[k]))
    && (forall k | 0 <= k < |p| - 1 :: Adjacent(p[k], p[k + 1]))
  }

  /** An open path from the top row that ends at c. */
  ghost predicate TopPath(n: int, open: set<Site>, p: seq<Site>, c: Site) {
    OpenPath(n, open, p) && p[0].row == 0 && p[|p| - 1] == c
  }

  ghost predicate ReachedByPath(n: int, open: set<Site>, c: Site) {
    exists p :: TopPath(n, open, p, c)
  }

  /** The union-find element of site (i, j): n*i + j + 1. A grid site lands in 1..n*n, clear
      of the virtual top 0 and the virtual bottom n*n + 1, and Decode recovers it. */
  function Encode(n: int, c: Site): (k: int)
    ensures InGrid(n, c) ==> 1 <= k <= n * n && Decode(n, k) == c
  {
    EncodeArith(n, c.row, c.col);
    n * c.row + c.col + 1
  }

  /** The site an element in 1..n*n stands for. */
  function Decode(n: int, k: int): Site
    requires n > 0
  {
    Site((k - 1) / n, (k - 1) % n)
  }

  lemma FullIsOpen(n: int, open: set<Site>, c: Site)
    ensures Full(n, open, c) ==> c in open && InGrid(n, c)
  {
    var S := iset x | x in open && InGrid(n, x);
    assert Seeded(n, open, S) && Spreads(n, open, S);
  }

  lemma FullSeed(n: int, open: set<Site>, c: Site)
    requires c in open && InGrid(n, c) && c.row == 0
    ensures Full(n, open, c)
  {
  }

  lemma FullSpread(n: int, open: set<Site>, a: Site, b: Site)
    ensures Full(n, open, a) && b in open && InGrid(n, b) && Adjacent(a, b) ==> Full(n, open, b)
  {
  }

  /** Opening more sites never empties a full site. */
  lemma FullMonotone(n: int, open: set<Site>, open': set<Site>, c: Site)
    requires open <= open'
    ensures Full(n, open, c) ==> Full(n, open', c)
  {
    if Full(n, open, c) {
      forall S: iset<Site> | Seeded(n, open', S) && Spreads(n, open', S)
        ensures c in S
      {
        assert Seeded(n, open, S) && Spreads(n, open, S);
      }
    }
  }

  /** Full is exactly reachability through an open path that starts in the top row. */
  lemma FullIffPath(n: int, open: set<Site>, c: Site)
    ensures Full(n, open, c) <==> ReachedByPath(n, open, c)
  {
    if Full(n, open, c) {
      ReachedSetCloses(n, open);
    }
    if ReachedByPath(n, open, c) {
      var p :| TopPath(n, open, p, c);
      PathFull(n, open, p, |p| - 1);
    }
  }

  /** The sites reached by open top-row paths hold the open top row and spread. */
  lemma ReachedSetCloses(n: int, open: set<Site>)
    ensures var S := iset x | ReachedByPath(n, open, x);
            Seeded(n, open, S) && Spreads(n, open, S)
  {
    var S := iset x | ReachedByPath(n, open, x);
    forall x | x in open && InGrid(n, x) && x.row == 0
      ensures x in S
    {
      assert TopPath(n, open, [x], x);
    }
    forall a, b | a in S && b in open && InGrid(n, b) && Adjacent(a, b)
      ensures b in S
    {
      var p :| TopPath(n, open, p, a);
      PathExtend(n, open, p, a, b);
    }
  }

  /** A top-row path to a extends by one step to an adjacent open site b. */
  lemma PathExtend(n: int, open: set<Site>, p: seq<Site>, a: Site, b: Site)
    requires TopPath(n, open, p, a)
    requires b in open && InGrid(n, b) && Adjacent(a, b)
    ensures TopPath(n, open, p + [b], b)
  {
    var q := p + [b];
    assert forall k | 0 <= k < |p| :: q[k] == p[k];
    assert q[|p|] == b;
  }

  lemma {:induction false} PathFull(n: int, open: set<Site>, p: seq<Site>, k: nat)
    requires OpenPath(n, open, p) && p[0].row == 0
    requires k < |p|
    ensures Full(n, open, p[k])
  {
    if k == 0 {
      FullSeed(n, open, p[0]);
    } else {
      PathFull(n, open, p, k - 1);
      FullSpread(n, open, p[k - 1], p[k]);
    }
  }

  /** Division by n undoes the encoding's n*i + j. */
  lemma DivModUnique(n: int, i: int, j: int)
    requires n > 0 && 0 <= j < n
    ensures (n * i + j) / n == i && (n * i + j) % n == j
  {
    var k := n * i + j;
    var q, r := k / n, k % n;
    assert k == n * q + r && 0 <= r < n;
    assert n * (i - q) == r - j by {
      assert n * (i - q) == n * i - n * q;
    }
    if i - q >= 1 {
      MulMono(n, 1, i - q);
    } else if i - q <= -1 {
      MulMono(n, i - q, -1);
    }
  }

  lemma MulMono(n: int, a: int, b: int)
    requires n >= 0 && a <= b
    ensures n * a <= n * b
  {
    assert n * b - n * a == n * (b - a);
  }

  /** The arithmetic behind Encode: for 0 <= i, j < n, n*i + j + 1 lies in 1..n*n and
      division by n takes it back to (i, j). */
  lemma EncodeArith(n: int, i: int, j: int)
    ensures 0 <= i < n && 0 <= j < n ==>
      && 1 <= n * i + j + 1 <= n * n
      && (n * i + j + 1 - 1) / n == i && (n * i + j + 1 - 1) % n == j
  {
    if 0 <= i < n && 0 <= j < n {
      MulMono(n, 0, i);
      MulMono(n, i, n - 1);
      assert n * (n - 1) == n * n - n;
      DivModUnique(n, i, j);
    }
  }

  /** Distinct sites get distinct elements. */
  lemma EncodeInjective(n: int, a: Site, b: Site)
    requires InGrid(n, a) && InGrid(n, b)
    ensures Encode(n, a) == Encode(n, b) ==> a == b
  {
    assert Decode(n, Encode(n, a)) == a && Decode(n, Encode(n, b)) == b;
  }

  /** Every element in 1..n*n is the encoding of a site. */
  lemma EncodeOnto(n: int, k: int)
    requires n > 0 && 1 <= k <= n * n
    ensures InGrid(n, Decode(n, k)) && Encode(n, Decode(n, k)) == k
  {
    var q, r := (k - 1) / n, (k - 1) % n;
    assert k - 1 == n * q + r;
    if q >= n {
      MulMono(n, n, q);
    }
    if q < 0 {
      MulMono(n, q, -1);
    }
  }
}
