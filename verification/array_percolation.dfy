/** ArrayPercolation: the Percolation API over an n-by-n array of open flags, where
    fullness is recomputed from scratch by a depth-first flood fill from the top row. */
module ArrayPercolation {
  import opened Wrappers
  import opened Grid

  /** The system size n, the open sites (the true cells of `open[][]`) and the counter. */
  datatype Percolation = Percolation(n: int, open: set<Site>, openSites: int)

  /** What the constructor and `open` maintain. */
  ghost predicate Valid(s: Percolation) {
    && s.n > 0
    && (forall c | c in s.open :: InGrid(s.n, c))
    && s.openSites == |s.open|
  }

  /** Every open neighbour of x inside the grid is marked in `full`. */
  ghost predicate Sealed(n: int, open: set<Site>, full: set<Site>, x: Site) {
    forall b | b in open && InGrid(n, b) && Adjacent(x, b) :: b in full
  }

  ghost predicate AllFull(n: int, open: set<Site>, full: set<Site>) {
    forall x | x in full :: Full(n, open, x)
  }

  /** `new ArrayPercolation(n)`: rejects n <= 0, otherwise an n-by-n system, all blocked. */
  function Create(n: int): (r: Result<Percolation>)
    ensures r.Err? <==> n <= 0
    ensures r.Err? ==> r.error == IllegalArgument
    ensures r.Ok? ==> Valid(r.value) && r.value.n == n
    ensures r.Ok? ==> r.value.open == {} && NumberOfOpenSites(r.value) == 0
  {
    if n <= 0 then Err(IllegalArgument) else Ok(Percolation(n, {}, 0))
  }

  /** `open(i, j)`: rejects a site outside the grid; opens a blocked site and counts it;
      leaves an open site alone. */
  function Open(s: Percolation, i: int, j: int): (r: Result<Percolation>)
    requires Valid(s)
    ensures r.Err? <==> !InGrid(s.n, Site(i, j))
    ensures r.Err? ==> r.error == IndexOutOfBounds
    ensures r.Ok? ==> Valid(r.value) && r.value.n == s.n
    ensures r.Ok? ==> r.value.open == s.open + {Site(i, j)}
    ensures r.Ok? && Site(i, j) in s.open ==> r.value == s
    ensures r.Ok? && Site(i, j) !in s.open ==> r.value.openSites == s.openSites + 1
  {
    if i < 0 || i > s.n - 1 || j < 0 || j > s.n - 1 then
      Err(IndexOutOfBounds)
    else if Site(i, j) !in s.open then
      Ok(Percolation(s.n, s.open + {Site(i, j)}, s.openSites + 1))
    else
      Ok(s)
  }

  /** `isOpen(i, j)`: rejects a site outside the grid, otherwise reads the flag. */
  function IsOpen(s: Percolation, i: int, j: int): (r: Result<bool>)
    ensures r.Err? <==> !InGrid(s.n, Site(i, j))
    ensures r.Err? ==> r.error == IndexOutOfBounds
    ensures r.Ok? ==> (r.value <==> Site(i, j) in s.open)
  {
    if i < 0 || i > s.n - 1 || j < 0 || j > s.n - 1 then Err(IndexOutOfBounds)
    else Ok(Site(i, j) in s.open)
  }

  /** `floodFill(full, i, j)`: marks (i, j) when it is an open, unmarked site of the grid and
      recurses on (i-1, j), (i+1, j), (i, j-1), (i, j+1). Only open sites of the grid get
      marked and marks are never removed; it terminates because every marking call shrinks
      the set of open unmarked sites. */
  function FloodFill(n: int, open: set<Site>, full: set<Site>, i: int, j: int): (r: set<Site>)
    ensures full <= r
    ensures forall x | x in r && x !in full :: x in open && InGrid(n, x)
    decreases |open - full|
  {
    if i < 0 || i > n - 1 || j < 0 || j > n - 1 || Site(i, j) !in open || Site(i, j) in full then
      full
    else
      var c := Site(i, j);
      var f1 := full + {c};
      Shrinks(open, full, f1, c);
      var f2 := FloodFill(n, open, f1, i - 1, j);
      Shrinks(open, full, f2, c);
      var f3 := FloodFill(n, open, f2, i + 1, j);
      Shrinks(open, full, f3, c);
      var f4 := FloodFill(n, open, f3, i, j - 1);
      Shrinks(open, full, f4, c);
      FloodFill(n, open, f4, i, j + 1)
  }

  /** Completeness of one flood fill: the start site is marked when open, and every site it
      newly marks has all its open neighbours marked. */
  lemma {:induction false} FloodFillSeals(n: int, open: set<Site>, full: set<Site>, i: int, j: int)
    ensures var r := FloodFill(n, open, full, i, j);
            && (InGrid(n, Site(i, j)) && Site(i, j) in open ==> Site(i, j) in r)
            && (forall x | x in r && x !in full :: Sealed(n, open, r, x))
    decreases |open - full|, 0
  {
    if i < 0 || i > n - 1 || j < 0 || j > n - 1 || Site(i, j) !in open || Site(i, j) in full {
    } else {
      var c := Site(i, j);
      var f1 := full + {c};
      var f2 := FloodFill(n, open, f1, i - 1, j);
      var f3 := FloodFill(n, open, f2, i + 1, j);
      var f4 := FloodFill(n, open, f3, i, j - 1);
      var r := FloodFill(n, open, f4, i, j + 1);
      assert r == FloodFill(n, open, full, i, j);
      Shrinks(open, full, f1, c);
      SealStep(n, open, f1, Site(i - 1, j), r);
      Shrinks(open, full, f2, c);
      SealStep(n, open, f2, Site(i + 1, j), r);
      Shrinks(open, full, f3, c);
      SealStep(n, open, f3, Site(i, j - 1), r);
      Shrinks(open, full, f4, c);
      SealStep(n, open, f4, Site(i, j + 1), r);
      assert Sealed(n, open, r, c);
    }
  }

  /** One recursive call of the flood fill, seen from the final marks r. */
  lemma {:induction false} SealStep(n: int, open: set<Site>, full: set<Site>, d: Site, r: set<Site>)
    requires FloodFill(n, open, full, d.row, d.col) <= r
    ensures InGrid(n, d) && d in open ==> d in r
    ensures forall x | x in FloodFill(n, open, full, d.row, d.col) && x !in full :: Sealed(n, open, r, x)
    decreases |open - full|, 1
  {
    FloodFillSeals(n, open, full, d.row, d.col);
    SealedGrows(n, open, FloodFill(n, open, full, d.row, d.col), r);
  }

  /** Soundness of one flood fill: started from full sites, it only marks full sites. */
  lemma {:induction false} FloodFillSound(n: int, open: set<Site>, full: set<Site>, i: int, j: int)
    requires AllFull(n, open, full)
    requires InGrid(n, Site(i, j)) && Site(i, j) in open ==> Full(n, open, Site(i, j))
    ensures AllFull(n, open, FloodFill(n, open, full, i, j))
    decreases |open - full|
  {
    if i < 0 || i > n - 1 || j < 0 || j > n - 1 || Site(i, j) !in open || Site(i, j) in full {
    } else {
      var c := Site(i, j);
      var f1 := full + {c};
      var f2 := FloodFill(n, open, f1, i - 1, j);
      var f3 := FloodFill(n, open, f2, i + 1, j);
      var f4 := FloodFill(n, open, f3, i, j - 1);
      assert AllFull(n, open, f2) by {
        Shrinks(open, full, f1, c);
        FullSpread(n, open, c, Site(i - 1, j));
        FloodFillSound(n, open, f1, i - 1, j);
      }
      assert AllFull(n, open, f3) by {
        Shrinks(open, full, f2, c);
        FullSpread(n, open, c, Site(i + 1, j));
        FloodFillSound(n, open, f2, i + 1, j);
      }
      assert AllFull(n, open, f4) by {
        Shrinks(open, full, f3, c);
        FullSpread(n, open, c, Site(i, j - 1));
        FloodFillSound(n, open, f3, i, j - 1);
      }
      Shrinks(open, full, f4, c);
      FullSpread(n, open, c, Site(i, j + 1));
      FloodFillSound(n, open, f4, i, j + 1);
    }
  }

  /** Marking c, an open unmarked site, shrinks the set of open unmarked sites. */
  lemma Shrinks(open: set<Site>, full: set<Site>, full': set<Site>, c: Site)
    requires full <= full' && c in open && c !in full && c in full'
    ensures |open - full'| < |open - full|
  {
    var a, b := open - full', open - full;
    assert b == a + (b - a);
    assert c in b - a;
  }

  lemma SealedGrows(n: int, open: set<Site>, full: set<Site>, full': set<Site>)
    requires full <= full'
    ensures forall x | Sealed(n, open, full, x) :: Sealed(n, open, full', x)
  {
  }

  /** The loop of `isFull`: flood fills from (0, k), (0, k+1), ..., (0, n-1) in turn. */
  function FillFromTop(n: int, open: set<Site>, full: set<Site>, k: int): (r: set<Site>)
    ensures full <= r
    ensures forall x | x in r && x !in full :: x in open && InGrid(n, x)
    ensures forall x | x in r && x !in full :: Sealed(n, open, r, x)
    ensures forall c | c in open && InGrid(n, c) && c.row == 0 && k <= c.col :: c in r
    decreases n - k
  {
    if k >= n then
      full
    else
      var f := FloodFill(n, open, full, 0, k);
      FloodFillSeals(n, open, full, 0, k);
      var r := FillFromTop(n, open, f, k + 1);
      SealedGrows(n, open, f, r);
      r
  }

  /** Started from full sites, the top-row fills only mark full sites. */
  lemma {:induction false} FillFromTopSound(n: int, open: set<Site>, full: set<Site>, k: int)
    requires AllFull(n, open, full)
    ensures AllFull(n, open, FillFromTop(n, open, full, k))
    decreases n - k
  {
    if k < n {
      FullSeedIfOpen(n, open, Site(0, k));
      FloodFillSound(n, open, full, 0, k);
      FillFromTopSound(n, open, FloodFill(n, open, full, 0, k), k + 1);
    }
  }

  lemma FullSeedIfOpen(n: int, open: set<Site>, c: Site)
    ensures c in open && InGrid(n, c) && c.row == 0 ==> Full(n, open, c)
  {
    if c in open && InGrid(n, c) && c.row == 0 {
      FullSeed(n, open, c);
    }
  }

  /** The sites a fresh flood fill from the whole top row marks are exactly the full sites. */
  lemma FillFromTopIsFull(n: int, open: set<Site>, c: Site)
    ensures c in FillFromTop(n, open, {}, 0) <==> Full(n, open, c)
  {
    var r := FillFromTop(n, open, {}, 0);
    FillFromTopSound(n, open, {}, 0);
    var S := iset x | x in r;
    assert Seeded(n, open, S);
    assert Spreads(n, open, S);
  }

  /** `isFull(i, j)`: rejects a site outside the grid, otherwise tells whether (i, j) is
      reached from an open top-row site through open adjacent sites. */
  function IsFull(s: Percolation, i: int, j: int): (r: Result<bool>)
    ensures r.Err? <==> !InGrid(s.n, Site(i, j))
    ensures r.Err? ==> r.error == IndexOutOfBounds
    ensures r.Ok? ==> (r.value <==> Full(s.n, s.open, Site(i, j)))
  {
    if i < 0 || i > s.n - 1 || j < 0 || j > s.n - 1 then
      Err(IndexOutOfBounds)
    else
      FillFromTopIsFull(s.n, s.open, Site(i, j));
      Ok(Site(i, j) in FillFromTop(s.n, s.open, {}, 0))
  }

  /** `numberOfOpenSites()`. */
  function NumberOfOpenSites(s: Percolation): (k: int)
    requires Valid(s)
    ensures k == |s.open|
  {
    s.openSites
  }

  /** `percolates()`: some site of the last row is full. On a 1-by-1 grid that is exactly
      when the single site is open. */
  function Percolates(s: Percolation): (b: bool)
    ensures b <==> Percolating(s.n, s.open)
    ensures s.n == 1 ==> (b <==> Site(0, 0) in s.open)
  {
    FullIsOpen(s.n, s.open, Site(0, 0));
    FullSeedIfOpen(s.n, s.open, Site(0, 0));
    assert s.n == 1 ==> BottomSite(s.n, 0) == Site(0, 0);
    FullInLastRow(s, 0)
  }

  /** The loop of `percolates()` from column j on. */
  function FullInLastRow(s: Percolation, j: int): (b: bool)
    requires 0 <= j
    ensures b <==> exists k | j <= k < s.n :: BottomFull(s.n, s.open, k)
    decreases s.n - j
  {
    if j >= s.n then false
    else
      assert IsFull(s, s.n - 1, j).value <==> BottomFull(s.n, s.open, j);
      IsFull(s, s.n - 1, j).value || FullInLastRow(s, j + 1)
  }

  /** A client's sequence of `open` calls, stopping at the first exception: it succeeds
      exactly when every site is inside the grid, and then the open sites are the earlier
      ones plus every site named. */
  function Replay(s: Percolation, ops: seq<Site>): (r: Result<Percolation>)
    requires Valid(s)
    ensures r.Ok? <==> forall k | 0 <= k < |ops| :: InGrid(s.n, ops[k])
    ensures r.Err? ==> r.error == IndexOutOfBounds
    ensures r.Ok? ==> Valid(r.value) && r.value.n == s.n && r.value.open == s.open + Opened(ops)
    decreases |ops|
  {
    if |ops| == 0 then
      Ok(s)
    else
      var s' :- Open(s, ops[0].row, ops[0].col);
      var r := Replay(s', ops[1..]);
      InGridSplit(s.n, ops);
      r
  }

  /** Opening a site a second time changes nothing. */
  lemma OpenIdempotent(s: Percolation, i: int, j: int)
    requires Valid(s) && Open(s, i, j).Ok?
    ensures Open(Open(s, i, j).value, i, j) == Open(s, i, j)
  {
  }

  /** A full site is open. */
  lemma FullSiteIsOpen(s: Percolation, i: int, j: int)
    requires Valid(s)
    ensures IsFull(s, i, j) == Ok(true) ==> IsOpen(s, i, j) == Ok(true)
  {
    FullIsOpen(s.n, s.open, Site(i, j));
  }
}
