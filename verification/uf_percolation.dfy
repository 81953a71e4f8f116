/** UFPercolation: the Percolation API over two union-find structures.
    Site (i, j) is element n*i + j + 1 of both. `uf` has n*n + 2 elements, with the virtual
    top 0 joined to the whole top row and the virtual bottom n*n + 1 joined to the whole
    bottom row. `fullSites` has n*n + 1 elements and only the virtual top, so a site can
    never reach the top through the bottom sentinel ("backwash"). */
module UFPercolation {
  import opened Wrappers
  import opened Grid
  import opened Connectivity
  import opened UnionFind

  /** The system size n, the open sites (the true cells of `open[][]`), the counter and
      the two union-find structures. */
  datatype Percolation = Percolation(n: int, open: set<Site>, openSites: int, uf: Forest, fullSites: Forest)

  const VirtualTop := 0

  function VirtualBottom(n: int): int {
    n * n + 1
  }

  /** The constructor's joins of the first k top-row sites to the virtual top. */
  ghost function TopEdges(n: int, k: int): set<Edge> {
    set j | 0 <= j < k :: (Encode(n, Site(0, j)), VirtualTop)
  }

  /** The constructor's joins of the first k bottom-row sites to the virtual bottom. */
  ghost function BottomEdges(n: int, k: int): set<Edge> {
    set j | 0 <= j < k :: (Encode(n, BottomSite(n, j)), VirtualBottom(n))
  }

  /** The joins `open` makes: one per pair of adjacent open sites. */
  ghost function SiteEdges(n: int, open: set<Site>): set<Edge> {
    set a, b | a in open && b in open && Adjacent(a, b) :: (Encode(n, a), Encode(n, b))
  }

  ghost function UfEdges(n: int, open: set<Site>): set<Edge> {
    TopEdges(n, n) + BottomEdges(n, n) + SiteEdges(n, open)
  }

  ghost function FullSitesEdges(n: int, open: set<Site>): set<Edge> {
    TopEdges(n, n) + SiteEdges(n, open)
  }

  /** What the constructor and `open` maintain: both structures answer exactly the
      connectivity generated by their sentinel joins and the joins of adjacent open sites. */
  ghost predicate Valid(s: Percolation) {
    && s.n > 0
    && (forall c | c in s.open :: InGrid(s.n, c))
    && s.openSites == |s.open|
    && Size(s.uf) == s.n * s.n + 2
    && Size(s.fullSites) == s.n * s.n + 1
    && Represents(s.uf, UfEdges(s.n, s.open))
    && Represents(s.fullSites, FullSitesEdges(s.n, s.open))
  }

  /** `new UFPercolation(n)`: rejects n <= 0, otherwise an n-by-n system, all blocked,
      with the sentinels wired. */
  function Create(n: int): (r: Result<Percolation>)
    ensures r.Err? <==> n <= 0
    ensures r.Err? ==> r.error == IllegalArgument
    ensures r.Ok? ==> Valid(r.value) && r.value.n == n
    ensures r.Ok? ==> r.value.open == {} && NumberOfOpenSites(r.value) == 0
  {
    if n <= 0 then
      Err(IllegalArgument)
    else
      NoEdgesYet(n);
      var forests := WireSentinels(n, 0, Init(n * n + 2), Init(n * n + 1));
      Ok(Percolation(n, {}, 0, forests.0, forests.1))
  }

  lemma NoEdgesYet(n: int)
    ensures TopEdges(n, 0) == {} && BottomEdges(n, 0) == {} && SiteEdges(n, {}) == {}
  {
  }

  /** The constructor's loop from column i on: joins (0, i) to the virtual top in both
      structures and (n-1, i) to the virtual bottom in `uf` only. */
  function WireSentinels(n: int, i: int, uf: Forest, fs: Forest): (r: (Forest, Forest))
    requires n > 0 && 0 <= i <= n
    requires Size(uf) == n * n + 2 && Size(fs) == n * n + 1
    requires Represents(uf, TopEdges(n, i) + BottomEdges(n, i))
    requires Represents(fs, TopEdges(n, i))
    ensures Size(r.0) == n * n + 2 && Size(r.1) == n * n + 1
    ensures Represents(r.0, TopEdges(n, n) + BottomEdges(n, n) + SiteEdges(n, {}))
    ensures Represents(r.1, TopEdges(n, n) + SiteEdges(n, {}))
    decreases n - i
  {
    if i == n then
      NoEdgesYet(n);
      (uf, fs)
    else
      var top := Encode(n, Site(0, i));
      var bottom := Encode(n, BottomSite(n, i));
      var uf1 := Union(uf, top, VirtualTop).value;
      var fs1 := Union(fs, top, VirtualTop).value;
      var uf2 := Union(uf1, bottom, VirtualBottom(n)).value;
      WireStep(n, i, uf, fs);
      WireSentinels(n, i + 1, uf2, fs1)
  }

  /** One turn of the constructor's loop extends both union histories by column i's joins. */
  lemma WireStep(n: int, i: int, uf: Forest, fs: Forest)
    requires n > 0 && 0 <= i < n
    requires Size(uf) == n * n + 2 && Size(fs) == n * n + 1
    requires Represents(uf, TopEdges(n, i) + BottomEdges(n, i))
    requires Represents(fs, TopEdges(n, i))
    ensures var top := Encode(n, Site(0, i));
            var bottom := Encode(n, BottomSite(n, i));
            && Union(uf, top, VirtualTop).Ok?
            && Union(fs, top, VirtualTop).Ok?
            && Union(Union(uf, top, VirtualTop).value, bottom, VirtualBottom(n)).Ok?
            && Represents(Union(Union(uf, top, VirtualTop).value, bottom, VirtualBottom(n)).value,
                          TopEdges(n, i + 1) + BottomEdges(n, i + 1))
            && Represents(Union(fs, top, VirtualTop).value, TopEdges(n, i + 1))
  {
    var top := Encode(n, Site(0, i));
    var bottom := Encode(n, BottomSite(n, i));
    var uf1 := Union(uf, top, VirtualTop).value;
    assert Represents(uf1, TopEdges(n, i) + BottomEdges(n, i) + {(top, VirtualTop)});
    SentinelEdgesStep(n, i);
  }

  lemma SentinelEdgesStep(n: int, i: int)
    requires 0 <= i
    ensures TopEdges(n, i + 1) == TopEdges(n, i) + {(Encode(n, Site(0, i)), VirtualTop)}
    ensures TopEdges(n, i) + BottomEdges(n, i) + {(Encode(n, Site(0, i)), VirtualTop)}
              + {(Encode(n, BottomSite(n, i)), VirtualBottom(n))}
            == TopEdges(n, i + 1) + BottomEdges(n, i + 1)
  {
    assert TopEdges(n, i + 1) == TopEdges(n, i) + {(Encode(n, Site(0, i)), VirtualTop)};
    assert BottomEdges(n, i + 1) == BottomEdges(n, i) + {(Encode(n, BottomSite(n, i)), VirtualBottom(n))};
  }

  /** One guarded union of `open`: joins site c to neighbour d when the guard holds and d is open. */
  function LinkIf(f: Forest, n: int, open: set<Site>, c: Site, guard: bool, d: Site): (g: Forest)
    requires InGrid(n, c) && Size(f) > n * n
    requires guard ==> InGrid(n, d)
    ensures Size(g) == Size(f)
    ensures forall u, v | InRange(f, u) && InRange(f, v) && Same(f, u, v) :: Same(g, u, v)
    ensures guard && d in open ==> Same(g, Encode(n, c), Encode(n, d))
    ensures !(guard && d in open) ==> g == f
  {
    if guard && d in open then
      Union(f, Encode(n, c), Encode(n, d)).value
    else
      f
  }

  /** The union pair LinkIf performs, if any. */
  ghost function LinkEdge(n: int, open: set<Site>, c: Site, guard: bool, d: Site): set<Edge> {
    if guard && d in open then {(Encode(n, c), Encode(n, d))} else {}
  }

  /** The four guarded unions of `open(i, j)`, in the order up, right, left, down. */
  function LinkNeighbours(f: Forest, n: int, open: set<Site>, i: int, j: int): (g: Forest)
    requires InGrid(n, Site(i, j)) && Size(f) > n * n
    ensures Size(g) == Size(f)
    ensures forall u, v | InRange(f, u) && InRange(f, v) && Same(f, u, v) :: Same(g, u, v)
    ensures forall d | d in open && InGrid(n, d) && Adjacent(Site(i, j), d) ::
              Same(g, Encode(n, Site(i, j)), Encode(n, d))
  {
    var c := Site(i, j);
    var f1 := LinkIf(f, n, open, c, i - 1 >= 0, Site(i - 1, j));
    var f2 := LinkIf(f1, n, open, c, j + 1 < n, Site(i, j + 1));
    var f3 := LinkIf(f2, n, open, c, j - 1 >= 0, Site(i, j - 1));
    var g := LinkIf(f3, n, open, c, i + 1 < n, Site(i + 1, j));
    forall d | d in open && InGrid(n, d) && Adjacent(c, d)
      ensures Same(g, Encode(n, c), Encode(n, d))
    {
      var x, y := Encode(n, c), Encode(n, d);
      if d == Site(i - 1, j) {
        assert Same(f1, x, y);
        assert Same(f2, x, y);
        assert Same(f3, x, y);
      } else if d == Site(i, j + 1) {
        assert Same(f2, x, y);
        assert Same(f3, x, y);
      } else if d == Site(i, j - 1) {
        assert Same(f3, x, y);
      }
    }
    g
  }

  lemma LinkIfRepresents(f: Forest, E: set<Edge>, n: int, open: set<Site>, c: Site, guard: bool, d: Site)
    requires InGrid(n, c) && Size(f) > n * n
    requires guard ==> InGrid(n, d)
    requires Represents(f, E)
    ensures Represents(LinkIf(f, n, open, c, guard, d), E + LinkEdge(n, open, c, guard, d))
  {
    if guard && d in open {
      MergeRepresents(f, E, Encode(n, c), Encode(n, d));
    } else {
      assert E + LinkEdge(n, open, c, guard, d) == E;
    }
  }

  /** The union pairs of the four guarded unions of `open(i, j)`. */
  ghost function NeighbourEdges(n: int, open: set<Site>, i: int, j: int): set<Edge> {
    var c := Site(i, j);
    LinkEdge(n, open, c, i - 1 >= 0, Site(i - 1, j)) + LinkEdge(n, open, c, j + 1 < n, Site(i, j + 1))
    + LinkEdge(n, open, c, j - 1 >= 0, Site(i, j - 1)) + LinkEdge(n, open, c, i + 1 < n, Site(i + 1, j))
  }

  lemma LinkNeighboursUnions(f: Forest, E: set<Edge>, n: int, open: set<Site>, i: int, j: int)
    requires InGrid(n, Site(i, j)) && Size(f) > n * n
    requires Represents(f, E)
    ensures Represents(LinkNeighbours(f, n, open, i, j), E + NeighbourEdges(n, open, i, j))
  {
    var c := Site(i, j);
    var L1 := LinkEdge(n, open, c, i - 1 >= 0, Site(i - 1, j));
    var L2 := LinkEdge(n, open, c, j + 1 < n, Site(i, j + 1));
    var L3 := LinkEdge(n, open, c, j - 1 >= 0, Site(i, j - 1));
    var f1 := LinkIf(f, n, open, c, i - 1 >= 0, Site(i - 1, j));
    var f2 := LinkIf(f1, n, open, c, j + 1 < n, Site(i, j + 1));
    var f3 := LinkIf(f2, n, open, c, j - 1 >= 0, Site(i, j - 1));
    LinkIfRepresents(f, E, n, open, c, i - 1 >= 0, Site(i - 1, j));
    LinkIfRepresents(f1, E + L1, n, open, c, j + 1 < n, Site(i, j + 1));
    LinkIfRepresents(f2, E + L1 + L2, n, open, c, j - 1 >= 0, Site(i, j - 1));
    LinkIfRepresents(f3, E + L1 + L2 + L3, n, open, c, i + 1 < n, Site(i + 1, j));
    assert E + L1 + L2 + L3 + LinkEdge(n, open, c, i + 1 < n, Site(i + 1, j))
        == E + NeighbourEdges(n, open, i, j);
  }

  /** Every union of `open(i, j)` joins two adjacent open sites. */
  lemma NeighbourEdgesAreSiteEdges(n: int, open: set<Site>, i: int, j: int)
    requires Site(i, j) in open
    ensures NeighbourEdges(n, open, i, j) <= SiteEdges(n, open)
  {
    var c := Site(i, j);
    forall e | e in NeighbourEdges(n, open, i, j)
      ensures e in SiteEdges(n, open)
    {
      var d :| d in open && Adjacent(c, d) && e == (Encode(n, c), Encode(n, d));
    }
  }

  /** `open(i, j)` joins the site to every open neighbour inside the grid. */
  lemma NeighbourEdgesComplete(n: int, open: set<Site>, i: int, j: int, d: Site)
    requires d in open && InGrid(n, d) && Adjacent(Site(i, j), d)
    ensures (Encode(n, Site(i, j)), Encode(n, d)) in NeighbourEdges(n, open, i, j)
  {
  }

  /** A join of adjacent open sites either avoids c or has c at one end. */
  lemma SiteEdgesSplit(n: int, open: set<Site>, c: Site, e: Edge)
    requires e in SiteEdges(n, open)
    ensures || e in SiteEdges(n, open - {c})
            || (exists d :: d in open && Adjacent(c, d) && e == (Encode(n, c), Encode(n, d)))
            || (exists d :: d in open && Adjacent(c, d) && e == (Encode(n, d), Encode(n, c)))
  {
    var a, b :| a in open && b in open && Adjacent(a, b) && e == (Encode(n, a), Encode(n, b));
    if a != c && b != c {
      assert e in SiteEdges(n, open - {c});
    } else if a == c {
      assert b in open && Adjacent(c, b);
    } else {
      assert a in open && Adjacent(c, a);
    }
  }

  lemma SiteEdgesGrow(n: int, open: set<Site>, open': set<Site>)
    requires open <= open'
    ensures SiteEdges(n, open) <= SiteEdges(n, open')
  {
  }

  /** After the four unions of `open(i, j)`, a structure that answered the joins of the
      previously open sites answers the joins of the sites open now. */
  lemma LinkNeighboursRepresents(f: Forest, base: set<Edge>, n: int, open: set<Site>, i: int, j: int)
    requires InGrid(n, Site(i, j)) && Size(f) > n * n
    requires forall x | x in open :: InGrid(n, x)
    requires Site(i, j) in open
    requires Represents(f, base + SiteEdges(n, open - {Site(i, j)}))
    ensures Represents(LinkNeighbours(f, n, open, i, j), base + SiteEdges(n, open))
  {
    var c := Site(i, j);
    var E4 := base + SiteEdges(n, open - {c}) + NeighbourEdges(n, open, i, j);
    var E' := base + SiteEdges(n, open);
    LinkNeighboursUnions(f, base + SiteEdges(n, open - {c}), n, open, i, j);
    NeighbourEdgesAreSiteEdges(n, open, i, j);
    SiteEdgesGrow(n, open - {c}, open);
    assert E4 <= E';
    forall e: Edge | e in E4
      ensures Conn(E', e.0, e.1)
    {
      ConnEdge(E', e.0, e.1);
    }
    forall e: Edge | e in E'
      ensures Conn(E4, e.0, e.1)
    {
      if e in base || e in SiteEdges(n, open - {c}) {
        ConnEdge(E4, e.0, e.1);
      } else {
        SiteEdgesSplit(n, open, c, e);
        if d :| d in open && Adjacent(c, d) && e == (Encode(n, c), Encode(n, d)) {
          NeighbourEdgesComplete(n, open, i, j, d);
          ConnEdge(E4, e.0, e.1);
        } else {
          var d :| d in open && Adjacent(c, d) && e == (Encode(n, d), Encode(n, c));
          NeighbourEdgesComplete(n, open, i, j, d);
          ConnEdge(E4, e.1, e.0);
        }
      }
    }
    RepresentsTransfer(LinkNeighbours(f, n, open, i, j), E4, E');
  }

  /** `open(i, j)`: rejects a site outside the grid; leaves an open site alone; otherwise
      opens the site, counts it and joins it to each open neighbour in both structures. */
  function Open(s: Percolation, i: int, j: int): (r: Result<Percolation>)
    requires Valid(s)
    ensures r.Err? <==> !InGrid(s.n, Site(i, j))
    ensures r.Err? ==> r.error == IndexOutOfBounds
    ensures r.Ok? ==> Valid(r.value) && r.value.n == s.n
    ensures r.Ok? ==> r.value.open == s.open + {Site(i, j)}
    ensures r.Ok? && Site(i, j) in s.open ==> r.value == s
    ensures r.Ok? && Site(i, j) !in s.open ==> r.value.openSites == s.openSites + 1
  {
    if i < 0 || j < 0 || i > s.n - 1 || j > s.n - 1 then
      Err(IndexOutOfBounds)
    else if Site(i, j) in s.open then
      Ok(s)
    else
      var open := s.open + {Site(i, j)};
      assert open - {Site(i, j)} == s.open;
      var uf := LinkNeighbours(s.uf, s.n, open, i, j);
      var fs := LinkNeighbours(s.fullSites, s.n, open, i, j);
      LinkNeighboursRepresents(s.uf, TopEdges(s.n, s.n) + BottomEdges(s.n, s.n), s.n, open, i, j);
      LinkNeighboursRepresents(s.fullSites, TopEdges(s.n, s.n), s.n, open, i, j);
      Ok(Percolation(s.n, open, s.openSites + 1, uf, fs))
  }

  /** `isOpen(i, j)`: rejects a site outside the grid, otherwise reads the flag. */
  function IsOpen(s: Percolation, i: int, j: int): (r: Result<bool>)
    ensures r.Err? <==> !InGrid(s.n, Site(i, j))
    ensures r.Err? ==> r.error == IndexOutOfBounds
    ensures r.Ok? ==> (r.value <==> Site(i, j) in s.open)
  {
    if i < 0 || j < 0 || i > s.n - 1 || j > s.n - 1 then Err(IndexOutOfBounds)
    else Ok(Site(i, j) in s.open)
  }

  /** `isFull(i, j)`: rejects a site outside the grid; otherwise the site must be open and
      joined to the virtual top in both structures, which holds exactly when it is full. */
  function IsFull(s: Percolation, i: int, j: int): (r: Result<bool>)
    requires Valid(s)
    ensures r.Err? <==> !InGrid(s.n, Site(i, j))
    ensures r.Err? ==> r.error == IndexOutOfBounds
    ensures r.Ok? ==> (r.value <==> Full(s.n, s.open, Site(i, j)))
  {
    if i < 0 || j < 0 || i > s.n - 1 || j > s.n - 1 then
      Err(IndexOutOfBounds)
    else
      var c := Site(i, j);
      IsFullMeaning(s, c);
      Ok(c in s.open && Connected(s.uf, Encode(s.n, c), VirtualTop).value
                     && Connected(s.fullSites, Encode(s.n, c), VirtualTop).value)
  }

  /** `numberOfOpenSites()`. */
  function NumberOfOpenSites(s: Percolation): (k: int)
    requires Valid(s)
    ensures k == |s.open|
  {
    s.openSites
  }

  /** `percolates()`: false for n <= 1; otherwise whether the two sentinels are joined in
      `uf`, which holds exactly when some bottom-row site is full. */
  function Percolates(s: Percolation): (b: bool)
    requires Valid(s)
    ensures b <==> s.n > 1 && Percolating(s.n, s.open)
  {
    if s.n <= 1 then
      false
    else
      PercolationMeaning(s.n, s.open);
      Connected(s.uf, VirtualBottom(s.n), VirtualTop).value
  }

  /** The elements in the virtual top's class of `fullSites`: the virtual top itself, the
      whole top row, and the full sites. */
  ghost function TopSide(n: int, open: set<Site>): iset<int>
    requires n > 0
  {
    iset w | w == VirtualTop || (1 <= w <= n * n && (Decode(n, w).row == 0 || Full(n, open, Decode(n, w))))
  }

  lemma TopSideMember(n: int, open: set<Site>, c: Site)
    requires n > 0 && InGrid(n, c)
    ensures Encode(n, c) in TopSide(n, open) <==> c.row == 0 || Full(n, open, c)
  {
  }

  /** No join of `fullSites` leaves the top side; neither does any join of `uf` unless a
      bottom-row site is full or the grid is a single site. */
  lemma TopSideClosed(n: int, open: set<Site>)
    requires n > 0
    requires forall x | x in open :: InGrid(n, x)
    ensures Closed(FullSitesEdges(n, open), TopSide(n, open))
    ensures n > 1 && !Percolating(n, open) ==> Closed(UfEdges(n, open), TopSide(n, open))
  {
    var S := TopSide(n, open);
    forall e | e in TopEdges(n, n)
      ensures e.0 in S && e.1 in S
    {
      var j :| 0 <= j < n && e == (Encode(n, Site(0, j)), VirtualTop);
      TopSideMember(n, open, Site(0, j));
    }
    forall e | e in SiteEdges(n, open)
      ensures e.0 in S <==> e.1 in S
    {
      var a, b :| a in open && b in open && Adjacent(a, b) && e == (Encode(n, a), Encode(n, b));
      TopSideMember(n, open, a);
      TopSideMember(n, open, b);
      if a.row == 0 {
        FullSeed(n, open, a);
      }
      if b.row == 0 {
        FullSeed(n, open, b);
      }
      FullSpread(n, open, a, b);
      FullSpread(n, open, b, a);
    }
    if n > 1 && !Percolating(n, open) {
      forall e | e in BottomEdges(n, n)
        ensures e.0 !in S && e.1 !in S
      {
        var j :| 0 <= j < n && e == (Encode(n, BottomSite(n, j)), VirtualBottom(n));
        TopSideMember(n, open, BottomSite(n, j));
        assert !BottomFull(n, open, j);
      }
    }
  }

  /** A full site is joined to the virtual top by any set of joins that contains the
      top-row joins and the joins of adjacent open sites. */
  lemma FullReachesTop(n: int, open: set<Site>, E: set<Edge>, c: Site)
    requires TopEdges(n, n) + SiteEdges(n, open) <= E
    requires Full(n, open, c)
    ensures Conn(E, Encode(n, c), VirtualTop)
  {
    forall S: iset<int> | Closed(E, S) && VirtualTop in S
      ensures Encode(n, c) in S
    {
      var T := iset d | d in open && Encode(n, d) in S;
      forall d | d in open && InGrid(n, d) && d.row == 0
        ensures d in T
      {
        assert (Encode(n, d), VirtualTop) in TopEdges(n, n);
      }
      forall a, b | a in T && b in open && InGrid(n, b) && Adjacent(a, b)
        ensures b in T
      {
        assert (Encode(n, a), Encode(n, b)) in SiteEdges(n, open);
      }
      assert Seeded(n, open, T) && Spreads(n, open, T);
    }
    ConnSym(E, VirtualTop, Encode(n, c));
  }

  /** `fullSites` alone decides fullness: an open site is joined to its virtual top exactly
      when the site is full. */
  lemma FullSitesMeaning(n: int, open: set<Site>, c: Site)
    requires n > 0 && InGrid(n, c)
    requires forall x | x in open :: InGrid(n, x)
    ensures c in open && Conn(FullSitesEdges(n, open), Encode(n, c), VirtualTop) <==> Full(n, open, c)
  {
    var E := FullSitesEdges(n, open);
    if Full(n, open, c) {
      FullIsOpen(n, open, c);
      FullReachesTop(n, open, E, c);
    }
    if c in open && Conn(E, Encode(n, c), VirtualTop) {
      ConnSym(E, Encode(n, c), VirtualTop);
      TopSideClosed(n, open);
      TopSideMember(n, open, c);
      assert Encode(n, c) in TopSide(n, open);
      if c.row == 0 {
        FullSeed(n, open, c);
      }
    }
  }

  /** The guard of `isFull`: open, joined to the top in `uf` and in `fullSites`, exactly when full. */
  lemma IsFullMeaning(s: Percolation, c: Site)
    requires Valid(s) && InGrid(s.n, c)
    ensures 1 <= Encode(s.n, c) <= s.n * s.n
    ensures c in s.open && Same(s.uf, Encode(s.n, c), VirtualTop) && Same(s.fullSites, Encode(s.n, c), VirtualTop)
            <==> Full(s.n, s.open, c)
  {
    FullSitesMeaning(s.n, s.open, c);
    if Full(s.n, s.open, c) {
      FullReachesTop(s.n, s.open, UfEdges(s.n, s.open), c);
    }
  }

  /** For n > 1 the two sentinels are joined in `uf` exactly when some bottom-row site is full. */
  lemma PercolationMeaning(n: int, open: set<Site>)
    requires n > 1
    requires forall x | x in open :: InGrid(n, x)
    ensures Conn(UfEdges(n, open), VirtualBottom(n), VirtualTop) <==> Percolating(n, open)
  {
    var E := UfEdges(n, open);
    if Percolating(n, open) {
      var j :| 0 <= j < n && BottomFull(n, open, j);
      var c := BottomSite(n, j);
      FullReachesTop(n, open, E, c);
      assert (Encode(n, c), VirtualBottom(n)) in BottomEdges(n, n);
      ConnEdge(E, Encode(n, c), VirtualBottom(n));
      ConnTrans(E, VirtualBottom(n), Encode(n, c), VirtualTop);
    } else {
      TopSideClosed(n, open);
      assert VirtualTop in TopSide(n, open);
      assert VirtualBottom(n) !in TopSide(n, open);
      assert !Conn(E, VirtualTop, VirtualBottom(n));
      if Conn(E, VirtualBottom(n), VirtualTop) {
        ConnSym(E, VirtualBottom(n), VirtualTop);
      }
    }
  }

  /** A client's sequence of `open` calls, stopping at the first exception: it succeeds
      exactly when every site is inside the grid, and then the open sites are the earlier
      ones plus every site named. */
  function Replay(s: Percolation, ops: seq<Site>): (r: Result<Percolation>)
    requires Valid(s)
    ensures r.Ok? <==> forall k | 0 <= k < |ops| :: InGrid(s.n, ops[k])
    ensures r.Err? ==> r.error == IndexOutOfBounds
    ensures r.Ok? ==> Valid(r.value) && r.value.n == s.n && r.value.open == s.open + Opened(ops)
    decreases |ops|
  {
    if |ops| == 0 then
      Ok(s)
    else
      var s' :- Open(s, ops[0].row, ops[0].col);
      var r := Replay(s', ops[1..]);
      InGridSplit(s.n, ops);
      r
  }

  /** Opening a site a second time changes nothing. */
  lemma OpenIdempotent(s: Percolation, i: int, j: int)
    requires Valid(s) && Open(s, i, j).Ok?
    ensures Open(Open(s, i, j).value, i, j) == Open(s, i, j)
  {
  }

  /** A full site is open. */
  lemma FullSiteIsOpen(s: Percolation, i: int, j: int)
    requires Valid(s)
    ensures IsFull(s, i, j) == Ok(true) ==> IsOpen(s, i, j) == Ok(true)
  {
    FullIsOpen(s.n, s.open, Site(i, j));
  }

  /** Opening sites only adds unions, so a full site stays full. */
  lemma FullStaysFull(s: Percolation, i: int, j: int, a: int, b: int)
    requires Valid(s) && IsFull(s, i, j) == Ok(true) && Open(s, a, b).Ok?
    ensures IsFull(Open(s, a, b).value, i, j) == Ok(true)
  {
    FullMonotone(s.n, s.open, Open(s, a, b).value.open, Site(i, j));
  }

  /** For n = 1 the only site is joined to both sentinels by the constructor, so `uf`
      joins the sentinels whatever is open; hence `percolates()` is hard-wired to false. */
  lemma SingleSiteJoinsSentinels(s: Percolation)
    requires Valid(s) && s.n == 1
    ensures Same(s.uf, VirtualBottom(s.n), VirtualTop)
  {
    var E := UfEdges(1, s.open);
    assert (Encode(1, Site(0, 0)), VirtualTop) in TopEdges(1, 1);
    assert (Encode(1, BottomSite(1, 0)), VirtualBottom(1)) in BottomEdges(1, 1);
    ConnEdge(E, 1, VirtualTop);
    ConnEdge(E, 1, VirtualBottom(1));
    ConnTrans(E, VirtualBottom(1), 1, VirtualTop);
  }

  /** Once the system percolates, `uf` joins every open bottom-row site to the virtual top
      through the virtual bottom, whether or not the site is full. */
  lemma BackwashThroughBottom(s: Percolation, c: Site)
    requires Valid(s) && s.n > 1 && Percolates(s)
    requires c in s.open && c.row == s.n - 1
    ensures 1 <= Encode(s.n, c) <= s.n * s.n
    ensures Same(s.uf, Encode(s.n, c), VirtualTop)
  {
    var E := UfEdges(s.n, s.open);
    var x := Encode(s.n, c);
    assert c == BottomSite(s.n, c.col);
    assert (x, VirtualBottom(s.n)) in BottomEdges(s.n, s.n);
    ConnEdge(E, x, VirtualBottom(s.n));
    assert Conn(E, VirtualBottom(s.n), VirtualTop);
    ConnTrans(E, x, VirtualBottom(s.n), VirtualTop);
  }
}
