/** The two implementations of the Percolation API agree: fed the same calls they hold the
    same open sites and give the same answers, except `percolates()` on a 1-by-1 grid.
    Also the concrete scenarios the classes are usually exercised with. */
module Agreement {
  import opened Wrappers
  import opened Grid
  import UnionFind
  import A = ArrayPercolation
  import U = UFPercolation

  /** Two systems holding the same open sites answer every query alike; `percolates()`
      differs only on a 1-by-1 grid, where the union-find version always says false. */
  lemma QueriesAgree(a: A.Percolation, u: U.Percolation, i: int, j: int)
    requires A.Valid(a) && U.Valid(u)
    requires a.n == u.n && a.open == u.open
    ensures A.IsOpen(a, i, j) == U.IsOpen(u, i, j)
    ensures A.IsFull(a, i, j) == U.IsFull(u, i, j)
    ensures A.NumberOfOpenSites(a) == U.NumberOfOpenSites(u)
    ensures u.n > 1 ==> A.Percolates(a) == U.Percolates(u)
    ensures u.n == 1 ==> !U.Percolates(u) && (A.Percolates(a) <==> Site(0, 0) in a.open)
  {
    if u.n == 1 {
      FullIsOpen(1, a.open, Site(0, 0));
      if Site(0, 0) in a.open {
        FullSeed(1, a.open, Site(0, 0));
        assert BottomFull(1, a.open, 0);
      }
    }
  }

  /** The same sequence of `open` calls on fresh systems of size n: both constructors fail
      together, both replays fail together, and otherwise the two end in agreeing states. */
  lemma ReplayAgrees(n: int, ops: seq<Site>)
    ensures A.Create(n).Ok? <==> U.Create(n).Ok?
    ensures n > 0 ==>
      var a := A.Replay(A.Create(n).value, ops);
      var u := U.Replay(U.Create(n).value, ops);
      && (a.Ok? <==> u.Ok?)
      && (a.Ok? ==> a.value.n == u.value.n && a.value.open == u.value.open == Opened(ops))
      && (a.Ok? ==> A.NumberOfOpenSites(a.value) == U.NumberOfOpenSites(u.value) == |Opened(ops)|)
  {
  }

  /** The central agreement: after the same calls, `isFull` answers alike everywhere and, for
      n > 1, so does `percolates()`. */
  lemma ReplayAnswersAgree(n: int, ops: seq<Site>, i: int, j: int)
    requires n > 0
    requires A.Replay(A.Create(n).value, ops).Ok?
    ensures U.Replay(U.Create(n).value, ops).Ok?
    ensures var a := A.Replay(A.Create(n).value, ops).value;
            var u := U.Replay(U.Create(n).value, ops).value;
            && A.IsFull(a, i, j) == U.IsFull(u, i, j)
            && (n > 1 ==> A.Percolates(a) == U.Percolates(u))
  {
    ReplayAgrees(n, ops);
    var a := A.Replay(A.Create(n).value, ops).value;
    var u := U.Replay(U.Create(n).value, ops).value;
    QueriesAgree(a, u, i, j);
  }

  /** Both fresh systems of size n accept a sequence of in-grid sites and end with exactly
      those sites open. */
  lemma ReplayFresh(n: int, ops: seq<Site>)
    requires n > 0
    requires forall k | 0 <= k < |ops| :: InGrid(n, ops[k])
    ensures U.Replay(U.Create(n).value, ops).Ok?
    ensures U.Replay(U.Create(n).value, ops).value.open == Opened(ops)
    ensures U.Replay(U.Create(n).value, ops).value.n == n
    ensures A.Replay(A.Create(n).value, ops).Ok?
    ensures A.Replay(A.Create(n).value, ops).value.open == Opened(ops)
    ensures A.Replay(A.Create(n).value, ops).value.n == n
  {
    UnionFindReplayFresh(n, ops);
    ArrayReplayFresh(n, ops);
  }

  lemma UnionFindReplayFresh(n: int, ops: seq<Site>)
    requires n > 0
    requires forall k | 0 <= k < |ops| :: InGrid(n, ops[k])
    ensures U.Replay(U.Create(n).value, ops).Ok?
    ensures U.Replay(U.Create(n).value, ops).value.open == Opened(ops)
    ensures U.Replay(U.Create(n).value, ops).value.n == n
  {
    var s := U.Create(n).value;
    assert U.Valid(s) && s.n == n && s.open == {};
    ReplayFromEmpty(s, ops);
  }

  /** Replaying in-grid sites on a valid union-find system with nothing open opens exactly them. */
  lemma ReplayFromEmpty(s: U.Percolation, ops: seq<Site>)
    requires U.Valid(s) && s.open == {}
    requires forall k | 0 <= k < |ops| :: InGrid(s.n, ops[k])
    ensures U.Replay(s, ops).Ok?
    ensures U.Replay(s, ops).value.open == Opened(ops) && U.Replay(s, ops).value.n == s.n
  {
    assert {} + Opened(ops) == Opened(ops);
  }

  lemma ArrayReplayFresh(n: int, ops: seq<Site>)
    requires n > 0
    requires forall k | 0 <= k < |ops| :: InGrid(n, ops[k])
    ensures A.Replay(A.Create(n).value, ops).Ok?
    ensures A.Replay(A.Create(n).value, ops).value.open == Opened(ops)
    ensures A.Replay(A.Create(n).value, ops).value.n == n
  {
    var a0 := A.Create(n).value;
    assert A.Valid(a0) && a0.n == n && a0.open == {};
    assert {} + Opened(ops) == Opened(ops);
  }

  /** For n = 2, the open column (0, 0), (1, 0) reaches the bottom row. */
  lemma ColumnReachesBottom()
    ensures Percolating(2, {Site(0, 0), Site(1, 0)})
  {
    var open := {Site(0, 0), Site(1, 0)};
    FullSeed(2, open, Site(0, 0));
    FullSpread(2, open, Site(0, 0), Site(1, 0));
    assert BottomFull(2, open, 0);
  }

  /** For n = 2, the diagonal (0, 0), (1, 1) shares no edge, so no bottom site is full. */
  lemma DiagonalBlocked()
    ensures !Percolating(2, {Site(0, 0), Site(1, 1)})
  {
    var open := {Site(0, 0), Site(1, 1)};
    var S: iset<Site> := iset{Site(0, 0)};
    assert Seeded(2, open, S) && Spreads(2, open, S);
    assert !BottomFull(2, open, 0) && !BottomFull(2, open, 1);
  }

  /** For n = 3, with only the bottom row open no site is full. */
  lemma BottomRowBlocked(c: Site)
    ensures !Full(3, {Site(2, 0), Site(2, 1), Site(2, 2)}, c)
  {
    var open := {Site(2, 0), Site(2, 1), Site(2, 2)};
    var S: iset<Site> := iset{};
    assert Seeded(3, open, S) && Spreads(3, open, S);
  }

  /** For n = 3, with column 0 and (2, 2) open, the column percolates but (2, 2) is not full. */
  lemma ColumnAndCorner()
    ensures BottomFull(3, {Site(0, 0), Site(1, 0), Site(2, 0), Site(2, 2)}, 0)
    ensures !Full(3, {Site(0, 0), Site(1, 0), Site(2, 0), Site(2, 2)}, Site(2, 2))
  {
    var open := {Site(0, 0), Site(1, 0), Site(2, 0), Site(2, 2)};
    FullSeed(3, open, Site(0, 0));
    FullSpread(3, open, Site(0, 0), Site(1, 0));
    FullSpread(3, open, Site(1, 0), Site(2, 0));
    var S: iset<Site> := iset{Site(0, 0), Site(1, 0), Site(2, 0)};
    assert Seeded(3, open, S) && Spreads(3, open, S);
  }

  /** For n = 2, opening (0, 0) and (1, 0) percolates in both versions. */
  lemma ColumnPercolates(n: int, ops: seq<Site>)
    requires n == 2 && ops == [Site(0, 0), Site(1, 0)]
    ensures U.Replay(U.Create(n).value, ops).Ok? && U.Percolates(U.Replay(U.Create(n).value, ops).value)
    ensures A.Replay(A.Create(n).value, ops).Ok? && A.Percolates(A.Replay(A.Create(n).value, ops).value)
  {
    ColumnReplay(n, ops);
    ColumnReachesBottom();
  }

  /** Replaying (0, 0), (1, 0) on fresh 2-by-2 systems opens exactly those sites. */
  lemma ColumnReplay(n: int, ops: seq<Site>)
    requires n == 2 && ops == [Site(0, 0), Site(1, 0)]
    ensures U.Replay(U.Create(n).value, ops).Ok? && A.Replay(A.Create(n).value, ops).Ok?
    ensures U.Replay(U.Create(n).value, ops).value.open == {Site(0, 0), Site(1, 0)}
    ensures A.Replay(A.Create(n).value, ops).value.open == {Site(0, 0), Site(1, 0)}
  {
    assert ops[0] == Site(0, 0) && ops[1] == Site(1, 0);
    assert Opened(ops) == {Site(0, 0), Site(1, 0)};
    ReplayFresh(n, ops);
  }

  /** For n = 2, opening the diagonal (0, 0) and (1, 1) percolates in neither version. */
  lemma DiagonalDoesNotPercolate(n: int, ops: seq<Site>)
    requires n == 2 && ops == [Site(0, 0), Site(1, 1)]
    ensures U.Replay(U.Create(n).value, ops).Ok? && !U.Percolates(U.Replay(U.Create(n).value, ops).value)
    ensures A.Replay(A.Create(n).value, ops).Ok? && !A.Percolates(A.Replay(A.Create(n).value, ops).value)
  {
    DiagonalReplay(n, ops);
    DiagonalBlocked();
  }

  /** Replaying (0, 0), (1, 1) on fresh 2-by-2 systems opens exactly those sites. */
  lemma DiagonalReplay(n: int, ops: seq<Site>)
    requires n == 2 && ops == [Site(0, 0), Site(1, 1)]
    ensures U.Replay(U.Create(n).value, ops).Ok? && A.Replay(A.Create(n).value, ops).Ok?
    ensures U.Replay(U.Create(n).value, ops).value.open == {Site(0, 0), Site(1, 1)}
    ensures A.Replay(A.Create(n).value, ops).value.open == {Site(0, 0), Site(1, 1)}
  {
    assert ops[0] == Site(0, 0) && ops[1] == Site(1, 1);
    assert Opened(ops) == {Site(0, 0), Site(1, 1)};
    ReplayFresh(n, ops);
  }

  /** For n = 3, opening only the bottom row leaves every bottom site not full in both
      versions, although they are all open. */
  lemma BottomRowAloneIsNotFull(u: U.Percolation, a: A.Percolation, k: int)
    requires U.Valid(u) && u.n == 3 && u.open == {Site(2, 0), Site(2, 1), Site(2, 2)}
    requires A.Valid(a) && a.n == 3 && a.open == u.open
    requires 0 <= k < 3
    ensures U.IsOpen(u, 2, k) == Ok(true) && U.IsFull(u, 2, k) == Ok(false)
    ensures A.IsOpen(a, 2, k) == Ok(true) && A.IsFull(a, 2, k) == Ok(false)
  {
    BottomRowBlocked(Site(2, k));
  }

  /** Replaying the bottom row of a 3-by-3 grid yields exactly the states of the previous lemma. */
  lemma BottomRowReplay(n: int, ops: seq<Site>)
    requires n == 3 && ops == [Site(2, 0), Site(2, 1), Site(2, 2)]
    ensures U.Replay(U.Create(n).value, ops).Ok? && A.Replay(A.Create(n).value, ops).Ok?
    ensures U.Replay(U.Create(n).value, ops).value.open == {Site(2, 0), Site(2, 1), Site(2, 2)}
    ensures A.Replay(A.Create(n).value, ops).value.open == {Site(2, 0), Site(2, 1), Site(2, 2)}
  {
    assert ops[0] == Site(2, 0) && ops[1] == Site(2, 1) && ops[2] == Site(2, 2);
    assert Opened(ops) == {Site(2, 0), Site(2, 1), Site(2, 2)};
    ReplayFresh(n, ops);
  }

  /** For n = 1, once the only site is open the union-find version counts one open site and
      still does not percolate, while the array version percolates. */
  lemma SingleSite(u: U.Percolation, a: A.Percolation)
    requires U.Valid(u) && u.n == 1 && Site(0, 0) in u.open
    requires A.Valid(a) && a.n == 1 && Site(0, 0) in a.open
    ensures U.NumberOfOpenSites(u) == 1 && !U.Percolates(u)
    ensures A.NumberOfOpenSites(a) == 1 && A.Percolates(a)
  {
    assert u.open == {Site(0, 0)};
    assert a.open == {Site(0, 0)};
    FullSeed(1, a.open, Site(0, 0));
    assert BottomFull(1, a.open, 0);
  }

  /** Why `isFull` also asks `fullSites`: for n = 3 with column 0 and site (2, 2) open, `uf`
      joins (2, 2) to the virtual top through the virtual bottom, yet (2, 2) is not full. */
  lemma UfAloneWouldBackwash(u: U.Percolation)
    requires U.Valid(u) && u.n == 3
    requires u.open == {Site(0, 0), Site(1, 0), Site(2, 0), Site(2, 2)}
    ensures U.Percolates(u)
    ensures UnionFind.Same(u.uf, Encode(3, Site(2, 2)), U.VirtualTop)
    ensures U.IsFull(u, 2, 2) == Ok(false)
  {
    ColumnAndCorner();
    U.BackwashThroughBottom(u, Site(2, 2));
  }

  /** Replaying column 0 and then (2, 2) on a fresh 3-by-3 system yields the states of the
      previous lemma. */
  lemma ColumnAndCornerReplay(n: int, ops: seq<Site>)
    requires n == 3 && ops == [Site(0, 0), Site(1, 0), Site(2, 0), Site(2, 2)]
    ensures U.Replay(U.Create(n).value, ops).Ok? && A.Replay(A.Create(n).value, ops).Ok?
    ensures U.Replay(U.Create(n).value, ops).value.open == {Site(0, 0), Site(1, 0), Site(2, 0), Site(2, 2)}
    ensures A.Replay(A.Create(n).value, ops).value.open == {Site(0, 0), Site(1, 0), Site(2, 0), Site(2, 2)}
  {
    assert ops[0] == Site(0, 0) && ops[1] == Site(1, 0) && ops[2] == Site(2, 0) && ops[3] == Site(2, 2);
    assert Opened(ops) == {Site(0, 0), Site(1, 0), Site(2, 0), Site(2, 2)};
    ReplayFresh(n, ops);
  }
}
