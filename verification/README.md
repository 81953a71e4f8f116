# Percolation: two implementations of one API

An n-by-n grid of sites. Each site is blocked or open. An open site is *full* when a chain of
open, 4-adjacent sites links it to an open site of the top row. The system *percolates*
when some site of the bottom row is full. Two classes implement the same API: the
constructor, `open(i, j)`, `isOpen(i, j)`, `isFull(i, j)`, `numberOfOpenSites()` and
`percolates()`.

- **`UFPercolation`** keeps the open flags, a counter and two union-find structures.
  - Site (i, j) is element `n*i + j + 1`.
  - `uf` has n*n + 2 elements. Its virtual top is 0 and its virtual bottom is n*n + 1.
  - `fullSites` has n*n + 1 elements and only the virtual top. So a bottom-row site can
    never reach the top through the bottom sentinel ("backwash").
- **`ArrayPercolation`** keeps only the open flags and a counter. `isFull` recomputes
  fullness on every call with a recursive depth-first flood fill from each top-row cell.

The model is functional:
- A system is an immutable datatype and the open sites are a `set<Site>`.
- Every operation that can throw returns a `Result`. Java's `IllegalArgumentException`
  and `IndexOutOfBoundsException` become `Err(IllegalArgument)` and `Err(IndexOutOfBounds)`.
  `numberOfOpenSites()` and `percolates()` never throw and return a plain `int` or `bool`.
- The meaning of "full" is stated once, in `Grid.Full`. It is the least set of sites that
  holds the open top-row sites and is closed under stepping to an adjacent open site.
  `Grid.FullIffPath` shows this is reachability by an open path from the top row.

Union-find (`dsa.WeightedQuickUnionUF`, whose source is not part of this model) is an
abstract partition:
- `UnionFind.Forest` holds one class id per element.
- `UnionFind.Represents(f, E)` says the partition is exactly the equivalence relation
  generated by the union pairs E.
- `Connectivity.Conn` defines that equivalence: x and y are connected when every set of
  elements that no pair of E crosses and that holds x also holds y.

`UFPercolation.Valid` is the invariant:
- `uf` represents the sentinel joins plus one join per pair of adjacent open sites;
- `fullSites` represents the same, without the bottom joins.

From the invariant the model proves:
- `isFull` is exactly `Grid.Full`;
- for n > 1, `percolates()` is exactly "some bottom-row site is full".

The same two facts are proved for the flood-fill version. Module `Agreement` then shows
that, after the same calls, both versions give the same answers. The one exception is
`percolates()` on a 1-by-1 grid.

Files:
- `wrappers.dfy`: `Result` and the two exception kinds.
- `connectivity.dfy`: the equivalence generated by union pairs.
- `union_find.dfy`: the union-find structure as a partition.
- `grid.dfy`: sites, adjacency, `Full`, `Percolating` and the site encoding.
- `array_percolation.dfy`: `ArrayPercolation`.
- `uf_percolation.dfy`: `UFPercolation`.
- `agreement.dfy`: agreement of the two versions and concrete scenarios.

## Model

| member | source | states |
|---|---|---|
| UnionFind.Init | UFPercolation.java:26-27 | a fresh structure of `count` elements has every element alone in its class; it represents the empty set of unions |
| UnionFind.Merge | UFPercolation.java:57-58 | after a union, u and v share a class iff they did before, or one was with x and the other with y |
| UnionFind.Union | UFPercolation.java:32-34 | `union(x, y)` fails exactly when an index is outside the structure; otherwise x and y end up together, and if the structure represented unions E it now represents E plus (x, y); every call from the percolation model is proved in range |
| UnionFind.Connected | UFPercolation.java:89-90 | `connected(x, y)` fails exactly when an index is outside the structure; otherwise it answers whether the unions so far link x and y; every call from `isFull` and `percolates()` is proved in range |
| UnionFind.MergeRepresents | UFPercolation.java:57-70 | each union in `open` keeps the partition equal to the equivalence generated by all union pairs so far |
| Connectivity.ConnAddEdge | UFPercolation.java:57-58 | after adding the pair (a, b), x and y are linked iff they were already, or x reaches one end and the other end reaches y |
| Grid.FullIffPath | ArrayPercolation.java:79-92 | a site is full iff an open path of 4-adjacent grid sites leads to it from the top row |
| Grid.PathFull | ArrayPercolation.java:83-91 | every site along an open path from the top row is full |
| Grid.FullIsOpen | ArrayPercolation.java:80 | only open sites of the grid are full |
| Grid.FullMonotone | UFPercolation.java:56-71 | opening more sites never makes a full site stop being full |
| Grid.Encode | UFPercolation.java:106-109 | `encode` maps every grid site into 1..n*n, so it never collides with the virtual top 0 or the virtual bottom n*n + 1, and decoding recovers the site |
| Grid.EncodeInjective | UFPercolation.java:106-109 | distinct grid sites have distinct ids |
| Grid.EncodeOnto | UFPercolation.java:106-109 | every id in 1..n*n is the id of some grid site |
| ArrayPercolation.Create | ArrayPercolation.java:19-27 | fails with an illegal argument exactly when n <= 0; otherwise no site is open and the count is 0 |
| ArrayPercolation.Open | ArrayPercolation.java:30-38 | fails exactly for a site outside the grid; otherwise the open sites gain exactly (i, j); an already open site leaves the system unchanged; a blocked one raises the count by 1 |
| ArrayPercolation.IsOpen | ArrayPercolation.java:41-46 | fails exactly for a site outside the grid; otherwise tells whether the site is open |
| ArrayPercolation.FloodFill | ArrayPercolation.java:79-94 | the fill terminates, keeps every earlier mark, and marks only open sites of the grid |
| ArrayPercolation.FloodFillSeals | ArrayPercolation.java:80-91 | the start site gets marked when it is open, and every newly marked site has all its open neighbours marked |
| ArrayPercolation.FloodFillSound | ArrayPercolation.java:80-91 | started from full sites at a full or blocked site, the fill marks only full sites |
| ArrayPercolation.FillFromTop | ArrayPercolation.java:53-56 | the loop of fills marks every open top-row site from column k on, and leaves every new mark with its open neighbours marked |
| ArrayPercolation.FillFromTopIsFull | ArrayPercolation.java:53-57 | on a fresh array, the fills from the whole top row mark exactly the full sites |
| ArrayPercolation.IsFull | ArrayPercolation.java:49-58 | fails exactly for a site outside the grid; otherwise true iff the site is full |
| ArrayPercolation.NumberOfOpenSites | ArrayPercolation.java:61-63 | the counter equals the number of open sites |
| ArrayPercolation.Percolates | ArrayPercolation.java:66-76 | true iff some bottom-row site is full; on a 1-by-1 grid, true iff the single site is open |
| ArrayPercolation.FullInLastRow | ArrayPercolation.java:70-75 | the loop from column j returns true iff some bottom-row site at column j or later is full |
| ArrayPercolation.Replay | ArrayPercolation.java:30-38 | a sequence of `open` calls succeeds iff every site is inside the grid, and then the open sites are the old ones plus exactly the sites named |
| ArrayPercolation.OpenIdempotent | ArrayPercolation.java:34-37 | opening the same site twice equals opening it once |
| ArrayPercolation.FullSiteIsOpen | ArrayPercolation.java:49-58 | `isFull` true implies `isOpen` true |
| UFPercolation.Create | UFPercolation.java:19-39 | fails with an illegal argument exactly when n <= 0; otherwise no site is open, the count is 0 and both structures hold exactly the sentinel joins |
| UFPercolation.WireSentinels | UFPercolation.java:31-34 | the loop joins every top-row site to the virtual top in both structures and every bottom-row site to the virtual bottom in `uf` only |
| UFPercolation.WireStep | UFPercolation.java:32-34 | one turn of the constructor's loop extends the union history of `uf` by the column's top and bottom joins and that of `fullSites` by the top join only |
| UFPercolation.LinkIf | UFPercolation.java:56-59 | one guarded union of `open` never separates two elements; when the guard holds and the neighbour is open it joins the site to the neighbour, otherwise it changes nothing |
| UFPercolation.LinkNeighbours | UFPercolation.java:56-71 | the four guarded unions of `open(i, j)` never separate two elements and join (i, j) to every open grid neighbour |
| UFPercolation.LinkIfRepresents | UFPercolation.java:56-59 | one guarded union adds the pair for (i, j) and that neighbour exactly when the neighbour is in the grid and open |
| UFPercolation.LinkNeighboursRepresents | UFPercolation.java:56-71 | the four guarded unions of `open` turn a structure representing the joins of the old open sites into one representing the joins of the new open sites |
| UFPercolation.Open | UFPercolation.java:42-73 | fails exactly for a site outside the grid; otherwise the open sites gain exactly (i, j); an already open site leaves the system unchanged; a blocked one raises the count by 1; both structures keep representing their joins |
| UFPercolation.IsOpen | UFPercolation.java:76-81 | fails exactly for a site outside the grid; otherwise tells whether the site is open |
| UFPercolation.IsFull | UFPercolation.java:84-91 | fails exactly for a site outside the grid; otherwise true iff the site is full |
| UFPercolation.IsFullMeaning | UFPercolation.java:89-90 | being open and joined to the virtual top in both structures holds iff the site is full |
| UFPercolation.FullSitesMeaning | UFPercolation.java:89-90 | in `fullSites`, which has no bottom sentinel, an open site is joined to the virtual top iff it is full |
| UFPercolation.TopSideClosed | UFPercolation.java:26-34 | no join of `fullSites` leaves the class {virtual top, top row, full sites}; for n > 1 no join of `uf` leaves it either unless some bottom site is full |
| UFPercolation.NumberOfOpenSites | UFPercolation.java:94-96 | the counter equals the number of open sites |
| UFPercolation.Percolates | UFPercolation.java:99-104 | false when n <= 1; otherwise true iff some bottom-row site is full |
| UFPercolation.PercolationMeaning | UFPercolation.java:103 | for n > 1, the two sentinels are joined in `uf` iff some bottom-row site is full |
| UFPercolation.Replay | UFPercolation.java:42-73 | a sequence of `open` calls succeeds iff every site is inside the grid, and then the open sites are the old ones plus exactly the sites named |
| UFPercolation.OpenIdempotent | UFPercolation.java:47-50 | opening the same site twice equals opening it once |
| UFPercolation.FullSiteIsOpen | UFPercolation.java:89-90 | `isFull` true implies `isOpen` true |
| UFPercolation.FullStaysFull | UFPercolation.java:56-71 | a full site stays full after any later successful `open` |
| UFPercolation.SingleSiteJoinsSentinels | UFPercolation.java:31-34 | for n = 1 the constructor's joins link the two sentinels in `uf`, whatever is open |
| UFPercolation.BackwashThroughBottom | UFPercolation.java:88-90 | once the system percolates, `uf` joins every open bottom-row site to the virtual top, full or not |
| Agreement.QueriesAgree | UFPercolation.java:76-104 | two systems with the same open sites give the same `isOpen`, `isFull` and count; `percolates()` agrees for n > 1; for n = 1 the union-find version says false and the array version says whether the site is open |
| Agreement.ReplayAgrees | ArrayPercolation.java:19-38 | the same constructor call and `open` calls succeed or fail together in both versions, and then leave the same open sites and count |
| Agreement.ReplayAnswersAgree | ArrayPercolation.java:49-76 | after the same successful calls, `isFull` agrees at every site and, for n > 1, so does `percolates()` |
| Agreement.ReplayFresh | UFPercolation.java:19-73 | on fresh systems of size n > 0, in-grid `open` calls succeed in both versions and open exactly the sites named |
| Agreement.UnionFindReplayFresh | UFPercolation.java:19-73 | on a fresh union-find system of size n > 0, in-grid `open` calls succeed and open exactly the sites named |
| Agreement.ArrayReplayFresh | ArrayPercolation.java:19-38 | on a fresh array system of size n > 0, in-grid `open` calls succeed and open exactly the sites named |
| Agreement.ReplayFromEmpty | UFPercolation.java:42-73 | on a valid union-find system with no site open, in-grid `open` calls succeed and open exactly the sites named |
| Agreement.ColumnPercolates | ArrayPercolation.java:66-76 | for n = 2, opening (0, 0) and (1, 0) percolates in both versions |
| Agreement.ColumnReplay | ArrayPercolation.java:30-38 | opening (0, 0), (1, 0) on fresh 2-by-2 systems opens exactly those sites |
| Agreement.DiagonalReplay | ArrayPercolation.java:30-38 | opening (0, 0), (1, 1) on fresh 2-by-2 systems opens exactly those sites |
| Agreement.DiagonalDoesNotPercolate | ArrayPercolation.java:66-76 | for n = 2, opening (0, 0) and (1, 1) percolates in neither version |
| Agreement.BottomRowAloneIsNotFull | UFPercolation.java:84-91 | for n = 3 with only the bottom row open, every bottom site is open but none is full, in both versions |
| Agreement.BottomRowReplay | UFPercolation.java:42-73 | opening (2, 0), (2, 1), (2, 2) on fresh 3-by-3 systems opens exactly those sites |
| Agreement.SingleSite | UFPercolation.java:99-102 | for n = 1 with the site open both versions count 1; the union-find version does not percolate while the array version does |
| Agreement.UfAloneWouldBackwash | UFPercolation.java:88-90 | for n = 3 with column 0 and (2, 2) open, `uf` alone joins (2, 2) to the top, yet `isFull(2, 2)` is false |
| Agreement.ColumnAndCornerReplay | UFPercolation.java:42-73 | opening (0, 0), (1, 0), (2, 0), (2, 2) on fresh 3-by-3 systems opens exactly those sites |

## Left out

- `PercolationStats`: it needs random site choice, floating-point mean, deviation and square root. With n = 1 its trial loop never ends, because the union-find `percolates()` is always false there.
- Every `main` method: file reading, argument parsing and printing.
- The internals of `WeightedQuickUnionUF`: parent links, sizes, path behaviour and the weighted-union height bound. The structure is modelled only by the partition it answers, with one class id per element.
- `UFPercolation.Create`, `UFPercolation.Open`: Java `int` overflow of `n*n + 2` and of `n*i + j + 1` for very large n is not modelled; integers are unbounded.
- `ArrayPercolation.NumberOfOpenSites`, `ArrayPercolation.Open`: the Java `int` counter `openSites` wraps after 2^31 - 1 increments, which a grid with n >= 46341 allows. The model's counter is unbounded, so "the count equals the number of open sites" holds only below that bound in the source.
- `UFPercolation.NumberOfOpenSites`: the same counter wrap-around applies to the union-find version's `openSites`.
- `UnionFind.Union`, `UnionFind.Connected`: the exception the library throws for an index outside its range is not known here. It is modelled as `IndexOutOfBounds`, and every call the percolation model makes is proved in range, so no answer depends on that choice.
- `UFPercolation.Open`: the two structures' unions are interleaved in the source and sequenced one structure after the other in the model. The structures are independent, so the result is the same.
- `ArrayPercolation.FloodFill`: recursion depth and stack overflow on large grids are not modelled. Only termination and the set of marked sites are.
- `isFull` and `percolates()` are pure functions of the state here. That they leave the grid and the counter unchanged holds by construction and is not stated as a separate lemma.
- Running time and the relative speed of the two versions.
- The comment on `encode` says its ids run over "1...n". The code's range is 1..n*n, and that range is what `Grid.Encode` states.
