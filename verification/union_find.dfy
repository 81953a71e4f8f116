/** Abstract model of dsa.WeightedQuickUnionUF, whose source is not part of this model:
    a partition of the elements 0..count-1, kept as one class id per element.
    Parent pointers, sizes and the weighted-union height bound are not modelled. */
module UnionFind {
  import opened Wrappers
  import opened Connectivity

  datatype Forest = Forest(id: seq<int>)

  function Size(f: Forest): nat {
    |f.id|
  }

  predicate InRange(f: Forest, x: int) {
    0 <= x < |f.id|
  }

  /** The partition answer: x and y are in one class. */
  predicate Same(f: Forest, x: int, y: int)
    requires InRange(f, x) && InRange(f, y)
  {
    f.id[x] == f.id[y]
  }

  /** The partition is exactly the equivalence relation generated by the union pairs E. */
  ghost predicate Represents(f: Forest, E: set<Edge>) {
    forall x, y | InRange(f, x) && InRange(f, y) :: Same(f, x, y) <==> Conn(E, x, y)
  }

  /** `new WeightedQuickUnionUF(count)`: every element is a singleton class. */
  function Init(count: nat): (f: Forest)
    ensures Size(f) == count
    ensures forall x, y | InRange(f, x) && InRange(f, y) :: Same(f, x, y) <==> x == y
    ensures Represents(f, {})
  {
    var f := Forest(seq(count, k => k));
    forall x, y | InRange(f, x) && InRange(f, y) && Conn({}, x, y)
      ensures x == y
    {
      var S: iset<int> := iset{x};
      assert Closed({}, S);
    }
    f
  }

  /** The partition after merging the classes of x and y. */
  function Merge(f: Forest, x: int, y: int): (g: Forest)
    requires InRange(f, x) && InRange(f, y)
    ensures Size(g) == Size(f)
    ensures forall u, v | InRange(f, u) && InRange(f, v) ::
              Same(g, u, v) <==> (|| Same(f, u, v)
                                  || (Same(f, u, x) && Same(f, y, v))
                                  || (Same(f, u, y) && Same(f, x, v)))
  {
    Forest(seq(|f.id|, k requires 0 <= k < |f.id| =>
      if f.id[k] == f.id[x] then f.id[y] else f.id[k]))
  }

  /** `union(x, y)`: rejects an index outside the universe, otherwise merges two classes. */
  function Union(f: Forest, x: int, y: int): (r: Result<Forest>)
    ensures r.Ok? <==> InRange(f, x) && InRange(f, y)
    ensures r.Ok? ==> Size(r.value) == Size(f)
    ensures r.Ok? ==> Same(r.value, x, y)
    ensures r.Ok? ==> forall E | Represents(f, E) :: Represents(r.value, E + {(x, y)})
  {
    if InRange(f, x) && InRange(f, y) then
      var g := Merge(f, x, y);
      forall E | Represents(f, E)
        ensures Represents(g, E + {(x, y)})
      {
        MergeRepresents(f, E, x, y);
      }
      Ok(g)
    else
      Err(IndexOutOfBounds)
  }

  /** `connected(x, y)`: rejects an index outside the universe, otherwise tells whether
      x and y have been joined by the unions performed so far. */
  function Connected(f: Forest, x: int, y: int): (r: Result<bool>)
    ensures r.Ok? <==> InRange(f, x) && InRange(f, y)
    ensures r.Ok? ==> forall E | Represents(f, E) :: r.value <==> Conn(E, x, y)
  {
    if InRange(f, x) && InRange(f, y) then Ok(Same(f, x, y)) else Err(IndexOutOfBounds)
  }

  /** Merging x and y answers the equivalence generated by one more union pair. */
  lemma MergeRepresents(f: Forest, E: set<Edge>, x: int, y: int)
    requires Represents(f, E)
    requires InRange(f, x) && InRange(f, y)
    ensures Represents(Merge(f, x, y), E + {(x, y)})
  {
    var g := Merge(f, x, y);
    forall u, v | InRange(g, u) && InRange(g, v)
      ensures Same(g, u, v) <==> Conn(E + {(x, y)}, u, v)
    {
      ConnAddEdge(E, x, y, u, v);
    }
  }

  /** Two union histories with the same generated equivalence are interchangeable. */
  lemma RepresentsTransfer(f: Forest, E1: set<Edge>, E2: set<Edge>)
    requires Represents(f, E1)
    requires forall e | e in E1 :: Conn(E2, e.0, e.1)
    requires forall e | e in E2 :: Conn(E1, e.0, e.1)
    ensures Represents(f, E2)
  {
    forall x, y | InRange(f, x) && InRange(f, y)
      ensures Conn(E1, x, y) <==> Conn(E2, x, y)
    {
      if Conn(E1, x, y) {
        ConnSubsume(E1, E2, x, y);
      }
      if Conn(E2, x, y) {
        ConnSubsume(E2, E1, x, y);
      }
    }
  }
}
