/** The equivalence relation generated by a set of union pairs: what a union-find
    structure answers after those unions have been performed. */
module Connectivity {

  /** A pair of elements passed to `union`. */
  type Edge = (int, int)

  /** No edge of E crosses the border of S, so S is a union of classes. */
  ghost predicate Closed(E: set<Edge>, S: iset<int>) {
    forall e | e in E :: e.0 in S <==> e.1 in S
  }

  /** x and y lie in the same class of the equivalence relation generated by E:
      every union of classes that holds x also holds y. */
  ghost predicate Conn(E: set<Edge>, x: int, y: int) {
    forall S: iset<int> | Closed(E, S) && x in S :: y in S
  }

  /** Either x and y were already joined by E, or the new pair (a, b) bridges them. */
  ghost predicate Bridged(E: set<Edge>, a: int, b: int, x: int, y: int) {
    || Conn(E, x, y)
    || (Conn(E, x, a) && Conn(E, b, y))
    || (Conn(E, x, b) && Conn(E, a, y))
  }

  lemma ConnRefl(E: set<Edge>, x: int)
    ensures Conn(E, x, x)
  {
  }

  lemma ConnEdge(E: set<Edge>, x: int, y: int)
    requires (x, y) in E
    ensures Conn(E, x, y) && Conn(E, y, x)
  {
  }

  lemma ConnSym(E: set<Edge>, x: int, y: int)
    requires Conn(E, x, y)
    ensures Conn(E, y, x)
  {
    forall S: iset<int> | Closed(E, S) && y in S
      ensures x in S
    {
      var C := iset w | w !in S;
      assert Closed(E, C);
      assert y !in C;
    }
  }

  lemma ConnTrans(E: set<Edge>, x: int, y: int, z: int)
    requires Conn(E, x, y) && Conn(E, y, z)
    ensures Conn(E, x, z)
  {
  }

  /** If every edge of E1 is already a connection in E2, every connection in E1 is one in E2. */
  lemma ConnSubsume(E1: set<Edge>, E2: set<Edge>, x: int, y: int)
    requires forall e | e in E1 :: Conn(E2, e.0, e.1)
    requires Conn(E1, x, y)
    ensures Conn(E2, x, y)
  {
    forall S: iset<int> | Closed(E2, S) && x in S
      ensures y in S
    {
      forall e | e in E1
        ensures e.0 in S <==> e.1 in S
      {
        ConnSym(E2, e.0, e.1);
      }
      assert Closed(E1, S);
    }
  }

  /** Adding edges never disconnects anything. */
  lemma ConnGrow(E1: set<Edge>, E2: set<Edge>, x: int, y: int)
    requires E1 <= E2
    requires Conn(E1, x, y)
    ensures Conn(E2, x, y)
  {
    forall e | e in E1
      ensures Conn(E2, e.0, e.1)
    {
      ConnEdge(E2, e.0, e.1);
    }
    ConnSubsume(E1, E2, x, y);
  }

  /** The effect of one union on the generated equivalence: x and y become connected
      exactly when they already were, or when one reaches a and the other reaches b. */
  lemma {:induction false} ConnAddEdge(E: set<Edge>, a: int, b: int, x: int, y: int)
    ensures Conn(E + {(a, b)}, x, y) <==> Bridged(E, a, b, x, y)
  {
    var E' := E + {(a, b)};
    if Bridged(E, a, b, x, y) {
      ConnEdge(E', a, b);
      if Conn(E, x, y) {
        ConnGrow(E, E', x, y);
      } else if Conn(E, x, a) && Conn(E, b, y) {
        ConnGrow(E, E', x, a);
        ConnGrow(E, E', b, y);
        ConnTrans(E', x, a, b);
        ConnTrans(E', x, b, y);
      } else {
        ConnGrow(E, E', x, b);
        ConnGrow(E, E', a, y);
        ConnTrans(E', x, b, a);
        ConnTrans(E', x, a, y);
      }
    }
    if Conn(E', x, y) {
      var S := iset w | Bridged(E, a, b, x, w);
      forall e | e in E'
        ensures e.0 in S <==> e.1 in S
      {
        ConnRefl(E, a);
        ConnRefl(E, b);
        if e in E {
          ConnEdge(E, e.0, e.1);
          if Bridged(E, a, b, x, e.0) {
            BridgedStep(E, a, b, x, e.0, e.1);
          }
          if Bridged(E, a, b, x, e.1) {
            BridgedStep(E, a, b, x, e.1, e.0);
          }
        }
      }
      assert Closed(E', S);
      ConnRefl(E, x);
      assert x in S;
    }
  }

  /** Bridged(E, a, b, x, _) is preserved along an edge of E. */
  lemma BridgedStep(E: set<Edge>, a: int, b: int, x: int, u: int, v: int)
    requires Conn(E, u, v)
    requires Bridged(E, a, b, x, u)
    ensures Bridged(E, a, b, x, v)
  {
    if Conn(E, x, u) {
      ConnTrans(E, x, u, v);
    } else if Conn(E, x, a) && Conn(E, b, u) {
      ConnTrans(E, b, u, v);
    } else {
      ConnTrans(E, a, u, v);
    }
  }
}
