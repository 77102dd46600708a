/** Finite directed graphs whose successors are kept in order and may repeat.

    The heap the cycle collector walks and the module graph the import walk
    follows are both read as such a graph; this module holds the two notions
    everything else is stated with: what a set of nodes reaches, and how many
    edges a set of nodes sends to each node.
 */
module Graphs {

  type Graph<T> = map<T, seq<T>>

  ghost predicate Closed<T>(g: Graph<T>, S: set<T>) {
    S <= g.Keys && forall s, x {:trigger x in g[s]} | s in S && x in g[s] :: x in S
  }

  /** No edge leaves the graph. */
  ghost predicate WellFormed<T>(g: Graph<T>) {
    Closed(g, g.Keys)
  }

  ghost function Successors<T>(g: Graph<T>, S: set<T>): set<T>
    requires S <= g.Keys
  {
    set s, x | s in S && x in g[s] :: x
  }

  /** Everything reachable from `S`, `S` included. */
  ghost function Closure<T>(g: Graph<T>, S: set<T>): (C: set<T>)
    requires WellFormed(g) && S <= g.Keys
    ensures S <= C && Closed(g, C)
    decreases g.Keys - S
  {
    var N := S + Successors(g, S);
    if N == S then
      assert forall s, x {:trigger x in g[s]} | s in S && x in g[s] :: x in Successors(g, S);
      S
    else
      Closure(g, N)
  }

  /** The closure is the least closed set: this is the only induction principle
      for reachability used below. */
  lemma {:induction false} ClosureIsLeast<T>(g: Graph<T>, S: set<T>, C: set<T>)
    requires WellFormed(g) && S <= C && Closed(g, C)
    ensures Closure(g, S) <= C
    decreases g.Keys - S
  {
    var N := S + Successors(g, S);
    if N != S {
      ClosureIsLeast(g, N, C);
    }
  }

  lemma {:induction false} ClosureMonotone<T>(g: Graph<T>, A: set<T>, B: set<T>)
    requires WellFormed(g) && A <= B <= g.Keys
    ensures Closure(g, A) <= Closure(g, B)
  {
    ClosureIsLeast(g, A, Closure(g, B));
  }

  /** Closing in two stages is closing once. */
  lemma {:induction false} ClosureOfUnion<T>(g: Graph<T>, A: set<T>, B: set<T>)
    requires WellFormed(g) && A <= g.Keys && B <= g.Keys
    ensures Closure(g, Closure(g, A) + B) == Closure(g, A + B)
  {
    ClosureMonotone(g, A, A + B);
    ClosureIsLeast(g, Closure(g, A) + B, Closure(g, A + B));
    ClosureMonotone(g, A + B, Closure(g, A) + B);
  }

  lemma {:induction false} ClosureOfClosed<T>(g: Graph<T>, C: set<T>)
    requires WellFormed(g) && Closed(g, C)
    ensures Closure(g, C) == C
  {
    ClosureIsLeast(g, C, C);
  }

  /** A node without successors contributes itself and nothing else. If something
      other than itself points at it, it need not be listed as a starting point. */
  lemma {:induction false} ClosureWithoutLeaf<T>(g: Graph<T>, R: set<T>, x: T, s: T)
    requires WellFormed(g) && R <= g.Keys && x in g.Keys && g[x] == []
    requires s in Closure(g, R) && s != x && x in g[s]
    ensures Closure(g, R - {x}) == Closure(g, R)
  {
    var C := Closure(g, R - {x});
    ClosureIsLeast(g, R, C + {x});
    ClosureIsLeast(g, R, C);
    ClosureMonotone(g, R - {x}, R);
  }

  /** Deleting a node nobody points at, and starting from its successors instead,
      still reaches everything else. */
  lemma {:induction false} ClosureWithoutNode<T>(g: Graph<T>, h: Graph<T>, R: set<T>, R': set<T>, x: T)
    requires WellFormed(g) && WellFormed(h) && R <= g.Keys && R' <= h.Keys
    requires x in g.Keys && h.Keys == g.Keys - {x} && (forall y | y in h.Keys :: h[y] == g[y])
    requires R - {x} <= R' && (forall y | y in g[x] :: y in R')
    ensures Closure(g, R) - {x} <= Closure(h, R')
  {
    var C := Closure(h, R');
    assert Closed(g, C + {x});
    ClosureIsLeast(g, R, C + {x});
  }

  /** The edges leaving the nodes of `S`, counted by the node they point at. */
  ghost function Targets<T>(g: Graph<T>, S: set<T>): multiset<T>
    requires S <= g.Keys
  {
    if S == {} then multiset{} else
      var s :| s in S;
      multiset(g[s]) + Targets(g, S - {s})
  }

  lemma {:induction false} TargetsRemove<T>(g: Graph<T>, S: set<T>, s: T)
    requires S <= g.Keys && s in S
    ensures Targets(g, S) == multiset(g[s]) + Targets(g, S - {s})
    decreases S
  {
    var t :| t in S && Targets(g, S) == multiset(g[t]) + Targets(g, S - {t});
    if t != s {
      TargetsRemove(g, S - {t}, s);
      assert S - {t} - {s} == S - {s} - {t};
      TargetsRemove(g, S - {s}, t);
    }
  }

  lemma {:induction false} TargetsAdd<T>(g: Graph<T>, S: set<T>, s: T)
    requires S <= g.Keys && s in g.Keys && s !in S
    ensures Targets(g, S + {s}) == Targets(g, S) + multiset(g[s])
  {
    TargetsRemove(g, S + {s}, s);
    assert S + {s} - {s} == S;
  }

  lemma {:induction false} TargetsSplit<T>(g: Graph<T>, A: set<T>, B: set<T>)
    requires A <= g.Keys && B <= g.Keys && A !! B
    ensures Targets(g, A + B) == Targets(g, A) + Targets(g, B)
    decreases B
  {
    if B == {} {
      assert A + B == A;
    } else {
      var b :| b in B;
      TargetsSplit(g, A, B - {b});
      TargetsRemove(g, A + B, b);
      assert A + B - {b} == A + (B - {b});
      TargetsRemove(g, B, b);
    }
  }

  lemma {:induction false} TargetsOfSubset<T>(g: Graph<T>, A: set<T>, B: set<T>)
    requires A <= B <= g.Keys
    ensures Targets(g, B) == Targets(g, A) + Targets(g, B - A)
    ensures Targets(g, A) <= Targets(g, B)
  {
    TargetsSplit(g, A, B - A);
    assert A + (B - A) == B;
  }

  /** Something in `S` points at `x` exactly when an edge to `x` is counted. */
  lemma {:induction false} TargetsMember<T>(g: Graph<T>, S: set<T>, x: T)
    requires S <= g.Keys
    ensures x in Targets(g, S) <==> exists s | s in S :: x in g[s]
    decreases S
  {
    if S != {} {
      var t :| t in S && Targets(g, S) == multiset(g[t]) + Targets(g, S - {t});
      TargetsMember(g, S - {t}, x);
      if x in Targets(g, S - {t}) {
        var s :| s in S - {t} && x in g[s];
        assert s in S;
      }
    }
  }

  /** A closed set sends no edge outside itself. */
  lemma {:induction false} TargetsOfClosed<T>(g: Graph<T>, C: set<T>, x: T)
    requires Closed(g, C) && x !in C
    ensures Targets(g, C)[x] == 0
  {
    TargetsMember(g, C, x);
  }

  /** A graph with no fewer edges leaving each node sends no fewer to any node. */
  lemma {:induction false} TargetsLessOrEqual<T>(g: Graph<T>, h: Graph<T>, S: set<T>)
    requires S <= g.Keys && S <= h.Keys
    requires forall s | s in S :: multiset(g[s]) <= multiset(h[s])
    ensures Targets(g, S) <= Targets(h, S)
    decreases S
  {
    if S != {} {
      var s :| s in S;
      TargetsRemove(g, S, s);
      TargetsRemove(h, S, s);
      TargetsLessOrEqual(g, h, S - {s});
    }
  }

  lemma {:induction false} TargetsCongruent<T>(g: Graph<T>, h: Graph<T>, S: set<T>)
    requires S <= g.Keys && S <= h.Keys && forall s | s in S :: g[s] == h[s]
    ensures Targets(g, S) == Targets(h, S)
  {
    TargetsLessOrEqual(g, h, S);
    TargetsLessOrEqual(h, g, S);
  }
}
