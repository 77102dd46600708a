/** The arithmetic of trial deletion, on snapshots of a heap.

    `g` lists the references each object reports, `rc` is the true count of each
    object (every reference held to it from anywhere), and `D` is the closure of
    the candidates: the part of the heap one collection examines.
 */
module TrialDeletion {
  import opened Graphs

  type Counts<T> = map<T, nat>

  /** No object is reported more often than it is held. */
  ghost predicate Bounded<T>(g: Graph<T>, rc: Counts<T>) {
    && WellFormed(g)
    && rc.Keys == g.Keys
    && forall o | o in g.Keys :: Targets(g, g.Keys)[o] <= rc[o]
  }

  /** Objects of `D` some reference from elsewhere keeps alive: one held by an
      object outside `D`, one that is not reported, or one on the stack. */
  ghost function HeldFromOutside<T>(g: Graph<T>, rc: Counts<T>, D: set<T>): set<T>
    requires rc.Keys == g.Keys && D <= g.Keys
  {
    set o | o in D && rc[o] > Targets(g, D)[o]
  }

  /** What is left of the count of `o` once every edge leaving `S` is taken away. */
  ghost function Trial<T>(g: Graph<T>, rc: Counts<T>, S: set<T>, o: T): int
    requires rc.Keys == g.Keys && S <= g.Keys && o in g.Keys
  {
    rc[o] as int - Targets(g, S)[o]
  }

  lemma {:induction false} TrialBounds<T>(g: Graph<T>, rc: Counts<T>, A: set<T>, B: set<T>, o: T)
    requires Bounded(g, rc) && A <= B <= g.Keys && o in g.Keys
    ensures 0 <= Trial(g, rc, B, o) <= Trial(g, rc, A, o) <= rc[o]
  {
    TargetsOfSubset(g, A, B);
    TargetsOfSubset(g, B, g.Keys);
  }

  /** Taking away the edges of one more object never goes below zero, so an
      unsigned counter does not wrap while they are taken away one by one. */
  lemma {:induction false} OneMoreIsCounted<T>(g: Graph<T>, rc: Counts<T>, S: set<T>, s: T, i: nat)
    requires Bounded(g, rc) && S <= g.Keys && s in g.Keys && s !in S && i < |g[s]|
    ensures g[s][i] in g[s] && g[s][i] in rc
    ensures Targets(g, S)[g[s][i]] + multiset(g[s][..i])[g[s][i]] < rc[g[s][i]]
  {
    var c := g[s][i];
    TargetsAdd(g, S, s);
    TargetsOfSubset(g, S + {s}, g.Keys);
    var before, after := g[s][..i], g[s][i..];
    assert g[s] == before + after;
    assert after[0] == c;
    assert c in multiset(after);
    assert multiset(g[s])[c] == multiset(before)[c] + multiset(after)[c];
  }

  lemma {:induction false} PrefixStep<T>(s: seq<T>, i: nat)
    requires i < |s|
    ensures multiset(s[..i + 1]) == multiset(s[..i]) + multiset{s[i]}
  {
    assert s[..i + 1] == s[..i] + [s[i]];
  }

  /** What the scan has established when it stops: `B` is black, `W` is white,
      and the counts are those with the edges of `D - B` taken away. */
  ghost predicate Scanned<T>(g: Graph<T>, rc: Counts<T>, D: set<T>, B: set<T>, W: set<T>) {
    && Bounded(g, rc)
    && Closed(g, D)
    && B !! W && B + W <= D
    && Closed(g, B)
    && B <= Closure(g, HeldFromOutside(g, rc, D))
    && (forall w | w in W :: Trial(g, rc, D - B, w) == 0)
  }

  /** Blackening a grey object whose trial count is positive is justified, and
      leaves the objects that stay white at zero. */
  lemma {:induction false} Blacken<T>(g: Graph<T>, rc: Counts<T>, D: set<T>, B: set<T>, W: set<T>, o: T)
    requires Scanned(g, rc, D, B, W) && o in D - B - W && Trial(g, rc, D - B, o) > 0
    ensures var B' := Closure(g, B + {o}); B' <= D && Scanned(g, rc, D, B', W - B')
  {
    var H := HeldFromOutside(g, rc, D);
    var B' := Closure(g, B + {o});
    ClosureIsLeast(g, B + {o}, D);
    TargetsOfSubset(g, B, D);
    TargetsOfClosed(g, B, o);
    assert o in H;
    ClosureIsLeast(g, B + {o}, Closure(g, H));
    forall w | w in W - B' ensures Trial(g, rc, D - B', w) == 0 {
      TargetsOfSubset(g, D - B', D - B);
      assert D - B - (D - B') <= B';
      TargetsOfSubset(g, D - B - (D - B'), B');
      TargetsOfClosed(g, B', w);
    }
  }

  /** Trial deletion is exact. When the whole closure is scanned, the black
      objects are those reachable from one that something outside the closure
      holds, and every count of a white object is made of white edges. */
  lemma {:induction false} ScanIsExact<T>(g: Graph<T>, rc: Counts<T>, D: set<T>, B: set<T>, W: set<T>)
    requires Scanned(g, rc, D, B, W) && B + W == D
    ensures B == Closure(g, HeldFromOutside(g, rc, D))
    ensures W == D - Closure(g, HeldFromOutside(g, rc, D))
    ensures forall w | w in W :: rc[w] == Targets(g, W)[w]
  {
    var H := HeldFromOutside(g, rc, D);
    assert D - B == W;
    forall o | o in H ensures o in B {
      if o in W {
        TrialBounds(g, rc, W, D, o);
      }
    }
    ClosureIsLeast(g, H, B);
  }

  /** An object all of whose references come from reported edges of `W` cannot be
      reached from outside `W`: not from the stack, not through an edge that is
      reported, not through one that is not. `h` lists all the edges. */
  lemma {:induction false} GarbageIsUnreachable<T>(g: Graph<T>, h: Graph<T>, rc: Counts<T>, stack: multiset<T>,
            roots: set<T>, W: set<T>)
    requires g.Keys == h.Keys == rc.Keys && WellFormed(h) && W <= g.Keys && roots <= g.Keys
    requires forall o | o in g.Keys :: multiset(g[o]) <= multiset(h[o])
    requires forall o | o in g.Keys :: rc[o] == stack[o] + Targets(h, h.Keys)[o]
    requires forall o | o in roots :: o in stack
    requires forall w | w in W :: rc[w] == Targets(g, W)[w]
    ensures Closure(h, roots) !! W
    ensures forall o, w | o in g.Keys - W && w in h[o] :: w !in W
    ensures forall w | w in W :: stack[w] == 0
  {
    forall w | w in W
      ensures stack[w] == 0 && Targets(h, h.Keys - W)[w] == 0
    {
      TargetsLessOrEqual(g, h, W);
      TargetsOfSubset(h, W, h.Keys);
    }
    forall o, w | o in g.Keys - W && w in h[o] ensures w !in W {
      TargetsMember(h, h.Keys - W, w);
    }
    ClosureIsLeast(h, roots, h.Keys - W);
  }

  /** When every reference is reported and everything is reachable from the stack
      or from a candidate, what trial deletion keeps is what the stack reaches. */
  lemma {:induction false} ScanIsComplete<T>(g: Graph<T>, rc: Counts<T>, stack: multiset<T>, roots: set<T>,
            suspects: set<T>)
    requires WellFormed(g) && rc.Keys == g.Keys && roots <= g.Keys && suspects <= g.Keys
    requires forall o | o in g.Keys :: rc[o] == stack[o] + Targets(g, g.Keys)[o]
    requires forall o | o in g.Keys && o in stack :: o in roots
    requires g.Keys <= Closure(g, roots + suspects)
    ensures var D := Closure(g, suspects);
            g.Keys - (D - Closure(g, HeldFromOutside(g, rc, D))) <= Closure(g, roots)
  {
    var D := Closure(g, suspects);
    var H := HeldFromOutside(g, rc, D);
    var C := Closure(g, roots);
    assert Closed(g, C + D);
    ClosureIsLeast(g, roots + suspects, C + D);
    forall o | o in H ensures o in C {
      TargetsOfSubset(g, D, g.Keys);
      if o !in roots {
        TargetsMember(g, g.Keys - D, o);
      }
    }
    ClosureIsLeast(g, H, C);
  }
}
