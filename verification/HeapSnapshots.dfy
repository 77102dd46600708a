/** The references of a heap at one moment, as a value: who holds what, who reports
    what, and what is held from outside the heap. The operations of the mutator
    are functions here; what they do to the counts and to reachability is proved
    once, away from the objects themselves.
 */
module HeapSnapshots {
  import opened Graphs
  import opened TrialDeletion

  /** `held` lists every reference an object holds, `reported` the ones it shows the
      collector; `outside` counts every reference not held by a live object: locals,
      the interpreter's stack, and what a running destructor has yet to drop. */
  datatype Snapshot<T> = Snapshot(held: Graph<T>, reported: Graph<T>, outside: multiset<T>) {

    ghost function Roots(): set<T> {
      set o | o in held.Keys && o in outside
    }

    /** References stay inside the heap, and only held references are reported. */
    ghost predicate Ok() {
      && WellFormed(held)
      && reported.Keys == held.Keys
      && (forall o | o in held.Keys :: reported[o] <= held[o])
      && (forall o | o in outside :: o in held.Keys)
    }

    /** How many references are held to `o`. */
    ghost function Refs(o: T): nat {
      outside[o] + Targets(held, held.Keys)[o]
    }

    /** What the program can still get at. */
    ghost function Reachable(): set<T>
      requires Ok()
    {
      Closure(held, Roots())
    }

    /** Everything allocated is reachable from the stack or from `S`. */
    ghost predicate Covered(S: set<T>)
      requires Ok() && S <= held.Keys
    {
      held.Keys <= Closure(held, Roots() + S)
    }

    /** A reference appears outside the heap, or one disappears there. */
    ghost function Take(o: T): Snapshot<T> {
      this.(outside := outside + multiset{o})
    }

    ghost function Drop(o: T): Snapshot<T> {
      this.(outside := outside - multiset{o})
    }

    /** `o` now holds `own`, of which it reports `shown`; `out` is held outside. */
    ghost function Rewire(o: T, shown: seq<T>, own: seq<T>, out: multiset<T>): Snapshot<T> {
      Snapshot(held[o := own], reported[o := shown], out)
    }

    /** References only move between `o` and the outside. */
    ghost predicate Moves(o: T, own: seq<T>, out: multiset<T>) {
      o in held && out + multiset(own) == outside + multiset(held[o])
    }

    /** A new object, which holds nothing and which nothing refers to yet. */
    ghost function Allocate(o: T): Snapshot<T> {
      Snapshot(held[o := []], reported[o := []], outside)
    }

    /** `o` is gone; what it held is held outside the heap. */
    ghost function Delete(o: T): Snapshot<T>
      requires o in held
    {
      Snapshot(held - {o}, reported - {o}, outside + multiset(held[o]))
    }

    /** Every reported edge is held, so the reported edges alone never exceed the count. */
    lemma {:induction false} ReportedIsBounded(rc: Counts<T>)
      requires Ok() && rc.Keys == held.Keys && forall o | o in held.Keys :: rc[o] == Refs(o)
      ensures Bounded(reported, rc)
    {
      forall o | o in held.Keys ensures multiset(reported[o]) <= multiset(held[o]) {
        assert held[o] == reported[o] + held[o][|reported[o]|..];
      }
      TargetsLessOrEqual(reported, held, held.Keys);
      assert forall s, x {:trigger x in reported[s]} | s in reported && x in reported[s] :: x in held[s];
    }

    lemma {:induction false} NobodyRefersTo(x: T)
      requires Ok() && x in held && Refs(x) == 0
      ensures x !in outside && forall o | o in held :: x !in held[o]
    {
      TargetsMember(held, held.Keys, x);
    }

    lemma {:induction false} DeleteKeepsCounts(x: T)
      requires Ok() && x in held && Refs(x) == 0
      ensures Delete(x).Ok() && forall o | o in held && o != x :: Delete(x).Refs(o) == Refs(o)
    {
      NobodyRefersTo(x);
      var h := Delete(x).held;
      assert forall o | o in held[x] :: o in h;
      TargetsRemove(held, held.Keys, x);
      TargetsCongruent(held, h, h.Keys);
    }

    lemma {:induction false} DeleteKeepsReported(x: T)
      requires x in held
      ensures held == reported ==> Delete(x).held == Delete(x).reported
    {}

    lemma {:induction false} DeleteKeepsCover(x: T, S: set<T>)
      requires Ok() && x in held && Refs(x) == 0 && S <= held.Keys
      requires Covered(S + {x})
      ensures Delete(x).Ok() && Delete(x).Covered(S - {x})
    {
      NobodyRefersTo(x);
      DeleteKeepsCounts(x);
      ClosureWithoutNode(held, Delete(x).held, Roots() + (S + {x}), Delete(x).Roots() + (S - {x}), x);
    }

    lemma {:induction false} DropKeepsCover(x: T, S: set<T>)
      requires Ok() && x in held && S <= held.Keys && Covered(S)
      ensures Drop(x).Ok() && Drop(x).Covered(S + {x})
    {
      ClosureMonotone(held, Roots() + S, Drop(x).Roots() + (S + {x}));
    }

    /** An object that holds nothing need not become a suspect: whatever still
        refers to it is already accounted for. */
    lemma {:induction false} LeafIsNoSuspect(x: T, S: set<T>)
      requires Ok() && x in held && held[x] == [] && Refs(x) > 0 && S <= held.Keys
      requires Covered(S + {x})
      ensures Covered(S)
    {
      var R := Roots() + S;
      if x in R {
        assert Roots() + (S + {x}) == R;
      } else {
        TargetsMember(held, held.Keys, x);
        var s :| s in held && x in held[s];
        ClosureWithoutLeaf(held, Roots() + (S + {x}), x, s);
        assert Roots() + (S + {x}) - {x} == R;
      }
    }

    lemma {:induction false} CoverMonotone(S: set<T>, S': set<T>)
      requires Ok() && S <= S' <= held.Keys && Covered(S)
      ensures Covered(S')
    {
      ClosureMonotone(held, Roots() + S, Roots() + S');
    }

    lemma {:induction false} MovesStayInside(o: T, shown: seq<T>, own: seq<T>, out: multiset<T>)
      requires Ok() && Moves(o, own, out) && shown <= own
      ensures Rewire(o, shown, own, out).Ok()
    {
      forall x | x in own || x in out ensures x in held {
        assert x in out + multiset(own);
        if x !in outside {
          assert x in multiset(held[o]) && x in held[o];
        }
      }
    }

    /** Moving references around changes no count. */
    lemma {:induction false} MovesKeepCounts(o: T, shown: seq<T>, own: seq<T>, out: multiset<T>)
      requires Ok() && Moves(o, own, out)
      ensures forall x | x in held :: Rewire(o, shown, own, out).Refs(x) == Refs(x)
    {
      var h := held[o := own];
      assert h.Keys == held.Keys;
      TargetsRemove(held, held.Keys, o);
      TargetsRemove(h, held.Keys, o);
      TargetsCongruent(held, h, held.Keys - {o});
      forall x | x in held ensures Rewire(o, shown, own, out).Refs(x) == Refs(x) {
        assert (out + multiset(own))[x] == (outside + multiset(held[o]))[x];
      }
    }

    /** Whoever is changed must stay in the program's hands. Then nothing that was
        accounted for is lost. */
    lemma {:induction false} MovesKeepCover(o: T, shown: seq<T>, own: seq<T>, out: multiset<T>, S: set<T>)
      requires Ok() && Moves(o, own, out) && shown <= own && o in out && S <= held.Keys && Covered(S)
      ensures Rewire(o, shown, own, out).Ok() && Rewire(o, shown, own, out).Covered(S)
    {
      MovesStayInside(o, shown, own, out);
      var w := Rewire(o, shown, own, out);
      var C := Closure(w.held, w.Roots() + S);
      assert o in C;
      assert forall x | x in own :: x in w.held[o];
      forall x | x in outside || x in held[o] ensures x in C {
        assert x in out + multiset(own);
        assert x in out || x in own;
      }
      ClosureIsLeast(held, Roots() + S, C);
    }

    lemma {:induction false} AllocateKeepsCounts(o: T)
      requires Ok() && o !in held
      ensures Allocate(o).Ok() && Allocate(o).Refs(o) == 0
      ensures forall x | x in held :: Allocate(o).Refs(x) == Refs(x)
    {
      var h := Allocate(o).held;
      assert h.Keys == held.Keys + {o};
      TargetsAdd(h, held.Keys, o);
      TargetsCongruent(held, h, held.Keys);
      TargetsMember(held, held.Keys, o);
    }

    lemma {:induction false} AllocateKeepsCover(o: T, S: set<T>)
      requires Ok() && o !in held && S <= held.Keys && Covered(S)
      ensures Allocate(o).Ok() && Allocate(o).Covered(S + {o})
    {
      AllocateKeepsCounts(o);
      var a := Allocate(o);
      var C := Closure(a.held, a.Roots() + (S + {o}));
      hide Closure, Refs;
      assert Closed(held, C - {o});
      ClosureIsLeast(held, Roots() + S, C - {o});
    }

    lemma {:induction false} TakeKeepsCover(o: T, S: set<T>)
      requires Ok() && o in held && S <= held.Keys && Covered(S + {o})
      ensures Take(o).Ok() && Take(o).Covered(S - {o})
    {
      ClosureMonotone(held, Roots() + (S + {o}), Take(o).Roots() + (S - {o}));
    }
  }
}
