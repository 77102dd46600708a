/** Reference counting with synchronous cycle collection (Bacon and Rajan's trial
    deletion): one thread's objects and its collector.

    Objects live at addresses. Deleting one takes its record off the heap, so every
    access below carries the obligation that the object is still there.
 */
module CycleCollection {
  import opened Graphs
  import opened TrialDeletion
  import opened HeapSnapshots
  import opened CountedObjects
  import opened ThreadHeaps
  import opened TrialMarks
  import opened CollectionPhases

  class CycleCollector<T(==, !new)> {
    var cells: Cells<T>
    var candidates: seq<T>
    var collecting: bool
    var liveCount: nat
    /** The references as they are. */
    ghost var heap: Snapshot<T>
    /** Whether every object reports every reference it holds. */
    ghost const fullyTraced: bool

    ghost function Now(): ThreadHeap<T>
      reads this
    {
      ThreadHeap(cells, candidates, collecting, liveCount, heap, fullyTraced)
    }

    /** What every operation of the program keeps. */
    ghost predicate Valid()
      reads this
    {
      !collecting && Now().Balanced({}) && Now().Accounted({})
    }

    constructor (ghost fullyTraced: bool)
      ensures Valid() && cells == map[] && heap.outside == multiset{}
      ensures this.fullyTraced == fullyTraced
    {
      cells, candidates, collecting, liveCount := map[], [], false, 0;
      heap := Snapshot(map[], map[], multiset{});
      this.fullyTraced := fullyTraced;
    }

    // What a running program does: each of these keeps Valid()

    /** `make_ref`: constructs an object at an address the allocator found free, and
        returns the first reference to it. */
    method Make(obj: T, acyclic: bool)
      requires Valid() && obj !in cells
      modifies `cells, `heap, `liveCount
      ensures Valid() && cells.Keys == old(cells.Keys) + {obj}
      ensures heap == old(heap).Allocate(obj).Take(obj)
      ensures cells[obj].count == 1 && cells[obj].acyclic == acyclic && cells[obj].traced == cells[obj].hidden == []
      ensures forall o | o in old(cells) :: cells[o] == old(cells)[o]
    {
      hide ThreadHeap.Balanced, ThreadHeap.Accounted;
      ghost var was := Now();
      was.AllocatedKeeps(obj, acyclic);
      was.BalancedAllocation(obj, acyclic);
      cells := cells[obj := NewObject(acyclic)];
      liveCount := liveCount + 1;
      heap := heap.Allocate(obj);
      assert Now() == was.Allocated(obj, acyclic);
      Retain(obj);
    }

    /** One more reference from outside. */
    method Retain(obj: T)
      requires Now().Balanced({}) || Now().Balanced({obj})
      requires Now().Accounted({obj}) && obj in cells
      modifies `cells, `heap
      ensures Now() == old(Now()).Retained(obj)
      ensures Now().Balanced({}) && Now().Accounted({})
    {
      hide ThreadHeap.Balanced, ThreadHeap.Accounted;
      ghost var was := Now();
      was.RetainedKeeps(obj);
      was.RetainedIsAccounted(obj);
      cells := Recounted(cells, obj, cells[obj].count + 1);
      cells := Recoloured(cells, obj, Black);
      heap := heap.Take(obj);
    }

    /** Copies a reference. */
    method Copy(obj: T)
      requires Valid() && obj in cells
      modifies `cells, `heap
      ensures Valid() && heap == old(heap).Take(obj)
      ensures cells == Recoloured(Recounted(old(cells), obj, old(cells[obj].count) + 1), obj, Black)
    {
      hide ThreadHeap.Balanced, ThreadHeap.Accounted;
      Now().AccountedMonotone(obj);
      Retain(obj);
    }

    /** Lets a reference from outside go, which may free objects at once. What the
        program can still reach stays. */
    method Let(obj: T)
      requires Valid() && obj in heap.outside
      modifies `cells, `candidates, `heap, `liveCount
      ensures Valid() && heap.outside == old(heap.outside) - multiset{obj}
      ensures SurvivorsKeepLinks(old(cells), cells)
      ensures obj in old(cells) && (old(cells[obj].count) == 1 ==> obj !in cells)
      ensures old(cells[obj].count) > 1 ==>
                SameCountsAndLinks(Recounted(old(cells), obj, old(cells[obj].count) - 1), cells)
      ensures old(heap).Ok() && old(heap).Drop(obj).Ok() && old(heap).Drop(obj).Reachable() <= cells.Keys
    {
      ghost var was := Now();
      hide ThreadHeap.Balanced, ThreadHeap.Accounted, Snapshot.Ok, Snapshot.Reachable, SurvivorsKeepLinks, SameCountsAndLinks;
      BalancedLinks(was);
      Release(obj);
      LetKeepsReachable(was, Now(), obj);
    }

    /** Gives an object other references to hold: what it gives up is now held
        outside, and the other way round. The program holds the object meanwhile. */
    method Exchange(obj: T, traced: seq<T>, hidden: seq<T>, ghost out: multiset<T>)
      requires Valid() && Now().CanMove(obj, traced, hidden, out) && obj in out
      modifies `cells, `heap
      ensures Valid() && cells == Rewired(old(cells), obj, traced, hidden)
      ensures heap == old(heap).Rewire(obj, traced, traced + hidden, out)
    {
      hide ThreadHeap.Balanced, ThreadHeap.Accounted;
      ghost var was := Now();
      was.MovedStep(obj, traced, hidden, out);
      cells := Rewired(cells, obj, traced, hidden);
      heap := heap.Rewire(obj, traced, traced + hidden, out);
    }

    /** Stores a reference held outside at the end of what an object reports. */
    method Store(obj: T, child: T)
      requires Valid() && obj in cells && !cells[obj].acyclic
      requires multiset{obj, child} <= heap.outside
      modifies `cells, `heap
      ensures Valid() && heap.outside == old(heap.outside) - multiset{child}
      ensures cells == old(cells)[obj := old(cells)[obj].(traced := old(cells)[obj].traced + [child])]
    {
      hide ThreadHeap.Balanced, ThreadHeap.Accounted;
      ghost var was := Now();
      BalancedTraced(was, obj);
      var traced := cells[obj].traced + [child];
      ghost var out := heap.outside - multiset{child};
      StoreMoves(cells[obj].traced, cells[obj].hidden, child, heap.outside);
      Exchange(obj, traced, cells[obj].hidden, out);
    }

    /** Stores a reference that the object will not report. */
    method StoreUnreported(obj: T, child: T)
      requires Valid() && !fullyTraced && obj in cells && !cells[obj].acyclic
      requires multiset{obj, child} <= heap.outside
      modifies `cells, `heap
      ensures Valid() && heap.outside == old(heap.outside) - multiset{child}
      ensures cells == old(cells)[obj := old(cells)[obj].(hidden := old(cells)[obj].hidden + [child])]
    {
      hide ThreadHeap.Balanced, ThreadHeap.Accounted;
      ghost var out := heap.outside - multiset{child};
      var hidden := cells[obj].hidden + [child];
      HideMoves(cells[obj].traced, cells[obj].hidden, child, heap.outside);
      Exchange(obj, cells[obj].traced, hidden, out);
    }

    /** Takes the `i`-th reported reference out of an object. */
    method TakeOut(obj: T, i: nat) returns (child: T)
      requires Valid() && obj in cells && obj in heap.outside && i < |cells[obj].traced|
      modifies `cells, `heap
      ensures Valid() && child == old(cells)[obj].traced[i] && heap.outside == old(heap.outside) + multiset{child}
      ensures cells == old(cells)[obj := old(cells)[obj].(
                traced := old(cells)[obj].traced[..i] + old(cells)[obj].traced[i + 1..])]
    {
      hide ThreadHeap.Balanced, ThreadHeap.Accounted;
      ghost var was := Now();
      BalancedTraced(was, obj);
      child := cells[obj].traced[i];
      var traced := cells[obj].traced[..i] + cells[obj].traced[i + 1..];
      ghost var out := heap.outside + multiset{child};
      TakeMoves(cells[obj].traced, cells[obj].hidden, i, heap.outside);
      Exchange(obj, traced, cells[obj].hidden, out);
    }

    // Dropping references

    method NotePossibleRoot(obj: T)
      requires obj in cells
      modifies `cells, `candidates
      ensures Now() == old(Now()).Noted(obj)
      ensures old(collecting) ==> Now() == old(Now())
      ensures !old(collecting) ==> cells[obj].colour == Purple && (old(cells[obj].colour) != Purple ==> cells[obj].buffered)
      ensures old(candidates) <= candidates && forall o | o in candidates[|old(candidates)|..] :: o == obj
    {
      if collecting || cells[obj].colour == Purple {
        return;
      }
      cells := Recoloured(cells, obj, Purple);
      if !cells[obj].buffered {
        cells := Enqueued(cells, obj, |candidates|);
        candidates := candidates + [obj];
      }
    }

    /** Swap removal: the entry at the end of the buffer takes over the slot of an
        object about to be deleted, and records its new place. */
    method LeaveBuffer(obj: T)
      requires Now().CanLeave(obj)
      modifies `cells, `candidates
      ensures Now() == old(Now()).Left(obj)
      ensures obj in cells && cells[obj].colour == Black && !cells[obj].buffered
    {
      cells := Recoloured(cells, obj, Black);
      if cells[obj].buffered {
        var slot := cells[obj].bufferSlot;
        var last := candidates[|candidates| - 1];
        candidates := candidates[slot := last];
        cells := Dequeued(cells, obj, last);
        candidates := candidates[..|candidates| - 1];
      }
    }

    /** Frees an object nobody refers to. What it held is now held by the running
        destructor alone. */
    method Delete(obj: T)
      requires Now().Balanced({obj}) && obj in cells && cells[obj].count == 0
      modifies `cells, `candidates, `heap, `liveCount
      ensures Now().Balanced({}) && Now().Follows(old(Now()))
      ensures cells.Keys == old(cells.Keys) - {obj} && obj in old(heap.held) && heap == old(heap).Delete(obj)
      ensures old(Now()).Accounted({obj}) ==> Now().Accounted({})
    {
      ghost var was := Now();
      hide ThreadHeap.Balanced, ThreadHeap.Follows, ThreadHeap.Accounted, ThreadHeap.Left;
      was.LeftAndDeleted(obj);
      LeaveBuffer(obj);
      ghost var left := Now();
      liveCount := liveCount - 1;
      cells := cells - {obj};
      heap := heap.Delete(obj);
      assert Now() == left.Deleted(obj);
    }

    /** The count of `obj` is zero: it leaves the buffer, is deleted, and drops what
        it held, which may bring more counts to zero. */
    method Destroy(obj: T)
      requires Now().Balanced({obj}) && obj in cells && cells[obj].count == 0
      modifies `cells, `candidates, `heap, `liveCount
      ensures Now().Balanced({}) && Now().Follows(old(Now())) && heap.outside == old(heap.outside)
      ensures cells.Keys <= old(cells.Keys) - {obj}
      ensures old(Now()).Accounted({obj}) ==> Now().Accounted({})
      decreases cells.Keys, 0
    {
      hide ThreadHeap.Balanced, ThreadHeap.Follows, ThreadHeap.Accounted;
      ghost var was := Now();
      was.Holds(obj);
      var dropped := cells[obj].traced + cells[obj].hidden;
      Delete(obj);
      ghost var between := Now();
      assert heap.outside == was.heap.outside + multiset(dropped);
      DropAll(dropped);
      Now().FollowsTransitively(was, between);
    }

    /** Drops the references a destructor is holding, one after the other. */
    method DropAll(dropped: seq<T>)
      requires Now().Balanced({}) && multiset(dropped) <= heap.outside
      modifies `cells, `candidates, `heap, `liveCount
      ensures Now().Balanced({}) && Now().Follows(old(Now()))
      ensures heap.outside == old(heap.outside) - multiset(dropped)
      ensures cells.Keys <= old(cells.Keys)
      ensures old(Now()).Accounted({}) ==> Now().Accounted({})
      decreases cells.Keys, 2
    {
      hide ThreadHeap.Balanced, ThreadHeap.Follows, ThreadHeap.Accounted, Left;
      ghost var was := Now();
      was.FollowsItself();
      LeftEnds(heap.outside, dropped);
      for i := 0 to |dropped|
        invariant Now().Balanced({}) && Now().Follows(was)
        invariant cells.Keys <= was.cells.Keys
        invariant heap.outside == Left(was.heap.outside, dropped, i)
        invariant was.Accounted({}) ==> Now().Accounted({})
      {
        LeftNext(was.heap.outside, dropped, i);
        ghost var between := Now();
        Release(dropped[i]);
        Now().FollowsTransitively(was, between);
      }
    }

    /** Drops one reference. */
    method Release(obj: T)
      requires Now().Balanced({}) && obj in heap.outside
      modifies `cells, `candidates, `heap, `liveCount
      ensures Now().Balanced({}) && Now().Follows(old(Now()))
      ensures heap.outside == old(heap.outside) - multiset{obj}
      ensures cells.Keys <= old(cells.Keys)
      ensures obj in old(cells)
      ensures old(cells[obj].count) == 1 ==> obj !in cells
      ensures old(cells[obj].count) > 1 ==> heap == old(heap).Drop(obj)
      ensures old(cells[obj].count) > 1 ==>
                SameCountsAndLinks(Recounted(old(cells), obj, old(cells[obj].count) - 1), cells)
      ensures old(Now()).Accounted({}) ==> Now().Accounted({})
      decreases cells.Keys, 1
    {
      hide ThreadHeap.Balanced, ThreadHeap.Follows, ThreadHeap.Accounted, ThreadHeap.Noted;
      ghost var was := Now();
      was.DroppedIsDefined(obj);
      was.DroppedKeeps(obj);
      cells := Recounted(cells, obj, cells[obj].count - 1);
      heap := heap.Drop(obj);
      ghost var between := Now();
      assert between == was.Dropped(obj);
      if cells[obj].count == 0 {
        Destroy(obj);
        Now().FollowsTransitively(was, between);
        return;
      }
      between.SurvivorKeeps(obj);
      SameAsItself(cells);
      if !cells[obj].acyclic {
        NotePossibleRoot(obj);
        between.NotedKeeps(obj, {});
        between.NotedCells(obj);
        Now().FollowsTransitively(was, between);
      }
    }

    // The walks of the trial deletion; `pending` stands in for the call stack

    /** Takes away the edges of everything reachable from `root`, and greys it. */
    method MarkGrey(root: T, ghost base: Cells<T>, ghost D: set<T>) returns (ghost D': set<T>)
      requires Marked(cells, base, D) && root in cells && root in base
      modifies `cells
      ensures Marked(cells, base, D') && D' == Closure(Reported(base), D + {root})
    {
      hide *;
      MarkedParts(cells, base, D);
      ColourOf(cells, base, D, {}, {}, root);
      if cells[root].colour == Grey {
        assert D + {root} == D;
        ClosureOfClosed(Reported(base), D);
        return D;
      }
      StartMarking(cells, base, D, root);
      cells := Recoloured(cells, root, Grey);
      var pending := [root];
      ghost var start, done, grey := D + {root}, D, D + {root};
      StartWorklist(D, root);
      while pending != []
        invariant Marking(cells, base, start, done, grey, multiset{})
        invariant Worklist(pending, grey, done)
        decreases base.Keys - done
      {
        MarkingParts(cells, base, start, done, grey, multiset{});
        PopWorklist(pending, grey, done);
        var obj := pending[|pending| - 1];
        pending, grey := GreyChildren(obj, pending[..|pending| - 1], base, start, done, grey);
        done := done + {obj};
      }
      EndWorklist(grey, done);
      EndMarking(cells, base, start, done);
      return done;
    }

    /** One object of that walk: its edges are taken away and new children wait. */
    method GreyChildren(obj: T, waiting: seq<T>, ghost base: Cells<T>, ghost start: set<T>, ghost done: set<T>,
              ghost found: set<T>)
      returns (pending: seq<T>, ghost grey: set<T>)
      requires Marking(cells, base, start, done, found, multiset{}) && obj in found && obj !in done
      requires obj in cells && obj in base && Worklist(waiting, found, done + {obj})
      modifies `cells
      ensures Marking(cells, base, start, done + {obj}, grey, multiset{})
      ensures Worklist(pending, grey, done + {obj})
    {
      hide *;
      MarkingParts(cells, base, start, done, found, multiset{});
      ColourOf(cells, base, found, {}, {}, obj);
      pending, grey := waiting, found;
      var children := cells[obj].traced;
      PrefixNone(children);
      WithinNone(children, grey);
      for i := 0 to |children|
        invariant Marking(cells, base, start, done, grey, Prefix(children, i))
        invariant Worklist(pending, grey, done + {obj}) && obj in grey
        invariant Within(children, i, grey)
      {
        ghost var was := cells;
        var child := children[i];
        MarkChild(was, base, start, done, grey, obj, i);
        LessOneIs(was, child);
        Enlist(pending, grey, done + {obj}, child);
        WithinStep(children, i, grey);
        cells := Recounted(cells, child, cells[child].count - 1);
        if cells[child].colour != Grey {
          cells := Recoloured(cells, child, Grey);
          pending := pending + [child];
        }
        grey := grey + {child};
      }
      MarkedObject(cells, base, start, done, grey, obj);
    }

    /** Gives back the edges of everything reachable from `root`, and blackens it. */
    method ScanBlack(root: T, ghost base: Cells<T>, ghost D: set<T>, ghost B: set<T>, ghost W: set<T>)
      returns (ghost B': set<T>, ghost W': set<T>)
      requires Scanning(cells, base, D, B, W) && root in cells && root in base
      requires root in D && root !in B && root !in W && cells[root].count > 0
      modifies `cells
      ensures Scanning(cells, base, D, B', W') && W' == W - B' && B <= B' && root in B'
    {
      hide *;
      ghost var was := cells;
      StartBlackening(cells, base, D, B, W, root);
      cells := Recoloured(cells, root, Black);
      var pending := [root];
      ghost var start, done, black := B + {root}, B, B + {root};
      StartWorklist(B, root);
      while pending != []
        invariant Blackening(cells, base, D, W, start, done, black, multiset{})
        invariant Worklist(pending, black, done)
        decreases base.Keys - done
      {
        BlackeningParts(cells, base, D, W, start, done, black, multiset{});
        PopWorklist(pending, black, done);
        var obj := pending[|pending| - 1];
        pending, black := BlackenChildren(obj, pending[..|pending| - 1], base, D, W, start, done, black);
        done := done + {obj};
      }
      EndWorklist(black, done);
      EndBlackening(was, cells, base, D, B, W, root, done);
      return done, W - done;
    }

    /** One object of that walk: its edges are given back and new children wait. */
    method BlackenChildren(obj: T, waiting: seq<T>, ghost base: Cells<T>, ghost D: set<T>, ghost W: set<T>,
              ghost start: set<T>, ghost done: set<T>, ghost found: set<T>)
      returns (pending: seq<T>, ghost black: set<T>)
      requires Blackening(cells, base, D, W, start, done, found, multiset{}) && obj in found && obj !in done
      requires obj in base && Worklist(waiting, found, done + {obj})
      modifies `cells
      ensures Blackening(cells, base, D, W, start, done + {obj}, black, multiset{})
      ensures Worklist(pending, black, done + {obj})
    {
      hide *;
      BlackeningParts(cells, base, D, W, start, done, found, multiset{});
      ColourOf(cells, base, D, W, found, obj);
      pending, black := waiting, found;
      var children := cells[obj].traced;
      PrefixNone(children);
      WithinNone(children, black);
      for i := 0 to |children|
        invariant Blackening(cells, base, D, W, start, done, black, Prefix(children, i))
        invariant Worklist(pending, black, done + {obj}) && obj in black
        invariant Within(children, i, black)
      {
        ghost var was := cells;
        var child := children[i];
        BlackenChild(was, base, D, W, start, done, black, obj, i);
        PlusOneIs(was, child);
        Enlist(pending, black, done + {obj}, child);
        WithinStep(children, i, black);
        cells := Recounted(cells, child, cells[child].count + 1);
        if cells[child].colour != Black {
          cells := Recoloured(cells, child, Black);
          pending := pending + [child];
        }
        black := black + {child};
      }
      BlackenedObject(cells, base, D, W, start, done, black, obj);
    }

    /** Decides everything reachable from `root`: black when something outside holds
        it or leads to it, white otherwise. */
    method Scan(root: T, ghost base: Cells<T>, ghost D: set<T>, ghost B: set<T>, ghost W: set<T>, ghost before: set<T>)
      returns (ghost B': set<T>, ghost W': set<T>, ghost seen: set<T>)
      requires Visiting(cells, base, D, B, W, before, []) && root in D
      modifies `cells
      ensures Visiting(cells, base, D, B', W', seen, []) && before <= seen && root in seen
    {
      hide *;
      B', W', seen := B, W, before;
      VisitRoot(cells, base, D, B, W, seen, root);
      var pending := [root];
      while pending != []
        invariant Visiting(cells, base, D, B', W', seen, pending) && before <= seen
        invariant root in seen || (pending != [] && pending[0] == root)
        decreases base.Keys - seen, |pending|
      {
        VisitTop(cells, base, D, B', W', seen, pending);
        VisitingParts(cells, base, D, B', W', seen, pending);
        var obj := pending[|pending| - 1];
        ghost var was, stack, b, w := cells, pending, B', W';
        pending := pending[..|pending| - 1];
        if cells[obj].colour != Grey {
          continue;
        }
        if cells[obj].count > 0 {
          // A count left over belongs to a reference the walk did not come through.
          B', W' := ScanBlack(obj, base, D, B', W');
          VisitBlack(was, cells, base, D, b, w, B', W', seen, stack);
          seen := seen + B';
          continue;
        }
        VisitWhite(cells, base, D, B', W', seen, stack, obj);
        cells := Recoloured(cells, obj, White);
        W', seen := W' + {obj}, seen + {obj};
        pending := pending + cells[obj].traced;
      }
    }

    /** Adds to `garbage` every white object reachable from `root`. */
    method GatherWhite(root: T, gathered: seq<T>, ghost base: Cells<T>, ghost D: set<T>, ghost B: set<T>,
              ghost W: set<T>, ghost G: set<T>, ghost before: set<T>)
      returns (garbage: seq<T>, ghost G': set<T>, ghost kept: set<T>)
      requires Reaping(cells, base, D, B, W, gathered, G, before, []) && root in D
      modifies `cells
      ensures Reaping(cells, base, D, B, W, garbage, G', kept, []) && before <= kept && root in kept
    {
      hide *;
      garbage, G', kept := gathered, G, before;
      ReapRoot(cells, base, D, B, W, garbage, G', kept, root);
      var pending := [root];
      while pending != []
        invariant Reaping(cells, base, D, B, W, garbage, G', kept, pending) && before <= kept
        invariant root in kept || (pending != [] && pending[0] == root)
        decreases base.Keys - kept, |pending|
      {
        ReapTop(cells, base, D, B, W, garbage, G', kept, pending);
        var obj := pending[|pending| - 1];
        ghost var stack := pending;
        pending := pending[..|pending| - 1];
        if cells[obj].colour != White || cells[obj].buffered {
          continue;
        }
        ReapWhite(cells, base, D, B, W, garbage, G', kept, stack, obj);
        cells := Recoloured(cells, obj, Black);
        garbage := garbage + [obj];
        G', kept := G' + {obj}, kept + {obj};
        pending := pending + cells[obj].traced;
      }
    }

    // A collection, phase by phase

    /** Takes over the buffer. `freedEarly` collects entries whose count is already
        zero, and stays empty. */
    method TakeCandidates() returns (roots: seq<T>)
      requires BufferOk(cells, candidates) && PositiveExcept(cells, {})
      modifies `cells, `candidates
      ensures cells == Unbuffered(old(cells)) && candidates == []
      ensures Elements(roots) == Suspects(old(cells))
      ensures forall r | r in roots :: r in cells
    {
      hide *;
      ghost var was := cells;
      var taken := candidates;
      candidates := [];
      roots := [];
      var freedEarly: seq<T> := [];
      UnqueueNone(was, taken);
      for i := 0 to |taken|
        invariant Unqueueing(cells, was, taken, i) && Sorted(was, taken, i, roots, freedEarly)
        invariant candidates == []
      {
        var candidate := taken[i];
        UnqueueNext(cells, was, taken, i);
        SortNext(was, taken, i, roots, freedEarly);
        cells := Unqueued(cells, candidate);
        if cells[candidate].colour == Purple && cells[candidate].count > 0 {
          roots := roots + [candidate];
        } else if cells[candidate].colour == Black && cells[candidate].count == 0 {
          freedEarly := freedEarly + [candidate];
        }
      }
      UnqueuedAll(cells, was, taken, roots, freedEarly);
      UnbufferedKeys(was);
      assert freedEarly == [];
    }

    method MarkRoots(roots: seq<T>, ghost base: Cells<T>) returns (ghost D: set<T>)
      requires Marked(cells, base, {}) && forall r | r in roots :: r in base
      modifies `cells
      ensures Marked(cells, base, D) && ReachedFrom(base, roots, |roots|, D)
    {
      hide *;
      D := {};
      MarkedParts(cells, base, D);
      ReachedFromNone(base, roots);
      for i := 0 to |roots|
        invariant Marked(cells, base, D) && ReachedFrom(base, roots, i, D)
      {
        MarkedParts(cells, base, D);
        ghost var before := D;
        D := MarkGrey(roots[i], base, D);
        ReachedFromNext(base, roots, i, before, D);
      }
    }

    method ScanRoots(roots: seq<T>, ghost base: Cells<T>, ghost D: set<T>)
      returns (ghost B: set<T>, ghost W: set<T>, ghost seen: set<T>)
      requires Marked(cells, base, D) && forall r | r in roots :: r in D
      modifies `cells
      ensures Visiting(cells, base, D, B, W, seen, []) && Within(roots, |roots|, seen)
    {
      hide *;
      B, W, seen := {}, {}, {};
      VisitNothing(cells, base, D);
      WithinNone(roots, seen);
      for i := 0 to |roots|
        invariant Visiting(cells, base, D, B, W, seen, []) && Within(roots, i, seen)
      {
        ghost var before := seen;
        B, W, seen := Scan(roots[i], base, D, B, W, seen);
        WithinMore(roots, i, before, seen);
      }
    }

    method GatherRoots(roots: seq<T>, ghost base: Cells<T>, ghost D: set<T>, ghost B: set<T>, ghost W: set<T>)
      returns (garbage: seq<T>, ghost G: set<T>, ghost kept: set<T>)
      requires Reaping(cells, base, D, B, W, [], {}, B, []) && forall r | r in roots :: r in D
      modifies `cells
      ensures Reaping(cells, base, D, B, W, garbage, G, kept, []) && Within(roots, |roots|, kept)
    {
      hide *;
      garbage, G, kept := [], {}, B;
      WithinNone(roots, kept);
      for i := 0 to |roots|
        invariant Reaping(cells, base, D, B, W, garbage, G, kept, []) && Within(roots, i, kept)
      {
        ghost var before := kept;
        garbage, G, kept := GatherWhite(roots[i], garbage, base, D, B, W, G, kept);
        WithinMore(roots, i, before, kept);
      }
    }

    /** Adds the edges among the garbage to the counts again, which marking lowered. */
    method RestoreCounts(garbage: seq<T>, ghost base: Cells<T>, ghost D: set<T>, ghost W: set<T>)
      requires Restoring(cells, base, D, W, {}, multiset{}) && Lists(garbage, W)
      modifies `cells
      ensures Restoring(cells, base, D, W, W, multiset{})
    {
      hide *;
      ghost var done: set<T> := {};
      UptoNone(garbage, W);
      for i := 0 to |garbage|
        invariant Restoring(cells, base, D, W, done, multiset{}) && Upto(garbage, i, W, done)
      {
        UptoNext(garbage, i, W, done);
        RestoreEdges(garbage[i], base, D, W, done);
        done := done + {garbage[i]};
      }
      UptoAll(garbage, W, done);
    }

    method RestoreEdges(obj: T, ghost base: Cells<T>, ghost D: set<T>, ghost W: set<T>, ghost done: set<T>)
      requires Restoring(cells, base, D, W, done, multiset{}) && obj in W && obj !in done
      modifies `cells
      ensures Restoring(cells, base, D, W, done + {obj}, multiset{})
    {
      hide *;
      RestoringParts(cells, base, D, W, done, multiset{});
      RestoringObject(cells, base, D, W, done, obj);
      var children := cells[obj].traced;
      PrefixNone(children);
      for i := 0 to |children|
        invariant Restoring(cells, base, D, W, done, Prefix(children, i))
      {
        var child := children[i];
        RestoreChild(cells, base, D, W, done, obj, i);
        cells := Recounted(cells, child, cells[child].count + 1);
      }
      RestoreObject(cells, base, D, W, done, obj);
    }

    /** Takes a reference of the collector's own to each object of the garbage, so that
        none reaches a count of zero while the links are cut. */
    method PinAll(garbage: seq<T>, ghost first: ThreadHeap<T>, ghost W: set<T>)
      requires Reclaiming(first, Now(), {}, {}, {}) && Lists(garbage, W)
      requires Now() == first && forall w | w in W :: w in cells
      modifies `cells, `heap
      ensures Reclaiming(first, Now(), W, {}, {})
    {
      hide Reclaiming, Upto, Lists, Elements, Snapshot.Take;
      ghost var done: set<T> := {};
      UptoNone(garbage, W);
      for i := 0 to |garbage|
        invariant Reclaiming(first, Now(), done, {}, {}) && Upto(garbage, i, W, done)
        invariant cells.Keys == first.cells.Keys
      {
        UptoNext(garbage, i, W, done);
        var obj := garbage[i];
        ghost var was := Now();
        PinNext(first, was, done, obj);
        cells := Recounted(cells, obj, cells[obj].count + 1);
        heap := heap.Take(obj);
        assert Now() == Pinned(was, obj);
        done := done + {obj};
      }
      UptoAll(garbage, W, done);
    }

    /** Drops every reference an object holds. */
    method ClearReferences(obj: T, ghost first: ThreadHeap<T>, ghost W: set<T>, ghost cleared: set<T>)
      requires Reclaiming(first, Now(), W, cleared, {}) && obj in W
      modifies `cells, `candidates, `heap, `liveCount
      ensures Reclaiming(first, Now(), W, cleared + {obj}, {})
    {
      ghost var was := Now();
      hide Reclaiming, ThreadHeap.Balanced, ThreadHeap.Follows;
      PinnedIsThere(first, was, W, cleared, {}, obj);
      ReclaimingIsBalanced(first, was, W, cleared, {});
      var dropped := cells[obj].traced + cells[obj].hidden;
      ghost var out := heap.outside + multiset(dropped);
      MoveAllOut(was, obj, out);
      was.MovedKeeps(obj, [], [], out);
      cells := Rewired(cells, obj, [], []);
      heap := heap.Rewire(obj, [], [] + [], out);
      ghost var moved := Now();
      assert moved == was.Moved(obj, [], [], out);
      DropAll(dropped);
      ClearNext(first, was, Now(), W, cleared, obj, out);
    }

    method ClearAll(garbage: seq<T>, ghost first: ThreadHeap<T>, ghost W: set<T>)
      requires Reclaiming(first, Now(), W, {}, {}) && Lists(garbage, W)
      modifies `cells, `candidates, `heap, `liveCount
      ensures Reclaiming(first, Now(), W, W, {})
    {
      hide *;
      ghost var done: set<T> := {};
      UptoNone(garbage, W);
      for i := 0 to |garbage|
        invariant Reclaiming(first, Now(), W, done, {}) && Upto(garbage, i, W, done)
      {
        UptoNext(garbage, i, W, done);
        ClearReferences(garbage[i], first, W, done);
        done := done + {garbage[i]};
      }
      UptoAll(garbage, W, done);
    }

    /** Lets go of the garbage. Each object is deleted by its own turn. */
    method FreeAll(garbage: seq<T>, ghost first: ThreadHeap<T>, ghost W: set<T>)
      requires Freeing(first, Now(), W, {}) && Lists(garbage, W)
      modifies `cells, `heap, `liveCount
      ensures Freeing(first, Now(), W, W)
    {
      hide Freeing, Upto, Lists, Elements, ThreadHeap.Balanced, ThreadHeap.Follows;
      ghost var done: set<T> := {};
      UptoNone(garbage, W);
      for i := 0 to |garbage|
        invariant Freeing(first, Now(), W, done) && Upto(garbage, i, W, done)
      {
        UptoNext(garbage, i, W, done);
        var obj := garbage[i];
        ghost var was := Now();
        FreeReady(first, was, W, done, obj);
        FreeNext(first, was, W, done, obj);
        cells := Recounted(cells, obj, cells[obj].count - 1);
        heap := heap.Drop(obj);
        if cells[obj].count == 0 {
          liveCount := liveCount - 1;
          cells := cells - {obj};
          heap := heap.Delete(obj);
        }
        hide Snapshot.Delete, Snapshot.Drop;
        assert Now() == Freed(was, obj);
        done := done + {obj};
      }
      UptoAll(garbage, W, done);
    }

    /** Reclaims the cycles among the candidates; a collection inside a collection
        does nothing. `W` is what is reclaimed: the objects reachable from a suspect
        through reported references to which no reference leads from outside that part
        of the heap. */
    method Collect() returns (reclaimed: nat, ghost W: set<T>)
      requires collecting || Valid()
      modifies `cells, `candidates, `heap, `liveCount, `collecting
      ensures old(collecting) ==> reclaimed == 0 && Now() == old(Now())
      ensures !old(collecting) ==> Valid() && reclaimed == |W|
      ensures !old(collecting) ==> Condemned(old(cells), W) && Collected(old(Now()), Now(), W)
    {
      hide ThreadHeap.Balanced, ThreadHeap.Accounted, Condemned, Collected;
      if collecting {
        return 0, {};
      }
      reclaimed, W := Sweep();
    }

    method Sweep() returns (reclaimed: nat, ghost W: set<T>)
      requires !collecting && Now().Balanced({}) && Now().Accounted({})
      modifies `cells, `candidates, `heap, `liveCount, `collecting
      ensures !collecting && Now().Balanced({}) && Now().Accounted({})
      ensures Condemned(old(cells), W) && Collected(old(Now()), Now(), W) && reclaimed == |W|
    {
      hide ThreadHeap.Balanced, ThreadHeap.Accounted, Condemned, Collected, Settled, Freeing, Reclaiming, Isolated, Lists, Snapshot.Ok, Snapshot.Reachable;
      ghost var was := Now();
      BalancedLinks(was);
      collecting := true;
      var garbage: seq<T>;
      garbage, W := FindGarbage(was);
      ghost var first := Now();
      SettledIsReclaimable(was, W);
      PinAll(garbage, first, W);
      ClearAll(garbage, first, W);
      ListsSize(garbage, W);
      reclaimed := |garbage|;
      FreeNothing(first, Now(), W);
      FreeAll(garbage, first, W);
      EndCollection(was, Now(), W);
      collecting := false;
      assert Now() == Finished(ThreadHeap(cells, candidates, true, liveCount, heap, fullyTraced));
    }

    /** The trial deletion. It leaves the heap as it found it, but for the buffer and
        the colours. */
    method FindGarbage(ghost was: ThreadHeap<T>) returns (garbage: seq<T>, ghost W: set<T>)
      requires was.Balanced({}) && was.Accounted({}) && !was.collecting
      requires Now() == was.(collecting := true)
      modifies `cells, `candidates
      ensures Now() == Settled(was)
      ensures Lists(garbage, W) && Condemned(was.cells, W) && Isolated(was.heap, W)
      ensures was.fullyTraced ==> was.heap.Ok() && was.heap.held.Keys - W <= was.heap.Reachable()
    {
      hide ThreadHeap.Balanced, ThreadHeap.Accounted, BufferOk, PositiveExcept, Condemned, Isolated, Lists,
        Unbuffered, Blackened, Elements, Suspects, Marked, ReachedFrom, Visiting, Within, Reaping, Restoring,
        Snapshot.Ok, Snapshot.Reachable, Reported, Closed;
      BalancedBuffer(was);
      ReadyToMark(was);
      var roots := TakeCandidates();
      ghost var base := cells;
      MarkedParts(base, base, {});
      ghost var D := MarkRoots(roots, base);
      ReachedFromAll(base, roots, D);
      ghost var B, seen;
      B, W, seen := ScanRoots(roots, base, D);
      ScanDecides(was, cells, base, roots, D, B, W, seen);
      ghost var G, kept;
      garbage, G, kept := GatherRoots(roots, base, D, B, W);
      GatherDecides(cells, base, roots, D, B, W, garbage, G, kept);
      RestoreCounts(garbage, base, D, W);
      CountsAreBack(was, cells, base, roots, D, W);
    }
  }
}
