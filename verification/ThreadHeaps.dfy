/** Everything one thread's collector is responsible for, as a value, and the steps
    that make up dropping a reference. The methods of the collector are sequences
    of these steps; what each step keeps is proved here.
 */
module ThreadHeaps {
  import opened Graphs
  import opened HeapSnapshots
  import opened CountedObjects

  /** `heap` is the snapshot of the references; `fullyTraced` says that every object
      reports every reference it holds. */
  datatype ThreadHeap<T> = ThreadHeap(
    cells: Cells<T>,
    candidates: seq<T>,
    collecting: bool,
    liveCount: nat,
    heap: Snapshot<T>,
    fullyTraced: bool)
  {
    /** The counts, the buffer and the snapshot agree; only the objects of `S` may
        have a count of zero. */
    ghost predicate Balanced(S: set<T>) {
      && Mirrored(cells, heap) && Counted(cells, heap) && PositiveExcept(cells, S)
      && BufferOk(cells, candidates)
      && liveCount == |cells|
      && (collecting ==> candidates == [])
      && (fullyTraced ==> heap.held == heap.reported)
    }

    /** Outside collections, and when every reference is reported, everything
        allocated is reachable from the stack, from a suspect or from `S`. */
    ghost predicate Accounted(S: set<T>) {
      fullyTraced && !collecting ==> Covered(cells, heap, S)
    }

    /** This can come after `was` by dropping references: some objects are gone, and
        the others hold what they held. A collection in progress sees no new suspect. */
    ghost predicate Follows(was: ThreadHeap<T>) {
      && collecting == was.collecting && fullyTraced == was.fullyTraced
      && SurvivorsKeepLinks(was.cells, cells)
      && (collecting ==> SurvivorsKeepColour(was.cells, cells))
    }

    lemma FollowsItself()
      ensures Follows(this)
    {}

    lemma FollowsTransitively(a: ThreadHeap<T>, b: ThreadHeap<T>)
      requires b.Follows(a) && Follows(b)
      ensures Follows(a)
    {
      LinksTransitive(a.cells, b.cells, cells);
      if collecting {
        ColoursTransitive(a.cells, b.cells, cells);
      }
    }

    /** The effect of noting `o` as a possible root of a cycle. */
    ghost function Noted(o: T): ThreadHeap<T>
      requires o in cells
    {
      if collecting || cells[o].colour == Purple then this
      else
        var purple := Recoloured(cells, o, Purple);
        if cells[o].buffered then this.(cells := purple)
        else this.(cells := Enqueued(purple, o, |candidates|), candidates := candidates + [o])
    }

    /** The effect of `o` leaving the buffer. */
    ghost function Left(o: T): ThreadHeap<T>
      requires CanLeave(o)
    {
      var black := Recoloured(cells, o, Black);
      if !cells[o].buffered then this.(cells := black)
      else
        var slot, last := cells[o].bufferSlot, candidates[|candidates| - 1];
        this.(cells := Dequeued(black, o, last), candidates := candidates[slot := last][..|candidates| - 1])
    }

    ghost function Deleted(o: T): ThreadHeap<T>
      requires o in cells && liveCount > 0 && o in heap.held
    {
      this.(cells := cells - {o}, liveCount := liveCount - 1, heap := heap.Delete(o))
    }

    ghost function Dropped(o: T): ThreadHeap<T>
      requires o in cells && cells[o].count > 0
    {
      this.(cells := Recounted(cells, o, cells[o].count - 1), heap := heap.Drop(o))
    }

    lemma NotedKeeps(o: T, S: set<T>)
      requires Balanced(S) && o in cells
      ensures Noted(o).Balanced(S) && Noted(o).Follows(this) && Noted(o).heap == heap
      ensures Noted(o).cells.Keys == cells.Keys
      ensures Accounted({o}) ==> Noted(o).Accounted({})
    {
      hide Mirrored, Counted, PositiveExcept, BufferOk, SurvivorsKeepColour, SurvivorsKeepLinks, SameCountsAndLinks, Covered, Suspects, Snapshot.Refs;
      var n := Noted(o);
      RecolourKeeps(cells, o);
      EnterBuffer(cells, candidates, o);
      var purple := Recoloured(cells, o, Purple);
      ItselfSurvives(cells);
      if !(collecting || cells[o].colour == Purple) {
        EnqueuedKeeps(purple, o, |candidates|);
        SameTransitive(cells, purple, Enqueued(purple, o, |candidates|));
        BufferIsSeparate(cells, n.cells, heap, S);
      } else if !collecting {
        AlreadySuspect(cells, o);
      }
      if !collecting && Covered(cells, heap, {o}) {
        CoverAfterNote(cells, n.cells, heap, o);
      }
    }

    lemma NotedCells(o: T)
      requires o in cells
      ensures SameCountsAndLinks(cells, Noted(o).cells)
    {}

    lemma LeftIsDefined(o: T)
      requires BufferOk(cells, candidates) && o in cells
      ensures CanLeave(o)
    {
      if cells[o].buffered {
        SlotIsRight(cells, candidates, o);
      }
    }

    lemma LeftBuffer(o: T)
      requires BufferOk(cells, candidates) && CanLeave(o) && (collecting ==> candidates == [])
      ensures BufferOk(Left(o).cells, Left(o).candidates) && (collecting ==> Left(o).candidates == [])
      ensures !Left(o).cells[o].buffered
    {
      if cells[o].buffered {
        ExitBuffer(cells, candidates, o);
      } else {
        BlackenUnbuffered(cells, candidates, o);
      }
    }

    lemma LeftCells(o: T)
      requires CanLeave(o)
      ensures Left(o) == this.(cells := Left(o).cells, candidates := Left(o).candidates)
      ensures SameCountsAndLinks(cells, Left(o).cells) && |Left(o).cells| == |cells|
      ensures SurvivorsKeepColour(cells - {o}, Left(o).cells - {o})
      ensures Suspects(Left(o).cells) == Suspects(cells) - {o}
    {
      hide SurvivorsKeepColour, Suspects, SameCountsAndLinks, Recoloured, Dequeued;
      var black := Recoloured(cells, o, Black);
      RecolourKeeps(cells, o);
      if cells[o].buffered {
        SameKeys(cells, black);
        var last := candidates[|candidates| - 1];
        DequeuedKeeps(black, o, last);
        SameTransitive(cells, black, Dequeued(black, o, last));
        ColoursTransitive(cells - {o}, black - {o}, Dequeued(black, o, last) - {o});
      }
      SameIsSameSize(cells, Left(o).cells);
    }

    lemma LeftKeeps(o: T, S: set<T>)
      requires Balanced(S) && CanLeave(o)
      ensures Left(o).Balanced(S)
    {
      hide Mirrored, Counted, PositiveExcept, BufferOk, SurvivorsKeepColour, SurvivorsKeepLinks, SameCountsAndLinks, Suspects, Left;
      LeftBuffer(o);
      LeftCells(o);
      BufferIsSeparate(cells, Left(o).cells, heap, S);
    }

    /** Deleting an unbuffered object whose count is zero. */
    lemma DeletedKeeps(o: T)
      requires Balanced({o}) && o in cells && cells[o].count == 0 && !cells[o].buffered
      ensures o in heap.held && liveCount > 0
      ensures Deleted(o).Balanced({})
    {
      MirroredKeys(cells, heap);
      hide Mirrored, Counted, PositiveExcept, BufferOk, Snapshot.Ok, Snapshot.Refs, Snapshot.Delete;
      DeleteObject(cells, candidates, heap, o);
      OneLess(cells, o);
      heap.DeleteKeepsReported(o);
    }

    /** Leaving the buffer and being deleted, as seen by the others. */
    lemma DeletedFollows(was: ThreadHeap<T>, o: T)
      requires o in was.cells && o in cells && liveCount > 0 && o in heap.held
      requires this == was.(cells := cells, candidates := candidates)
      requires SameCountsAndLinks(was.cells, cells) && SurvivorsKeepColour(was.cells - {o}, cells - {o})
      ensures Deleted(o).Follows(was)
    {
      hide SurvivorsKeepColour, SurvivorsKeepLinks, Snapshot.Delete;
      SameLinks(was.cells, cells);
      OneLess(cells, o);
      OneLess(was.cells, o);
      LinksTransitive(was.cells, cells, cells - {o});
      ColoursTransitive(was.cells, was.cells - {o}, cells - {o});
    }

    lemma DeletedIsAccounted(was: ThreadHeap<T>, o: T)
      requires was.heap.Refs(o) == 0 && was.Accounted({o})
      requires o in was.cells && o in cells && liveCount > 0 && o in heap.held
      requires this == was.(cells := cells, candidates := candidates)
      requires cells.Keys == was.cells.Keys && Suspects(cells) == Suspects(was.cells) - {o}
      ensures Deleted(o).Accounted({})
    {
      if fullyTraced && !collecting {
        WithoutSuspect(cells, o);
        CoverAfterDelete(was.cells, cells - {o}, heap, o);
      }
    }

    ghost predicate CanLeave(o: T) {
      && o in cells
      && (cells[o].buffered ==> cells[o].bufferSlot < |candidates| && candidates[|candidates| - 1] in cells)
    }

    /** The two steps of deleting an object, together. */
    lemma LeftAndDeleted(o: T)
      requires Balanced({o}) && o in cells && cells[o].count == 0
      ensures CanLeave(o) && o in Left(o).cells && Left(o).liveCount > 0 && o in heap.held
      ensures Left(o).heap == heap
      ensures Left(o).Deleted(o).Balanced({}) && Left(o).Deleted(o).Follows(this)
      ensures Left(o).cells.Keys == cells.Keys
      ensures Accounted({o}) ==> Left(o).Deleted(o).Accounted({})
    {
      LeftIsDefined(o);
      CountedWithout(cells, heap, o);
      LeftBuffer(o);
      LeftCells(o);
      var left := Left(o);
      assert o in left.cells && left.cells[o].count == 0;
      hide Mirrored, Counted, PositiveExcept, BufferOk, Covered, Suspects, Left, Snapshot.Ok, Snapshot.Refs, Snapshot.Delete, Balanced, Follows, Accounted, SameCountsAndLinks, SurvivorsKeepColour, Deleted;
      LeftKeeps(o, {o});
      left.DeletedKeeps(o);
      left.DeletedFollows(this, o);
      if Accounted({o}) {
        left.DeletedIsAccounted(this, o);
      }
    }

    lemma Holds(o: T)
      requires Balanced({o}) && o in cells
      ensures o in heap.held && heap.held[o] == cells[o].traced + cells[o].hidden
    {}

    lemma DroppedIsDefined(o: T)
      requires Balanced({}) && o in heap.outside
      ensures o in cells && cells[o].count > 0
    {
      OutsideIsThere(cells, heap, o);
      DropIsCounted(cells, heap, o);
    }

    lemma DroppedKeeps(o: T)
      requires Balanced({}) && o in heap.outside && o in cells && cells[o].count > 0
      ensures Dropped(o).Balanced({o}) && Dropped(o).Follows(this)
      ensures Dropped(o).cells.Keys == cells.Keys
      ensures Accounted({}) ==> Dropped(o).Accounted({o})
    {
      hide Mirrored, Counted, PositiveExcept, BufferOk, SurvivorsKeepColour, SurvivorsKeepLinks, Covered, Suspects, Snapshot.Refs, SameCountsAndLinks;
      DropReference(cells, candidates, heap, o);
      RecountKeepsLinks(cells, heap, o, cells[o].count - 1);
      RecountKeepsBuffer(cells, candidates, o, cells[o].count - 1);
      SameSize(cells, o, Dropped(o).cells[o]);
      if Covered(cells, heap, {}) {
        CoverAfterDrop(cells, Dropped(o).cells, heap, o);
      }
    }

    /** An object that survives the drop is a suspect, or holds nothing. */
    lemma SurvivorKeeps(o: T)
      requires Balanced({o}) && o in cells && cells[o].count > 0
      ensures Balanced({})
      ensures cells[o].acyclic && Accounted({o}) ==> Accounted({})
    {
      hide Mirrored, Counted, PositiveExcept, BufferOk, Covered, Suspects, Snapshot.Refs;
      PositiveAgain(cells, o);
      if cells[o].acyclic && Covered(cells, heap, {o}) {
        CoverOfAcyclic(cells, heap, o);
      }
    }

    /** The effect of constructing an object at a free address. */
    ghost function Allocated(o: T, acyclic: bool): ThreadHeap<T> {
      this.(cells := cells[o := NewObject(acyclic)], liveCount := liveCount + 1, heap := heap.Allocate(o))
    }

    /** The effect of one more reference from outside, which makes `o` black. */
    ghost function Retained(o: T): ThreadHeap<T>
      requires o in cells
    {
      this.(cells := Recoloured(Recounted(cells, o, cells[o].count + 1), o, Black), heap := heap.Take(o))
    }

    /** The effect of moving references between `o` and the outside. */
    ghost function Moved(o: T, traced: seq<T>, hidden: seq<T>, out: multiset<T>): ThreadHeap<T>
      requires o in cells
    {
      this.(cells := Rewired(cells, o, traced, hidden), heap := heap.Rewire(o, traced, traced + hidden, out))
    }

    ghost predicate CanMove(o: T, traced: seq<T>, hidden: seq<T>, out: multiset<T>) {
      && o in cells
      && (cells[o].acyclic ==> traced == hidden == [])
      && (fullyTraced ==> hidden == [])
      && out + multiset(traced + hidden) == heap.outside + multiset(cells[o].traced + cells[o].hidden)
    }

    lemma AllocatedKeeps(o: T, acyclic: bool)
      requires Balanced({}) && o !in cells
      ensures Allocated(o, acyclic).Balanced({o})
    {
      hide Mirrored, Counted, PositiveExcept, BufferOk, NewObject;
      AllocatedIsMirrored(cells, heap, o, acyclic);
      AllocatedIsCounted(cells, heap, o, acyclic);
      AllocatedKeepsRest(cells, candidates, o, acyclic);
    }

    lemma AllocatedIsAccounted(o: T, acyclic: bool)
      requires BufferOk(cells, candidates) && Accounted({}) && o !in cells
      ensures Allocated(o, acyclic).Accounted({o})
    {
      hide BufferOk, NewObject, Covered, Suspects;
      AllocatedKeepsRest(cells, candidates, o, acyclic);
      if fullyTraced && !collecting {
        CoverAfterAllocate(cells, Allocated(o, acyclic).cells, heap, o);
      }
    }

    lemma RetainedKeeps(o: T)
      requires o in cells && (Balanced({}) || Balanced({o}))
      ensures Retained(o).Balanced({})
    {
      hide Mirrored, Counted, PositiveExcept, BufferOk, SameCountsAndLinks, Suspects;
      PositiveWeaken(cells, o);
      var more := Recounted(cells, o, cells[o].count + 1);
      TakeReference(cells, candidates, heap, o);
      RecolourKeeps(more, o);
      BlackenKeepsBuffer(more, candidates, o);
      BufferIsSeparate(more, Retained(o).cells, heap.Take(o), {});
      SameSize(cells, o, Retained(o).cells[o]);
    }

    lemma RetainedIsAccounted(o: T)
      requires o in cells && Accounted({o})
      ensures Retained(o).Accounted({})
    {
      if fullyTraced && !collecting {
        assert Suspects(Retained(o).cells) + {} == (Suspects(cells) + {o}) - {o};
        heap.TakeKeepsCover(o, Suspects(cells));
        assert Suspects(cells) - {o} == Suspects(cells) + {o} - {o};
      }
    }

    lemma AccountedMonotone(o: T)
      requires Accounted({}) && o in cells
      ensures Accounted({o})
    {
      if fullyTraced && !collecting {
        heap.CoverMonotone(Suspects(cells) + {}, Suspects(cells) + {o});
      }
    }

    lemma MovedKeeps(o: T, traced: seq<T>, hidden: seq<T>, out: multiset<T>)
      requires Balanced({}) && CanMove(o, traced, hidden, out)
      ensures Moved(o, traced, hidden, out).Balanced({})
    {
      hide Mirrored, Counted, PositiveExcept, BufferOk, Suspects;
      assert hidden == [] ==> traced + hidden == traced;
      RewiredKeepsRest(cells, candidates, o, traced, hidden);
      RewiredIsMirrored(cells, heap, o, traced, hidden, out);
      RewiredIsCounted(cells, heap, o, traced, hidden, out);
    }

    lemma MovedIsAccounted(o: T, traced: seq<T>, hidden: seq<T>, out: multiset<T>)
      requires Mirrored(cells, heap) && CanMove(o, traced, hidden, out) && o in out && Accounted({})
      ensures Moved(o, traced, hidden, out).Accounted({})
    {
      RewiredIsMirrored(cells, heap, o, traced, hidden, out);
      hide Mirrored;
      if fullyTraced && !collecting {
        RewiredKeepsRest(cells, candidates, o, traced, hidden);
        hide Suspects;
        heap.MovesKeepCover(o, traced, traced + hidden, out, Suspects(cells) + {});
      }
    }

    lemma MovedStep(o: T, traced: seq<T>, hidden: seq<T>, out: multiset<T>)
      requires Balanced({}) && Accounted({}) && CanMove(o, traced, hidden, out) && o in out
      ensures Moved(o, traced, hidden, out).Balanced({}) && Moved(o, traced, hidden, out).Accounted({})
    {
      hide Balanced, Accounted, CanMove, Moved, Mirrored;
      CanMoveIn(o, traced, hidden, out);
      BalancedIsMirrored(this);
      MovedKeeps(o, traced, hidden, out);
      MovedIsAccounted(o, traced, hidden, out);
    }

    lemma CanMoveIn(o: T, traced: seq<T>, hidden: seq<T>, out: multiset<T>)
      requires CanMove(o, traced, hidden, out)
      ensures o in cells
    {}

    lemma BalancedAllocation(o: T, acyclic: bool)
      requires Balanced({}) && Accounted({}) && o !in cells
      ensures Allocated(o, acyclic).Accounted({o})
    {
      hide Mirrored, Counted, PositiveExcept, Accounted;
      AllocatedIsAccounted(o, acyclic);
    }
  }

  lemma BalancedIsMirrored<T>(s: ThreadHeap<T>)
    requires s.Balanced({})
    ensures Mirrored(s.cells, s.heap)
  {}

  /** When every reference is reported, nothing is held without being reported. */
  lemma BalancedTraced<T>(s: ThreadHeap<T>, o: T)
    requires s.Balanced({}) && o in s.cells
    ensures s.fullyTraced ==> s.cells[o].hidden == []
    ensures s.cells[o].acyclic ==> s.cells[o].traced == s.cells[o].hidden == []
  {
    hide Counted, PositiveExcept, BufferOk;
    assert s.fullyTraced ==> s.cells[o].traced + s.cells[o].hidden == s.cells[o].traced;
    assert s.fullyTraced ==> |s.cells[o].hidden| == 0;
  }

  lemma StoreMoves<T>(traced: seq<T>, hidden: seq<T>, child: T, outside: multiset<T>)
    requires child in outside
    ensures outside - multiset{child} + multiset(traced + [child] + hidden) == outside + multiset(traced + hidden)
  {}

  lemma HideMoves<T>(traced: seq<T>, hidden: seq<T>, child: T, outside: multiset<T>)
    requires child in outside
    ensures outside - multiset{child} + multiset(traced + (hidden + [child])) == outside + multiset(traced + hidden)
  {}

  lemma TakeMoves<T>(traced: seq<T>, hidden: seq<T>, i: nat, outside: multiset<T>)
    requires i < |traced|
    ensures outside + multiset{traced[i]} + multiset(traced[..i] + traced[i + 1..] + hidden) == outside + multiset(traced + hidden)
  {
    assert traced == traced[..i] + [traced[i]] + traced[i + 1..];
  }

  /** Dropping a reference frees nothing the program can still reach. */
  lemma LetKeepsReachable<T>(was: ThreadHeap<T>, now: ThreadHeap<T>, o: T)
    requires was.Balanced({}) && now.Balanced({}) && now.Follows(was)
    requires now.heap.outside == was.heap.outside - multiset{o}
    ensures was.heap.Drop(o).Ok() && was.heap.Drop(o).Reachable() <= now.cells.Keys
  {
    MirroredLinks(was.cells, was.heap);
    MirroredLinks(now.cells, now.heap);
    hide Mirrored, Counted, PositiveExcept, BufferOk, Snapshot.Ok;
    SurvivorsReach(was.heap, now.heap, o);
  }

  lemma SurvivorsReach<T>(was: Snapshot<T>, now: Snapshot<T>, o: T)
    requires was.Ok() && now.Ok() && now.outside == was.outside - multiset{o}
    requires forall x | x in now.held :: x in was.held && now.held[x] == was.held[x]
    ensures was.Drop(o).Ok() && was.Drop(o).Reachable() <= now.held.Keys
  {
    var d := was.Drop(o);
    hide Closure;
    assert Closed(d.held, now.held.Keys);
    ClosureIsLeast(d.held, d.Roots(), now.held.Keys);
  }

  lemma MirroredLinks<T>(cells: Cells<T>, heap: Snapshot<T>)
    requires Mirrored(cells, heap)
    ensures heap.Ok() && heap.held.Keys == cells.Keys
    ensures forall o | o in cells :: heap.held[o] == cells[o].traced + cells[o].hidden
  {}
}
