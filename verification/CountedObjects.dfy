/** The counted objects of a thread, as records kept by address, and what each
    elementary change to them preserves. `T` is the type of addresses.
 */
module CountedObjects {
  import opened Graphs
  import opened TrialDeletion
  import opened HeapSnapshots

  datatype RefColour = Black | Grey | White | Purple

  /** `traced` lists the references the object reports to the collector, in order;
      `hidden` those it holds without reporting them. */
  datatype RefCounted<T> = RefCounted(
    count: nat,
    colour: RefColour,
    buffered: bool,
    bufferSlot: nat,
    acyclic: bool,
    traced: seq<T>,
    hidden: seq<T>)

  type Cells<T> = map<T, RefCounted<T>>

  ghost function Reported<T>(cells: Cells<T>): Graph<T> {
    map o | o in cells :: cells[o].traced
  }

  ghost function CountsOf<T>(cells: Cells<T>): Counts<T> {
    map o | o in cells :: cells[o].count
  }

  ghost function Suspects<T>(cells: Cells<T>): set<T> {
    set o | o in cells && cells[o].colour == Purple
  }

  /** The objects hold what the snapshot says, and one declared acyclic holds nothing. */
  ghost predicate Mirrored<T>(cells: Cells<T>, heap: Snapshot<T>) {
    && heap.Ok()
    && heap.held.Keys == cells.Keys
    && forall o | o in cells ::
         && cells[o].traced == heap.reported[o]
         && cells[o].traced + cells[o].hidden == heap.held[o]
         && (cells[o].acyclic ==> heap.held[o] == [])
  }

  /** Each count is the number of references held to the object. */
  ghost predicate Counted<T>(cells: Cells<T>, heap: Snapshot<T>) {
    && heap.held.Keys == cells.Keys
    && forall o | o in cells :: cells[o].count == heap.Refs(o)
  }

  ghost predicate PositiveExcept<T>(cells: Cells<T>, S: set<T>) {
    forall o | o in cells && o !in S :: cells[o].count > 0
  }

  /** Each entry of the buffer knows its own position, and every suspect is in it. */
  ghost predicate BufferOk<T>(cells: Cells<T>, candidates: seq<T>) {
    && (forall i | 0 <= i < |candidates| ::
          candidates[i] in cells && cells[candidates[i]].buffered && cells[candidates[i]].bufferSlot == i)
    && (forall o | o in cells && cells[o].buffered :: o in candidates)
    && (forall o | o in cells :: cells[o].colour == Black || (cells[o].colour == Purple && cells[o].buffered))
  }

  /** What holds whenever no count is being changed, during a collection or not. */
  ghost predicate Steady<T>(cells: Cells<T>, candidates: seq<T>, heap: Snapshot<T>) {
    Mirrored(cells, heap) && Counted(cells, heap) && PositiveExcept(cells, {}) && BufferOk(cells, candidates)
  }

  /** Everything allocated is reachable from the stack, from a suspect or from `S`. */
  ghost predicate Covered<T>(cells: Cells<T>, heap: Snapshot<T>, S: set<T>) {
    heap.Ok() && S <= cells.Keys == heap.held.Keys && heap.Covered(Suspects(cells) + S)
  }

  /** Whoever is still there holds what it held, and is acyclic if it was. */
  ghost predicate SurvivorsKeepLinks<T>(was: Cells<T>, now: Cells<T>) {
    now.Keys <= was.Keys &&
    forall o | o in now ::
      now[o].traced == was[o].traced && now[o].hidden == was[o].hidden && now[o].acyclic == was[o].acyclic
  }

  ghost predicate SurvivorsKeepColour<T>(was: Cells<T>, now: Cells<T>) {
    now.Keys <= was.Keys &&
    forall o | o in now :: now[o].colour == was[o].colour
  }

  /** Nothing but colours and places in the buffer differs. */
  ghost predicate SameCountsAndLinks<T>(was: Cells<T>, now: Cells<T>) {
    && now.Keys == was.Keys
    && forall o | o in now ::
         && now[o].count == was[o].count && now[o].acyclic == was[o].acyclic
         && now[o].traced == was[o].traced && now[o].hidden == was[o].hidden
  }

  lemma OutsideIsThere<T>(cells: Cells<T>, heap: Snapshot<T>, o: T)
    requires Mirrored(cells, heap) && o in heap.outside
    ensures o in cells
  {}

  /** What is left outside when the first `i` of `s` are dropped. */
  ghost function Left<T>(outside: multiset<T>, s: seq<T>, i: nat): multiset<T>
    requires i <= |s|
  {
    outside - multiset(s[..i])
  }

  lemma LeftNext<T>(outside: multiset<T>, s: seq<T>, i: nat)
    requires i < |s| && multiset(s) <= outside
    ensures s[i] in Left(outside, s, i)
    ensures Left(outside, s, i) - multiset{s[i]} == Left(outside, s, i + 1)
  {
    var before, after := s[..i], s[i..];
    assert s == before + after && after[0] == s[i];
    assert s[i] in multiset(after);
    assert s[..i + 1] == before + [s[i]];
  }

  lemma LeftEnds<T>(outside: multiset<T>, s: seq<T>)
    ensures Left(outside, s, 0) == outside && Left(outside, s, |s|) == outside - multiset(s)
  {
    assert s[..|s|] == s;
  }

  lemma ItselfSurvives<T>(cells: Cells<T>)
    ensures SurvivorsKeepLinks(cells, cells) && SurvivorsKeepColour(cells, cells)
  {}

  lemma MirroredKeys<T>(cells: Cells<T>, heap: Snapshot<T>)
    requires Mirrored(cells, heap)
    ensures heap.held.Keys == cells.Keys
  {}

  lemma PositiveAgain<T>(cells: Cells<T>, o: T)
    requires PositiveExcept(cells, {o}) && o in cells && cells[o].count > 0
    ensures PositiveExcept(cells, {})
  {}

  lemma BufferIsSeparate<T>(was: Cells<T>, now: Cells<T>, heap: Snapshot<T>, S: set<T>)
    requires SameCountsAndLinks(was, now)
    ensures Mirrored(was, heap) ==> Mirrored(now, heap)
    ensures Counted(was, heap) ==> Counted(now, heap)
    ensures PositiveExcept(was, S) ==> PositiveExcept(now, S)
    ensures SurvivorsKeepLinks(was, now)
  {}

  lemma LinksTransitive<T>(a: Cells<T>, b: Cells<T>, c: Cells<T>)
    requires SurvivorsKeepLinks(a, b) && SurvivorsKeepLinks(b, c)
    ensures SurvivorsKeepLinks(a, c)
  {}

  lemma ColoursTransitive<T>(a: Cells<T>, b: Cells<T>, c: Cells<T>)
    requires SurvivorsKeepColour(a, b) && SurvivorsKeepColour(b, c)
    ensures SurvivorsKeepColour(a, c)
  {}

  function Recoloured<T>(cells: Cells<T>, o: T, colour: RefColour): Cells<T>
    requires o in cells
  {
    cells[o := cells[o].(colour := colour)]
  }

  function Recounted<T>(cells: Cells<T>, o: T, count: nat): Cells<T>
    requires o in cells
  {
    cells[o := cells[o].(count := count)]
  }

  function Enqueued<T>(cells: Cells<T>, o: T, slot: nat): Cells<T>
    requires o in cells
  {
    cells[o := cells[o].(buffered := true, bufferSlot := slot)]
  }

  /** The object leaves the buffer; `last`, which may be the object itself, takes its slot. */
  function Dequeued<T>(cells: Cells<T>, o: T, last: T): Cells<T>
    requires o in cells && last in cells
  {
    var moved := cells[last := cells[last].(bufferSlot := cells[o].bufferSlot)];
    moved[o := moved[o].(buffered := false)]
  }

  lemma RecolourKeeps<T>(cells: Cells<T>, o: T)
    requires o in cells
    ensures SameCountsAndLinks(cells, Recoloured(cells, o, Purple)) && SameCountsAndLinks(cells, Recoloured(cells, o, Black))
    ensures Suspects(Recoloured(cells, o, Purple)) == Suspects(cells) + {o}
    ensures Suspects(Recoloured(cells, o, Black)) == Suspects(cells) - {o}
    ensures SurvivorsKeepColour(cells - {o}, Recoloured(cells, o, Black) - {o})
  {}

  lemma AlreadySuspect<T>(cells: Cells<T>, o: T)
    requires o in cells && cells[o].colour == Purple
    ensures Suspects(cells) == Suspects(cells) + {o}
  {}

  lemma EnqueuedKeeps<T>(cells: Cells<T>, o: T, slot: nat)
    requires o in cells
    ensures SameCountsAndLinks(cells, Enqueued(cells, o, slot)) && SurvivorsKeepColour(cells, Enqueued(cells, o, slot))
    ensures Suspects(Enqueued(cells, o, slot)) == Suspects(cells)
    ensures cells - {o} == Enqueued(cells, o, slot) - {o}
  {}

  lemma DequeuedKeeps<T>(cells: Cells<T>, o: T, last: T)
    requires o in cells && last in cells
    ensures SameCountsAndLinks(cells, Dequeued(cells, o, last)) && SurvivorsKeepColour(cells, Dequeued(cells, o, last))
    ensures Suspects(Dequeued(cells, o, last)) == Suspects(cells)
    ensures SurvivorsKeepColour(cells - {o}, Dequeued(cells, o, last) - {o})
  {
    var now := Dequeued(cells, o, last);
    assert now.Keys == cells.Keys;
    assert forall x | x in cells :: now[x] == cells[x].(buffered := now[x].buffered, bufferSlot := now[x].bufferSlot);
    hide Dequeued;
  }

  lemma SameAsItself<T>(cells: Cells<T>)
    ensures SameCountsAndLinks(cells, cells)
  {}

  lemma SameTransitive<T>(a: Cells<T>, b: Cells<T>, c: Cells<T>)
    requires SameCountsAndLinks(a, b) && SameCountsAndLinks(b, c)
    ensures SameCountsAndLinks(a, c)
  {}

  lemma EnterBuffer<T>(cells: Cells<T>, candidates: seq<T>, o: T)
    requires BufferOk(cells, candidates) && o in cells
    ensures var purple := Recoloured(cells, o, Purple);
            if cells[o].buffered then BufferOk(purple, candidates)
            else BufferOk(Enqueued(purple, o, |candidates|), candidates + [o])
  {
    if !cells[o].buffered {
      assert o !in candidates;
      var C := candidates + [o];
      assert forall x | x in candidates :: x in C;
      assert C[|candidates|] == o;
    }
  }

  /** A buffered object can be found at its slot. */
  lemma SlotIsRight<T>(cells: Cells<T>, candidates: seq<T>, o: T)
    requires BufferOk(cells, candidates) && o in cells && cells[o].buffered
    ensures cells[o].bufferSlot < |candidates| && candidates[cells[o].bufferSlot] == o
  {
    assert o in candidates;
  }

  lemma ExitBuffer<T>(cells: Cells<T>, candidates: seq<T>, o: T)
    requires BufferOk(cells, candidates) && o in cells && cells[o].buffered
    ensures var slot, last := cells[o].bufferSlot, candidates[|candidates| - 1];
            BufferOk(Dequeued(Recoloured(cells, o, Black), o, last), candidates[slot := last][..|candidates| - 1])
  {
    SlotIsRight(cells, candidates, o);
    var slot, last := cells[o].bufferSlot, candidates[|candidates| - 1];
    var now, C := Dequeued(Recoloured(cells, o, Black), o, last), candidates[slot := last][..|candidates| - 1];
    forall x | x in now && now[x].buffered ensures x in C {
      SlotIsRight(cells, candidates, x);
      assert C[now[x].bufferSlot] == x;
    }
  }

  lemma PositiveWeaken<T>(cells: Cells<T>, o: T)
    ensures PositiveExcept(cells, {}) ==> PositiveExcept(cells, {o})
  {}

  lemma BlackenKeepsBuffer<T>(cells: Cells<T>, candidates: seq<T>, o: T)
    requires BufferOk(cells, candidates) && o in cells
    ensures BufferOk(Recoloured(cells, o, Black), candidates)
  {}

  lemma BlackenUnbuffered<T>(cells: Cells<T>, candidates: seq<T>, o: T)
    requires BufferOk(cells, candidates) && o in cells && !cells[o].buffered
    ensures BufferOk(Recoloured(cells, o, Black), candidates)
  {
    assert o !in candidates;
  }

  lemma RecountKeepsLinks<T>(cells: Cells<T>, heap: Snapshot<T>, o: T, n: nat)
    requires Mirrored(cells, heap) && o in cells
    ensures Mirrored(Recounted(cells, o, n), heap)
    ensures SurvivorsKeepLinks(cells, Recounted(cells, o, n))
  {}

  lemma RecountKeepsBuffer<T>(cells: Cells<T>, candidates: seq<T>, o: T, n: nat)
    requires BufferOk(cells, candidates) && o in cells
    ensures BufferOk(Recounted(cells, o, n), candidates)
    ensures SurvivorsKeepColour(cells, Recounted(cells, o, n))
    ensures Suspects(Recounted(cells, o, n)) == Suspects(cells)
  {}

  lemma OutsideIsSeparate<T>(cells: Cells<T>, heap: Snapshot<T>, o: T)
    requires Mirrored(cells, heap) && o in cells
    ensures Mirrored(cells, heap.Take(o)) && Mirrored(cells, heap.Drop(o))
  {}

  lemma DropIsCounted<T>(cells: Cells<T>, heap: Snapshot<T>, o: T)
    requires Counted(cells, heap) && o in cells && o in heap.outside
    ensures cells[o].count > 0 && Counted(Recounted(cells, o, cells[o].count - 1), heap.Drop(o))
    ensures PositiveExcept(cells, {}) ==> PositiveExcept(Recounted(cells, o, cells[o].count - 1), {o})
  {}

  lemma TakeIsCounted<T>(cells: Cells<T>, heap: Snapshot<T>, o: T)
    requires Counted(cells, heap) && o in cells
    ensures Counted(Recounted(cells, o, cells[o].count + 1), heap.Take(o))
    ensures PositiveExcept(cells, {}) || PositiveExcept(cells, {o}) ==>
              PositiveExcept(Recounted(cells, o, cells[o].count + 1), {})
  {}

  lemma MirrorsWithout<T>(cells: Cells<T>, heap: Snapshot<T>, o: T)
    requires Mirrored(cells, heap) && o in cells && heap.Refs(o) == 0
    ensures Mirrored(cells - {o}, heap.Delete(o))
  {
    heap.DeleteKeepsCounts(o);
  }

  lemma CountedWithout<T>(cells: Cells<T>, heap: Snapshot<T>, o: T)
    requires Mirrored(cells, heap) && Counted(cells, heap) && o in cells && cells[o].count == 0
    ensures heap.Refs(o) == 0 && Counted(cells - {o}, heap.Delete(o))
    ensures PositiveExcept(cells, {o}) ==> PositiveExcept(cells - {o}, {})
  {
    heap.DeleteKeepsCounts(o);
  }

  lemma BufferWithout<T>(cells: Cells<T>, candidates: seq<T>, o: T)
    requires BufferOk(cells, candidates) && o in cells && !cells[o].buffered
    ensures BufferOk(cells - {o}, candidates)
    ensures Suspects(cells - {o}) == Suspects(cells) - {o}
  {
    assert o !in candidates;
  }

  lemma SameSize<T>(cells: Cells<T>, o: T, c: RefCounted<T>)
    requires o in cells
    ensures |cells[o := c]| == |cells|
  {
    assert cells[o := c].Keys == cells.Keys;
  }

  lemma SameIsSameSize<T>(was: Cells<T>, now: Cells<T>)
    requires SameCountsAndLinks(was, now)
    ensures |was| == |now|
  {
    assert |was| == |was.Keys| && |now| == |now.Keys|;
  }

  lemma SameKeys<T>(was: Cells<T>, now: Cells<T>)
    requires SameCountsAndLinks(was, now)
    ensures was.Keys == now.Keys
  {}

  lemma SameLinks<T>(was: Cells<T>, now: Cells<T>)
    requires SameCountsAndLinks(was, now)
    ensures SurvivorsKeepLinks(was, now)
  {}

  lemma WithoutSuspect<T>(cells: Cells<T>, o: T)
    ensures Suspects(cells - {o}) == Suspects(cells) - {o}
  {}

  lemma OneLess<T>(cells: Cells<T>, o: T)
    requires o in cells
    ensures |cells - {o}| == |cells| - 1
    ensures SurvivorsKeepLinks(cells, cells - {o}) && SurvivorsKeepColour(cells, cells - {o})
  {
    assert (cells - {o}).Keys == cells.Keys - {o};
  }

  /** Deleting an unbuffered object nobody refers to. */
  lemma DeleteObject<T>(cells: Cells<T>, candidates: seq<T>, heap: Snapshot<T>, o: T)
    requires Mirrored(cells, heap) && Counted(cells, heap) && BufferOk(cells, candidates)
    requires o in cells && cells[o].count == 0 && !cells[o].buffered
    ensures Mirrored(cells - {o}, heap.Delete(o)) && Counted(cells - {o}, heap.Delete(o))
    ensures BufferOk(cells - {o}, candidates)
    ensures PositiveExcept(cells, {o}) ==> PositiveExcept(cells - {o}, {})
  {
    hide *;
    CountedWithout(cells, heap, o);
    MirrorsWithout(cells, heap, o);
    BufferWithout(cells, candidates, o);
  }

  /** Dropping a reference held outside the heap. */
  lemma DropReference<T>(cells: Cells<T>, candidates: seq<T>, heap: Snapshot<T>, o: T)
    requires Mirrored(cells, heap) && Counted(cells, heap) && BufferOk(cells, candidates)
    requires o in heap.outside && o in cells
    ensures cells[o].count > 0
    ensures Mirrored(Recounted(cells, o, cells[o].count - 1), heap.Drop(o))
    ensures Counted(Recounted(cells, o, cells[o].count - 1), heap.Drop(o))
    ensures BufferOk(Recounted(cells, o, cells[o].count - 1), candidates)
    ensures PositiveExcept(cells, {}) ==> PositiveExcept(Recounted(cells, o, cells[o].count - 1), {o})
    ensures Suspects(Recounted(cells, o, cells[o].count - 1)) == Suspects(cells)
  {
    hide *;
    DropIsCounted(cells, heap, o);
    OutsideIsSeparate(cells, heap, o);
    RecountKeepsLinks(cells, heap.Drop(o), o, cells[o].count - 1);
    RecountKeepsBuffer(cells, candidates, o, cells[o].count - 1);
  }

  /** Taking one more reference outside the heap, to an object whose count may still be zero. */
  lemma TakeReference<T>(cells: Cells<T>, candidates: seq<T>, heap: Snapshot<T>, o: T)
    requires Mirrored(cells, heap) && Counted(cells, heap) && BufferOk(cells, candidates)
    requires o in cells && PositiveExcept(cells, {o})
    ensures Steady(Recounted(cells, o, cells[o].count + 1), candidates, heap.Take(o))
    ensures Suspects(Recounted(cells, o, cells[o].count + 1)) == Suspects(cells)
  {
    hide Mirrored, Counted, BufferOk, PositiveExcept, Suspects;
    TakeIsCounted(cells, heap, o);
    OutsideIsSeparate(cells, heap, o);
    RecountKeepsLinks(cells, heap.Take(o), o, cells[o].count + 1);
    RecountKeepsBuffer(cells, candidates, o, cells[o].count + 1);
  }

  lemma CoverAfterDrop<T>(cells: Cells<T>, now: Cells<T>, heap: Snapshot<T>, o: T)
    requires Covered(cells, heap, {}) && o in cells
    requires now.Keys == cells.Keys && Suspects(now) == Suspects(cells)
    ensures Covered(now, heap.Drop(o), {o})
  {
    assert Suspects(cells) + {} == Suspects(cells);
    heap.DropKeepsCover(o, Suspects(cells));
  }

  lemma CoverAfterNote<T>(cells: Cells<T>, now: Cells<T>, heap: Snapshot<T>, o: T)
    requires Covered(cells, heap, {o})
    requires now.Keys == cells.Keys && Suspects(now) == Suspects(cells) + {o}
    ensures Covered(now, heap, {})
  {
    assert Suspects(now) + {} == Suspects(cells) + {o};
  }

  lemma CoverOfAcyclic<T>(cells: Cells<T>, heap: Snapshot<T>, o: T)
    requires Mirrored(cells, heap) && Counted(cells, heap) && Covered(cells, heap, {o})
    requires o in cells && cells[o].acyclic && cells[o].count > 0
    ensures Covered(cells, heap, {})
  {
    hide BufferOk;
    assert Suspects(cells) + {} == Suspects(cells);
    heap.LeafIsNoSuspect(o, Suspects(cells));
  }

  lemma CoverAfterDelete<T>(cells: Cells<T>, now: Cells<T>, heap: Snapshot<T>, o: T)
    requires heap.Refs(o) == 0 && Covered(cells, heap, {o}) && o in cells
    requires now.Keys == cells.Keys - {o} && Suspects(now) == Suspects(cells) - {o}
    ensures Covered(now, heap.Delete(o), {})
  {
    assert Suspects(now) + {} == Suspects(cells) - {o};
    heap.DeleteKeepsCover(o, Suspects(cells));
  }

  function Rewired<T>(cells: Cells<T>, o: T, traced: seq<T>, hidden: seq<T>): Cells<T>
    requires o in cells
  {
    cells[o := cells[o].(traced := traced, hidden := hidden)]
  }

  lemma RewiredKeepsRest<T>(cells: Cells<T>, candidates: seq<T>, o: T, traced: seq<T>, hidden: seq<T>)
    requires o in cells
    ensures BufferOk(cells, candidates) ==> BufferOk(Rewired(cells, o, traced, hidden), candidates)
    ensures PositiveExcept(cells, {}) ==> PositiveExcept(Rewired(cells, o, traced, hidden), {})
    ensures Suspects(Rewired(cells, o, traced, hidden)) == Suspects(cells)
    ensures SurvivorsKeepColour(cells, Rewired(cells, o, traced, hidden))
    ensures |Rewired(cells, o, traced, hidden)| == |cells|
  {
    assert Rewired(cells, o, traced, hidden).Keys == cells.Keys;
  }

  lemma RewiredIsCounted<T>(cells: Cells<T>, heap: Snapshot<T>, o: T, traced: seq<T>, hidden: seq<T>, out: multiset<T>)
    requires Mirrored(cells, heap) && Counted(cells, heap) && o in cells
    requires out + multiset(traced + hidden) == heap.outside + multiset(cells[o].traced + cells[o].hidden)
    ensures Counted(Rewired(cells, o, traced, hidden), heap.Rewire(o, traced, traced + hidden, out))
  {
    heap.MovesKeepCounts(o, traced, traced + hidden, out);
  }

  lemma RewiredIsMirrored<T>(cells: Cells<T>, heap: Snapshot<T>, o: T, traced: seq<T>, hidden: seq<T>, out: multiset<T>)
    requires Mirrored(cells, heap) && o in cells && (cells[o].acyclic ==> traced == hidden == [])
    requires out + multiset(traced + hidden) == heap.outside + multiset(cells[o].traced + cells[o].hidden)
    ensures heap.Moves(o, traced + hidden, out)
    ensures Mirrored(Rewired(cells, o, traced, hidden), heap.Rewire(o, traced, traced + hidden, out))
  {
    heap.MovesStayInside(o, traced, traced + hidden, out);
  }

  function NewObject<T>(acyclic: bool): RefCounted<T> {
    RefCounted(0, Black, false, 0, acyclic, [], [])
  }

  lemma CoverAfterAllocate<T>(cells: Cells<T>, now: Cells<T>, heap: Snapshot<T>, o: T)
    requires Covered(cells, heap, {}) && o !in cells
    requires now.Keys == cells.Keys + {o} && Suspects(now) == Suspects(cells)
    ensures Covered(now, heap.Allocate(o), {o})
  {
    var S := Suspects(cells);
    assert S + {} == S && Suspects(now) + {o} == S + {o};
    hide Suspects, Snapshot.Refs;
    heap.AllocateKeepsCover(o, S);
  }

  lemma AllocatedIsMirrored<T>(cells: Cells<T>, heap: Snapshot<T>, o: T, acyclic: bool)
    requires Mirrored(cells, heap) && o !in cells
    ensures heap.Ok() && Mirrored(cells[o := NewObject(acyclic)], heap.Allocate(o))
  {
    hide Snapshot.Refs;
    heap.AllocateKeepsCounts(o);
  }

  lemma {:induction false} AllocatedIsCounted<T>(cells: Cells<T>, heap: Snapshot<T>, o: T, acyclic: bool)
    requires heap.Ok() && Counted(cells, heap) && o !in cells
    ensures Counted(cells[o := NewObject(acyclic)], heap.Allocate(o))
    ensures PositiveExcept(cells, {}) ==> PositiveExcept(cells[o := NewObject(acyclic)], {o})
  {
    hide Snapshot.Refs, Snapshot.Ok;
    heap.AllocateKeepsCounts(o);
    var now := cells[o := NewObject(acyclic)];
    assert forall x | x in cells :: now[x] == cells[x];
  }

  lemma AllocatedKeepsRest<T>(cells: Cells<T>, candidates: seq<T>, o: T, acyclic: bool)
    requires BufferOk(cells, candidates) && o !in cells
    ensures BufferOk(cells[o := NewObject(acyclic)], candidates)
    ensures Suspects(cells[o := NewObject(acyclic)]) == Suspects(cells)
    ensures |cells[o := NewObject(acyclic)]| == |cells| + 1
  {
    assert cells[o := NewObject(acyclic)].Keys == cells.Keys + {o};
  }
}
