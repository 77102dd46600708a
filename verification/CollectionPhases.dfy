/** What a collection does before the trial deletion and after it: taking over the
    buffer, putting the counts back, and reclaiming what was found.
 */
module CollectionPhases {
  import opened Graphs
  import opened TrialDeletion
  import opened HeapSnapshots
  import opened CountedObjects
  import opened ThreadHeaps
  import opened TrialMarks

  ghost function Elements<T>(s: seq<T>): set<T> {
    set x | x in s
  }

  ghost function Firsts<T>(s: seq<T>, i: nat): set<T>
    requires i <= |s|
  {
    Elements(s[..i])
  }

  lemma {:induction false} SomeElement<T>(s: seq<T>)
    ensures s != [] ==> Elements(s) != {}
  {
    if s != [] {
      assert s[0] in Elements(s);
    }
  }

  lemma {:induction false} SameSizeWith<T>(S: set<T>, x: T)
    ensures x in S ==> |S + {x}| == |S|
  {
    if x in S {
      assert S + {x} == S;
    }
  }

  // Taking over the buffer

  ghost function Unbuffered<T>(cells: Cells<T>): Cells<T> {
    map o | o in cells :: cells[o].(buffered := false)
  }

  function Unqueued<T>(cells: Cells<T>, o: T): Cells<T>
    requires o in cells
  {
    cells[o := cells[o].(buffered := false)]
  }

  /** The first `i` candidates are marked as out of the buffer. */
  ghost predicate Unqueueing<T>(now: Cells<T>, was: Cells<T>, taken: seq<T>, i: nat) {
    && BufferOk(was, taken) && i <= |taken| && now.Keys == was.Keys
    && (forall o | o in now :: now[o] == was[o].(buffered := now[o].buffered))
    && (forall o | o in now && now[o].buffered :: was[o].buffered && o !in taken[..i])
  }

  /** Those of them a cycle may start from are in `roots`; those already free would
      be in `early`. */
  ghost predicate Sorted<T>(was: Cells<T>, taken: seq<T>, i: nat, roots: seq<T>, early: seq<T>) {
    && i <= |taken|
    && (forall r | r in roots :: r in was && was[r].colour == Purple)
    && (forall k | 0 <= k < i :: taken[k] in was && (was[taken[k]].colour == Purple ==> taken[k] in roots))
    && (forall o | o in early :: o in was && was[o].count == 0)
  }

  lemma {:induction false} UnqueueNone<T>(cells: Cells<T>, taken: seq<T>)
    requires BufferOk(cells, taken)
    ensures Unqueueing(cells, cells, taken, 0) && Sorted(cells, taken, 0, [], [])
  {}

  lemma {:induction false} UnqueueNext<T>(now: Cells<T>, was: Cells<T>, taken: seq<T>, i: nat)
    requires Unqueueing(now, was, taken, i) && i < |taken|
    ensures taken[i] in now && taken[i] in was
    ensures var c, now' := taken[i], Unqueued(now, taken[i]);
            c in now' && now'[c].colour == was[c].colour && now'[c].count == was[c].count
    ensures Unqueueing(Unqueued(now, taken[i]), was, taken, i + 1)
  {
    assert taken[..i + 1] == taken[..i] + [taken[i]];
  }

  lemma {:induction false} SortNext<T>(was: Cells<T>, taken: seq<T>, i: nat, roots: seq<T>, early: seq<T>)
    requires Sorted(was, taken, i, roots, early) && PositiveExcept(was, {}) && i < |taken| && taken[i] in was
    ensures var c := taken[i];
            var root := was[c].colour == Purple && was[c].count > 0;
            Sorted(was, taken, i + 1, if root then roots + [c] else roots,
              if !root && was[c].colour == Black && was[c].count == 0 then early + [c] else early)
  {
    var c := taken[i];
    assert forall r | r in roots :: r in roots + [c];
    assert c in roots + [c];
  }

  /** The roots are exactly the suspects, and nothing was free already. */
  lemma {:induction false} UnqueuedAll<T>(now: Cells<T>, was: Cells<T>, taken: seq<T>, roots: seq<T>, early: seq<T>)
    requires Unqueueing(now, was, taken, |taken|) && Sorted(was, taken, |taken|, roots, early) && PositiveExcept(was, {})
    ensures now == Unbuffered(was) && Elements(roots) == Suspects(was) && early == []
    ensures forall r | r in roots :: r in was
  {
    assert taken[..|taken|] == taken;
    assert Elements(early) == {};
    SomeElement(early);
    forall o | o in Suspects(was) ensures o in Elements(roots) {
      SlotIsRight(was, taken, o);
    }
  }

  /** The heap as the trial deletion finds it. */
  lemma {:induction false} ReadyToMark<T>(s: ThreadHeap<T>)
    requires s.Balanced({})
    ensures Reported(Unbuffered(s.cells)) == s.heap.reported && CountsOf(Unbuffered(s.cells)) == CountsOf(s.cells)
    ensures Marked(Unbuffered(s.cells), Unbuffered(s.cells), {})
  {
    StartableUnbuffered(s);
    hide ThreadHeap.Balanced;
    var base := Unbuffered(s.cells);
    hide Startable, Unbuffered;
    UnbufferedIsMarked(base);
  }

  lemma {:induction false} StartableUnbuffered<T>(s: ThreadHeap<T>)
    requires s.Balanced({})
    ensures Reported(Unbuffered(s.cells)) == s.heap.reported && CountsOf(Unbuffered(s.cells)) == CountsOf(s.cells)
    ensures Startable(Unbuffered(s.cells)) && s.heap.Ok() && s.heap.held.Keys == s.cells.Keys
  {
    hide Mirrored, Counted, BufferOk, PositiveExcept, Bounded, Unbuffered, Reported, CountsOf, Snapshot.Ok, Snapshot.Refs;
    UnbufferedIs(s.cells, s.candidates);
    ReportedIsMirrored(s.cells, s.heap);
    CountsAreRefs(s.cells, s.heap);
    s.heap.ReportedIsBounded(CountsOf(s.cells));
    BoundedIsWellFormed(s.heap.reported, CountsOf(s.cells));
  }

  lemma {:induction false} UnbufferedIs<T>(cells: Cells<T>, candidates: seq<T>)
    requires BufferOk(cells, candidates)
    ensures Reported(Unbuffered(cells)) == Reported(cells) && CountsOf(Unbuffered(cells)) == CountsOf(cells)
    ensures forall o | o in Unbuffered(cells) ::
              !Unbuffered(cells)[o].buffered && Unbuffered(cells)[o].colour in {Black, Purple}
  {}

  lemma {:induction false} ReportedIsMirrored<T>(cells: Cells<T>, heap: Snapshot<T>)
    requires Mirrored(cells, heap)
    ensures Reported(cells) == heap.reported && heap.Ok() && heap.held.Keys == cells.Keys
  {}

  lemma {:induction false} CountsAreRefs<T>(cells: Cells<T>, heap: Snapshot<T>)
    requires Counted(cells, heap)
    ensures CountsOf(cells).Keys == heap.held.Keys && forall o | o in heap.held.Keys :: CountsOf(cells)[o] == heap.Refs(o)
  {}

  lemma {:induction false} BoundedIsWellFormed<T>(g: Graph<T>, rc: Counts<T>)
    requires Bounded(g, rc)
    ensures WellFormed(g)
  {}

  lemma {:induction false} UnbufferedIsMarked<T>(base: Cells<T>)
    requires Startable(base)
    ensures Marked(base, base, {})
  {
    hide Bounded;
  }

  // Marking, scanning and gathering from every root

  /** `D` is what the first `i` roots reach. */
  ghost predicate ReachedFrom<T>(base: Cells<T>, roots: seq<T>, i: nat, D: set<T>) {
    && i <= |roots| && WellFormed(Reported(base)) && Firsts(roots, i) <= Reported(base).Keys
    && D == Closure(Reported(base), Firsts(roots, i))
  }

  lemma {:induction false} ReachedFromNone<T>(base: Cells<T>, roots: seq<T>)
    requires WellFormed(Reported(base))
    ensures ReachedFrom(base, roots, 0, {})
  {
    assert Firsts(roots, 0) == {};
    ClosureOfClosed(Reported(base), {});
  }

  lemma {:induction false} ReachedFromNext<T>(base: Cells<T>, roots: seq<T>, i: nat, D: set<T>, D': set<T>)
    requires ReachedFrom(base, roots, i, D) && i < |roots| && roots[i] in Reported(base).Keys
    requires D' == Closure(Reported(base), D + {roots[i]})
    ensures ReachedFrom(base, roots, i + 1, D')
  {
    assert roots[..i + 1] == roots[..i] + [roots[i]];
    assert Firsts(roots, i + 1) == Firsts(roots, i) + {roots[i]};
    ClosureOfUnion(Reported(base), Firsts(roots, i), {roots[i]});
  }

  lemma {:induction false} ReachedFromAll<T>(base: Cells<T>, roots: seq<T>, D: set<T>)
    requires ReachedFrom(base, roots, |roots|, D)
    ensures Elements(roots) <= Reported(base).Keys && D == Closure(Reported(base), Elements(roots))
    ensures forall r | r in roots :: r in D
  {
    assert roots[..|roots|] == roots;
    assert forall r | r in roots :: r in Elements(roots);
  }

  lemma {:induction false} WithinMore<T>(s: seq<T>, i: nat, S: set<T>, S': set<T>)
    requires Within(s, i, S) && S <= S' && i < |s| && s[i] in S'
    ensures Within(s, i + 1, S')
  {}

  lemma {:induction false} WithinAll<T>(s: seq<T>, S: set<T>)
    requires Within(s, |s|, S)
    ensures Elements(s) <= S
  {}

  // Putting the counts back

  /** The edges of `done` have been put back, and `plus` more. Every examined object is black. */
  ghost predicate Restoring<T>(cells: Cells<T>, base: Cells<T>, D: set<T>, W: set<T>, done: set<T>, plus: multiset<T>) {
    && Startable(base) && Closed(Reported(base), D)
    && W <= D && done <= W
    && Tally(cells, base, W - done, plus, multiset{})
    && Painted(cells, base, D, W, D)
  }

  lemma {:induction false} RestoringParts<T>(cells: Cells<T>, base: Cells<T>, D: set<T>, W: set<T>, done: set<T>,
            plus: multiset<T>)
    requires Restoring(cells, base, D, W, done, plus)
    ensures Startable(base) && Closed(Reported(base), D) && W <= D && done <= W
    ensures Tally(cells, base, W - done, plus, multiset{}) && Painted(cells, base, D, W, D)
    ensures cells.Keys == base.Keys
  {}

  lemma {:induction false} RestoreNothing<T>(cells: Cells<T>, base: Cells<T>, D: set<T>, B: set<T>, W: set<T>,
            garbage: seq<T>)
    requires Gathering(cells, base, D, B, W, garbage, W)
    ensures Restoring(cells, base, D, W, {}, multiset{}) && Lists(garbage, W)
  {
    hide Painted, Tally, Startable, Lists;
    assert W - {} == W;
  }

  lemma {:induction false} RestoreChild<T>(cells: Cells<T>, base: Cells<T>, D: set<T>, W: set<T>, done: set<T>, o: T,
            i: nat)
    requires o in base && i < |base[o].traced| && o in D
    requires Restoring(cells, base, D, W, done, Prefix(base[o].traced, i))
    ensures var c := base[o].traced[i];
            && c in cells
            && Restoring(Recounted(cells, c, cells[c].count + 1), base, D, W, done, Prefix(base[o].traced, i + 1))
  {
    hide Painted, Tally, Startable;
    var c, plus := base[o].traced[i], Prefix(base[o].traced, i);
    RestoringParts(cells, base, D, W, done, plus);
    ClosedTarget(base, D, o, c);
    PrefixMore(base[o].traced, i);
    TallyPlus(cells, base, W - done, plus, c);
    PaintRecount(cells, base, D, W, D, c, cells[c].count + 1);
  }

  lemma {:induction false} RestoreObject<T>(cells: Cells<T>, base: Cells<T>, D: set<T>, W: set<T>, done: set<T>, o: T)
    requires o in base && o in W && o !in done
    requires Restoring(cells, base, D, W, done, Prefix(base[o].traced, |base[o].traced|))
    ensures Restoring(cells, base, D, W, done + {o}, multiset{})
  {
    hide Painted, Tally, Startable;
    TallyGiven(cells, base, W - done, o);
    assert W - done - {o} == W - (done + {o});
  }

  ghost function Blackened<T>(cells: Cells<T>): Cells<T> {
    map o | o in cells :: cells[o].(colour := Black)
  }

  lemma {:induction false} RestoredAll<T>(cells: Cells<T>, base: Cells<T>, D: set<T>, W: set<T>)
    requires Restoring(cells, base, D, W, W, multiset{})
    requires Suspects(base) <= D
    ensures cells == Blackened(base)
  {
    assert W - W == {};
    hide Bounded;
    assert Targets(Reported(base), {}) == multiset{};
    forall o | o in cells ensures cells[o] == base[o].(colour := Black) {
      assert o !in D ==> base[o].colour == Black;
    }
  }

  // The position in the list of garbage

  ghost predicate Upto<T>(list: seq<T>, i: nat, S: set<T>, done: set<T>) {
    Lists(list, S) && i <= |list| && Lists(list[..i], done)
  }

  lemma {:induction false} UptoNone<T>(list: seq<T>, S: set<T>)
    requires Lists(list, S)
    ensures Upto(list, 0, S, {})
  {}

  lemma {:induction false} UptoNext<T>(list: seq<T>, i: nat, S: set<T>, done: set<T>)
    requires Upto(list, i, S, done) && i < |list|
    ensures list[i] in S && list[i] !in done
    ensures Upto(list, i + 1, S, done + {list[i]})
  {
    assert list[i] in list;
    var next := list[..i + 1];
    assert next == list[..i] + [list[i]];
    ListsPrefix(list, S, i + 1);
    assert Elements(next) == done + {list[i]};
    SameSizeWith(done, list[i]);
  }

  /** Every prefix of a list without repetitions is one. */
  lemma {:induction false} ListsPrefix<T>(list: seq<T>, S: set<T>, i: nat)
    requires Lists(list, S) && i <= |list|
    ensures Lists(list[..i], Elements(list[..i]))
    decreases |list| - i
  {
    if i == |list| {
      assert list[..i] == list;
    } else {
      ListsPrefix(list, S, i + 1);
      var longer := list[..i + 1];
      ListsPop(longer, Elements(longer));
      assert longer[..|longer| - 1] == list[..i];
      assert Elements(longer) - {list[i]} == Elements(list[..i]);
    }
  }

  lemma {:induction false} UptoAll<T>(list: seq<T>, S: set<T>, done: set<T>)
    requires Upto(list, |list|, S, done)
    ensures done == S
  {
    assert list[..|list|] == list;
  }

  // Reclaiming

  ghost predicate AllBlack<T>(cells: Cells<T>) {
    forall o | o in cells :: cells[o].colour == Black
  }

  /** The heap once the counts are right again: as it was found, but nothing is
      buffered, everything is black and a collection is in progress. */
  ghost function Settled<T>(s: ThreadHeap<T>): ThreadHeap<T> {
    ThreadHeap(Blackened(Unbuffered(s.cells)), [], true, s.liveCount, s.heap, s.fullyTraced)
  }

  lemma {:induction false} SettledKeeps<T>(s: ThreadHeap<T>)
    requires s.Balanced({})
    ensures Settled(s).Balanced({}) && AllBlack(Settled(s).cells)
    ensures Settled(s).cells.Keys == s.cells.Keys && SurvivorsKeepLinks(s.cells, Settled(s).cells)
  {
    hide Mirrored, Counted, BufferOk, PositiveExcept, SameCountsAndLinks, Snapshot.Ok, Snapshot.Refs;
    var now := Blackened(Unbuffered(s.cells));
    SettledCells(s.cells);
    BufferIsSeparate(s.cells, now, s.heap, {});
    SameIsSameSize(s.cells, now);
  }

  lemma {:induction false} SettledCells<T>(cells: Cells<T>)
    ensures var now := Blackened(Unbuffered(cells));
            SameCountsAndLinks(cells, now) && BufferOk(now, []) && AllBlack(now) && now.Keys == cells.Keys
  {}

  /** Nothing outside `W` refers to `W`. */
  ghost predicate Isolated<T>(heap: Snapshot<T>, W: set<T>) {
    && W <= heap.held.Keys
    && (forall w | w in W :: heap.outside[w] == 0)
    && forall o, w {:trigger w in heap.held[o]} | o in heap.held && w in heap.held[o] :: o in W || w !in W
  }

  /** What trial deletion finds is isolated, hence out of the program's reach; and
      when every reference is reported, it is all that is out of reach. */
  lemma {:induction false} TrialOutcome<T>(s: ThreadHeap<T>, D: set<T>, B: set<T>, W: set<T>)
    requires s.Balanced({}) && s.heap.Ok() && s.heap.held.Keys == s.cells.Keys
    requires Scanned(s.heap.reported, CountsOf(s.cells), D, B, W) && B + W == D
    requires Suspects(s.cells) <= s.heap.reported.Keys && D == Closure(s.heap.reported, Suspects(s.cells))
    ensures D <= s.heap.reported.Keys == CountsOf(s.cells).Keys
    ensures W == D - Closure(s.heap.reported, HeldFromOutside(s.heap.reported, CountsOf(s.cells), D))
    ensures Isolated(s.heap, W)
    ensures s.fullyTraced && s.Accounted({}) && !s.collecting ==> s.heap.held.Keys - W <= s.heap.Reachable()
  {
    var heap, rc := s.heap, CountsOf(s.cells);
    CountsAreRefs(s.cells, heap);
    assert s.fullyTraced ==> heap.held == heap.reported;
    hide Mirrored, Counted, BufferOk, PositiveExcept, Suspects, CountsOf;
    ScanIsExact(heap.reported, rc, D, B, W);
    OutcomeIsIsolated(heap, rc, W);
    if s.fullyTraced && s.Accounted({}) && !s.collecting {
      OutcomeIsComplete(heap, rc, Suspects(s.cells), W);
    }
  }

  lemma {:induction false} OutcomeIsIsolated<T>(heap: Snapshot<T>, rc: Counts<T>, W: set<T>)
    requires heap.Ok() && rc.Keys == heap.held.Keys && W <= heap.held.Keys
    requires forall o | o in heap.held.Keys :: rc[o] == heap.Refs(o)
    requires forall w | w in W :: rc[w] == Targets(heap.reported, W)[w]
    ensures Isolated(heap, W)
  {
    forall o | o in heap.held.Keys ensures multiset(heap.reported[o]) <= multiset(heap.held[o]) {
      assert heap.held[o] == heap.reported[o] + heap.held[o][|heap.reported[o]|..];
    }
    GarbageIsUnreachable(heap.reported, heap.held, rc, heap.outside, heap.Roots(), W);
  }

  lemma {:induction false} OutcomeIsComplete<T>(heap: Snapshot<T>, rc: Counts<T>, suspects: set<T>, W: set<T>)
    requires heap.Ok() && rc.Keys == heap.held.Keys && heap.held == heap.reported
    requires forall o | o in heap.held.Keys :: rc[o] == heap.Refs(o)
    requires suspects <= heap.held.Keys && heap.Covered(suspects + {})
    requires var D := Closure(heap.reported, suspects);
             W == D - Closure(heap.reported, HeldFromOutside(heap.reported, rc, D))
    ensures heap.held.Keys - W <= heap.Reachable()
  {
    assert suspects + {} == suspects;
    ScanIsComplete(heap.held, rc, heap.outside, heap.Roots(), suspects);
  }

  /** Reclaiming, from `first` to `now`: each object of `pinned` has one more reference
      from outside, those of `cleared` hold nothing any more, those of `gone` are
      deleted, and everything else is as it was or has been freed with them. */
  ghost predicate Reclaiming<T>(first: ThreadHeap<T>, now: ThreadHeap<T>, pinned: set<T>, cleared: set<T>,
            gone: set<T>) {
    && now.Balanced({}) && now.collecting && now.fullyTraced == first.fullyTraced
    && AllBlack(now.cells)
    && now.cells.Keys <= first.cells.Keys && now.cells.Keys !! gone
    && now.heap.outside == first.heap.outside + multiset(pinned)
    && LinksCleared(first, now, cleared)
  }

  ghost predicate LinksCleared<T>(first: ThreadHeap<T>, now: ThreadHeap<T>, cleared: set<T>) {
    && now.cells.Keys == now.heap.held.Keys && first.cells.Keys == first.heap.held.Keys
    && now.cells.Keys <= first.cells.Keys
    && forall o | o in now.cells ::
         && now.cells[o].acyclic == first.cells[o].acyclic
         && if o in cleared then now.cells[o].traced == now.cells[o].hidden == now.heap.held[o] == []
         else now.cells[o].traced == first.cells[o].traced && now.cells[o].hidden == first.cells[o].hidden
              && now.heap.held[o] == first.heap.held[o]
  }

  lemma {:induction false} ReclaimNothing<T>(first: ThreadHeap<T>)
    requires first.Balanced({}) && first.collecting && AllBlack(first.cells)
    ensures Reclaiming(first, first, {}, {}, {})
  {
    MirroredKeys(first.cells, first.heap);
    hide Mirrored, Counted, BufferOk, PositiveExcept;
    var none: set<T> := {};
    assert multiset(none) == multiset{};
  }

  /** Holding an object up: its count goes up and nothing can free it mid-sweep. */
  ghost function Pinned<T>(s: ThreadHeap<T>, o: T): ThreadHeap<T>
    requires o in s.cells
  {
    s.(cells := Recounted(s.cells, o, s.cells[o].count + 1), heap := s.heap.Take(o))
  }

  lemma {:induction false} PinnedKeeps<T>(s: ThreadHeap<T>, o: T)
    requires s.Balanced({}) && o in s.cells
    ensures Pinned(s, o).Balanced({}) && (AllBlack(s.cells) ==> AllBlack(Pinned(s, o).cells))
    ensures Pinned(s, o).cells.Keys == s.cells.Keys && SurvivorsKeepLinks(s.cells, Pinned(s, o).cells)
  {
    hide Mirrored, Counted, BufferOk, PositiveExcept, Suspects;
    PositiveWeaken(s.cells, o);
    TakeReference(s.cells, s.candidates, s.heap, o);
    SameSize(s.cells, o, Pinned(s, o).cells[o]);
  }

  lemma {:induction false} PinNext<T>(first: ThreadHeap<T>, now: ThreadHeap<T>, pinned: set<T>, o: T)
    requires Reclaiming(first, now, pinned, {}, {}) && o !in pinned && o in first.cells
    requires now.cells.Keys == first.cells.Keys
    ensures o in now.cells && Reclaiming(first, Pinned(now, o), pinned + {o}, {}, {})
    ensures Pinned(now, o).cells.Keys == first.cells.Keys
  {
    hide ThreadHeap.Balanced, AllBlack;
    PinnedKeeps(now, o);
    assert multiset(pinned + {o}) == multiset(pinned) + multiset{o};
  }

  /** Breaking the links of a pinned object, then dropping what it held. */
  lemma {:induction false} ClearNext<T>(first: ThreadHeap<T>, was: ThreadHeap<T>, now: ThreadHeap<T>, W: set<T>,
            cleared: set<T>, o: T, out: multiset<T>)
    requires Reclaiming(first, was, W, cleared, {}) && o in was.cells
    requires now.Balanced({}) && now.Follows(was.Moved(o, [], [], out)) && now.heap.outside == was.heap.outside
    ensures Reclaiming(first, now, W, cleared + {o}, {})
  {
    var moved := was.Moved(o, [], [], out);
    BlackSurvivors(was.cells, o, now.cells);
    HeldIsLinks(was.cells, was.heap);
    HeldIsLinks(now.cells, now.heap);
    hide Mirrored, Counted, BufferOk, PositiveExcept, AllBlack, SurvivorsKeepColour, SurvivorsKeepLinks, LinksCleared;
    ClearLinks(first, was, now, cleared, o);
    KeysCleared(first, was, cleared);
    KeysCleared(first, now, cleared + {o});
  }

  lemma {:induction false} KeysCleared<T>(first: ThreadHeap<T>, now: ThreadHeap<T>, cleared: set<T>)
    requires LinksCleared(first, now, cleared)
    ensures now.cells.Keys <= first.cells.Keys
  {}

  lemma {:induction false} ClearLinks<T>(first: ThreadHeap<T>, was: ThreadHeap<T>, now: ThreadHeap<T>,
            cleared: set<T>, o: T)
    requires LinksCleared(first, was, cleared) && o in was.cells
    requires SurvivorsKeepLinks(Rewired(was.cells, o, [], []), now.cells)
    requires was.heap.held.Keys == was.cells.Keys
    requires forall x | x in was.cells :: was.heap.held[x] == was.cells[x].traced + was.cells[x].hidden
    requires now.heap.held.Keys == now.cells.Keys
    requires forall x | x in now.cells :: now.heap.held[x] == now.cells[x].traced + now.cells[x].hidden
    ensures LinksCleared(first, now, cleared + {o})
  {}

  lemma {:induction false} BlackSurvivors<T>(was: Cells<T>, o: T, now: Cells<T>)
    requires o in was
    ensures AllBlack(was) && SurvivorsKeepColour(Rewired(was, o, [], []), now) ==> AllBlack(now)
  {}

  lemma {:induction false} HeldIsLinks<T>(cells: Cells<T>, heap: Snapshot<T>)
    requires Mirrored(cells, heap)
    ensures heap.held.Keys == cells.Keys && forall o | o in cells :: heap.held[o] == cells[o].traced + cells[o].hidden
  {}

  /** A pinned object is still there. */
  lemma {:induction false} PinnedIsThere<T>(first: ThreadHeap<T>, now: ThreadHeap<T>, pinned: set<T>, cleared: set<T>,
            gone: set<T>, o: T)
    requires Reclaiming(first, now, pinned, cleared, gone) && o in pinned
    ensures o in now.cells && o in now.heap.outside
  {
    assert o in multiset(pinned);
    OutsideIsThere(now.cells, now.heap, o);
  }

  /** The last reference to a cleared object is the one that pins it. */
  lemma {:induction false} OnlyThePin<T>(first: ThreadHeap<T>, now: ThreadHeap<T>, W: set<T>, pinned: set<T>,
            gone: set<T>, o: T)
    requires Reclaiming(first, now, pinned, W, gone) && Isolated(first.heap, W) && o in W && o in pinned
    ensures now.heap.Drop(o).Refs(o) == 0 && now.heap.held[o] == []
  {
    PinnedIsThere(first, now, pinned, W, gone, o);
    hide ThreadHeap.Balanced, AllBlack;
    var h := now.heap.held;
    forall s | s in h ensures o !in h[s] {
      if s !in W {
        assert h[s] == first.heap.held[s];
      }
    }
    TargetsMember(h, h.Keys, o);
    assert now.heap.outside[o] == 1;
  }

  /** Letting go of a pinned object deletes it, and changes nothing else. */
  ghost function Freed<T>(s: ThreadHeap<T>, o: T): ThreadHeap<T>
    requires o in s.cells && s.cells[o].count > 0 && o in s.heap.held && s.liveCount > 0
  {
    s.Dropped(o).Deleted(o)
  }

  lemma {:induction false} FreedKeeps<T>(s: ThreadHeap<T>, o: T)
    requires s.Balanced({}) && s.collecting && o in s.heap.outside && o in s.cells
    requires s.heap.Drop(o).Refs(o) == 0
    ensures s.cells[o].count == 1 && o in s.heap.held && s.liveCount > 0
    ensures Freed(s, o).Balanced({}) && Freed(s, o).Follows(s)
  {
    s.DroppedIsDefined(o);
    s.DroppedKeeps(o);
    var d := s.Dropped(o);
    DroppedCount(d, o);
    NobodyBuffered(d, o);
    hide ThreadHeap.Balanced, Snapshot.Refs;
    d.DeletedKeeps(o);
    d.DeletedFollows(d, o);
    d.Deleted(o).FollowsTransitively(s, d);
  }

  lemma {:induction false} DroppedCount<T>(d: ThreadHeap<T>, o: T)
    requires Counted(d.cells, d.heap) && o in d.cells && d.heap.Refs(o) == 0
    ensures d.cells[o].count == 0
  {}

  lemma {:induction false} NobodyBuffered<T>(d: ThreadHeap<T>, o: T)
    requires BufferOk(d.cells, d.candidates) && d.candidates == [] && o in d.cells
    ensures !d.cells[o].buffered
  {}

  /** The last loop of a collection: the objects of `done` are deleted, the rest of
      the garbage is cleared and only its pins hold it. */
  ghost predicate Freeing<T>(first: ThreadHeap<T>, now: ThreadHeap<T>, W: set<T>, done: set<T>) {
    Isolated(first.heap, W) && Reclaiming(first, now, W - done, W, done)
  }

  lemma {:induction false} FreeNothing<T>(first: ThreadHeap<T>, now: ThreadHeap<T>, W: set<T>)
    requires Isolated(first.heap, W) && Reclaiming(first, now, W, W, {})
    ensures Freeing(first, now, W, {})
  {
    hide Isolated, Reclaiming;
    assert W - {} == W;
  }

  lemma {:induction false} FreeReady<T>(first: ThreadHeap<T>, now: ThreadHeap<T>, W: set<T>, done: set<T>, o: T)
    requires Freeing(first, now, W, done) && o in W && o !in done
    ensures o in now.cells && now.cells[o].count == 1 && o in now.heap.held && now.liveCount > 0
    ensures now.Balanced({}) && now.collecting && now.heap.held[o] == [] && o in now.heap.outside
    ensures Freed(now, o).Balanced({}) && Freed(now, o).Follows(now)
  {
    hide Isolated, ThreadHeap.Balanced, AllBlack, LinksCleared, Snapshot.Refs, ThreadHeap.Follows;
    PinnedIsThere(first, now, W - done, W, done, o);
    OnlyThePin(first, now, W, W - done, done, o);
    FreedKeeps(now, o);
  }

  lemma {:induction false} FreeNext<T>(first: ThreadHeap<T>, now: ThreadHeap<T>, W: set<T>, done: set<T>, o: T)
    requires Freeing(first, now, W, done) && o in W && o !in done
    requires o in now.cells && now.cells[o].count > 0 && o in now.heap.held && now.liveCount > 0
    ensures Freeing(first, Freed(now, o), W, done + {o})
  {
    hide *;
    var f := Freed(now, o);
    FreeReady(first, now, W, done, o);
    FreeingParts(first, now, W, done);
    FreedOutside(now, o);
    BalancedLinks(now);
    BalancedLinks(f);
    FreedKeys(now, o);
    BlackFollows(f, now);
    LinksFollow(first, now, f, W);
    KeysCleared(first, f, W);
    PinsLess(first.heap.outside, W, done, o);
    GoneMore(now.cells.Keys, f.cells.Keys, done, o);
    MakeFreeing(first, f, W, done + {o});
  }

  lemma {:induction false} FreeingParts<T>(first: ThreadHeap<T>, now: ThreadHeap<T>, W: set<T>, done: set<T>)
    requires Freeing(first, now, W, done)
    ensures Isolated(first.heap, W) && now.Balanced({}) && now.collecting && now.fullyTraced == first.fullyTraced
    ensures AllBlack(now.cells) && now.cells.Keys <= first.cells.Keys && now.cells.Keys !! done
    ensures now.heap.outside == first.heap.outside + multiset(W - done) && LinksCleared(first, now, W)
  {
    hide Isolated, AllBlack, LinksCleared, ThreadHeap.Balanced;
  }

  lemma {:induction false} MakeFreeing<T>(first: ThreadHeap<T>, now: ThreadHeap<T>, W: set<T>, done: set<T>)
    requires Isolated(first.heap, W) && now.Balanced({}) && now.collecting && now.fullyTraced == first.fullyTraced
    requires AllBlack(now.cells) && now.cells.Keys <= first.cells.Keys && now.cells.Keys !! done
    requires now.heap.outside == first.heap.outside + multiset(W - done) && LinksCleared(first, now, W)
    ensures Freeing(first, now, W, done)
  {
    hide Isolated, AllBlack, LinksCleared, ThreadHeap.Balanced;
  }

  lemma {:induction false} BalancedLinks<T>(s: ThreadHeap<T>)
    requires s.Balanced({})
    ensures s.heap.held.Keys == s.cells.Keys && s.heap.Ok()
    ensures forall o | o in s.cells :: s.heap.held[o] == s.cells[o].traced + s.cells[o].hidden
  {
    HeldIsLinks(s.cells, s.heap);
    MirroredOk(s.cells, s.heap);
  }

  lemma {:induction false} PinsLess<T>(outside: multiset<T>, W: set<T>, done: set<T>, o: T)
    requires o in W && o !in done
    ensures outside + multiset(W - done) - multiset{o} == outside + multiset(W - (done + {o}))
  {
    assert W - done == (W - (done + {o})) + {o};
  }

  lemma {:induction false} GoneMore<T>(was: set<T>, now: set<T>, done: set<T>, o: T)
    requires was !! done && now == was - {o}
    ensures now !! done + {o} && now <= was
  {}

  lemma {:induction false} FreedKeys<T>(s: ThreadHeap<T>, o: T)
    requires o in s.cells && s.cells[o].count > 0 && o in s.heap.held && s.liveCount > 0
    ensures Freed(s, o).cells.Keys == s.cells.Keys - {o}
    ensures Freed(s, o).collecting == s.collecting && Freed(s, o).fullyTraced == s.fullyTraced
  {}

  lemma {:induction false} FreedOutside<T>(s: ThreadHeap<T>, o: T)
    requires o in s.cells && s.cells[o].count > 0 && o in s.heap.held && s.liveCount > 0
    requires s.heap.held[o] == []
    ensures Freed(s, o).heap.outside == s.heap.outside - multiset{o}
  {
    var none: seq<T> := [];
    assert multiset(none) == multiset{};
  }

  lemma {:induction false} BlackFollows<T>(now: ThreadHeap<T>, was: ThreadHeap<T>)
    requires now.Follows(was) && was.collecting
    ensures AllBlack(was.cells) ==> AllBlack(now.cells)
    ensures SurvivorsKeepLinks(was.cells, now.cells)
  {}

  lemma {:induction false} LinksFollow<T>(first: ThreadHeap<T>, was: ThreadHeap<T>, now: ThreadHeap<T>, cleared: set<T>)
    requires LinksCleared(first, was, cleared) && SurvivorsKeepLinks(was.cells, now.cells)
    requires was.heap.held.Keys == was.cells.Keys
    requires forall x | x in was.cells :: was.heap.held[x] == was.cells[x].traced + was.cells[x].hidden
    requires now.heap.held.Keys == now.cells.Keys
    requires forall x | x in now.cells :: now.heap.held[x] == now.cells[x].traced + now.cells[x].hidden
    ensures LinksCleared(first, now, cleared)
  {}

  /** The end of a collection that started from `s` and found `W`. */
  ghost function Finished<T>(s: ThreadHeap<T>): ThreadHeap<T> {
    s.(collecting := false)
  }

  /** A collection keeps what the program can reach, as it was; it deletes all of `W`;
      and when every reference is reported, only the reachable objects are left. */
  ghost predicate Collected<T>(was: ThreadHeap<T>, now: ThreadHeap<T>, W: set<T>) {
    && was.heap.Ok() && was.heap.held.Keys == was.cells.Keys && W <= was.cells.Keys
    && now.heap.outside == was.heap.outside
    && SurvivorsKeepLinks(was.cells, now.cells)
    && AllBlack(now.cells)
    && was.heap.Reachable() <= now.cells.Keys <= was.cells.Keys - W
    && (was.fullyTraced ==> now.cells.Keys == was.heap.Reachable() == was.cells.Keys - W)
  }

  lemma {:induction false} EndCollection<T>(s: ThreadHeap<T>, now: ThreadHeap<T>, W: set<T>)
    requires s.Balanced({}) && s.heap.Ok() && s.heap.held.Keys == s.cells.Keys
    requires Freeing(Settled(s), now, W, W)
    requires s.fullyTraced ==> s.heap.held.Keys - W <= s.heap.Reachable()
    ensures Finished(now).Balanced({}) && Finished(now).Accounted({}) && Collected(s, Finished(now), W)
  {
    hide *;
    SettledKeeps(s);
    SettledIs(s);
    NothingPinned(Settled(s), now, W);
    FinishedKeeps(now);
    var f := Finished(now);
    BalancedLinks(f);
    FinalLinks(s, now, W);
    ReachableStays(s.heap, f.heap);
    if s.fullyTraced {
      SameReach(s.heap, f.heap, W);
      CoveredBlack(f);
    } else {
      AccountedAnyway(f);
    }
    MakeCollected(s, f, W);
  }

  lemma {:induction false} SettledIs<T>(s: ThreadHeap<T>)
    ensures Settled(s).heap == s.heap && Settled(s).fullyTraced == s.fullyTraced
  {}

  lemma {:induction false} FinishedKeeps<T>(s: ThreadHeap<T>)
    requires s.Balanced({})
    ensures Finished(s).Balanced({}) && Finished(s).cells == s.cells && Finished(s).heap == s.heap
    ensures Finished(s).fullyTraced == s.fullyTraced
  {
    hide Mirrored, Counted, BufferOk, PositiveExcept;
  }

  lemma {:induction false} AccountedAnyway<T>(s: ThreadHeap<T>)
    requires !s.fullyTraced
    ensures s.Accounted({})
  {}

  lemma {:induction false} MakeCollected<T>(was: ThreadHeap<T>, now: ThreadHeap<T>, W: set<T>)
    requires was.heap.Ok() && was.heap.held.Keys == was.cells.Keys && W <= was.cells.Keys
    requires now.heap.outside == was.heap.outside && SurvivorsKeepLinks(was.cells, now.cells) && AllBlack(now.cells)
    requires was.heap.Reachable() <= now.cells.Keys <= was.cells.Keys - W
    requires was.fullyTraced ==> was.cells.Keys - W <= was.heap.Reachable()
    ensures Collected(was, now, W)
  {
    hide AllBlack, SurvivorsKeepLinks, Snapshot.Ok, Snapshot.Reachable;
  }

  /** When only reachable objects are left, they are reachable as before. */
  lemma {:induction false} SameReach<T>(was: Snapshot<T>, now: Snapshot<T>, W: set<T>)
    requires was.Ok() && now.Ok() && was.Reachable() <= now.Reachable()
    requires now.held.Keys <= was.held.Keys - W <= was.Reachable()
    ensures now.held.Keys <= now.Reachable()
  {}

  lemma {:induction false} NothingPinned<T>(first: ThreadHeap<T>, now: ThreadHeap<T>, W: set<T>)
    requires Freeing(first, now, W, W)
    ensures now.Balanced({}) && now.fullyTraced == first.fullyTraced && AllBlack(now.cells)
    ensures now.heap.outside == first.heap.outside && now.cells.Keys <= first.cells.Keys - W
    ensures LinksCleared(first, now, W) && W <= first.heap.held.Keys
  {
    hide ThreadHeap.Balanced, AllBlack, LinksCleared;
    assert W - W == {};
  }

  lemma {:induction false} MirroredOk<T>(cells: Cells<T>, heap: Snapshot<T>)
    requires Mirrored(cells, heap)
    ensures heap.Ok()
  {}

  /** Survivors hold what they held when the collection started. */
  lemma {:induction false} FinalLinks<T>(s: ThreadHeap<T>, now: ThreadHeap<T>, W: set<T>)
    requires Settled(s).heap == s.heap && SurvivorsKeepLinks(s.cells, Settled(s).cells)
    requires LinksCleared(Settled(s), now, W) && now.cells.Keys !! W
    ensures SurvivorsKeepLinks(s.cells, now.cells)
    ensures forall o | o in now.heap.held :: o in s.heap.held && now.heap.held[o] == s.heap.held[o]
  {}

  /** What was reachable is still there, and is all that is reachable. */
  lemma {:induction false} ReachableStays<T>(was: Snapshot<T>, now: Snapshot<T>)
    requires was.Ok() && now.Ok() && now.outside == was.outside
    requires forall o | o in now.held :: o in was.held && now.held[o] == was.held[o]
    ensures was.Reachable() <= now.held.Keys
    ensures was.Reachable() <= now.Reachable()
  {
    ClosureIsLeast(was.held, was.Roots(), now.held.Keys);
    var C := now.Reachable();
    assert was.Roots() == now.Roots();
    ClosureIsLeast(was.held, was.Roots(), C);
  }

  lemma {:induction false} CoveredBlack<T>(s: ThreadHeap<T>)
    requires AllBlack(s.cells) && s.heap.Ok() && s.heap.held.Keys == s.cells.Keys
    requires s.heap.held.Keys <= s.heap.Reachable()
    ensures s.Accounted({})
  {
    assert Suspects(s.cells) + {} == {};
    assert s.heap.Roots() + {} == s.heap.Roots();
  }

  lemma {:induction false} BalancedBuffer<T>(s: ThreadHeap<T>)
    requires s.Balanced({})
    ensures BufferOk(s.cells, s.candidates) && PositiveExcept(s.cells, {})
  {}

  lemma {:induction false} UnbufferedKeys<T>(cells: Cells<T>)
    ensures Unbuffered(cells).Keys == cells.Keys
  {}

  lemma {:induction false} RestoringObject<T>(cells: Cells<T>, base: Cells<T>, D: set<T>, W: set<T>, done: set<T>, o: T)
    requires Restoring(cells, base, D, W, done, multiset{}) && o in W
    ensures o in cells && o in base && o in D && cells[o].traced == base[o].traced
  {}

  lemma {:induction false} ReclaimingIsBalanced<T>(first: ThreadHeap<T>, now: ThreadHeap<T>, pinned: set<T>,
            cleared: set<T>, gone: set<T>)
    requires Reclaiming(first, now, pinned, cleared, gone)
    ensures now.Balanced({}) && now.collecting
  {}

  lemma {:induction false} MoveAllOut<T>(s: ThreadHeap<T>, o: T, out: multiset<T>)
    requires o in s.cells && out == s.heap.outside + multiset(s.cells[o].traced + s.cells[o].hidden)
    ensures s.CanMove(o, [], [], out)
  {
    var none: seq<T> := [];
    assert none + none == none && multiset(none) == multiset{};
  }

  /** The objects a collection of this heap must reclaim: those reachable from a
      suspect through reported references, minus those that are also reachable, in the
      same way, from one of them which is held from elsewhere. */
  ghost predicate Condemned<T>(cells: Cells<T>, W: set<T>) {
    var g, rc := Reported(cells), CountsOf(cells);
    && WellFormed(g) && Suspects(cells) <= g.Keys
    && var D := Closure(g, Suspects(cells));
       W == D - Closure(g, HeldFromOutside(g, rc, D))
  }

  /** Once the scan is over, what it left white is settled. */
  lemma {:induction false} ScanDecides<T>(was: ThreadHeap<T>, cells: Cells<T>, base: Cells<T>, roots: seq<T>,
            D: set<T>, B: set<T>, W: set<T>, seen: set<T>)
    requires was.Balanced({}) && was.Accounted({}) && !was.collecting
    requires base == Unbuffered(was.cells) && Elements(roots) == Suspects(was.cells)
    requires ReachedFrom(base, roots, |roots|, D)
    requires Visiting(cells, base, D, B, W, seen, []) && Within(roots, |roots|, seen)
    ensures Reaping(cells, base, D, B, W, [], {}, B, [])
    ensures Condemned(was.cells, W) && Isolated(was.heap, W)
    ensures was.fullyTraced ==> was.heap.Ok() && was.heap.held.Keys - W <= was.heap.Reachable()
  {
    hide *;
    BalancedLinks(was);
    ReadyToMark(was);
    MarkedParts(base, base, {});
    ReachedFromAll(base, roots, D);
    WithinAll(roots, seen);
    VisitedAll(cells, base, D, B, W, seen, Elements(roots));
    VisitingParts(cells, base, D, B, W, seen, []);
    ScanningParts(cells, base, D, B, W);
    TrialOutcome(was, D, B, W);
    ReportedOf(was.cells, was.candidates);
    IsCondemned(was.cells, D, W);
    ReapNothing(cells, base, D, B, W, seen);
  }

  lemma {:induction false} ReportedOf<T>(cells: Cells<T>, candidates: seq<T>)
    ensures Reported(Unbuffered(cells)) == Reported(cells) && CountsOf(Unbuffered(cells)) == CountsOf(cells)
  {}

  lemma {:induction false} IsCondemned<T>(cells: Cells<T>, D: set<T>, W: set<T>)
    requires WellFormed(Reported(cells)) && Suspects(cells) <= Reported(cells).Keys
    requires D == Closure(Reported(cells), Suspects(cells)) && D <= Reported(cells).Keys == CountsOf(cells).Keys
    requires W == D - Closure(Reported(cells), HeldFromOutside(Reported(cells), CountsOf(cells), D))
    ensures Condemned(cells, W)
  {
    hide Reported, CountsOf, HeldFromOutside, Suspects;
  }

  /** Once the gathering is over, the garbage is listed and its counts can be put back. */
  lemma {:induction false} GatherDecides<T>(cells: Cells<T>, base: Cells<T>, roots: seq<T>, D: set<T>, B: set<T>,
            W: set<T>, garbage: seq<T>, G: set<T>, kept: set<T>)
    requires ReachedFrom(base, roots, |roots|, D) && base.Keys == Reported(base).Keys && WellFormed(Reported(base))
    requires Reaping(cells, base, D, B, W, garbage, G, kept, []) && Within(roots, |roots|, kept)
    ensures Restoring(cells, base, D, W, {}, multiset{}) && Lists(garbage, W)
  {
    hide *;
    ReachedFromAll(base, roots, D);
    WithinAll(roots, kept);
    ReapedAll(cells, base, D, B, W, garbage, G, kept, Elements(roots));
    RestoreNothing(cells, base, D, B, W, garbage);
  }

  /** Once the counts are back, the heap is as it was found, and black. */
  lemma {:induction false} CountsAreBack<T>(was: ThreadHeap<T>, cells: Cells<T>, base: Cells<T>, roots: seq<T>,
            D: set<T>, W: set<T>)
    requires base == Unbuffered(was.cells) && Elements(roots) == Suspects(was.cells)
    requires ReachedFrom(base, roots, |roots|, D) && Restoring(cells, base, D, W, W, multiset{})
    ensures cells == Blackened(Unbuffered(was.cells))
  {
    hide *;
    ReachedFromAll(base, roots, D);
    SameSuspects(was.cells);
    AllWithin(roots, D);
    RestoredAll(cells, base, D, W);
  }

  lemma {:induction false} SameSuspects<T>(cells: Cells<T>)
    ensures Suspects(Unbuffered(cells)) == Suspects(cells)
  {}

  lemma {:induction false} AllWithin<T>(s: seq<T>, S: set<T>)
    requires forall x | x in s :: x in S
    ensures Elements(s) <= S
  {}

  lemma {:induction false} SettledIsReclaimable<T>(s: ThreadHeap<T>, W: set<T>)
    requires s.Balanced({}) && Isolated(s.heap, W)
    ensures Reclaiming(Settled(s), Settled(s), {}, {}, {}) && Isolated(Settled(s).heap, W)
    ensures W <= Settled(s).cells.Keys
  {
    SettledKeeps(s);
    SettledIs(s);
    BalancedLinks(s);
    hide ThreadHeap.Balanced, AllBlack, SurvivorsKeepLinks;
    ReclaimNothing(Settled(s));
  }
}
