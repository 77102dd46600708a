/** A run of a program: two objects that refer to each other outlive the last reference to
    them, and the next collection takes them.
 */
module CollectedRings {
  import opened Graphs
  import opened HeapSnapshots
  import opened CountedObjects
  import opened ThreadHeaps
  import opened CollectionPhases
  import opened CycleCollection

  /** `now` has `a` and `b` besides what `was` has, and what was there holds what it held. */
  ghost predicate Extends<T>(was: Cells<T>, now: Cells<T>, a: T, b: T) {
    && a !in was && b !in was && now.Keys == was.Keys + {a, b}
    && forall o | o in was :: now[o].traced == was[o].traced && now[o].hidden == was[o].hidden
  }

  /** Nothing that was there leads to the two. */
  lemma RingIsUnreachable<T>(was: ThreadHeap<T>, now: ThreadHeap<T>, a: T, b: T)
    requires was.Balanced({}) && now.Balanced({}) && Extends(was.cells, now.cells, a, b)
    requires now.heap.outside == was.heap.outside
    ensures now.heap.Ok() && now.heap.Reachable() <= was.cells.Keys
  {
    MirroredLinks(was.cells, was.heap);
    MirroredLinks(now.cells, now.heap);
    hide ThreadHeap.Balanced, Closure;
    forall o, x | o in was.cells && x in now.heap.held[o] ensures x in was.cells {
      assert x in was.heap.held[o];
    }
    ClosureIsLeast(now.heap.held, now.heap.Roots(), was.cells.Keys);
  }

  lemma TwoMore<T>(was: Cells<T>, now: Cells<T>, a: T, b: T)
    requires a != b && Extends(was, now, a, b)
    ensures |now| == |was| + 2
  {
    assert |now.Keys| == |now| && |was.Keys| == |was|;
    assert |was.Keys + {a}| == |was.Keys| + 1;
    assert was.Keys + {a, b} == was.Keys + {a} + {b};
  }

  lemma CountedCells<T>(s: ThreadHeap<T>)
    requires s.Balanced({})
    ensures s.liveCount == |s.cells|
  {}

  lemma BothReclaimed<T>(was: ThreadHeap<T>, now: ThreadHeap<T>, W: set<T>, a: T, b: T)
    requires Collected(was, now, W) && was.fullyTraced && a != b && a in was.cells && b in was.cells
    requires a !in was.heap.Reachable() && b !in was.heap.Reachable()
    ensures a !in now.cells && b !in now.cells && |W| >= 2 && now.cells.Keys <= was.cells.Keys - {a, b}
  {
    hide Snapshot.Reachable, SurvivorsKeepLinks, Snapshot.Ok;
    assert {a, b} <= W;
    assert |W| == |{a, b}| + |W - {a, b}|;
  }

  /** The two have `m` and `n` references and hold `s` and `t`, all reported. */
  ghost predicate Pair<T>(was: Cells<T>, now: Cells<T>, a: T, b: T, m: nat, n: nat, s: seq<T>, t: seq<T>) {
    && a != b && Extends(was, now, a, b)
    && !now[a].acyclic && now[a].count == m && now[a].traced == s
    && !now[b].acyclic && now[b].count == n && now[b].traced == t
  }

  lemma PairTurned<T>(was: Cells<T>, now: Cells<T>, a: T, b: T, m: nat, n: nat, s: seq<T>, t: seq<T>)
    requires Pair(was, now, a, b, m, n, s, t)
    ensures Pair(was, now, b, a, n, m, t, s) && a in now && b in now
  {}

  lemma PairCopied<T>(was: Cells<T>, now: Cells<T>, a: T, b: T, m: nat, n: nat, s: seq<T>, t: seq<T>)
    requires Pair(was, now, a, b, m, n, s, t)
    ensures Pair(was, Recoloured(Recounted(now, b, now[b].count + 1), b, Black), a, b, m, n + 1, s, t)
  {}

  lemma PairStored<T>(was: Cells<T>, now: Cells<T>, a: T, b: T, m: nat, n: nat, s: seq<T>, t: seq<T>)
    requires Pair(was, now, a, b, m, n, s, t)
    ensures Pair(was, now[a := now[a].(traced := now[a].traced + [b])], a, b, m, n, s + [b], t)
  {}

  lemma PairLet<T>(was: Cells<T>, now: Cells<T>, next: Cells<T>, a: T, b: T, m: nat, n: nat, s: seq<T>, t: seq<T>)
    requires Pair(was, now, a, b, m, n, s, t) && m > 0 && SameCountsAndLinks(Recounted(now, a, now[a].count - 1), next)
    ensures Pair(was, next, a, b, m - 1, n, s, t)
  {}

  lemma PairMade<T>(was: Cells<T>, one: Cells<T>, now: Cells<T>, a: T, b: T)
    requires a != b && a !in was && b !in was && one.Keys == was.Keys + {a} && now.Keys == one.Keys + {b}
    requires (forall o | o in was :: one[o] == was[o]) && (forall o | o in one :: now[o] == one[o])
    requires !one[a].acyclic && one[a].count == 1 && one[a].traced == []
    requires !now[b].acyclic && now[b].count == 1 && now[b].traced == []
    ensures Pair(was, now, a, b, 1, 1, [], [])
  {}

  method MakePair<T(==, !new)>(c: CycleCollector<T>, a: T, b: T)
    requires c.Valid() && a != b && a !in c.cells && b !in c.cells
    modifies c
    ensures c.Valid() && c.heap.outside == old(c.heap.outside) + multiset{a, b}
    ensures Pair(old(c.cells), c.cells, a, b, 1, 1, [], [])
  {
    hide ThreadHeap.Balanced, ThreadHeap.Accounted, Pair;
    c.Make(a, false);
    ghost var one := c.cells;
    c.Make(b, false);
    PairMade(old(c.cells), one, c.cells, a, b);
  }

  /** The first of the two comes to hold a reference to the second. */
  method Refer<T(==, !new)>(c: CycleCollector<T>, a: T, b: T, ghost was: Cells<T>, ghost m: nat, ghost n: nat,
            ghost s: seq<T>, ghost t: seq<T>)
    requires c.Valid() && Pair(was, c.cells, a, b, m, n, s, t) && multiset{a, b} <= c.heap.outside
    modifies c
    ensures c.Valid() && c.heap.outside == old(c.heap.outside)
    ensures Pair(was, c.cells, a, b, m, n + 1, s + [b], t)
  {
    hide ThreadHeap.Balanced, ThreadHeap.Accounted, Extends;
    PairCopied(was, c.cells, a, b, m, n, s, t);
    PairTurned(was, c.cells, a, b, m, n, s, t);
    c.Copy(b);
    PairStored(was, c.cells, a, b, m, n + 1, s, t);
    c.Store(a, b);
  }

  method LetGo<T(==, !new)>(c: CycleCollector<T>, a: T, b: T, ghost was: Cells<T>, ghost m: nat, ghost n: nat,
            ghost s: seq<T>, ghost t: seq<T>)
    requires c.Valid() && Pair(was, c.cells, a, b, m, n, s, t) && m > 1 && a in c.heap.outside
    modifies c
    ensures c.Valid() && c.heap.outside == old(c.heap.outside) - multiset{a}
    ensures Pair(was, c.cells, a, b, m - 1, n, s, t)
  {
    hide ThreadHeap.Balanced, ThreadHeap.Accounted, Extends, SurvivorsKeepLinks, SameCountsAndLinks, Snapshot.Ok, Snapshot.Reachable;
    ghost var now := c.cells;
    c.Let(a);
    PairLet(was, now, c.cells, a, b, m, n, s, t);
  }

  lemma RingIsLetGo<T>(was: ThreadHeap<T>, now: ThreadHeap<T>, a: T, b: T)
    requires was.Balanced({}) && now.Balanced({}) && a != b && Extends(was.cells, now.cells, a, b)
    requires now.heap.outside == was.heap.outside
    ensures now.liveCount == |was.cells| + 2 && now.heap.Ok()
    ensures a in now.cells && b in now.cells && a !in now.heap.Reachable() && b !in now.heap.Reachable()
  {
    CountedCells(now);
    TwoMore(was.cells, now.cells, a, b);
    RingIsUnreachable(was, now, a, b);
    hide ThreadHeap.Balanced, Snapshot.Reachable;
  }

  lemma LetBoth<T>(outside: multiset<T>, a: T, b: T)
    ensures outside + multiset{a, b} - multiset{b} - multiset{a} == outside
    ensures multiset{a, b} <= outside + multiset{a, b} && multiset{b, a} <= outside + multiset{a, b}
    ensures b in outside + multiset{a, b} && a in outside + multiset{a, b} - multiset{b}
  {
    Two(a, b);
    Two(b, a);
    var first, second := multiset{a}, multiset{b};
    AddedAndTaken(outside, first, second);
    assert a in first && b in second;
  }

  lemma Two<T>(a: T, b: T)
    ensures multiset{a, b} == multiset{a} + multiset{b}
  {}

  lemma AddedAndTaken<T>(outside: multiset<T>, first: multiset<T>, second: multiset<T>)
    ensures outside + (first + second) - second == outside + first && outside + first - first == outside
    ensures first + second <= outside + (first + second) && second + first == first + second
  {}

  lemma PairExtends<T>(was: Cells<T>, now: Cells<T>, a: T, b: T, m: nat, n: nat, s: seq<T>, t: seq<T>)
    requires Pair(was, now, a, b, m, n, s, t)
    ensures Extends(was, now, a, b)
  {}

  lemma CollectedOutside<T>(was: ThreadHeap<T>, now: ThreadHeap<T>, W: set<T>)
    requires Collected(was, now, W)
    ensures now.heap.outside == was.heap.outside
  {}

  lemma AsBefore<T>(was: Cells<T>, ring: Cells<T>, now: Cells<T>, a: T, b: T)
    requires Extends(was, ring, a, b) && now.Keys <= ring.Keys - {a, b}
    ensures now.Keys <= was.Keys
  {}

  /** Makes a ring of two and lets it go. `live` is the number of objects then: dropping
      the references has freed neither. The collection that follows frees both. */
  method CollectRing<T(==, !new)>(c: CycleCollector<T>, a: T, b: T) returns (live: nat, reclaimed: nat)
    requires c.Valid() && c.fullyTraced && a != b && a !in c.cells && b !in c.cells
    modifies c
    ensures c.Valid() && c.heap.outside == old(c.heap.outside)
    ensures live == |old(c.cells)| + 2 && reclaimed >= 2
    ensures c.cells.Keys <= old(c.cells.Keys)
  {
    hide ThreadHeap.Balanced, ThreadHeap.Accounted, Condemned, Collected, Snapshot.Reachable, Snapshot.Ok, Extends, Pair;
    ghost var was := c.Now();
    LetBoth(was.heap.outside, a, b);
    MakePair(c, a, b);
    Refer(c, a, b, was.cells, 1, 1, [], []);
    PairTurned(was.cells, c.cells, a, b, 1, 2, [] + [b], []);
    Refer(c, b, a, was.cells, 2, 1, [], [] + [b]);
    LetGo(c, b, a, was.cells, 2, 2, [] + [a], [] + [b]);
    PairTurned(was.cells, c.cells, b, a, 1, 2, [] + [a], [] + [b]);
    LetGo(c, a, b, was.cells, 2, 1, [] + [b], [] + [a]);
    PairExtends(was.cells, c.cells, a, b, 1, 1, [] + [b], [] + [a]);
    ghost var ring := c.Now();
    live := c.liveCount;
    RingIsLetGo(was, ring, a, b);
    ghost var W;
    reclaimed, W := c.Collect();
    BothReclaimed(ring, c.Now(), W, a, b);
    AsBefore(was.cells, ring.cells, c.cells, a, b);
    CollectedOutside(ring, c.Now(), W);
  }
}
