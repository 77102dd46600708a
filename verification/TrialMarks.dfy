/** The counts and colours of the objects while a collection is under way, and what
    each elementary step of marking, scanning and gathering does to them.

    `base` is the heap as the collection found it. A collection changes counts and
    colours only, and at each moment both are determined by a few sets of objects.
 */
module TrialMarks {
  import opened Graphs
  import opened TrialDeletion
  import opened CountedObjects

  /** The edges leaving `S` have been taken away, and besides `minus` references
      have been taken away and `plus` given back. */
  ghost predicate Tally<T>(cells: Cells<T>, base: Cells<T>, S: set<T>, plus: multiset<T>, minus: multiset<T>) {
    && cells.Keys == base.Keys && S <= base.Keys
    && forall o | o in cells ::
         cells[o].count + Targets(Reported(base), S)[o] + minus[o] == base[o].count + plus[o]
  }

  /** The objects of the three sets are painted, black over white over grey; the
      others keep their colour, and nothing else differs. */
  ghost predicate Painted<T>(cells: Cells<T>, base: Cells<T>, grey: set<T>, white: set<T>, black: set<T>) {
    && cells.Keys == base.Keys
    && forall o | o in cells :: cells[o] == base[o].(
         count := cells[o].count,
         colour := if o in black then Black else if o in white then White else if o in grey then Grey else base[o].colour)
  }

  /** A heap a collection may start from: nothing is buffered any more, and the counts
      are at least what is reported. */
  ghost predicate Startable<T>(base: Cells<T>) {
    && Bounded(Reported(base), CountsOf(base))
    && WellFormed(Reported(base))
    && forall o | o in base :: !base[o].buffered && base[o].colour in {Black, Purple}
  }

  /** `list` lists the objects of `S`, each once. */
  ghost predicate Lists<T>(list: seq<T>, S: set<T>) {
    && S == (set o | o in list)
    && |S| == |list|
  }

  lemma {:induction false} ListsPop<T>(list: seq<T>, S: set<T>)
    requires Lists(list, S) && list != []
    ensures list[|list| - 1] in S
    ensures Lists(list[..|list| - 1], S - {list[|list| - 1]})
  {
    var init, last := list[..|list| - 1], list[|list| - 1];
    assert list == init + [last];
    var I := set o | o in init;
    assert S == I + {last};
    SetOfSeqSize(init);
    assert last in I ==> I + {last} == I;
    assert S - {last} == I;
  }

  lemma {:induction false} ListsPush<T>(list: seq<T>, S: set<T>, o: T)
    requires Lists(list, S) && o !in S
    ensures Lists(list + [o], S + {o})
  {
    assert (set x | x in list + [o]) == S + {o};
  }

  lemma {:induction false} ListsSize<T>(list: seq<T>, S: set<T>)
    requires Lists(list, S)
    ensures |list| == |S|
  {}

  lemma {:induction false} SetOfSeqSize<T>(s: seq<T>)
    ensures |set o | o in s| <= |s|
    decreases |s|
  {
    if s != [] {
      var init := s[..|s| - 1];
      SetOfSeqSize(init);
      assert s == init + [s[|s| - 1]];
      assert (set o | o in s) == (set o | o in init) + {s[|s| - 1]};
    }
  }

  /** The stack of a walk holds what it has found and not yet processed, each once. */
  ghost predicate Worklist<T>(pending: seq<T>, found: set<T>, done: set<T>) {
    done <= found && Lists(pending, found - done)
  }

  lemma {:induction false} StartWorklist<T>(done: set<T>, o: T)
    requires o !in done
    ensures Worklist([o], done + {o}, done)
  {
    assert done + {o} - done == {o};
    assert (set x | x in [o]) == {o};
  }

  lemma {:induction false} PopWorklist<T>(pending: seq<T>, found: set<T>, done: set<T>)
    requires Worklist(pending, found, done) && pending != []
    ensures var o := pending[|pending| - 1];
            o in found && o !in done && Worklist(pending[..|pending| - 1], found, done + {o})
  {
    var o := pending[|pending| - 1];
    ListsPop(pending, found - done);
    assert found - done - {o} == found - (done + {o});
  }

  lemma {:induction false} EndWorklist<T>(found: set<T>, done: set<T>)
    requires Worklist([], found, done)
    ensures found == done
  {
    assert found - done == {};
  }

  /** Whether or not an object is new, the worklist stays what is found and not done. */
  lemma {:induction false} Enlist<T>(pending: seq<T>, found: set<T>, done: set<T>, o: T)
    requires Worklist(pending, found, done)
    ensures o in found ==> Worklist(pending, found + {o}, done)
    ensures o !in found ==> Worklist(pending + [o], found + {o}, done)
  {
    if o in found {
      assert found + {o} == found;
    } else {
      ListsPush(pending, found - done, o);
      assert found + {o} - done == found - done + {o};
    }
  }

  /** The first `i` elements, counted. */
  ghost function Prefix<T>(s: seq<T>, i: nat): multiset<T>
    requires i <= |s|
  {
    multiset(s[..i])
  }

  lemma {:induction false} PrefixNone<T>(s: seq<T>)
    ensures Prefix(s, 0) == multiset{}
  {}

  lemma {:induction false} PrefixMore<T>(s: seq<T>, i: nat)
    requires i < |s|
    ensures Prefix(s, i + 1) == Prefix(s, i) + multiset{s[i]}
  {
    PrefixStep(s, i);
  }

  lemma {:induction false} PrefixAll<T>(s: seq<T>)
    ensures Prefix(s, |s|) == multiset(s)
  {
    assert s[..|s|] == s;
  }

  /** The first `i` elements are all in `S`. */
  ghost predicate Within<T>(s: seq<T>, i: nat, S: set<T>) {
    i <= |s| && forall k | 0 <= k < i :: s[k] in S
  }

  lemma {:induction false} WithinNone<T>(s: seq<T>, S: set<T>)
    ensures Within(s, 0, S)
  {}

  lemma {:induction false} WithinStep<T>(s: seq<T>, i: nat, S: set<T>)
    requires Within(s, i, S) && i < |s|
    ensures Within(s, i + 1, S + {s[i]})
  {}

  lemma OneElement<T>(c: T)
    ensures multiset{c}[c] == 1 && forall o | o != c :: multiset{c}[o] == 0
  {}

  lemma {:induction false} TallyMinus<T>(cells: Cells<T>, base: Cells<T>, S: set<T>, minus: multiset<T>, c: T)
    requires Tally(cells, base, S, multiset{}, minus) && c in cells && cells[c].count > 0
    ensures Tally(Recounted(cells, c, cells[c].count - 1), base, S, multiset{}, minus + multiset{c})
  {
    hide Targets;
    OneElement(c);
    var now, one, edges := Recounted(cells, c, cells[c].count - 1), multiset{c}, Targets(Reported(base), S);
    hide Reported;
    assert now.Keys == cells.Keys;
    assert forall o | o in cells && o != c :: now[o] == cells[o] && (minus + one)[o] == minus[o];
    assert (minus + one)[c] == minus[c] + 1 && now[c].count + 1 == cells[c].count;
    assert forall o | o in now :: now[o].count + edges[o] + (minus + one)[o] == base[o].count;
  }

  lemma {:induction false} TallyPlus<T>(cells: Cells<T>, base: Cells<T>, S: set<T>, plus: multiset<T>, c: T)
    requires Tally(cells, base, S, plus, multiset{}) && c in cells
    ensures Tally(Recounted(cells, c, cells[c].count + 1), base, S, plus + multiset{c}, multiset{})
  {
    hide Targets, Reported;
    OneElement(c);
    var now, one := Recounted(cells, c, cells[c].count + 1), multiset{c};
    assert now.Keys == cells.Keys;
    assert forall o | o in cells && o != c :: now[o] == cells[o] && (plus + one)[o] == plus[o];
    assert (plus + one)[c] == plus[c] + 1 && now[c].count == cells[c].count + 1;
  }

  lemma {:induction false} TallyRecolour<T>(cells: Cells<T>, base: Cells<T>, S: set<T>, plus: multiset<T>,
            minus: multiset<T>, o: T, colour: RefColour)
    requires Tally(cells, base, S, plus, minus) && o in cells
    ensures Tally(Recoloured(cells, o, colour), base, S, plus, minus)
  {}

  lemma {:induction false} PaintRecount<T>(cells: Cells<T>, base: Cells<T>, grey: set<T>, white: set<T>,
            black: set<T>, o: T, n: nat)
    requires Painted(cells, base, grey, white, black) && o in cells
    ensures Painted(Recounted(cells, o, n), base, grey, white, black)
  {}

  lemma {:induction false} PaintGrey<T>(cells: Cells<T>, base: Cells<T>, grey: set<T>, o: T)
    requires Painted(cells, base, grey, {}, {}) && o in cells
    ensures Painted(Recoloured(cells, o, Grey), base, grey + {o}, {}, {})
  {}

  lemma {:induction false} PaintWhite<T>(cells: Cells<T>, base: Cells<T>, grey: set<T>, white: set<T>, black: set<T>,
            o: T)
    requires Painted(cells, base, grey, white, black) && o in cells && o !in black
    ensures Painted(Recoloured(cells, o, White), base, grey, white + {o}, black)
  {}

  lemma {:induction false} PaintBlack<T>(cells: Cells<T>, base: Cells<T>, grey: set<T>, white: set<T>, black: set<T>,
            o: T)
    requires Painted(cells, base, grey, white, black) && o in cells
    ensures Painted(Recoloured(cells, o, Black), base, grey, white, black + {o})
  {}

  /** The colour of an object tells which set it is in. */
  lemma {:induction false} ColourOf<T>(cells: Cells<T>, base: Cells<T>, grey: set<T>, white: set<T>, black: set<T>,
            o: T)
    requires Startable(base) && Painted(cells, base, grey, white, black) && o in cells
    ensures cells[o].traced == base[o].traced && cells[o].buffered == base[o].buffered == false
    ensures cells[o].colour == Grey <==> o in grey - white - black
    ensures cells[o].colour == White <==> o in white - black
    ensures o in black ==> cells[o].colour == Black
    ensures o in grey + white + black ==> (cells[o].colour == Black <==> o in black)
  {}

  /** The edges of `o` have been taken away one by one, or given back one by one. */
  lemma {:induction false} TallyTaken<T>(cells: Cells<T>, base: Cells<T>, S: set<T>, o: T)
    requires o in base && o !in S && Tally(cells, base, S, multiset{}, Prefix(base[o].traced, |base[o].traced|))
    ensures Tally(cells, base, S + {o}, multiset{}, multiset{})
  {
    PrefixAll(base[o].traced);
    TargetsAdd(Reported(base), S, o);
  }

  lemma {:induction false} TallyGiven<T>(cells: Cells<T>, base: Cells<T>, S: set<T>, o: T)
    requires o in base && o in S && Tally(cells, base, S, Prefix(base[o].traced, |base[o].traced|), multiset{})
    ensures Tally(cells, base, S - {o}, multiset{}, multiset{})
  {
    PrefixAll(base[o].traced);
    TargetsRemove(Reported(base), S, o);
  }

  ghost predicate PointInto<T>(base: Cells<T>, S: set<T>, within: set<T>) {
    S <= base.Keys && forall s, c {:trigger c in base[s].traced} | s in S && c in base[s].traced :: c in within
  }

  lemma {:induction false} PointIntoClosed<T>(base: Cells<T>, S: set<T>)
    requires WellFormed(Reported(base))
    ensures Closed(Reported(base), S) <==> PointInto(base, S, S)
  {
    if Closed(Reported(base), S) {
      forall s, c {:trigger c in base[s].traced} | s in S && c in base[s].traced ensures c in S {
        assert c in Reported(base)[s];
      }
    }
    if PointInto(base, S, S) {
      forall s, c {:trigger c in Reported(base)[s]} | s in S && c in Reported(base)[s] ensures c in S {
        assert c in base[s].traced;
      }
    }
  }

  lemma {:induction false} PointIntoAdd<T>(base: Cells<T>, S: set<T>, within: set<T>, within': set<T>, o: T)
    requires PointInto(base, S, within) && within <= within' && o in base
    requires Within(base[o].traced, |base[o].traced|, within')
    ensures PointInto(base, S + {o}, within')
  {}

  lemma {:induction false} ReachesSuccessor<T>(base: Cells<T>, start: set<T>, o: T, c: T)
    requires Startable(base) && start <= base.Keys
    requires o in Closure(Reported(base), start) && c in base[o].traced
    ensures c in Closure(Reported(base), start)
  {
    assert c in Reported(base)[o];
  }

  /** Marking grey: `start` is what must end up grey, `done` is grey and its edges are
      taken away, `minus` counts the edges of the object being processed. */
  ghost predicate Marking<T>(cells: Cells<T>, base: Cells<T>, start: set<T>, done: set<T>, grey: set<T>,
            minus: multiset<T>) {
    && Startable(base)
    && start <= grey && done <= grey && grey <= base.Keys
    && grey <= Closure(Reported(base), start)
    && Tally(cells, base, done, multiset{}, minus)
    && Painted(cells, base, grey, {}, {})
    && PointInto(base, done, grey)
  }

  /** Everything reachable from the roots so far is grey and its edges are taken away. */
  ghost predicate Marked<T>(cells: Cells<T>, base: Cells<T>, D: set<T>) {
    && Startable(base)
    && Closed(Reported(base), D)
    && Tally(cells, base, D, multiset{}, multiset{})
    && Painted(cells, base, D, {}, {})
  }

  lemma {:induction false} MarkedParts<T>(cells: Cells<T>, base: Cells<T>, D: set<T>)
    requires Marked(cells, base, D)
    ensures Startable(base) && Closed(Reported(base), D) && WellFormed(Reported(base)) && D <= base.Keys
    ensures cells.Keys == base.Keys == Reported(base).Keys
    ensures Tally(cells, base, D, multiset{}, multiset{}) && Painted(cells, base, D, {}, {})
  {}

  lemma {:induction false} StartMarking<T>(cells: Cells<T>, base: Cells<T>, D: set<T>, root: T)
    requires Marked(cells, base, D) && root in base && root in cells
    ensures Marking(Recoloured(cells, root, Grey), base, D + {root}, D, D + {root}, multiset{})
  {
    hide Bounded, Tally, Painted;
    TallyRecolour(cells, base, D, multiset{}, multiset{}, root, Grey);
    PaintGrey(cells, base, D, root);
    PointIntoClosed(base, D);
  }

  /** Following an edge lowers the target's count, and greys it if it is not grey yet. */
  function LessOne<T>(cells: Cells<T>, c: T): Cells<T>
    requires c in cells && cells[c].count > 0
  {
    var less := Recounted(cells, c, cells[c].count - 1);
    if cells[c].colour != Grey then Recoloured(less, c, Grey) else less
  }

  function PlusOne<T>(cells: Cells<T>, c: T): Cells<T>
    requires c in cells
  {
    var more := Recounted(cells, c, cells[c].count + 1);
    if cells[c].colour != Black then Recoloured(more, c, Black) else more
  }

  lemma {:induction false} LessOneIs<T>(cells: Cells<T>, c: T)
    requires c in cells && cells[c].count > 0
    ensures var less := Recounted(cells, c, cells[c].count - 1);
            c in less && less[c].colour == cells[c].colour
            && LessOne(cells, c) == if less[c].colour != Grey then Recoloured(less, c, Grey) else less
  {}

  lemma {:induction false} PlusOneIs<T>(cells: Cells<T>, c: T)
    requires c in cells
    ensures var more := Recounted(cells, c, cells[c].count + 1);
            c in more && more[c].colour == cells[c].colour
            && PlusOne(cells, c) == if more[c].colour != Black then Recoloured(more, c, Black) else more
  {}

  lemma {:induction false} TallyLessOne<T>(cells: Cells<T>, base: Cells<T>, S: set<T>, minus: multiset<T>, c: T)
    requires Tally(cells, base, S, multiset{}, minus) && c in cells && cells[c].count > 0
    ensures Tally(LessOne(cells, c), base, S, multiset{}, minus + multiset{c})
  {
    hide Tally;
    var less := Recounted(cells, c, cells[c].count - 1);
    TallyMinus(cells, base, S, minus, c);
    TallyRecolour(less, base, S, multiset{}, minus + multiset{c}, c, Grey);
  }

  lemma {:induction false} PaintLessOne<T>(cells: Cells<T>, base: Cells<T>, grey: set<T>, c: T)
    requires Startable(base) && Painted(cells, base, grey, {}, {}) && c in cells && cells[c].count > 0
    ensures cells[c].colour == Grey <==> c in grey
    ensures Painted(LessOne(cells, c), base, grey + {c}, {}, {})
  {
    hide Painted, Startable;
    var less := Recounted(cells, c, cells[c].count - 1);
    ColourOf(cells, base, grey, {}, {}, c);
    PaintRecount(cells, base, grey, {}, {}, c, cells[c].count - 1);
    if cells[c].colour != Grey {
      PaintGrey(less, base, grey, c);
    } else {
      assert grey + {c} == grey;
    }
  }

  lemma {:induction false} TallyPlusOne<T>(cells: Cells<T>, base: Cells<T>, S: set<T>, plus: multiset<T>, c: T)
    requires Tally(cells, base, S, plus, multiset{}) && c in cells
    ensures Tally(PlusOne(cells, c), base, S, plus + multiset{c}, multiset{})
  {
    hide Tally;
    var more := Recounted(cells, c, cells[c].count + 1);
    TallyPlus(cells, base, S, plus, c);
    TallyRecolour(more, base, S, plus + multiset{c}, multiset{}, c, Black);
  }

  lemma {:induction false} PaintPlusOne<T>(cells: Cells<T>, base: Cells<T>, grey: set<T>, white: set<T>,
            black: set<T>, c: T)
    requires Startable(base) && Painted(cells, base, grey, white, black) && c in cells && c in grey
    ensures cells[c].colour == Black <==> c in black
    ensures Painted(PlusOne(cells, c), base, grey, white, black + {c})
  {
    hide Painted, Startable;
    var more := Recounted(cells, c, cells[c].count + 1);
    ColourOf(cells, base, grey, white, black, c);
    PaintRecount(cells, base, grey, white, black, c, cells[c].count + 1);
    if cells[c].colour != Black {
      PaintBlack(more, base, grey, white, black, c);
    } else {
      assert black + {c} == black;
    }
  }

  /** The next edge of `o` can be taken away, and its target becomes grey. */
  lemma {:induction false} MarkChild<T>(cells: Cells<T>, base: Cells<T>, start: set<T>, done: set<T>, grey: set<T>,
            o: T, i: nat)
    requires o in base && i < |base[o].traced|
    requires Marking(cells, base, start, done, grey, Prefix(base[o].traced, i)) && o in grey - done
    ensures var c := base[o].traced[i];
            && c in cells && cells[c].count > 0
            && (cells[c].colour == Grey <==> c in grey)
            && Marking(LessOne(cells, c), base, start, done, grey + {c}, Prefix(base[o].traced, i + 1))
  {
    hide *;
    var c := base[o].traced[i];
    var minus := Prefix(base[o].traced, i);
    MarkingParts(cells, base, start, done, grey, minus);
    ReachesSuccessor(base, start, o, c);
    ChildIsCounted(cells, base, done, o, i);
    PrefixMore(base[o].traced, i);
    TallyLessOne(cells, base, done, minus, c);
    PaintLessOne(cells, base, grey, c);
    PointIntoWiden(base, done, grey, grey + {c});
    MakeMarking(LessOne(cells, c), base, start, done, grey + {c}, Prefix(base[o].traced, i + 1));
  }

  lemma {:induction false} MarkingParts<T>(cells: Cells<T>, base: Cells<T>, start: set<T>, done: set<T>, grey: set<T>,
            minus: multiset<T>)
    requires Marking(cells, base, start, done, grey, minus)
    ensures Startable(base) && start <= grey && done <= grey && grey <= base.Keys
    ensures WellFormed(Reported(base)) && start <= Reported(base).Keys && grey <= Closure(Reported(base), start)
    ensures Tally(cells, base, done, multiset{}, minus) && Painted(cells, base, grey, {}, {}) && PointInto(base, done, grey)
  {}

  lemma {:induction false} MakeMarking<T>(cells: Cells<T>, base: Cells<T>, start: set<T>, done: set<T>, grey: set<T>,
            minus: multiset<T>)
    requires Startable(base) && start <= grey && done <= grey && grey <= base.Keys
    requires WellFormed(Reported(base)) && start <= Reported(base).Keys && grey <= Closure(Reported(base), start)
    requires Tally(cells, base, done, multiset{}, minus) && Painted(cells, base, grey, {}, {}) && PointInto(base, done, grey)
    ensures Marking(cells, base, start, done, grey, minus)
  {}

  lemma {:induction false} PointIntoWiden<T>(base: Cells<T>, S: set<T>, within: set<T>, within': set<T>)
    requires PointInto(base, S, within) && within <= within'
    ensures PointInto(base, S, within')
  {}

  lemma {:induction false} ChildIsCounted<T>(cells: Cells<T>, base: Cells<T>, done: set<T>, o: T, i: nat)
    requires o in base && i < |base[o].traced| && o !in done
    requires Startable(base)
    requires Tally(cells, base, done, multiset{}, Prefix(base[o].traced, i))
    ensures base[o].traced[i] in base && base[o].traced[i] in cells && cells[base[o].traced[i]].count > 0
  {
    hide Bounded;
    OneMoreIsCounted(Reported(base), CountsOf(base), done, o, i);
  }

  /** All edges of `o` are taken away, and all its children are grey. */
  lemma {:induction false} MarkedObject<T>(cells: Cells<T>, base: Cells<T>, start: set<T>, done: set<T>, grey: set<T>,
            o: T)
    requires o in base && o in grey - done
    requires Marking(cells, base, start, done, grey, Prefix(base[o].traced, |base[o].traced|))
    requires Within(base[o].traced, |base[o].traced|, grey)
    ensures Marking(cells, base, start, done + {o}, grey, multiset{})
  {
    hide Painted, Bounded;
    TallyTaken(cells, base, done, o);
    PointIntoAdd(base, done, grey, grey, o);
  }

  lemma {:induction false} EndMarking<T>(cells: Cells<T>, base: Cells<T>, start: set<T>, done: set<T>)
    requires Marking(cells, base, start, done, done, multiset{})
    ensures done == Closure(Reported(base), start) && Marked(cells, base, done)
  {
    hide Painted, Tally, Bounded;
    PointIntoClosed(base, done);
    hide PointInto, Closed;
    ClosureIsLeast(Reported(base), start, done);
  }

  /** Giving back: the edges of `done` are given back, `black` is black and is on its
      way to the closure of `start`; the rest of `D` is as the scan left it. */
  ghost predicate Blackening<T>(cells: Cells<T>, base: Cells<T>, D: set<T>, W: set<T>, start: set<T>, done: set<T>,
            black: set<T>, plus: multiset<T>) {
    && Startable(base)
    && Closed(Reported(base), D)
    && start <= black && done <= black && black <= D
    && black <= Closure(Reported(base), start)
    && Tally(cells, base, D - done, plus, multiset{})
    && Painted(cells, base, D, W, black)
    && PointInto(base, done, black)
  }

  /** The scan has turned `B` black and `W` white; the rest of `D` is grey. */
  ghost predicate Scanning<T>(cells: Cells<T>, base: Cells<T>, D: set<T>, B: set<T>, W: set<T>) {
    && Startable(base)
    && Scanned(Reported(base), CountsOf(base), D, B, W)
    && Tally(cells, base, D - B, multiset{}, multiset{})
    && Painted(cells, base, D, W, B)
  }

  lemma {:induction false} BlackeningParts<T>(cells: Cells<T>, base: Cells<T>, D: set<T>, W: set<T>, start: set<T>,
            done: set<T>, black: set<T>, plus: multiset<T>)
    requires Blackening(cells, base, D, W, start, done, black, plus)
    ensures Startable(base) && start <= black && done <= black && black <= D && D <= base.Keys
    ensures Closed(Reported(base), D)
    ensures WellFormed(Reported(base)) && start <= Reported(base).Keys && black <= Closure(Reported(base), start)
    ensures Tally(cells, base, D - done, plus, multiset{}) && Painted(cells, base, D, W, black) && PointInto(base, done, black)
  {}

  lemma {:induction false} MakeBlackening<T>(cells: Cells<T>, base: Cells<T>, D: set<T>, W: set<T>, start: set<T>,
            done: set<T>, black: set<T>, plus: multiset<T>)
    requires Startable(base) && start <= black && done <= black && black <= D
    requires Closed(Reported(base), D)
    requires WellFormed(Reported(base)) && start <= Reported(base).Keys && black <= Closure(Reported(base), start)
    requires Tally(cells, base, D - done, plus, multiset{}) && Painted(cells, base, D, W, black) && PointInto(base, done, black)
    ensures Blackening(cells, base, D, W, start, done, black, plus)
  {}

  lemma {:induction false} ScanningParts<T>(cells: Cells<T>, base: Cells<T>, D: set<T>, B: set<T>, W: set<T>)
    requires Scanning(cells, base, D, B, W)
    ensures Startable(base) && Scanned(Reported(base), CountsOf(base), D, B, W)
    ensures Closed(Reported(base), D) && Closed(Reported(base), B) && B + W <= D <= base.Keys && B !! W
    ensures cells.Keys == base.Keys && WellFormed(Reported(base)) && D <= Reported(base).Keys
    ensures Tally(cells, base, D - B, multiset{}, multiset{}) && Painted(cells, base, D, W, B)
  {}

  lemma {:induction false} MakeScanning<T>(cells: Cells<T>, base: Cells<T>, D: set<T>, B: set<T>, W: set<T>)
    requires Startable(base) && Scanned(Reported(base), CountsOf(base), D, B, W)
    requires Tally(cells, base, D - B, multiset{}, multiset{}) && Painted(cells, base, D, W, B)
    ensures Scanning(cells, base, D, B, W)
  {}

  /** A closed set keeps every target of its edges. */
  lemma {:induction false} ClosedTarget<T>(base: Cells<T>, D: set<T>, o: T, c: T)
    requires Closed(Reported(base), D) && o in D && o in base && c in base[o].traced
    ensures c in D
  {
    assert c in Reported(base)[o];
  }

  /** After marking, everything examined is grey, and the scan can begin. */
  lemma {:induction false} StartScanning<T>(cells: Cells<T>, base: Cells<T>, D: set<T>)
    requires Marked(cells, base, D)
    ensures Scanning(cells, base, D, {}, {})
  {
    hide Tally, Painted;
    assert D - {} == D;
  }

  lemma {:induction false} StartBlackening<T>(cells: Cells<T>, base: Cells<T>, D: set<T>, B: set<T>, W: set<T>, root: T)
    requires Scanning(cells, base, D, B, W) && root in D && root in cells
    ensures Blackening(Recoloured(cells, root, Black), base, D, W, B + {root}, B, B + {root}, multiset{})
  {
    hide *;
    ScanningParts(cells, base, D, B, W);
    TallyRecolour(cells, base, D - B, multiset{}, multiset{}, root, Black);
    PaintBlack(cells, base, D, W, B, root);
    PointIntoClosed(base, B);
    PointIntoWiden(base, B, B, B + {root});
    MakeBlackening(Recoloured(cells, root, Black), base, D, W, B + {root}, B, B + {root}, multiset{});
  }

  lemma {:induction false} BlackenChild<T>(cells: Cells<T>, base: Cells<T>, D: set<T>, W: set<T>, start: set<T>,
            done: set<T>, black: set<T>, o: T, i: nat)
    requires o in base && i < |base[o].traced|
    requires Blackening(cells, base, D, W, start, done, black, Prefix(base[o].traced, i)) && o in black - done
    ensures var c := base[o].traced[i];
            && c in cells && c in D
            && (cells[c].colour == Black <==> c in black)
            && Blackening(PlusOne(cells, c), base, D, W, start, done, black + {c}, Prefix(base[o].traced, i + 1))
  {
    hide *;
    var c := base[o].traced[i];
    var plus := Prefix(base[o].traced, i);
    BlackeningParts(cells, base, D, W, start, done, black, plus);
    ReachesSuccessor(base, start, o, c);
    ClosedTarget(base, D, o, c);
    TallyKeys(cells, base, D - done, plus, multiset{});
    PrefixMore(base[o].traced, i);
    TallyPlusOne(cells, base, D - done, plus, c);
    PaintPlusOne(cells, base, D, W, black, c);
    PointIntoWiden(base, done, black, black + {c});
    MakeBlackening(PlusOne(cells, c), base, D, W, start, done, black + {c}, Prefix(base[o].traced, i + 1));
  }

  lemma {:induction false} TallyKeys<T>(cells: Cells<T>, base: Cells<T>, S: set<T>, plus: multiset<T>,
            minus: multiset<T>)
    requires Tally(cells, base, S, plus, minus)
    ensures cells.Keys == base.Keys
  {}

  lemma {:induction false} BlackenedObject<T>(cells: Cells<T>, base: Cells<T>, D: set<T>, W: set<T>, start: set<T>,
            done: set<T>, black: set<T>, o: T)
    requires o in base && o in black - done
    requires Blackening(cells, base, D, W, start, done, black, Prefix(base[o].traced, |base[o].traced|))
    requires Within(base[o].traced, |base[o].traced|, black)
    ensures Blackening(cells, base, D, W, start, done + {o}, black, multiset{})
  {
    hide *;
    BlackeningParts(cells, base, D, W, start, done, black, Prefix(base[o].traced, |base[o].traced|));
    TallyGiven(cells, base, D - done, o);
    assert D - done - {o} == D - (done + {o});
    PointIntoAdd(base, done, black, black, o);
    MakeBlackening(cells, base, D, W, start, done + {o}, black, multiset{});
  }

  /** Once an object with a positive trial count and all it reaches are black, the
      scan goes on from there; what was white by mistake no longer is. */
  lemma {:induction false} EndBlackening<T>(was: Cells<T>, cells: Cells<T>, base: Cells<T>, D: set<T>, B: set<T>,
            W: set<T>, root: T, done: set<T>)
    requires Scanning(was, base, D, B, W) && root in was
    requires root in D && root !in B && root !in W && was[root].count > 0
    requires Blackening(cells, base, D, W, B + {root}, done, done, multiset{})
    ensures Scanning(cells, base, D, done, W - done) && B <= done && root in done
  {
    hide Tally, Painted, Startable, Scanned, Trial, Scanning;
    ScanningParts(was, base, D, B, W);
    TrialIsCount(was, base, D - B, root);
    BlackeningParts(cells, base, D, W, B + {root}, done, done, multiset{});
    PointIntoClosed(base, done);
    ClosureIsLeast(Reported(base), B + {root}, done);
    assert done == Closure(Reported(base), B + {root});
    Blacken(Reported(base), CountsOf(base), D, B, W, root);
    PaintOver(cells, base, D, W, done);
    MakeScanning(cells, base, D, done, W - done);
  }

  lemma {:induction false} PaintOver<T>(cells: Cells<T>, base: Cells<T>, grey: set<T>, white: set<T>, black: set<T>)
    requires Painted(cells, base, grey, white, black)
    ensures Painted(cells, base, grey, white - black, black)
  {}

  /** A grey object whose trial count is zero can be turned white. */
  lemma {:induction false} Whiten<T>(cells: Cells<T>, base: Cells<T>, D: set<T>, B: set<T>, W: set<T>, o: T)
    requires Scanning(cells, base, D, B, W) && o in D - B - W && o in cells && cells[o].count == 0
    ensures Scanning(Recoloured(cells, o, White), base, D, B, W + {o})
  {
    hide *;
    ScanningParts(cells, base, D, B, W);
    TrialIsCount(cells, base, D - B, o);
    ScannedWhite(Reported(base), CountsOf(base), D, B, W, o);
    TallyRecolour(cells, base, D - B, multiset{}, multiset{}, o, White);
    PaintWhite(cells, base, D, W, B, o);
    MakeScanning(Recoloured(cells, o, White), base, D, B, W + {o});
  }

  lemma {:induction false} TrialIsCount<T>(cells: Cells<T>, base: Cells<T>, S: set<T>, o: T)
    requires Tally(cells, base, S, multiset{}, multiset{}) && o in cells
    ensures Trial(Reported(base), CountsOf(base), S, o) == cells[o].count
  {}

  lemma {:induction false} ScannedWhite<T>(g: Graph<T>, rc: Counts<T>, D: set<T>, B: set<T>, W: set<T>, o: T)
    requires Scanned(g, rc, D, B, W) && o in D - B - W && Trial(g, rc, D - B, o) == 0
    ensures Scanned(g, rc, D, B, W + {o})
  {}

  /** Everything an object of `S` points at is in `S` or waits on the stack. */
  ghost predicate Frontier<T>(base: Cells<T>, D: set<T>, S: set<T>, pending: seq<T>) {
    && D <= base.Keys
    && (forall c | c in pending :: c in D)
    && S <= D
    && forall s, c {:trigger c in base[s].traced} | s in S && c in base[s].traced :: c in S || c in pending
  }

  lemma {:induction false} FrontierStart<T>(base: Cells<T>, D: set<T>, S: set<T>, root: T)
    requires Frontier(base, D, S, []) && root in D
    ensures Frontier(base, D, S, [root])
  {}

  /** The object on top has been seen before. */
  lemma {:induction false} FrontierSkip<T>(base: Cells<T>, D: set<T>, S: set<T>, pending: seq<T>)
    requires Frontier(base, D, S, pending) && pending != [] && pending[|pending| - 1] in S
    ensures Frontier(base, D, S, pending[..|pending| - 1])
  {
    assert pending == pending[..|pending| - 1] + [pending[|pending| - 1]];
  }

  /** The object on top is new: its children replace it. */
  lemma {:induction false} FrontierExpand<T>(base: Cells<T>, D: set<T>, S: set<T>, pending: seq<T>, o: T)
    requires Frontier(base, D, S, pending) && pending != [] && o == pending[|pending| - 1]
    requires Closed(Reported(base), D) && o in base
    ensures o in D && Frontier(base, D, S + {o}, pending[..|pending| - 1] + base[o].traced)
  {
    assert pending == pending[..|pending| - 1] + [o];
    forall c | c in base[o].traced ensures c in D {
      ClosedTarget(base, D, o, c);
    }
  }

  /** The object on top and a closed set around it have been seen at once. */
  lemma {:induction false} FrontierAbsorb<T>(base: Cells<T>, D: set<T>, S: set<T>, S': set<T>, pending: seq<T>,
            B: set<T>)
    requires Frontier(base, D, S, pending) && pending != [] && pending[|pending| - 1] in B
    requires PointInto(base, B, B) && S' == S + B && B <= D
    ensures Frontier(base, D, S', pending[..|pending| - 1])
  {
    assert pending == pending[..|pending| - 1] + [pending[|pending| - 1]];
  }

  lemma {:induction false} FrontierEnd<T>(base: Cells<T>, D: set<T>, S: set<T>)
    requires Frontier(base, D, S, [])
    ensures PointInto(base, S, S)
  {}

  /** The scan in progress: `seen` has been decided, `pending` waits. */
  ghost predicate Visiting<T>(cells: Cells<T>, base: Cells<T>, D: set<T>, B: set<T>, W: set<T>, seen: set<T>,
            pending: seq<T>) {
    Scanning(cells, base, D, B, W) && seen == B + W && Frontier(base, D, seen, pending)
  }

  lemma {:induction false} VisitingParts<T>(cells: Cells<T>, base: Cells<T>, D: set<T>, B: set<T>, W: set<T>,
            seen: set<T>, pending: seq<T>)
    requires Visiting(cells, base, D, B, W, seen, pending)
    ensures Scanning(cells, base, D, B, W) && Startable(base) && cells.Keys == base.Keys && D <= base.Keys
    ensures Painted(cells, base, D, W, B) && B !! W && seen <= D
    ensures forall c | c in pending :: c in D
  {}

  lemma {:induction false} VisitNothing<T>(cells: Cells<T>, base: Cells<T>, D: set<T>)
    requires Marked(cells, base, D)
    ensures Visiting(cells, base, D, {}, {}, {}, [])
  {
    MarkedParts(cells, base, D);
    hide Marked, Scanning;
    StartScanning(cells, base, D);
  }

  lemma {:induction false} VisitRoot<T>(cells: Cells<T>, base: Cells<T>, D: set<T>, B: set<T>, W: set<T>,
            seen: set<T>, root: T)
    requires Visiting(cells, base, D, B, W, seen, []) && root in D
    ensures Visiting(cells, base, D, B, W, seen, [root])
  {
    hide Frontier, Scanning;
    FrontierStart(base, D, seen, root);
  }

  /** What the colour of the object on top says. */
  lemma {:induction false} VisitTop<T>(cells: Cells<T>, base: Cells<T>, D: set<T>, B: set<T>, W: set<T>, seen: set<T>,
            pending: seq<T>)
    requires Visiting(cells, base, D, B, W, seen, pending) && pending != []
    ensures var o := pending[|pending| - 1];
            && o in cells && o in base && o in D && cells[o].traced == base[o].traced
            && (cells[o].colour == Grey <==> o !in seen)
            && (o !in seen ==> o !in B && o !in W)
            && (o in seen ==> Visiting(cells, base, D, B, W, seen, pending[..|pending| - 1]))
  {
    VisitingParts(cells, base, D, B, W, seen, pending);
    var o := pending[|pending| - 1];
    assert o in pending;
    hide Frontier, Scanning, Startable, Painted;
    ColourOf(cells, base, D, W, B, o);
    if o in seen {
      FrontierSkip(base, D, seen, pending);
    }
  }

  lemma {:induction false} VisitBlack<T>(was: Cells<T>, cells: Cells<T>, base: Cells<T>, D: set<T>, B: set<T>,
            W: set<T>, B': set<T>, W': set<T>, seen: set<T>, pending: seq<T>)
    requires Visiting(was, base, D, B, W, seen, pending) && pending != [] && pending[|pending| - 1] in B'
    requires Scanning(cells, base, D, B', W') && W' == W - B' && B <= B'
    ensures Visiting(cells, base, D, B', W', seen + B', pending[..|pending| - 1])
  {
    hide Frontier, Scanning;
    ScanningParts(cells, base, D, B', W');
    PointIntoClosed(base, B');
    hide PointInto, Closed, Scanned, Startable, Painted, Tally;
    FrontierAbsorb(base, D, seen, seen + B', pending, B');
  }

  lemma {:induction false} VisitWhite<T>(cells: Cells<T>, base: Cells<T>, D: set<T>, B: set<T>, W: set<T>,
            seen: set<T>, pending: seq<T>, o: T)
    requires Visiting(cells, base, D, B, W, seen, pending) && pending != [] && o == pending[|pending| - 1]
    requires o in cells && o in base && o in D && o !in seen && cells[o].count == 0
    ensures Visiting(Recoloured(cells, o, White), base, D, B, W + {o}, seen + {o}, pending[..|pending| - 1] + base[o].traced)
    ensures o in Recoloured(cells, o, White) && Recoloured(cells, o, White)[o].traced == cells[o].traced
  {
    hide Frontier, Scanning;
    ScanningParts(cells, base, D, B, W);
    Whiten(cells, base, D, B, W, o);
    FrontierExpand(base, D, seen, pending, o);
  }

  /** When the walks from all roots are over, everything examined is decided. */
  lemma {:induction false} VisitedAll<T>(cells: Cells<T>, base: Cells<T>, D: set<T>, B: set<T>, W: set<T>,
            seen: set<T>, roots: set<T>)
    requires Visiting(cells, base, D, B, W, seen, []) && roots <= seen && roots <= Reported(base).Keys
    requires WellFormed(Reported(base)) && D == Closure(Reported(base), roots)
    ensures B + W == D
  {
    FrontierEnd(base, D, seen);
    PointIntoClosed(base, seen);
    ClosureIsLeast(Reported(base), roots, seen);
  }

  /** Gathering: the white objects listed in `garbage` have been turned black again. */
  ghost predicate Gathering<T>(cells: Cells<T>, base: Cells<T>, D: set<T>, B: set<T>, W: set<T>, garbage: seq<T>,
            G: set<T>) {
    && Startable(base)
    && Closed(Reported(base), D) && Closed(Reported(base), B) && B + W == D && B !! W
    && Lists(garbage, G) && G <= W
    && Tally(cells, base, W, multiset{}, multiset{})
    && Painted(cells, base, D, W, B + G)
  }

  lemma {:induction false} StartGathering<T>(cells: Cells<T>, base: Cells<T>, D: set<T>, B: set<T>, W: set<T>)
    requires Scanning(cells, base, D, B, W) && B + W == D
    ensures Gathering(cells, base, D, B, W, [], {})
  {
    hide *;
    ScanningParts(cells, base, D, B, W);
    assert D - B == W && B + {} == B;
    ListsNone<T>();
    MakeGathering(cells, base, D, B, W, [], {});
  }

  lemma {:induction false} ListsNone<T>()
    ensures Lists<T>([], {})
  {}

  lemma {:induction false} GatheringParts<T>(cells: Cells<T>, base: Cells<T>, D: set<T>, B: set<T>, W: set<T>,
            garbage: seq<T>, G: set<T>)
    requires Gathering(cells, base, D, B, W, garbage, G)
    ensures Startable(base) && Closed(Reported(base), D) && Closed(Reported(base), B) && B + W == D <= base.Keys && B !! W
    ensures WellFormed(Reported(base)) && cells.Keys == base.Keys && D <= Reported(base).Keys
    ensures Lists(garbage, G) && G <= W
    ensures Tally(cells, base, W, multiset{}, multiset{}) && Painted(cells, base, D, W, B + G)
  {}

  lemma {:induction false} MakeGathering<T>(cells: Cells<T>, base: Cells<T>, D: set<T>, B: set<T>, W: set<T>,
            garbage: seq<T>, G: set<T>)
    requires Startable(base) && Closed(Reported(base), D) && Closed(Reported(base), B) && B + W == D && B !! W
    requires Lists(garbage, G) && G <= W
    requires Tally(cells, base, W, multiset{}, multiset{}) && Painted(cells, base, D, W, B + G)
    ensures Gathering(cells, base, D, B, W, garbage, G)
  {}

  lemma {:induction false} GatherObject<T>(cells: Cells<T>, base: Cells<T>, D: set<T>, B: set<T>, W: set<T>,
            garbage: seq<T>, G: set<T>, o: T)
    requires Gathering(cells, base, D, B, W, garbage, G) && o in W - G && o in cells
    ensures Gathering(Recoloured(cells, o, Black), base, D, B, W, garbage + [o], G + {o})
  {
    hide *;
    GatheringParts(cells, base, D, B, W, garbage, G);
    TallyRecolour(cells, base, W, multiset{}, multiset{}, o, Black);
    PaintBlack(cells, base, D, W, B + G, o);
    assert B + G + {o} == B + (G + {o});
    ListsPush(garbage, G, o);
    MakeGathering(Recoloured(cells, o, Black), base, D, B, W, garbage + [o], G + {o});
  }

  /** When the white objects found so far, with the black ones, contain the roots and
      lead nowhere else, all white objects have been found. */
  lemma {:induction false} AllGathered<T>(base: Cells<T>, roots: set<T>, B: set<T>, W: set<T>, G: set<T>)
    requires WellFormed(Reported(base)) && roots <= base.Keys
    requires B + W == Closure(Reported(base), roots) && B !! W && G <= W
    requires Closed(Reported(base), B) && PointInto(base, G, B + G) && roots <= B + G
    ensures G == W
  {
    PointIntoClosed(base, B);
    PointIntoClosed(base, B + G);
    assert PointInto(base, B + G, B + G);
    ClosureIsLeast(Reported(base), roots, B + G);
  }

  /** The gathering in progress: `kept` holds what is black for good or gathered. */
  ghost predicate Reaping<T>(cells: Cells<T>, base: Cells<T>, D: set<T>, B: set<T>, W: set<T>, garbage: seq<T>,
            G: set<T>, kept: set<T>, pending: seq<T>) {
    Gathering(cells, base, D, B, W, garbage, G) && kept == B + G && Frontier(base, D, kept, pending)
  }

  lemma {:induction false} ReapNothing<T>(cells: Cells<T>, base: Cells<T>, D: set<T>, B: set<T>, W: set<T>,
            seen: set<T>)
    requires Visiting(cells, base, D, B, W, seen, []) && B + W == D
    ensures Reaping(cells, base, D, B, W, [], {}, B, [])
  {
    hide Gathering, Scanning, Frontier;
    StartGathering(cells, base, D, B, W);
    ScanningParts(cells, base, D, B, W);
    PointIntoClosed(base, B);
    FrontierOfClosed(base, D, B);
    assert B + {} == B;
  }

  lemma {:induction false} FrontierOfClosed<T>(base: Cells<T>, D: set<T>, S: set<T>)
    requires PointInto(base, S, S) && S <= D <= base.Keys
    ensures Frontier(base, D, S, [])
  {}

  lemma {:induction false} ReapRoot<T>(cells: Cells<T>, base: Cells<T>, D: set<T>, B: set<T>, W: set<T>,
            garbage: seq<T>, G: set<T>, kept: set<T>, root: T)
    requires Reaping(cells, base, D, B, W, garbage, G, kept, []) && root in D
    ensures Reaping(cells, base, D, B, W, garbage, G, kept, [root])
  {
    hide Frontier, Gathering;
    FrontierStart(base, D, kept, root);
  }

  lemma {:induction false} ReapTop<T>(cells: Cells<T>, base: Cells<T>, D: set<T>, B: set<T>, W: set<T>,
            garbage: seq<T>, G: set<T>, kept: set<T>, pending: seq<T>)
    requires Reaping(cells, base, D, B, W, garbage, G, kept, pending) && pending != []
    ensures var o := pending[|pending| - 1];
            && o in cells && o in base && o in D && cells[o].traced == base[o].traced && !cells[o].buffered
            && (cells[o].colour == White <==> o !in kept)
            && (o in kept ==> Reaping(cells, base, D, B, W, garbage, G, kept, pending[..|pending| - 1]))
  {
    FrontierTop(base, D, kept, pending);
    hide Frontier, Gathering;
    GatheringParts(cells, base, D, B, W, garbage, G);
    hide Startable, Painted;
    var o := pending[|pending| - 1];
    ColourOf(cells, base, D, W, B + G, o);
    if o in kept {
      FrontierSkip(base, D, kept, pending);
    }
  }

  lemma {:induction false} FrontierTop<T>(base: Cells<T>, D: set<T>, S: set<T>, pending: seq<T>)
    requires Frontier(base, D, S, pending) && pending != []
    ensures pending[|pending| - 1] in D && pending[|pending| - 1] in base
  {
    assert pending[|pending| - 1] in pending;
  }

  lemma {:induction false} ReapWhite<T>(cells: Cells<T>, base: Cells<T>, D: set<T>, B: set<T>, W: set<T>,
            garbage: seq<T>, G: set<T>, kept: set<T>, pending: seq<T>, o: T)
    requires Reaping(cells, base, D, B, W, garbage, G, kept, pending) && pending != [] && o == pending[|pending| - 1]
    requires o in cells && o in base && o in D && o !in kept
    ensures Reaping(Recoloured(cells, o, Black), base, D, B, W, garbage + [o], G + {o}, kept + {o}, pending[..|pending| - 1] + base[o].traced)
    ensures o in Recoloured(cells, o, Black) && Recoloured(cells, o, Black)[o].traced == cells[o].traced
  {
    hide Frontier, Gathering;
    GatheringParts(cells, base, D, B, W, garbage, G);
    GatherObject(cells, base, D, B, W, garbage, G, o);
    FrontierExpand(base, D, kept, pending, o);
    assert kept + {o} == B + (G + {o});
  }

  /** When the walks from all roots are over, exactly the white objects are gathered. */
  lemma {:induction false} ReapedAll<T>(cells: Cells<T>, base: Cells<T>, D: set<T>, B: set<T>, W: set<T>,
            garbage: seq<T>, G: set<T>, kept: set<T>, roots: set<T>)
    requires Reaping(cells, base, D, B, W, garbage, G, kept, []) && roots <= kept && roots <= base.Keys == Reported(base).Keys
    requires WellFormed(Reported(base)) && D == Closure(Reported(base), roots)
    ensures Gathering(cells, base, D, B, W, garbage, W)
  {
    FrontierEnd(base, D, kept);
    hide Frontier, Gathering;
    GatheringParts(cells, base, D, B, W, garbage, G);
    hide Startable, Painted, Tally, Lists;
    assert PointInto(base, G, B + G);
    AllGathered(base, roots, B, W, G);
  }
}
