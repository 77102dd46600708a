/** The walk over the modules a program imports: depth first, with the modules in progress
    on a stack and the finished ones in a cache.
 */
module ImportWalks {
  import opened Utf8

  type Key = nat

  type Name = string

  /** What an imported name leads to from a source: a file, a module of the runtime, or
      nothing. */
  datatype Target = File(key: Key) | Native | Missing

  datatype Import = Import(name: Name, target: Target)

  /** `parses`: the text lexes and parses without error. */
  datatype Source = Source(parses: bool, imports: seq<Import>)

  type World = map<Key, Source>

  /** The files exist, and within one source a name leads to one place. */
  predicate Consistent(w: World, imports: seq<Import>) {
    && (forall i | 0 <= i < |imports| && imports[i].target.File? :: imports[i].target.key in w)
    && (forall i, j | 0 <= i < |imports| && 0 <= j < |imports| && imports[i].name == imports[j].name ::
          imports[i].target == imports[j].target)
  }

  predicate AllConsistent(w: World) {
    forall k | k in w :: Consistent(w, w[k].imports)
  }

  predicate Imports(imports: seq<Import>, name: Name, k: Key) {
    Import(name, File(k)) in imports
  }

  predicate Parses(w: World, k: Key) {
    k in w && w[k].parses
  }

  /** One module that parses imports another file. */
  predicate Edge(w: World, a: Key, b: Key) {
    Parses(w, a) && exists i | 0 <= i < |w[a].imports| :: w[a].imports[i].target == File(b)
  }

  predicate Path(w: World, p: seq<Key>) {
    p != [] && forall i | 0 <= i < |p| - 1 :: Edge(w, p[i], p[i + 1])
  }

  predicate IsRoot(roots: seq<Import>, k: Key) {
    exists i | 0 <= i < |roots| :: roots[i].target == File(k)
  }

  /** Reached from the program's imports through modules that parse. */
  ghost predicate Reachable(w: World, roots: seq<Import>, k: Key) {
    exists p: seq<Key> :: Path(w, p) && IsRoot(roots, p[0]) && p[|p| - 1] == k
  }

  /** Modules that import each other in a ring. */
  ghost predicate Ring(w: World, ring: seq<Key>) {
    Path(w, ring) && Edge(w, ring[|ring| - 1], ring[0])
  }

  /** A reported cycle: the modules with the names they were imported by, and the name that
      closes it. */
  datatype Cycle = Cycle(modules: seq<(Key, Name)>, closing: Name)

  function Keys(stack: seq<(Key, Name)>): (keys: seq<Key>)
    ensures |keys| == |stack| && forall i | 0 <= i < |stack| :: keys[i] == stack[i].0
  {
    seq(|stack|, i requires 0 <= i < |stack| => stack[i].0)
  }

  /** Each module on the stack is imported, under its name, by the one below. */
  predicate Stacked(w: World, stack: seq<(Key, Name)>) {
    && (forall i | 0 <= i < |stack| :: Parses(w, stack[i].0))
    && (forall i | 0 <= i < |stack| - 1 :: Imports(w[stack[i].0].imports, stack[i + 1].1, stack[i + 1].0))
    && (forall i, j | 0 <= i < j < |stack| :: stack[i].0 != stack[j].0)
  }

  /** What is printed are modules that import each other, the last the first. */
  predicate Real(w: World, c: Cycle) {
    && c.modules != [] && Stacked(w, c.modules)
    && Imports(w[c.modules[|c.modules| - 1].0].imports, c.closing, c.modules[0].0)
  }

  /** A module comes after all it imports. */
  ghost predicate Ordered(w: World, analysed: seq<Key>) {
    forall i | 0 <= i < |analysed| :: Earlier(w, analysed[i], analysed[..i])
  }

  predicate Earlier(w: World, k: Key, before: seq<Key>) {
    k in w && forall i | 0 <= i < |w[k].imports| && w[k].imports[i].target.File? ::
      Parses(w, w[k].imports[i].target.key) ==> w[k].imports[i].target.key in before
  }

  /** What a module imports is analysed, or in progress, or does not parse. */
  predicate Served(w: World, imports: seq<Import>, analysed: seq<Key>, stack: seq<(Key, Name)>) {
    forall i | 0 <= i < |imports| && imports[i].target.File? && Parses(w, imports[i].target.key) ::
      imports[i].target.key in analysed || imports[i].target.key in Keys(stack)
  }

  ghost predicate Closed(w: World, analysed: seq<Key>, stack: seq<(Key, Name)>) {
    forall k | k in analysed :: k in w && Served(w, w[k].imports, analysed, stack)
  }

  ghost predicate Distinct(keys: seq<Key>) {
    forall i, j | 0 <= i < j < |keys| :: keys[i] != keys[j]
  }

  ghost predicate AllReachable(w: World, roots: seq<Import>, keys: seq<Key>) {
    forall k | k in keys :: Reachable(w, roots, k)
  }

  /** What holds throughout the walk. */
  ghost predicate Walking(w: World, roots: seq<Import>, stack: seq<(Key, Name)>, analysed: seq<Key>,
            cycles: seq<Cycle>) {
    && AllConsistent(w) && Consistent(w, roots)
    && Stacked(w, stack) && Distinct(analysed)
    && (forall k | k in analysed :: Parses(w, k) && k !in Keys(stack))
    && AllReachable(w, roots, Keys(stack)) && AllReachable(w, roots, analysed)
    && Closed(w, analysed, stack)
    && (forall i | 0 <= i < |cycles| :: Real(w, cycles[i]) && AllReachable(w, roots, Keys(cycles[i].modules)))
    && (cycles == [] ==> Ordered(w, analysed))
  }

  /** The imports being looked at are those of the module on top, or of the program. */
  ghost predicate Current(w: World, roots: seq<Import>, stack: seq<(Key, Name)>, imports: seq<Import>) {
    Stacked(w, stack) && imports == if stack == [] then roots else w[stack[|stack| - 1].0].imports
  }

  lemma CurrentIsConsistent(w: World, roots: seq<Import>, stack: seq<(Key, Name)>, analysed: seq<Key>,
            cycles: seq<Cycle>, imports: seq<Import>)
    requires Walking(w, roots, stack, analysed, cycles) && Current(w, roots, stack, imports)
    ensures Consistent(w, imports)
  {}

  lemma ReachableNext(w: World, roots: seq<Import>, a: Key, b: Key)
    requires Reachable(w, roots, a) && Edge(w, a, b)
    ensures Reachable(w, roots, b)
  {
    var p :| Path(w, p) && IsRoot(roots, p[0]) && p[|p| - 1] == a;
    var q := p + [b];
    assert Path(w, q) && q[0] == p[0] && q[|q| - 1] == b;
  }

  lemma ReachableRoot(w: World, roots: seq<Import>, k: Key)
    requires IsRoot(roots, k)
    ensures Reachable(w, roots, k)
  {
    assert Path(w, [k]) && [k][|[k]| - 1] == k;
  }

  /** A module imported here is as reachable as the one on top. */
  lemma ReachableHere(w: World, roots: seq<Import>, stack: seq<(Key, Name)>, imports: seq<Import>, i: nat)
    requires Current(w, roots, stack, imports) && AllReachable(w, roots, Keys(stack))
    requires i < |imports| && imports[i].target.File? && Parses(w, imports[i].target.key)
    ensures Reachable(w, roots, imports[i].target.key)
  {
    var k := imports[i].target.key;
    assert imports[i] == Import(imports[i].name, File(k));
    hide Reachable;
    if stack == [] {
      ReachableRoot(w, roots, k);
    } else {
      assert stack[|stack| - 1].0 in Keys(stack);
      ReachableNext(w, roots, stack[|stack| - 1].0, k);
    }
  }

  lemma ClosedMore(w: World, analysed: seq<Key>, stack: seq<(Key, Name)>, k: Key, name: Name)
    requires Closed(w, analysed, stack)
    ensures Closed(w, analysed, stack + [(k, name)])
  {
    KeysSnoc(stack, k, name);
    hide Keys;
    var more := stack + [(k, name)];
    forall a | a in analysed ensures a in w && Served(w, w[a].imports, analysed, more) {
      assert Served(w, w[a].imports, analysed, stack);
    }
  }

  lemma ImportedHere(w: World, roots: seq<Import>, stack: seq<(Key, Name)>, imports: seq<Import>, i: nat)
    requires Current(w, roots, stack, imports) && i < |imports| && imports[i].target.File?
    ensures stack != [] ==> Imports(w[stack[|stack| - 1].0].imports, imports[i].name, imports[i].target.key)
  {
    assert imports[i] == Import(imports[i].name, File(imports[i].target.key));
  }

  /** Entering a module that is imported here. */
  lemma Push(w: World, roots: seq<Import>, stack: seq<(Key, Name)>, analysed: seq<Key>, cycles: seq<Cycle>,
            imports: seq<Import>, i: nat)
    requires Walking(w, roots, stack, analysed, cycles) && Current(w, roots, stack, imports)
    requires i < |imports| && imports[i].target.File? && Parses(w, imports[i].target.key)
    requires imports[i].target.key !in Keys(stack) && imports[i].target.key !in analysed
    ensures var more := stack + [(imports[i].target.key, imports[i].name)];
            Walking(w, roots, more, analysed, cycles) && Current(w, roots, more, w[imports[i].target.key].imports)
  {
    hide Keys, Stacked, Closed, Real, Ordered, Reachable, Consistent, AllConsistent, Distinct, Imports;
    var k, name := imports[i].target.key, imports[i].name;
    ReachableHere(w, roots, stack, imports, i);
    ImportedHere(w, roots, stack, imports, i);
    StackedMore(w, stack, k, name);
    ClosedMore(w, analysed, stack, k, name);
    KeysSnoc(stack, k, name);
  }

  lemma StackedMore(w: World, stack: seq<(Key, Name)>, k: Key, name: Name)
    requires Stacked(w, stack) && Parses(w, k) && k !in Keys(stack)
    requires stack != [] ==> Imports(w[stack[|stack| - 1].0].imports, name, k)
    ensures Stacked(w, stack + [(k, name)])
  {
    assert forall i | 0 <= i < |stack| :: Keys(stack)[i] == stack[i].0;
  }

  /** The first `i` imports have been looked at: served, and without a cycle all analysed. */
  ghost predicate LookedAt(w: World, imports: seq<Import>, i: nat, analysed: seq<Key>, stack: seq<(Key, Name)>,
            cycles: seq<Cycle>) {
    i <= |imports| && Served(w, imports[..i], analysed, stack)
    && (cycles == [] ==> forall j | 0 <= j < i && imports[j].target.File? ::
                           Parses(w, imports[j].target.key) ==> imports[j].target.key in analysed)
  }

  lemma LookedAtMore(w: World, imports: seq<Import>, i: nat, analysed: seq<Key>, later: seq<Key>,
            stack: seq<(Key, Name)>,
                     cycles: seq<Cycle>, more: seq<Cycle>)
    requires LookedAt(w, imports, i, analysed, stack, cycles) && analysed <= later && cycles <= more
    ensures LookedAt(w, imports, i, later, stack, more)
  {
    assert forall k | k in analysed :: k in later;
  }

  /** One more import: served, and analysed unless there is a cycle. */
  lemma LookedAtOne(w: World, imports: seq<Import>, i: nat, analysed: seq<Key>, stack: seq<(Key, Name)>,
            cycles: seq<Cycle>)
    requires LookedAt(w, imports, i, analysed, stack, cycles) && i < |imports|
    requires imports[i].target.File? && Parses(w, imports[i].target.key) ==>
               imports[i].target.key in analysed || (cycles != [] && imports[i].target.key in Keys(stack))
    ensures LookedAt(w, imports, i + 1, analysed, stack, cycles)
  {
    assert imports[..i + 1] == imports[..i] + [imports[i]];
  }

  /** A name seen before leads where it led. */
  lemma LookedAtAgain(w: World, imports: seq<Import>, i: nat, j: nat, analysed: seq<Key>, stack: seq<(Key, Name)>,
            cycles: seq<Cycle>)
    requires LookedAt(w, imports, i, analysed, stack, cycles) && Consistent(w, imports)
    requires j < i < |imports| && imports[j].name == imports[i].name
    ensures LookedAt(w, imports, i + 1, analysed, stack, cycles)
  {
    assert imports[..i][j] == imports[j];
    LookedAtOne(w, imports, i, analysed, stack, cycles);
  }

  /** The names that mean something among the first `i`. */
  function Names(imports: seq<Import>, i: nat): set<Name>
    requires i <= |imports|
  {
    set j | 0 <= j < i && !imports[j].target.Missing? :: imports[j].name
  }

  lemma NameAgain(imports: seq<Import>, i: nat) returns (j: nat)
    requires i < |imports| && imports[i].name in Names(imports, i)
    ensures j < i && imports[j].name == imports[i].name
  {
    j :| 0 <= j < i && !imports[j].target.Missing? && imports[j].name == imports[i].name;
  }

  lemma OneMoreName(w: World, imports: seq<Import>, i: nat)
    requires Consistent(w, imports) && i < |imports|
    ensures Names(imports, i + 1) ==
            if imports[i].target.Missing? then Names(imports, i) else Names(imports, i) + {imports[i].name}
    ensures imports[i].name in Names(imports, i) ==> Names(imports, i + 1) == Names(imports, i)
  {
    if imports[i].name in Names(imports, i) {
      var j := NameAgain(imports, i);
    }
  }

  function Set(keys: seq<Key>): set<Key> {
    set k | k in keys
  }

  lemma SetSnoc(keys: seq<Key>, k: Key)
    ensures Set(keys + [k]) == Set(keys) + {k}
    ensures k !in keys ==> Set(keys + [k]) - {k} == Set(keys)
  {}

  lemma InSet(keys: seq<Key>, k: Key)
    ensures k in Set(keys) <==> k in keys
  {}

  /** Leaving a module once everything it imports has been looked at. */
  lemma Pop(w: World, roots: seq<Import>, stack: seq<(Key, Name)>, k: Key, name: Name, analysed: seq<Key>,
            cycles: seq<Cycle>)
    requires Walking(w, roots, stack + [(k, name)], analysed, cycles) && k in w
    requires LookedAt(w, w[k].imports, |w[k].imports|, analysed, stack + [(k, name)], cycles)
    ensures Walking(w, roots, stack, analysed + [k], cycles)
  {
    var more, done := stack + [(k, name)], analysed + [k];
    assert w[k].imports[..|w[k].imports|] == w[k].imports;
    assert more[|stack|] == (k, name) && Keys(more) == Keys(stack) + [k];
    assert forall i | 0 <= i < |stack| :: more[i] == stack[i];
    assert k in Keys(more);
    assert k !in Keys(stack) by {
      assert forall i | 0 <= i < |stack| :: more[i].0 != more[|stack|].0;
    }
    forall a | a in done ensures a in w && Served(w, w[a].imports, done, stack) {
      assert a != k ==> a in analysed;
      assert Served(w, w[a].imports, analysed, more);
    }
    if cycles == [] {
      forall i | 0 <= i < |done| ensures Earlier(w, done[i], done[..i]) {
        if i < |analysed| {
          assert done[..i] == analysed[..i];
          assert Earlier(w, analysed[i], analysed[..i]);
        } else {
          assert done[..i] == analysed;
        }
      }
    }
  }

  /** The part of the stack from a module in progress on is a cycle with the import here. */
  lemma Report(w: World, roots: seq<Import>, stack: seq<(Key, Name)>, analysed: seq<Key>, cycles: seq<Cycle>,
               imports: seq<Import>, i: nat, start: nat)
    requires Walking(w, roots, stack, analysed, cycles) && Current(w, roots, stack, imports)
    requires i < |imports| && imports[i].target.File? && start < |stack| && stack[start].0 == imports[i].target.key
    ensures Walking(w, roots, stack, analysed, cycles + [Cycle(stack[start..], imports[i].name)])
  {
    hide Keys, Stacked, Closed, Ordered, Distinct, Parses, Real, AllReachable, AllConsistent, Consistent, Current;
    RingIsReal(w, roots, stack, imports, i, start);
    var c := Cycle(stack[start..], imports[i].name);
    assert forall k | 0 <= k < |cycles| :: (cycles + [c])[k] == cycles[k];
  }

  lemma RingIsReal(w: World, roots: seq<Import>, stack: seq<(Key, Name)>, imports: seq<Import>, i: nat, start: nat)
    requires AllReachable(w, roots, Keys(stack)) && Current(w, roots, stack, imports)
    requires i < |imports| && imports[i].target.File? && start < |stack| && stack[start].0 == imports[i].target.key
    ensures Real(w, Cycle(stack[start..], imports[i].name)) && AllReachable(w, roots, Keys(stack[start..]))
  {
    var c := Cycle(stack[start..], imports[i].name);
    StackedFrom(w, stack, start);
    hide Stacked;
    assert imports[i] == Import(imports[i].name, File(stack[start].0));
    assert c.modules[|c.modules| - 1] == stack[|stack| - 1] && c.modules[0] == stack[start];
    assert Real(w, c);
    assert forall j | 0 <= j < |c.modules| :: Keys(c.modules)[j] == Keys(stack)[start + j];
  }

  lemma StackedFrom(w: World, stack: seq<(Key, Name)>, start: nat)
    requires Stacked(w, stack) && start < |stack|
    ensures Stacked(w, stack[start..])
  {
    var later := stack[start..];
    forall j | 0 <= j < |later| - 1
      ensures later[j].0 in w && Imports(w[later[j].0].imports, later[j + 1].1, later[j + 1].0)
    {
      assert later[j] == stack[start + j] && later[j + 1] == stack[start + j + 1];
    }
  }

  class ImportWalker {
    const world: World
    const roots: seq<Import>
    var modulesInProgress: set<Key>
    var moduleStack: seq<(Key, Name)>
    var moduleCache: set<Key>
    var analysed: seq<Key>
    var cycles: seq<Cycle>

    constructor (world: World, roots: seq<Import>)
      requires AllConsistent(world) && Consistent(world, roots)
      ensures this.world == world && this.roots == roots && Valid() && moduleStack == [] && analysed == [] && cycles == []
    {
      this.world, this.roots := world, roots;
      modulesInProgress, moduleStack, moduleCache, analysed, cycles := {}, [], {}, [], [];
    }

    ghost predicate Valid()
      reads this
    {
      && Walking(world, roots, moduleStack, analysed, cycles)
      && modulesInProgress == Set(Keys(moduleStack)) && moduleCache == Set(analysed)
    }

    /** The names that mean something here; every module found on the way is analysed. */
    method BuildImportEnvironment(imports: seq<Import>) returns (environment: set<Name>)
      requires Valid() && Current(world, roots, moduleStack, imports)
      modifies this
      ensures Valid() && moduleStack == old(moduleStack)
      ensures old(analysed) <= analysed && old(cycles) <= cycles
      ensures environment == Names(imports, |imports|)
      ensures LookedAt(world, imports, |imports|, analysed, moduleStack, cycles)
      decreases |world.Keys - modulesInProgress|, 2
    {
      hide Walking, Current, LookedAt, Names, Consistent, Set;
      environment := {};
      NothingYet(world, imports, analysed, moduleStack, cycles);
      CurrentIsConsistent(world, roots, moduleStack, analysed, cycles, imports);
      for i := 0 to |imports|
        invariant Valid() && moduleStack == old(moduleStack)
        invariant old(analysed) <= analysed && old(cycles) <= cycles
        invariant environment == Names(imports, i)
        invariant LookedAt(world, imports, i, analysed, moduleStack, cycles)
      {
        OneMoreName(world, imports, i);
        if imports[i].name in environment {
          var j := NameAgain(imports, i);
          LookedAtAgain(world, imports, i, j, analysed, moduleStack, cycles);
        } else if imports[i].target.Missing? {
          LookedAtOne(world, imports, i, analysed, moduleStack, cycles);
        } else {
          environment := environment + {imports[i].name};
          LookAt(imports, i);
        }
      }
    }

    /** One import of a module in a file, or of the runtime. */
    method LookAt(imports: seq<Import>, i: nat)
      requires Valid() && Current(world, roots, moduleStack, imports) && i < |imports| && Consistent(world, imports)
      requires LookedAt(world, imports, i, analysed, moduleStack, cycles)
      modifies this
      ensures Valid() && moduleStack == old(moduleStack)
      ensures old(analysed) <= analysed && old(cycles) <= cycles
      ensures LookedAt(world, imports, i + 1, analysed, moduleStack, cycles)
      decreases |world.Keys - modulesInProgress|, 1
    {
      hide Walking, Current, LookedAt, Set;
      var target := imports[i].target;
      if !target.File? {
        LookedAtOne(world, imports, i, analysed, moduleStack, cycles);
        return;
      }
      InSet(analysed, target.key);
      InSet(Keys(moduleStack), target.key);
      if target.key in moduleCache || (target.key !in modulesInProgress && !world[target.key].parses) {
        LookedAtOne(world, imports, i, analysed, moduleStack, cycles);
      } else if target.key in modulesInProgress {
        ReportCycle(imports, i);
      } else {
        AnalyseModule(imports, i);
      }
    }

    method ReportCycle(imports: seq<Import>, i: nat)
      requires Valid() && Current(world, roots, moduleStack, imports) && i < |imports|
      requires LookedAt(world, imports, i, analysed, moduleStack, cycles)
      requires imports[i].target.File? && imports[i].target.key in Keys(moduleStack)
      modifies `cycles
      ensures Valid() && exists start | 0 <= start < |moduleStack| ::
                cycles == old(cycles) + [Cycle(moduleStack[start..], imports[i].name)]
      ensures LookedAt(world, imports, i + 1, analysed, moduleStack, cycles)
    {
      hide Walking, Current, LookedAt, Set;
      var start := 0;
      while moduleStack[start].0 != imports[i].target.key
        invariant 0 <= start < |moduleStack| && forall j | 0 <= j < start :: moduleStack[j].0 != imports[i].target.key
        decreases |moduleStack| - start
      {
        start := start + 1;
      }
      Report(world, roots, moduleStack, analysed, cycles, imports, i, start);
      cycles := cycles + [Cycle(moduleStack[start..], imports[i].name)];
      LookedAtMore(world, imports, i, analysed, analysed, moduleStack, old(cycles), cycles);
      LookedAtOne(world, imports, i, analysed, moduleStack, cycles);
    }

    method AnalyseModule(imports: seq<Import>, i: nat)
      requires Valid() && Current(world, roots, moduleStack, imports) && i < |imports|
      requires LookedAt(world, imports, i, analysed, moduleStack, cycles)
      requires imports[i].target.File? && Parses(world, imports[i].target.key)
      requires imports[i].target.key !in Keys(moduleStack) && imports[i].target.key !in analysed
      modifies this
      ensures Valid() && moduleStack == old(moduleStack)
      ensures old(analysed) < analysed && analysed[|analysed| - 1] == imports[i].target.key && old(cycles) <= cycles
      ensures LookedAt(world, imports, i + 1, analysed, moduleStack, cycles)
      decreases |world.Keys - modulesInProgress|, 0
    {
      hide Walking, Current, LookedAt, Set, Keys;
      var key, name := imports[i].target.key, imports[i].name;
      Push(world, roots, moduleStack, analysed, cycles, imports, i);
      KeysSnoc(moduleStack, key, name);
      SetSnoc(Keys(moduleStack), key);
      InSet(Keys(moduleStack), key);
      FewerLeft(world.Keys, modulesInProgress, key);
      modulesInProgress := modulesInProgress + {key};
      moduleStack := moduleStack + [(key, name)];
      var child := BuildImportEnvironment(world[key].imports);
      Pop(world, roots, old(moduleStack), key, name, analysed, cycles);
      SetSnoc(analysed, key);
      analysed := analysed + [key];
      moduleCache := moduleCache + {key};
      moduleStack := moduleStack[..|moduleStack| - 1];
      modulesInProgress := modulesInProgress - {key};
      assert moduleStack == old(moduleStack);
      LookedAtMore(world, imports, i, old(analysed), analysed, moduleStack, old(cycles), cycles);
      LookedAtOne(world, imports, i, analysed, moduleStack, cycles);
    }
  }

  lemma NothingYet(w: World, imports: seq<Import>, analysed: seq<Key>, stack: seq<(Key, Name)>, cycles: seq<Cycle>)
    ensures LookedAt(w, imports, 0, analysed, stack, cycles) && Names(imports, 0) == {}
  {}

  lemma KeysSnoc(stack: seq<(Key, Name)>, key: Key, name: Name)
    ensures Keys(stack + [(key, name)]) == Keys(stack) + [key]
  {}

  lemma FewerLeft(keys: set<Key>, progress: set<Key>, key: Key)
    requires key in keys && key !in progress
    ensures |keys - (progress + {key})| < |keys - progress|
  {
    var less, more := keys - (progress + {key}), keys - progress;
    assert more == less + {key};
  }

  // The main results

  /** A module reached through modules that parse is analysed, if it parses itself. */
  lemma {:induction false} PathIsAnalysed(w: World, roots: seq<Import>, analysed: seq<Key>, p: seq<Key>)
    requires Closed(w, analysed, []) && Served(w, roots, analysed, [])
    requires Path(w, p) && IsRoot(roots, p[0]) && Parses(w, p[|p| - 1])
    ensures p[|p| - 1] in analysed
    decreases |p|
  {
    if |p| > 1 {
      var q := p[..|p| - 1];
      forall i | 0 <= i < |q| - 1 ensures Edge(w, q[i], q[i + 1]) {
        assert Edge(w, p[i], p[i + 1]);
      }
      assert Edge(w, p[|p| - 2], p[|p| - 1]);
      PathIsAnalysed(w, roots, analysed, q);
    }
  }

  /** Where every module comes after what it imports, no ring is analysed. */
  lemma OrderedHasNoRing(w: World, analysed: seq<Key>, ring: seq<Key>)
    requires Ordered(w, analysed) && Distinct(analysed) && Ring(w, ring)
    ensures exists i :: 0 <= i < |ring| && ring[i] !in analysed
  {
    if forall i | 0 <= i < |ring| :: ring[i] in analysed {
      var at := seq(|ring|, i requires 0 <= i < |ring| => PlaceOf(analysed, ring[i]));
      forall i | 0 <= i < |ring| - 1 ensures at[i + 1] < at[i] {
        RingParses(w, ring, i + 1);
        EdgeGoesBack(w, analysed, ring[i], ring[i + 1]);
      }
      Descends(at, |at| - 1);
      RingParses(w, ring, 0);
      EdgeGoesBack(w, analysed, ring[|ring| - 1], ring[0]);
    }
  }

  lemma {:induction false} Descends(at: seq<nat>, i: nat)
    requires i < |at| && forall j | 0 <= j < |at| - 1 :: at[j + 1] < at[j]
    ensures at[i] <= at[0]
    decreases i
  {
    if i > 0 {
      Descends(at, i - 1);
      assert at[i - 1 + 1] < at[i - 1];
    }
  }

  function PlaceOf(keys: seq<Key>, k: Key): (i: nat)
    requires k in keys
    ensures i < |keys| && keys[i] == k
  {
    if keys[0] == k then 0 else PlaceOf(keys[1..], k) + 1
  }

  lemma EdgeGoesBack(w: World, analysed: seq<Key>, a: Key, b: Key)
    requires Ordered(w, analysed) && Distinct(analysed) && a in analysed && b in analysed && Edge(w, a, b) && Parses(w, b)
    ensures PlaceOf(analysed, b) < PlaceOf(analysed, a)
  {
    var i := PlaceOf(analysed, a);
    assert Earlier(w, analysed[i], analysed[..i]);
    assert b in analysed[..i];
    var j :| 0 <= j < i && analysed[j] == b;
    assert PlaceOf(analysed, b) == j;
  }

  /** Every module of a ring parses. */
  lemma RingParses(w: World, ring: seq<Key>, i: nat)
    requires Ring(w, ring) && i < |ring|
    ensures Parses(w, ring[i])
  {
    if i < |ring| - 1 {
      assert Edge(w, ring[i], ring[i + 1]);
    }
  }

  /** A reported cycle is a ring. */
  lemma RealIsRing(w: World, c: Cycle)
    requires Real(w, c)
    ensures Ring(w, Keys(c.modules))
  {
    var ring := Keys(c.modules);
    forall i | 0 <= i < |ring| - 1 ensures Edge(w, ring[i], ring[i + 1]) {
      ImportIsEdge(w, ring[i], c.modules[i + 1].1, ring[i + 1]);
    }
    ImportIsEdge(w, ring[|ring| - 1], c.closing, ring[0]);
  }

  lemma ImportIsEdge(w: World, a: Key, name: Name, b: Key)
    requires Parses(w, a) && Imports(w[a].imports, name, b)
    ensures Edge(w, a, b)
  {
    var i :| 0 <= i < |w[a].imports| && w[a].imports[i] == Import(name, File(b));
  }

  /** Some modules reached from the program import each other in a ring. */
  ghost predicate HasReachableRing(w: World, roots: seq<Import>) {
    exists ring: seq<Key> :: Ring(w, ring) && forall i | 0 <= i < |ring| :: Reachable(w, roots, ring[i])
  }

  /** The whole walk: each module that is reached and parses is analysed once; a cycle is
      reported exactly when there is one, and each report names modules that import each
      other; without one, every module is analysed after those it imports. */
  method WalkImports(world: World, roots: seq<Import>) returns (environment: set<Name>, analysed: seq<Key>,
            cycles: seq<Cycle>)
    requires AllConsistent(world) && Consistent(world, roots)
    ensures environment == Names(roots, |roots|)
    ensures Distinct(analysed) && forall k :: k in analysed <==> Reachable(world, roots, k) && Parses(world, k)
    ensures forall i | 0 <= i < |cycles| :: Real(world, cycles[i])
    ensures cycles != [] <==> HasReachableRing(world, roots)
    ensures cycles == [] ==> Ordered(world, analysed)
  {
    hide Names, Consistent, AllConsistent, Walking, LookedAt, HasReachableRing, Ordered, Reachable, Real, Distinct, Current, Set;
    StartIsCurrent(world, roots);
    var walker := new ImportWalker(world, roots);
    environment := walker.BuildImportEnvironment(roots);
    analysed, cycles := walker.analysed, walker.cycles;
    WalkIsComplete(world, roots, analysed, cycles);
  }

  lemma StartIsCurrent(w: World, roots: seq<Import>)
    ensures Current(w, roots, [], roots)
  {}

  lemma WalkIsComplete(w: World, roots: seq<Import>, analysed: seq<Key>, cycles: seq<Cycle>)
    requires Walking(w, roots, [], analysed, cycles) && LookedAt(w, roots, |roots|, analysed, [], cycles)
    ensures Distinct(analysed) && forall k :: k in analysed <==> Reachable(w, roots, k) && Parses(w, k)
    ensures forall i | 0 <= i < |cycles| :: Real(w, cycles[i])
    ensures cycles != [] <==> HasReachableRing(w, roots)
    ensures cycles == [] ==> Ordered(w, analysed)
  {
    if cycles != [] {
      RealIsRing(w, cycles[0]);
    }
    assert roots[..|roots|] == roots;
    forall k | Reachable(w, roots, k) && Parses(w, k) ensures k in analysed {
      var p :| Path(w, p) && IsRoot(roots, p[0]) && p[|p| - 1] == k;
      PathIsAnalysed(w, roots, analysed, p);
    }
    if cycles == [] && HasReachableRing(w, roots) {
      var ring :| Ring(w, ring) && forall i | 0 <= i < |ring| :: Reachable(w, roots, ring[i]);
      forall i | 0 <= i < |ring| ensures ring[i] in analysed {
        RingParses(w, ring, i);
      }
      OrderedHasNoRing(w, analysed, ring);
    }
  }
}
