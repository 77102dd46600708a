/** Where the analyzer's checks fall short: `arrêter` and operands that may be skipped. A
    function without them is safe when it is accepted; with either, an accepted function may
    lose a result or not, and the paths tell which.
 */
module ObligationGaps {
  import opened Utf8
  import opened ObligationAnalysis
  import opened ResultRuns
  import opened PathAnalysis
  import PathSoundness
  import PathLosses
  import AcceptedFunctions

  /** An accepted function loses a result in some run exactly when some path does, and then in
      a run that skipped an operand or left a scope by `arrêter`. */
  lemma AcceptedLosesExactly(results: seq<Name>, others: seq<Name>, body: seq<Stmt>)
    requires Function(results, others, body).diagnostics == {}
    ensures LosesResult(results, others, body) <==>
            exists choices: seq<bool> ::
              ExecuteFunction(results, others, body, choices).leaked && ExecuteFunction(results, others, body, choices).gap
  {
    hide LosesResult, ExecuteFunction;
    PathLosses.LossIsExact(results, others, body);
    forall choices: seq<bool> | ExecuteFunction(results, others, body, choices).leaked
      ensures ExecuteFunction(results, others, body, choices).gap
    {
      AcceptedFunctions.AcceptedIsSafe(results, others, body, choices);
    }
  }

  // Without the two constructs

  predicate NoReads(e: Expr)
    decreases e
  {
    e == [] || (StepReadsNothing(e[0]) && NoReads(e[1..]))
  }

  predicate StepReadsNothing(s: Step)
    decreases s
  {
    match s
    case Use(_) => false
    case Propager => true
    case Perhaps(steps) => NoReads(steps)
  }

  /** What may be skipped reads nothing. */
  predicate NoSkip(e: Expr) {
    forall k | 0 <= k < |e| && e[k].Perhaps? :: NoReads(e[k].steps)
  }

  predicate NoSkipIn(init: Init) {
    init.Alias? || NoSkip(init.e)
  }

  /** No `arrêter`, and no operand that may be skipped. */
  predicate Covered(s: Stmt)
    decreases s
  {
    match s
    case Eval(e) => NoSkip(e)
    case Declare(_, init) => NoSkipIn(init)
    case Block(statements) => AllCovered(statements)
    case Si(condition, thenBranch, elseBranch) => NoSkip(condition) && AllCovered(thenBranch) && AllCovered(elseBranch)
    case TantQue(condition, body) => NoSkip(condition) && AllCovered(body)
    case Pour(iterable, _, body) => NoSkip(iterable) && AllCovered(body)
    case Continuer => true
    case Arreter => false
    case Retourne(e) => NoSkip(e)
    case AgirSelon(subject, branches, _, elseBranch, _) => NoSkip(subject) && BranchesCovered(branches) && AllCovered(elseBranch)
  }

  predicate AllCovered(statements: seq<Stmt>)
    decreases statements
  {
    statements == [] || (Covered(statements[0]) && AllCovered(statements[1..]))
  }

  predicate BranchesCovered(branches: seq<Branch>)
    decreases branches
  {
    branches == [] || (BranchCovered(branches[0]) && BranchesCovered(branches[1..]))
  }

  predicate BranchCovered(branch: Branch)
    decreases branch
  {
    branch.ending.Body? ==> AllCovered(branch.ending.statements)
  }

  lemma {:induction false} NothingIsRead(scopes: seq<Scope>, e: Expr)
    requires NoReads(e)
    ensures Reads(scopes, e) == {}
    decreases e
  {
    if e != [] {
      if e[0].Perhaps? {
        NothingIsRead(scopes, e[0].steps);
      }
      NothingIsRead(scopes, e[1..]);
    }
  }

  ghost predicate NoGap(r: Run) {
    !r.gap && r.signal != Breaking
  }

  lemma {:induction false} ReadlessHasNoGap(r: Run, e: Expr)
    requires NoGap(r) && NoReads(e)
    ensures NoGap(RunSteps(r, e))
    decreases e
  {
    if e != [] && r.signal == Normal {
      if e[0].Perhaps? {
        var (taken, c) := Choose(r);
        NothingIsRead(c.scopes, e[0].steps);
        if taken {
          ReadlessHasNoGap(c, e[0].steps);
        }
      }
      ReadlessHasNoGap(RunStep(r, e[0]), e[1..]);
    }
  }

  lemma {:induction false} StepsHaveNoGap(r: Run, e: Expr)
    requires NoGap(r) && NoSkip(e)
    ensures NoGap(RunSteps(r, e))
    decreases e
  {
    if e != [] && r.signal == Normal {
      if e[0].Perhaps? {
        var (taken, c) := Choose(r);
        NothingIsRead(c.scopes, e[0].steps);
        if taken {
          ReadlessHasNoGap(c, e[0].steps);
        }
      }
      StepsHaveNoGap(RunStep(r, e[0]), e[1..]);
    }
  }

  lemma {:induction false} StatementHasNoGap(r: Run, s: Stmt)
    requires NoGap(r) && Covered(s)
    ensures NoGap(Execute(r, s))
    decreases |r.choices|, s, 0
  {
    hide RunSteps, ExecuteIn, Rounds, ExecuteBranches, NoSkip, AllCovered, BranchesCovered, Find, Holding;
    if r.signal == Normal {
      match s {
        case Eval(e) => StepsHaveNoGap(r, e);
        case Declare(name, init) => DeclarationHasNoGap(r, name, init);
        case Block(statements) => ScopeHasNoGap(r, [], statements);
        case Si(condition, thenBranch, elseBranch) =>
          StepsHaveNoGap(r, condition);
          var (yes, c) := Choose(RunSteps(r, condition));
          ScopeHasNoGap(c, [], if yes then thenBranch else elseBranch);
        case TantQue(condition, body) => RoundsHaveNoGap(r, condition, [], body);
        case Pour(iterable, variable, body) =>
          StepsHaveNoGap(r, iterable);
          NothingIsSkipped();
          RoundsHaveNoGap(RunSteps(r, iterable), [], [variable], body);
        case Continuer =>
        case Retourne(e) => StepsHaveNoGap(r, e);
        case AgirSelon(subject, branches, hasElse, elseBranch, _) =>
          StepsHaveNoGap(r, subject);
          BranchesHaveNoGap(RunSteps(r, subject), branches, hasElse, elseBranch);
      }
    }
  }

  lemma NothingIsSkipped()
    ensures NoSkip([])
  {}

  lemma DeclarationHasNoGap(r: Run, name: Name, init: Init)
    requires NoGap(r) && r.signal == Normal && NoSkipIn(init)
    ensures NoGap(RunDeclare(r, name, init))
  {
    hide RunSteps, NoSkip, Find;
    if !init.Alias? {
      StepsHaveNoGap(r, init.e);
    }
  }

  lemma {:induction false} AllHaveNoGap(r: Run, statements: seq<Stmt>)
    requires NoGap(r) && AllCovered(statements)
    ensures NoGap(ExecuteAll(r, statements))
    decreases |r.choices|, statements, 0
  {
    hide Execute, Covered;
    if statements != [] {
      StatementHasNoGap(r, statements[0]);
      AllHaveNoGap(Execute(r, statements[0]), statements[1..]);
    }
  }

  lemma {:induction false} ScopeHasNoGap(r: Run, names: seq<Name>, statements: seq<Stmt>)
    requires NoGap(r) && AllCovered(statements)
    ensures NoGap(ExecuteIn(r, names, statements))
    decreases |r.choices|, statements, 1
  {
    hide ExecuteAll, AllCovered, Owned, Held;
    if r.signal == Normal {
      PathSoundness.EnterIs(Flow(r.scopes, {}, 0, true, false), names, r);
      AllHaveNoGap(HoldingNone(Enter(r), names), statements);
    }
  }

  lemma {:induction false} RoundsHaveNoGap(r: Run, condition: Expr, names: seq<Name>, body: seq<Stmt>)
    requires NoGap(r) && NoSkip(condition) && AllCovered(body)
    ensures NoGap(Rounds(r, condition, names, body))
    decreases |r.choices|, body, 2
  {
    hide RunSteps, ExecuteIn, NoSkip, AllCovered;
    StepsHaveNoGap(r, condition);
    var c := RunSteps(r, condition);
    if c.signal == Normal && c.choices != [] {
      var d := c.(choices := c.choices[1..]);
      ScopeHasNoGap(d, names, body);
      var b := ExecuteIn(d, names, body);
      if b.signal == Normal || b.signal == Continuing {
        RoundsHaveNoGap(b.(signal := Normal), condition, names, body);
        assert b.signal == Normal ==> b.(signal := Normal) == b;
      }
    }
  }

  lemma {:induction false} BranchesHaveNoGap(r: Run, branches: seq<Branch>, hasElse: bool, elseBranch: seq<Stmt>)
    requires NoGap(r) && BranchesCovered(branches) && AllCovered(elseBranch)
    ensures NoGap(ExecuteBranches(r, branches, hasElse, elseBranch))
    decreases |r.choices|, elseBranch, 2
  {
    hide ExecuteIn, AllCovered;
    if r.signal == Normal {
      if branches == [] {
        ScopeHasNoGap(r, [], elseBranch);
      } else if r.choices != [] {
        var (taken, c) := Choose(r);
        if !taken {
          BranchesHaveNoGap(c, branches[1..], hasElse, elseBranch);
        } else if branches[0].ending.Body? {
          ScopeHasNoGap(c, branches[0].names, branches[0].ending.statements);
        }
      }
    }
  }

  lemma {:induction false} CallHasNoGap(r: Run, results: seq<Name>)
    ensures HoldingResults(r, results).gap == r.gap && HoldingResults(r, results).signal == r.signal
    decreases |results|
  {
    if results != [] {
      CallHasNoGap(HoldingNew(r, results[0]), results[1..]);
    }
  }

  /** Without the two constructs, an accepted function is safe on every path and in every run. */
  lemma CoveredIsSafe(results: seq<Name>, others: seq<Name>, body: seq<Stmt>)
    requires AllCovered(body) && Function(results, others, body).diagnostics == {}
    ensures !LosesResult(results, others, body)
    ensures forall choices: seq<bool> :: !ExecuteFunction(results, others, body, choices).leaked
  {
    hide LosesResult, Function, ExecuteAll, AllCovered, HoldingResults, Held, Owned;
    PathLosses.LossIsExact(results, others, body);
    forall choices: seq<bool> ensures !ExecuteFunction(results, others, body, choices).leaked {
      var r := Run([], {}, 0, false, false, choices, Normal);
      PathSoundness.EnterIs(Flow([], {}, 0, true, false), others, r);
      CallHasNoGap(HoldingNone(Enter(r), others), results);
      AllHaveNoGap(Called(results, others, choices), body);
      AcceptedFunctions.AcceptedIsSafe(results, others, body, choices);
    }
  }

  // With either of them
  /** tant que …: déclare x = f(); si …: arrêter; g(x) */
  const BREAK_EARLY: seq<Stmt> := [TantQue([], BREAK_BODY)]
  const BREAK_BODY: seq<Stmt> := [Declare(0, Result([])), Si([], [Arreter], []), Eval([Use(0)])]

  /** déclare x = f(); … et g(x) */
  const SKIPPED: seq<Stmt> := [Declare(0, Result([])), Eval([Perhaps([Use(0)])])]

  lemma BindLast(a: Analysis, front: seq<Scope>, s: Scope, x: Name, o: Option<nat>)
    requires a.scopes == front + [s]
    ensures Bind(a, x, o) == a.(scopes := front + [s[x := o]])
  {
    assert (front + [s])[..|front|] == front;
  }

  lemma DeclareResult(a: Analysis, front: seq<Scope>, x: Name)
    requires a.scopes == front + [map[]]
    ensures Statement(a, Declare(x, Result([]))) ==
            a.(scopes := front + [map[x := Some(a.next)]], active := a.active + {a.next}, next := a.next + 1)
  {
    hide Bind;
    var b := DeclareLocal(a, x);
    BindLast(a, front, map[], x, None);
    var none: Scope := map[x := None];
    assert map[][x := None] == none;
    assert Steps(b, []) == b;
    assert Find(b.scopes, x) == Some(None);
    BindLast(b, front, none, x, Some(b.next));
    assert none[x := Some(b.next)] == map[x := Some(b.next)];
  }

  lemma RunDeclareResult(r: Run, front: seq<Scope>, x: Name)
    requires r.scopes == front + [map[]] && r.signal == Normal && r.used == {}
    ensures Execute(r, Declare(x, Result([]))) == r.(scopes := front + [map[x := Some(r.next)]], next := r.next + 1)
  {
    assert (front + [map[]])[..|front|] == front;
    assert RunSteps(r, []) == r;
    assert map[][x := Some(r.next)] == map[x := Some(r.next)];
  }

  lemma ReadHere(a: Analysis, front: seq<Scope>, x: Name, id: nat)
    requires a.scopes == front + [map[x := Some(id)]]
    ensures Steps(a, [Use(x)]) == a.(active := a.active - {id})
  {
    var e: Expr := [Use(x)];
    assert e[1..] == [];
    assert Steps(a, e) == Steps(OneStep(a, e[0]), e[1..]);
  }

  lemma Two(a: Analysis, s: Stmt, t: Stmt)
    ensures Statements(a, [s, t]) == Statement(Statement(a, s), t)
  {
    hide Statement;
    var ss, b := [s, t], Statement(a, s);
    assert ss[1..] == [t] && [t][1..] == [];
    assert Statements(a, ss) == Statements(b, ss[1..]);
    assert Statements(b, [t]) == Statements(Statement(b, t), [t][1..]);
  }

  lemma RunTwo(r: Run, s: Stmt, t: Stmt)
    ensures ExecuteAll(r, [s, t]) == Execute(Execute(r, s), t)
  {
    hide Execute;
    var ss, b := [s, t], Execute(r, s);
    assert ss[1..] == [t] && [t][1..] == [];
    assert ExecuteAll(r, ss) == ExecuteAll(b, ss[1..]);
    assert ExecuteAll(b, [t]) == ExecuteAll(Execute(b, t), [t][1..]);
  }

  lemma StartScope()
    ensures FunctionScope([], []) == START.(scopes := [] + [map[]])
  {}

  lemma CalledScope(choices: seq<bool>)
    ensures Called([], [], choices) == Run([] + [map[]], {}, 0, false, false, choices, Normal)
  {}

  /** A result whose only use is the right operand of `et` or `ou` is accepted and lost. */
  lemma SkippedOperandLosesResult()
    ensures Function([], [], SKIPPED).diagnostics == {}
    ensures ExecuteFunction([], [], SKIPPED, [false]).leaked
  {
    hide Statement, Statements, Execute, ExecuteAll, FunctionScope, Called, Steps, RunSteps;
    var a, r := FunctionScope([], []), Called([], [], [false]);
    var use: Expr := [Perhaps([Use(0)])];
    StartScope();
    CalledScope([false]);
    Two(a, Declare(0, Result([])), Eval(use));
    RunTwo(r, Declare(0, Result([])), Eval(use));
    DeclareResult(a, [], 0);
    RunDeclareResult(r, [], 0);
    SkipsPerhaps(Statement(a, Declare(0, Result([]))), Execute(r, Declare(0, Result([]))));
    HeldOne();
  }

  lemma SkipsPerhaps(a: Analysis, r: Run)
    requires a.scopes == [] + [map[0 := Some(0)]] && r.signal == Normal && r.used == {} && r.choices == [false]
    ensures Statement(a, Eval([Perhaps([Use(0)])])) == a.(active := a.active - {0})
    ensures Execute(r, Eval([Perhaps([Use(0)])])) == Skip(r.(choices := []), [Use(0)])
  {
    var use: Expr := [Perhaps([Use(0)])];
    assert use[1..] == [];
    ReadHere(a, [], 0, 0);
    hide Steps, RunSteps;
    OnlyStep(a, r, use[0]);
  }

  lemma OnlyStep(a: Analysis, r: Run, s: Step)
    requires r.signal == Normal
    ensures Steps(a, [s]) == OneStep(a, s) && RunSteps(r, [s]) == RunStep(r, s)
  {
    assert [s][1..] == [];
    hide OneStep, RunStep;
  }

  /** A loop left by `arrêter` before the result of the round is used is accepted, and the
      result lost. */
  lemma BreakLosesResult()
    ensures Function([], [], BREAK_EARLY).diagnostics == {}
    ensures ExecuteFunction([], [], BREAK_EARLY, [true, true]).leaked
  {
    hide Statement, Statements, Execute, ExecuteAll, FunctionScope, Called, Steps, RunSteps;
    var a, r := FunctionScope([], []), Called([], [], [true, true]);
    StartScope();
    CalledScope([true, true]);
    Single(a, BREAK_EARLY[0], r);
    BreakAccepted(a);
    BreakLeaks(r);
  }

  lemma Single(a: Analysis, s: Stmt, r: Run)
    ensures Statements(a, [s]) == Statement(a, s) && ExecuteAll(r, [s]) == Execute(r, s)
  {
    hide Statement, Execute;
    assert [s][1..] == [];
  }

  lemma BreakAccepted(a: Analysis)
    requires a == START.(scopes := [] + [map[]])
    ensures Statement(a, BREAK_EARLY[0]) == a.(next := 1)
  {
    hide Statements, InScope, Merge, Steps;
    NoStepsAtAll(a);
    var baseline := State({}, 0);
    var inside := a.(baselines := [] + [baseline]);
    BodyAccepted(inside);
    MergeNothing(InScope(inside, [], BREAK_BODY).(baselines := []), baseline,
                 [baseline, State({}, 1)]);
  }

  lemma NoStepsAtAll(a: Analysis)
    ensures Steps(a, []) == a
  {}

  lemma MergeNothing(a: Analysis, baseline: State, paths: seq<State>)
    requires baseline.known == 0 && a.active == {}
    ensures Merge(a, baseline, paths) == a
  {}

  lemma BodyAccepted(a: Analysis)
    requires a == Analysis([] + [map[]], {}, 0, [] + [State({}, 0)], {}, {})
    ensures InScope(a, [], BREAK_BODY) == a.(next := 1)
  {
    hide Statement, Statements;
    var b := PushScope(a);
    var d := Statement(b, BREAK_BODY[0]);
    var e := Statement(d, BREAK_BODY[1]);
    var f := Statement(e, BREAK_BODY[2]);
    DeclareResult(b, [map[]], 0);
    BreakBranch(d);
    ReadHere(e, [map[]], 0, 0);
    EvalIs(e, BREAK_BODY[2].e);
    Three(b, BREAK_BODY);
    assert DeclareNames(b, []) == b;
    assert (a.scopes + [map[0 := Some(0)]])[..1] == a.scopes;
  }

  lemma EvalIs(a: Analysis, e: Expr)
    ensures Statement(a, Eval(e)) == Steps(a, e)
  {}

  lemma Three(a: Analysis, ss: seq<Stmt>)
    requires |ss| == 3
    ensures Statements(a, ss) == Statement(Statement(Statement(a, ss[0]), ss[1]), ss[2])
  {
    hide Statement;
    assert ss[1..][1..] == ss[2..] && ss[2..][1..] == [];
    var b := Statement(a, ss[0]);
    var c := Statement(b, ss[1]);
    assert Statements(a, ss) == Statements(b, ss[1..]);
    assert Statements(b, ss[1..]) == Statements(c, ss[1..][1..]);
    assert Statements(c, ss[2..]) == Statements(Statement(c, ss[2]), ss[2..][1..]);
  }

  /** A branch that only leaves the loop changes nothing. */
  lemma BreakBranch(d: Analysis)
    requires d == Analysis([map[]] + [map[0 := Some(0)]], d.active, 1, [] + [State({}, 0)], {}, {}) && d.active <= {0}
    ensures Statement(d, BREAK_BODY[1]) == d
  {
    hide Statements, Merge, Steps;
    NoStepsAtAll(d);
    EmptyScopes(d);
    var s := State(d.active, 1);
    assert Restore(d, s) == d;
    assert Merge(d, s, [s, s]) == d by { MergeSame(d, s); }
  }

  lemma MergeSame(a: Analysis, s: State)
    requires s == Snapshot(a) && forall id | id in a.active :: id < s.known
    ensures Merge(a, s, [s, s]) == a
  {
    assert s in [s, s];
  }

  lemma EmptyScopes(d: Analysis)
    requires d.baselines != []
    ensures InScope(d, [], []) == d && InScope(d, [], [Arreter]) == d
  {
    hide PopScope, Statements;
    var b := PushScope(d);
    NoNames(b);
    PushPop(d);
    NoStatement(b);
    OnlyBreak(b);
  }

  lemma NoNames(a: Analysis)
    ensures DeclareNames(a, []) == a
  {}

  lemma NoStatement(a: Analysis)
    ensures Statements(a, []) == a
  {}

  lemma OnlyBreak(a: Analysis)
    requires a.baselines != []
    ensures Statements(a, [Arreter]) == a
  {
    assert CheckBreak(a) == a;
    BreakIs(a);
    hide Statement;
    var ss := [Arreter];
    assert ss[1..] == [];
    assert Statements(a, ss) == Statements(Statement(a, Arreter), ss[1..]);
  }

  lemma BreakIs(a: Analysis)
    ensures Statement(a, Arreter) == CheckBreak(a)
  {}

  lemma PushPop(d: Analysis)
    ensures PopScope(PushScope(d)) == d
  {
    hide Owned;
    assert (d.scopes + [map[]])[..|d.scopes|] == d.scopes;
    assert Held(map[]) == {};
  }

  lemma BreakLeaks(r: Run)
    requires r == Run([] + [map[]], {}, 0, false, false, [true, true], Normal)
    ensures Execute(r, BREAK_EARLY[0]).leaked && Execute(r, BREAK_EARLY[0]).signal == Normal
  {
    hide ExecuteIn;
    var d := r.(choices := [true]);
    BodyLeaks(d);
    assert RunSteps(r, []) == r;
    assert Choose(r) == (true, d);
  }

  lemma BodyLeaks(c: Run)
    requires c == Run([] + [map[]], {}, 0, false, false, [true], Normal)
    ensures ExecuteIn(c, [], BREAK_BODY).leaked && ExecuteIn(c, [], BREAK_BODY).signal == Breaking
  {
    hide Execute, ExecuteAll;
    var b := Enter(c);
    var d := Execute(b, BREAK_BODY[0]);
    var e := Execute(d, BREAK_BODY[1]);
    RunDeclareResult(b, [map[]], 0);
    BreakTaken(d);
    RunThree(b, BREAK_BODY);
    assert HoldingNone(b, []) == b;
    HeldOne();
    NothingOwned();
    var rest: seq<Scope> := [map[]];
    assert e.scopes[..1] == rest;
    assert 0 in Held(e.scopes[1]) - e.used - Owned(rest);
    assert ExecuteAll(b, BREAK_BODY) == e;
  }

  lemma HeldOne()
    ensures 0 in Held(map[0 := Some(0)])
  {
    var s: Scope := map[0 := Some(0)];
    assert s[0].value in Held(s);
  }

  lemma NothingOwned()
    ensures Owned([map[]]) == {}
  {
    var s: seq<Scope> := [map[]];
    assert s[..0] == [] && Held(map[]) == {};
  }

  lemma BreakTaken(d: Run)
    requires d == Run([map[]] + [map[0 := Some(0)]], {}, 1, false, false, [true], Normal)
    ensures Execute(d, BREAK_BODY[1]) == d.(choices := [], signal := Breaking)
  {
    assert RunSteps(d, []) == d;
    var e := d.(choices := []);
    assert [true][1..] == [];
    assert Choose(d) == (true, e);
    assert (d.scopes + [map[]])[..2] == d.scopes;
    assert HoldingNone(Enter(e), []) == Enter(e);
    assert [Arreter][1..] == [];
    assert ExecuteAll(Enter(e), [Arreter]) == ExecuteAll(Execute(Enter(e), Arreter), []);
    assert Held(map[]) == {};
  }

  lemma RunThree(r: Run, ss: seq<Stmt>)
    requires |ss| == 3
    ensures Execute(Execute(r, ss[0]), ss[1]).signal != Normal ==>
              ExecuteAll(r, ss) == Execute(Execute(r, ss[0]), ss[1])
  {
    var d := Execute(Execute(r, ss[0]), ss[1]);
    assert d.signal != Normal ==> Execute(d, ss[2]) == d;
    hide Execute;
    assert ss[1..][1..] == ss[2..] && ss[2..][1..] == [];
    var b := Execute(r, ss[0]);
    assert ExecuteAll(r, ss) == ExecuteAll(b, ss[1..]);
    assert ExecuteAll(b, ss[1..]) == ExecuteAll(d, ss[1..][1..]);
    assert ExecuteAll(d, ss[2..]) == ExecuteAll(Execute(d, ss[2]), ss[2..][1..]);
  }

  // The same constructs without a loss

  /** tant que …: déclare x = f(); g(x); si …: arrêter */
  const BREAK_LATE: seq<Stmt> := [TantQue([], USED_BODY)]
  const USED_BODY: seq<Stmt> := [Declare(0, Result([])), Eval([Use(0)]), Si([], [Arreter], [])]

  /** déclare x = f(); … et g(x); h(x) */
  const READ_LATER: seq<Stmt> := [Declare(0, Result([])), Eval([Perhaps([Use(0)])]), Eval([Use(0)])]

  lemma FlowDeclareResult(a: Flow, front: seq<Scope>, x: Name, d: nat)
    requires a.scopes == front + [map[]] && d <= |a.scopes| && a.open == {} && a.live
    ensures FlowStatement(a, Declare(x, Result([])), d) ==
            a.(scopes := front + [map[x := Some(a.next)]], open := {a.next}, next := a.next + 1)
  {
    hide Owned;
    assert (front + [map[]])[..|front|] == front;
    assert FlowSteps(a, []) == a;
    assert map[][x := Some(a.next)] == map[x := Some(a.next)];
  }

  lemma FlowUse(a: Flow, front: seq<Scope>, x: Name, id: nat)
    requires a.scopes == front + [map[x := Some(id)]]
    ensures FlowSteps(a, [Use(x)]) == a.(open := a.open - {id})
  {
    var e: Expr := [Use(x)];
    assert e[1..] == [];
    assert FlowSteps(a, e) == FlowSteps(FlowStep(a, e[0]), e[1..]);
  }

  lemma FlowThree(a: Flow, ss: seq<Stmt>, d: nat)
    requires |ss| == 3 && a.scopes != [] && d <= |a.scopes|
    ensures FlowAll(a, ss, d) == FlowStatement(FlowStatement(FlowStatement(a, ss[0], d), ss[1], d), ss[2], d)
  {
    hide FlowStatement;
    assert ss[1..][1..] == ss[2..] && ss[2..][1..] == [];
    var b := FlowStatement(a, ss[0], d);
    var c := FlowStatement(b, ss[1], d);
    assert FlowAll(a, ss, d) == FlowAll(b, ss[1..], d);
    assert FlowAll(b, ss[1..], d) == FlowAll(c, ss[1..][1..], d);
    assert FlowAll(c, ss[2..], d) == FlowAll(FlowStatement(c, ss[2], d), ss[2..][1..], d);
  }

  lemma FlowBegins()
    ensures FlowStart([], []) == Flow([] + [map[]], {}, 0, true, false)
  {
    assert NoResults([]) == map[];
  }

  /** An operand that may be skipped does no harm where the result is read anyway. */
  lemma ReadLaterIsSafe()
    ensures Function([], [], READ_LATER).diagnostics == {}
    ensures !LosesResult([], [], READ_LATER)
    ensures forall choices: seq<bool> :: !ExecuteFunction([], [], READ_LATER, choices).leaked
  {
    PathLosses.LossIsExact([], [], READ_LATER);
    hide Statement, Statements, FunctionScope, Steps, FlowStart, FlowStatement, FlowAll, FlowSteps, ExecuteFunction;
    StartScope();
    var a := FunctionScope([], []);
    Three(a, READ_LATER);
    DeclareResult(a, [], 0);
    var b := Statement(a, READ_LATER[0]);
    SkipsPerhaps(b, Run(b.scopes, {}, 0, false, false, [false], Normal));
    var c := Statement(b, READ_LATER[1]);
    EvalIs(c, READ_LATER[2].e);
    ReadHere(c, [], 0, 0);
    FlowBegins();
    var f := FlowStart([], []);
    FlowThree(f, READ_LATER, 0);
    FlowDeclareResult(f, [], 0, 0);
    FlowReads(FlowStatement(f, READ_LATER[0], 0));
  }

  lemma FlowReads(a: Flow)
    requires a == Flow([] + [map[0 := Some(0)]], {0}, 1, true, false)
    ensures FlowStatement(FlowStatement(a, READ_LATER[1], 0), READ_LATER[2], 0) == a.(open := {})
  {
    FlowUse(a, [], 0, 0);
    FlowPerhaps(a, [Use(0)]);
    hide FlowSteps;
  }

  lemma FlowPerhaps(a: Flow, e: Expr)
    ensures FlowSteps(a, [Perhaps(e)]) == a.(lost := FlowSteps(a, e).lost)
  {
    var f: Expr := [Perhaps(e)];
    assert f[1..] == [];
    assert FlowSteps(a, f) == FlowSteps(FlowStep(a, f[0]), f[1..]);
  }

  /** Nor does `arrêter` once the result of the round has been read. */
  lemma BreakLateIsSafe()
    ensures Function([], [], BREAK_LATE).diagnostics == {}
    ensures !LosesResult([], [], BREAK_LATE)
    ensures forall choices: seq<bool> :: !ExecuteFunction([], [], BREAK_LATE, choices).leaked
  {
    PathLosses.LossIsExact([], [], BREAK_LATE);
    hide Statement, Statements, FunctionScope, FlowStart, FlowStatement, ExecuteFunction;
    var a := FunctionScope([], []);
    StartScope();
    Single(a, BREAK_LATE[0], Called([], [], []));
    LateAccepted(a);
    FlowBegins();
    var f := FlowStart([], []);
    assert BREAK_LATE[1..] == [];
    assert FlowAll(f, BREAK_LATE, 0) == FlowAll(FlowStatement(f, BREAK_LATE[0], 0), BREAK_LATE[1..], 0);
    LateKeeps(f);
  }

  lemma LateAccepted(a: Analysis)
    requires a == START.(scopes := [] + [map[]])
    ensures Statement(a, BREAK_LATE[0]) == a.(next := 1)
  {
    hide Statements, InScope, Merge, Steps;
    NoStepsAtAll(a);
    var baseline := State({}, 0);
    UsedBodyAccepted(a.(baselines := [] + [baseline]));
    MergeNothing(InScope(a.(baselines := [] + [baseline]), [], USED_BODY).(baselines := []), baseline, [baseline, State({}, 1)]);
  }

  lemma UsedBodyAccepted(a: Analysis)
    requires a == Analysis([] + [map[]], {}, 0, [] + [State({}, 0)], {}, {})
    ensures InScope(a, [], USED_BODY) == a.(next := 1)
  {
    hide Statement, Statements;
    var b := PushScope(a);
    var d := Statement(b, USED_BODY[0]);
    var e := Statement(d, USED_BODY[1]);
    DeclareResult(b, [map[]], 0);
    EvalIs(d, USED_BODY[1].e);
    ReadHere(d, [map[]], 0, 0);
    BreakBranch(e);
    Three(b, USED_BODY);
    assert DeclareNames(b, []) == b;
    assert (a.scopes + [map[0 := Some(0)]])[..1] == a.scopes;
  }

  lemma LateKeeps(a: Flow)
    requires a == Flow([] + [map[]], {}, 0, true, false)
    ensures FlowStatement(a, BREAK_LATE[0], 0) == a
  {
    hide FlowIn;
    assert FlowSteps(a, []) == a;
    LateRound(a);
  }

  lemma LateRound(a: Flow)
    requires a == Flow([] + [map[]], {}, 0, true, false)
    ensures !FlowIn(a, [], USED_BODY, 1).lost
  {
    hide FlowStatement, FlowAll, FlowSteps;
    assert NoResults([]) == map[];
    var b := FlowEnter(a, []);
    assert b.scopes == [map[]] + [map[]];
    FlowDeclareResult(b, [map[]], 0, 1);
    var c := FlowStatement(b, USED_BODY[0], 1);
    FlowUse(c, [map[]], 0, 0);
    FlowEval(c, [Use(0)], 1);
    LeavesSafely(FlowStatement(c, USED_BODY[1], 1));
    FlowThree(b, USED_BODY, 1);
  }

  lemma FlowEval(a: Flow, e: Expr, d: nat)
    requires a.scopes != [] && d <= |a.scopes|
    ensures FlowStatement(a, Eval(e), d) == FlowSteps(a, e)
  {}

  lemma LeavesSafely(a: Flow)
    requires |a.scopes| == 2 && a.open == {} && !a.lost
    ensures var b := FlowStatement(a, USED_BODY[2], 1); b.open == {} && !b.lost
  {
    hide Owned;
    assert FlowSteps(a, []) == a;
    var s := FlowEnter(a, []);
    assert [Arreter][1..] == [];
    assert FlowAll(s, [Arreter], 1) == FlowAll(FlowStatement(s, Arreter, 1), [], 1);
  }
}
