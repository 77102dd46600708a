/** What every part of the obligation analysis keeps. */
module ObligationLaws {
  import opened Utf8
  import opened ObligationAnalysis

  // What analysing more keeps

  lemma LaterThrough(a: Analysis, b: Analysis, c: Analysis)
    requires Later(a, b) && Later(b, c)
    ensures Later(a, c)
  {}

  /** Expressions only settle obligations. */
  ghost predicate Settled(a: Analysis, b: Analysis) {
    && b.scopes == a.scopes && b.active <= a.active && b.next == a.next && b.baselines == a.baselines
    && a.diagnosed <= b.diagnosed && a.diagnostics <= b.diagnostics
    && (WellFormed(a) ==> WellFormed(b))
  }

  lemma {:induction false} StepsSettle(a: Analysis, e: Expr)
    ensures Settled(a, Steps(a, e))
    decreases e
  {
    if e != [] {
      hide WellFormed, OneStep;
      StepSettles(a, e[0]);
      StepsSettle(OneStep(a, e[0]), e[1..]);
    }
  }

  lemma {:induction false} StepSettles(a: Analysis, s: Step)
    ensures Settled(a, OneStep(a, s))
    decreases s
  {
    match s {
      case Use(name) =>
      case Propager =>
      case Perhaps(steps) => StepsSettle(a, steps);
    }
  }

  lemma BindKeeps(a: Analysis, name: Name, o: Option<nat>)
    requires a.scopes != []
    ensures Later(a, Bind(a, name, o))
    ensures Owned(Bind(a, name, o).scopes) <= Owned(a.scopes) + (if o.Some? then {o.value} else {})
    ensures WellFormed(a) && (o.Some? ==> o.value < a.next) ==> WellFormed(Bind(a, name, o))
  {
    var n := |a.scopes| - 1;
    var b := Bind(a, name, o);
    assert b.scopes[..n] == a.scopes[..n];
    var rest := Owned(a.scopes[..n]);
    assert Owned(a.scopes) == rest + Held(a.scopes[n]);
    assert Owned(b.scopes) == rest + Held(a.scopes[n][name := o]);
  }

  lemma DeclareKeeps(a: Analysis, name: Name)
    ensures Later(a, DeclareLocal(a, name)) && DeclareLocal(a, name).active == a.active
    ensures WellFormed(a) ==> WellFormed(DeclareLocal(a, name))
  {
    if a.scopes != [] && name !in a.scopes[|a.scopes| - 1] {
      BindKeeps(a, name, None);
    }
  }

  lemma {:induction false} DeclareNamesKeeps(a: Analysis, names: seq<Name>)
    ensures Later(a, DeclareNames(a, names)) && DeclareNames(a, names).active == a.active
    ensures WellFormed(a) ==> WellFormed(DeclareNames(a, names))
    decreases |names|
  {
    if names != [] {
      hide WellFormed, DeclareLocal;
      DeclareKeeps(a, names[0]);
      DeclareNamesKeeps(DeclareLocal(a, names[0]), names[1..]);
    }
  }

  lemma CreateKeeps(a: Analysis, name: Name)
    requires a.scopes != []
    ensures Later(a, CreateObligation(a, name))
    ensures WellFormed(a) ==> WellFormed(CreateObligation(a, name))
  {
    BindKeeps(a.(next := a.next + 1), name, Some(a.next));
    hide Owned, Held;
    BindKeeps(a, name, Some(a.next));
  }

  lemma FoundIsOwned(scopes: seq<Scope>, name: Name)
    ensures Find(scopes, name).Some? && Find(scopes, name).value.Some? ==> Find(scopes, name).value.value in Owned(scopes)
  {}

  lemma DeclarationKeeps(a: Analysis, name: Name, init: Init)
    requires a.scopes != []
    ensures Later(a, Declaration(a, name, init))
    ensures WellFormed(a) ==> WellFormed(Declaration(a, name, init))
  {
    hide WellFormed, DeclareLocal, Steps, Bind, CreateObligation, Find;
    DeclareKeeps(a, name);
    var d := DeclareLocal(a, name);
    match init {
      case Plain(e) => StepsSettle(d, e);
      case Result(e) =>
        StepsSettle(d, e);
        CreateKeeps(Steps(d, e), name);
      case Alias(source) =>
        StepSettles(d, Use(source));
        var b := Consume(d, source);
        CreateKeeps(b, name);
        FoundIsOwned(b.scopes, source);
        AliasKeeps(b, name, Find(b.scopes, source));
    }
  }

  lemma AliasKeeps(b: Analysis, name: Name, found: Option<Option<nat>>)
    requires b.scopes != []
    requires found.Some? && found.value.Some? ==> found.value.value in Owned(b.scopes)
    ensures found.Some? && found.value.Some? ==>
              var c := Bind(b, name, found.value).(active := b.active + {found.value.value});
              Later(b, c) && (WellFormed(b) ==> WellFormed(c))
  {
    hide Owned, Held, Bind;
    if found.Some? && found.value.Some? {
      BindKeeps(b, name, found.value);
      BindActive(b, name, found.value);
    }
  }

  lemma BindActive(b: Analysis, name: Name, o: Option<nat>)
    requires b.scopes != []
    ensures Bind(b, name, o).active == b.active && Bind(b, name, o).next == b.next
  {}

  /** Leaving the scope that was entered. */
  lemma PopKeeps(a: Analysis, b: Analysis)
    requires Later(PushScope(a), b)
    ensures b.scopes != [] && PopScope(b).scopes == a.scopes && Later(a, PopScope(b))
    ensures WellFormed(b) ==> WellFormed(PopScope(b))
  {
    assert PushScope(a).scopes[..|a.scopes|] == a.scopes;
    if WellFormed(b) {
      assert Owned(b.scopes) == Owned(b.scopes[..|a.scopes|]) + Held(b.scopes[|a.scopes|]);
    }
  }

  lemma PushKeeps(a: Analysis)
    ensures Owned(PushScope(a).scopes) == Owned(a.scopes)
    ensures WellFormed(a) ==> WellFormed(PushScope(a))
  {
    assert PushScope(a).scopes[..|a.scopes|] == a.scopes;
    assert Held(map[]) == {};
  }

  lemma MergeKeeps(a: Analysis, baseline: State, paths: seq<State>)
    requires baseline.known <= a.next
    ensures Later(a, Merge(a, baseline, paths)) && Merge(a, baseline, paths).scopes == a.scopes
    ensures WellFormed(a) ==> WellFormed(Merge(a, baseline, paths))
  {}

  lemma RestoreKeeps(a: Analysis, s: State)
    requires s.known <= a.next && forall id | id in s.active :: id < s.known
    ensures Later(a, Restore(a, s)) && Restore(a, s).scopes == a.scopes
    ensures WellFormed(a) ==> WellFormed(Restore(a, s))
  {}

  lemma ChecksKeep(a: Analysis)
    ensures CheckExit(a).scopes == CheckPossibleExit(a).scopes == CheckContinue(a).scopes == CheckBreak(a).scopes == a.scopes
    ensures Later(a, CheckExit(a)) && Later(a, CheckPossibleExit(a)) && Later(a, CheckContinue(a)) && Later(a, CheckBreak(a))
    ensures WellFormed(a) ==> && WellFormed(CheckExit(a)) && WellFormed(CheckPossibleExit(a))
                              && WellFormed(CheckContinue(a)) && WellFormed(CheckBreak(a))
  {
    hide Owned;
  }

  ghost predicate Kept(a: Analysis, b: Analysis) {
    Later(a, b) && WellFormed(b)
  }

  lemma {:induction false} StatementKeeps(a: Analysis, s: Stmt)
    requires WellFormed(a)
    ensures Kept(a, Statement(a, s))
    ensures !s.Declare? ==> Statement(a, s).scopes == a.scopes
    decreases s, 0
  {
    hide WellFormed, Steps, InScope, Loop, Branches, Declaration, Merge, Restore, CheckExit, CheckContinue, CheckBreak;
    match s {
      case Eval(e) => StepsSettle(a, e);
      case Declare(name, init) =>
        if a.scopes != [] {
          DeclarationKeeps(a, name, init);
        }
      case Block(statements) => InScopeKeeps(a, [], statements);
      case Si(condition, thenBranch, elseBranch) =>
        StepsSettle(a, condition);
        var c := Steps(a, condition);
        var baseline := Snapshot(c);
        InScopeKeeps(c, [], thenBranch);
        var t := InScope(c, [], thenBranch);
        SnapshotIsKnown(c);
        RestoreKeeps(t, baseline);
        InScopeKeeps(Restore(t, baseline), [], elseBranch);
        var e := InScope(Restore(t, baseline), [], elseBranch);
        MergeKeeps(e, baseline, [Snapshot(t), Snapshot(e)]);
      case TantQue(condition, body) =>
        StepsSettle(a, condition);
        LoopKeeps(Steps(a, condition), [], body);
      case Pour(iterable, variable, body) =>
        StepsSettle(a, iterable);
        LoopKeeps(Steps(a, iterable), [variable], body);
      case Continuer => ChecksKeep(a);
      case Arreter => ChecksKeep(a);
      case Retourne(e) =>
        StepsSettle(a, e);
        ChecksKeep(Steps(a, e));
      case AgirSelon(subject, branches, hasElse, elseBranch, isResult) =>
        StepsSettle(a, subject);
        var c := Steps(a, subject);
        var baseline := Snapshot(c);
        SnapshotIsKnown(c);
        BranchesKeep(c, baseline, branches);
        var (b, paths) := Branches(c, baseline, branches);
        RestoreKeeps(b, baseline);
        InScopeKeeps(Restore(b, baseline), [], elseBranch);
        var e := InScope(Restore(b, baseline), [], elseBranch);
        MergeKeeps(e, baseline, paths + [Snapshot(e)]);
        MergeKeeps(b, baseline, if isResult then paths else paths + [baseline]);
    }
  }

  lemma SnapshotIsKnown(a: Analysis)
    requires WellFormed(a)
    ensures forall id | id in Snapshot(a).active :: id < Snapshot(a).known
  {}

  lemma {:induction false} InScopeKeeps(a: Analysis, names: seq<Name>, statements: seq<Stmt>)
    requires WellFormed(a)
    ensures Kept(a, InScope(a, names, statements)) && InScope(a, names, statements).scopes == a.scopes
    decreases statements, 1
  {
    hide WellFormed, DeclareNames, Statements, PopScope, PushScope, Later;
    PushKeeps(a);
    DeclareNamesKeeps(PushScope(a), names);
    var d := DeclareNames(PushScope(a), names);
    StatementsKeep(d, statements);
    LaterThrough(PushScope(a), d, Statements(d, statements));
    PopKeeps(a, Statements(d, statements));
  }

  lemma {:induction false} StatementsKeep(a: Analysis, statements: seq<Stmt>)
    requires WellFormed(a)
    ensures Kept(a, Statements(a, statements))
    decreases statements, 0
  {
    if statements != [] {
      hide WellFormed, Statement, Later;
      StatementKeeps(a, statements[0]);
      var b := Statement(a, statements[0]);
      StatementsKeep(b, statements[1..]);
      LaterThrough(a, b, Statements(b, statements[1..]));
    } else {
      assert Later(a, a);
    }
  }

  lemma {:induction false} LoopKeeps(a: Analysis, names: seq<Name>, body: seq<Stmt>)
    requires WellFormed(a)
    ensures Kept(a, Loop(a, names, body)) && Loop(a, names, body).scopes == a.scopes
    decreases body, 2
  {
    hide InScope, Merge, WellFormed;
    var baseline := Snapshot(a);
    var inside := a.(baselines := a.baselines + [baseline]);
    OtherBaselines(a, inside);
    InScopeKeeps(inside, names, body);
    var b := InScope(inside, names, body);
    OtherBaselines(b, b.(baselines := a.baselines));
    MergeKeeps(b.(baselines := a.baselines), baseline, [baseline, Snapshot(b.(baselines := a.baselines))]);
  }

  lemma OtherBaselines(a: Analysis, b: Analysis)
    requires WellFormed(a) && b == a.(baselines := b.baselines)
    ensures WellFormed(b)
  {}

  lemma {:induction false} BranchesKeep(a: Analysis, baseline: State, branches: seq<Branch>)
    requires WellFormed(a) && baseline.known <= a.next && forall id | id in baseline.active :: id < baseline.known
    ensures Kept(a, Branches(a, baseline, branches).0) && Branches(a, baseline, branches).0.scopes == a.scopes
    decreases branches, 0
  {
    if branches != [] {
      hide WellFormed, OneBranch, Restore;
      RestoreKeeps(a, baseline);
      OneBranchKeeps(Restore(a, baseline), branches[0]);
      BranchesKeep(OneBranch(Restore(a, baseline), branches[0]), baseline, branches[1..]);
    }
  }

  lemma {:induction false} OneBranchKeeps(a: Analysis, branch: Branch)
    requires WellFormed(a)
    ensures Kept(a, OneBranch(a, branch)) && OneBranch(a, branch).scopes == a.scopes
    decreases branch, 0
  {
    if branch.ending.Body? {
      InScopeKeeps(a, branch.names, branch.ending.statements);
    } else {
      hide WellFormed, DeclareNames, PopScope, PushScope, Later, CheckPossibleExit;
      PushKeeps(a);
      DeclareNamesKeeps(PushScope(a), branch.names);
      var d := DeclareNames(PushScope(a), branch.names);
      PopKeeps(a, d);
      ChecksKeep(d);
      LaterThrough(PushScope(a), d, CheckPossibleExit(d));
      PopKeeps(a, CheckPossibleExit(d));
    }
  }
}
