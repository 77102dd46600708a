/** Soundness of the obligation analysis: when it reports nothing, a run of the function loses
    a result only where a scope is left by `arrêter`, or after an operand that reads an
    unread result was skipped.
 */
module AcceptedFunctions {
  import opened Utf8
  import opened ObligationAnalysis
  import opened ObligationLaws
  import opened ResultRuns
  import opened PathSoundness
  import opened RunSimulation

  // Declarations

  lemma ImagesAgree(of: map<nat, nat>, to: map<nat, nat>, ss: seq<Scope>, ts: seq<Scope>)
    requires Images(of, ss, ts) && forall id | id in of && id in Owned(ss) :: id in to && to[id] == of[id]
    ensures Images(to, ss, ts)
  {
    forall k | 0 <= k < |ss| ensures Image(to, ss[k], ts[k]) {
      assert Image(of, ss[k], ts[k]);
      forall x | x in ss[k] && ss[k][x].Some? ensures ss[k][x].value in Owned(ss) {
        HeldIsOwned(ss, k, x);
      }
    }
  }

  lemma {:induction false} HeldIsOwned(ss: seq<Scope>, k: nat, x: Name)
    requires k < |ss| && x in ss[k] && ss[k][x].Some?
    ensures ss[k][x].value in Owned(ss)
    decreases |ss|
  {
    if k < |ss| - 1 {
      HeldIsOwned(ss[..|ss| - 1], k, x);
    } else {
      assert ss[k][x].value in Held(ss[k]);
    }
  }

  /** A variable of the run and of the analysis is added together. */
  lemma RelBind(a: Analysis, c: Run, e: Run, of: map<nat, nat>, name: Name, id: nat, o: nat)
    requires a.scopes != [] && Rel(a.scopes, a.active, c, of) && (id in Owned(a.scopes) ==> id in of && of[id] == o)
    requires e.scopes == Holding(c, name, Some(o)).scopes && Remembers(c, e) && c.next <= e.next && o < e.next
    ensures Rel(Bind(a, name, Some(id)).scopes, a.active + {id}, e, of[id := o])
  {
    hide Images, Owned, Bind, Holding;
    ImagesBind(a, c, of, name, id, o);
    BindKeeps(a, name, Some(id));
  }

  lemma ImagesBind(a: Analysis, c: Run, of: map<nat, nat>, name: Name, id: nat, o: nat)
    requires a.scopes != [] && Images(of, a.scopes, c.scopes) && (id in Owned(a.scopes) ==> id in of && of[id] == o)
    ensures Images(of[id := o], Bind(a, name, Some(id)).scopes, Holding(c, name, Some(o)).scopes)
  {
    hide Owned;
    var n, to := |a.scopes| - 1, of[id := o];
    ImagesAgree(of, to, a.scopes, c.scopes);
    var ss, ts := Bind(a, name, Some(id)).scopes, Holding(c, name, Some(o)).scopes;
    assert ss[..n] == a.scopes[..n] && ts[..n] == c.scopes[..n];
    forall k | 0 <= k < |ss| ensures Image(to, ss[k], ts[k]) {
      assert Image(to, a.scopes[k], c.scopes[k]);
    }
  }

  lemma RelBindNone(a: Analysis, c: Run, of: map<nat, nat>, name: Name)
    requires a.scopes != [] && Rel(a.scopes, a.active, c, of)
    ensures Rel(Bind(a, name, None).scopes, a.active, Holding(c, name, None), of)
  {
    var n := |a.scopes| - 1;
    var ss, ts := Bind(a, name, None).scopes, Holding(c, name, None).scopes;
    assert ss[..n] == a.scopes[..n] && ts[..n] == c.scopes[..n];
    forall k | 0 <= k < |ss| ensures Image(of, ss[k], ts[k]) {
      assert Image(of, a.scopes[k], c.scopes[k]);
    }
    BindKeeps(a, name, None);
  }

  lemma BindTwice(a: Analysis, b: Analysis, name: Name, o: Option<nat>)
    requires a.scopes != [] && b.scopes == Bind(a, name, None).scopes
    ensures Bind(b, name, o).scopes == Bind(a, name, o).scopes
  {
    var n := |a.scopes| - 1;
    assert a.scopes[n][name := None][name := o] == a.scopes[n][name := o];
    assert b.scopes[..n] == a.scopes[..n];
  }

  /** A variable just declared has no obligation, and hides the one of its name. */
  lemma DeclaredSees(a: Analysis, name: Name)
    requires a.scopes != [] && name !in a.scopes[|a.scopes| - 1]
    ensures Sees(Bind(a, name, None).scopes, a.scopes)
    ensures Find(Bind(a, name, None).scopes, name) == Some(None)
  {
    var n := |a.scopes| - 1;
    var b := Bind(a, name, None);
    assert b.scopes[..n] == a.scopes[..n];
    forall id | id in Held(a.scopes[n]) ensures id in Held(b.scopes[n]) {
      var x :| x in a.scopes[n] && a.scopes[n][x] == Some(id);
      assert b.scopes[n][x] == Some(id);
    }
  }

  lemma NotRedeclared(a: Analysis, name: Name)
    requires a.scopes != [] && Silent(DeclareLocal(a, name))
    ensures name !in a.scopes[|a.scopes| - 1] && DeclareLocal(a, name) == Bind(a, name, None) && Silent(a)
  {
    DeclareKeeps(a, name);
  }

  /** What a statement did, in the run and in the analysis. */
  ghost predicate Outcome(a: Analysis, before: Run, c: Run, of: map<nat, nat>, d: nat) {
    c.gap ||
    (&& !c.leaked && Remembers(before, c) && before.next <= c.next
     && (c.signal == Normal ==> Rel(a.scopes, a.active, c, of))
     && (c.signal == Continuing ==> UnusedWithin(c, d))
     && (c.signal == Returning ==> UnusedWithin(c, 0))
     && (c.signal != Stopped ==> SameBelow(before.scopes, c.scopes)))
  }

  /** New variables carry new obligations, or those of others. */
  ghost predicate OwnedGrows(a: Analysis, b: Analysis) {
    forall id | id in Owned(b.scopes) :: id in Owned(a.scopes) || id >= a.next
  }

  lemma StillInLoop(a: Analysis, b: Analysis, d: nat)
    requires InLoop(a, d) && d < |a.scopes| && Later(a, b) && OwnedGrows(a, b)
    ensures InLoop(b, d)
  {
    var n := |a.scopes| - 1;
    assert a.scopes[..d] == a.scopes[..n][..d] == b.scopes[..d];
  }

  ghost predicate Ready(a: Analysis, c: Run, of: map<nat, nat>) {
    c.signal == Normal && !c.leaked && !c.gap && WellFormed(a) && Rel(a.scopes, a.active, c, of)
  }

  lemma DeclarationSound(a: Analysis, name: Name, init: Init, c: Run, of: map<nat, nat>,
            d: nat) returns (to: map<nat, nat>)
    requires a.scopes != [] && Ready(a, c, of) && Silent(Declaration(a, name, init)) && d <= |a.scopes|
    ensures Outcome(Declaration(a, name, init), c, RunDeclare(c, name, init), to, d)
    ensures OwnedGrows(a, Declaration(a, name, init))
  {
    hide Rel, Sees, Steps, RunSteps, WellFormed, Owned, Find, Bind, DeclareLocal, Holding, Consume, UnusedWithin, Opened,
      CreateObligation, HoldingNew;
    DeclarationSilent(a, name, init);
    NotRedeclared(a, name);
    DeclaredSees(a, name);
    match init {
      case Plain(e) => to := PlainSound(a, name, e, c, of, d);
      case Result(e) => to := ResultSound(a, name, e, c, of, d);
      case Alias(source) => to := AliasSound(a, name, source, c, of, d);
    }
  }

  /** Nothing was reported on the way. */
  lemma DeclarationSilent(a: Analysis, name: Name, init: Init)
    requires a.scopes != [] && Silent(Declaration(a, name, init))
    ensures Silent(DeclareLocal(a, name))
    ensures !init.Alias? ==> Silent(Steps(DeclareLocal(a, name), init.e))
  {
    hide DeclareLocal, Steps, Find, Bind, WellFormed;
    DeclareKeeps(a, name);
    var b := DeclareLocal(a, name);
    if !init.Alias? {
      StepsSettle(b, init.e);
      var s := Steps(b, init.e);
      if init.Result? {
        BindReportsNothing(s, name, Some(s.next));
      }
    } else {
      var s := Consume(b, init.source);
      StepSettles(b, Use(init.source));
      BindReportsNothing(s, name, Some(s.next));
      if Find(s.scopes, init.source).Some? {
        BindReportsNothing(s, name, Find(s.scopes, init.source).value);
      }
    }
  }

  lemma BindReportsNothing(a: Analysis, name: Name, o: Option<nat>)
    requires a.scopes != []
    ensures Bind(a, name, o) == a.(scopes := Bind(a, name, o).scopes)
  {}

  lemma HoldingChanges(c: Run, name: Name, o: Option<nat>)
    ensures Holding(c, name, o) == c.(scopes := Holding(c, name, o).scopes)
    ensures SameBelow(c.scopes, Holding(c, name, o).scopes)
  {}

  lemma PlainSound(a: Analysis, name: Name, e: Expr, c: Run, of: map<nat, nat>, d: nat) returns (to: map<nat, nat>)
    requires a.scopes != [] && Ready(a, c, of) && d <= |a.scopes|
    requires DeclareLocal(a, name) == Bind(a, name, None) && Sees(Bind(a, name, None).scopes, a.scopes)
    requires Silent(Steps(Bind(a, name, None), e))
    ensures Outcome(Declaration(a, name, Plain(e)), c, RunDeclare(c, name, Plain(e)), to, d)
    ensures OwnedGrows(a, Declaration(a, name, Plain(e)))
  {
    hide Rel, Sees, Steps, RunSteps, WellFormed, Owned, Bind, DeclareLocal, Holding, UnusedWithin;
    to := of;
    var b := Bind(a, name, None);
    BindReportsNothing(a, name, None);
    BindKeeps(a, name, None);
    StepsSound(b, e, c, of, a.scopes);
    var s, r := Steps(b, e), RunSteps(c, e);
    HoldingChanges(r, name, None);
    if r.signal == Normal && !r.gap {
      RelBindNone(a.(active := s.active), r, of, name);
      SameBind(a, a.(active := s.active), name, None);
    }
  }

  lemma SameBind(a: Analysis, b: Analysis, name: Name, o: Option<nat>)
    requires a.scopes != [] && a.scopes == b.scopes
    ensures Bind(a, name, o).scopes == Bind(b, name, o).scopes
  {}

  lemma ResultSound(a: Analysis, name: Name, e: Expr, c: Run, of: map<nat, nat>, d: nat) returns (to: map<nat, nat>)
    requires a.scopes != [] && Ready(a, c, of) && d <= |a.scopes|
    requires DeclareLocal(a, name) == Bind(a, name, None) && Sees(Bind(a, name, None).scopes, a.scopes)
    requires Find(Bind(a, name, None).scopes, name) == Some(None)
    requires Silent(Steps(Bind(a, name, None), e))
    ensures Outcome(Declaration(a, name, Result(e)), c, RunDeclare(c, name, Result(e)), to, d)
    ensures OwnedGrows(a, Declaration(a, name, Result(e)))
  {
    hide Rel, Sees, Steps, RunSteps, Owned, Find, Bind, DeclareLocal, Holding, UnusedWithin;
    to := of;
    var b := Bind(a, name, None);
    BindReportsNothing(a, name, None);
    BindKeeps(a, name, None);
    StepsSound(b, e, c, of, a.scopes);
    StepsSettle(b, e);
    var s, r := Steps(b, e), RunSteps(c, e);
    BindTwice(a, s, name, Some(s.next));
    BindReportsNothing(s, name, Some(s.next));
    BindKeeps(a, name, Some(s.next));
    MakingChanges(r, name);
    if r.signal == Normal && !r.gap {
      to := of[s.next := r.next];
      var like := a.(active := s.active);
      RelBind(like, r, HoldingNew(r, name), of, name, s.next, r.next);
      SameBind(a, like, name, Some(s.next));
    }
  }

  lemma MakingChanges(c: Run, name: Name)
    ensures var e := HoldingNew(c, name);
            && e.scopes == Holding(c, name, Some(c.next)).scopes && Remembers(c, e) && e.next == c.next + 1
            && e == c.(scopes := e.scopes, used := e.used, next := e.next) && SameBelow(c.scopes, e.scopes)
  {
    HoldingChanges(c, name, Some(c.next));
  }

  lemma ResultsAreOlder(a: Analysis, c: Run, of: map<nat, nat>)
    requires Rel(a.scopes, a.active, c, of)
    ensures forall o | o in Owned(c.scopes) :: o < c.next
  {
    forall o | o in Owned(c.scopes) ensures o < c.next {
      var id := OwnedFrom(of, a.scopes, c.scopes, o);
    }
  }

  lemma AliasSound(a: Analysis, name: Name, source: Name, c: Run, of: map<nat, nat>, d: nat) returns (to: map<nat, nat>)
    requires a.scopes != [] && Ready(a, c, of) && d <= |a.scopes|
    requires DeclareLocal(a, name) == Bind(a, name, None) && Sees(Bind(a, name, None).scopes, a.scopes)
    requires Find(Bind(a, name, None).scopes, name) == Some(None)
    ensures Outcome(Declaration(a, name, Alias(source)), c, RunDeclare(c, name, Alias(source)), to, d)
    ensures OwnedGrows(a, Declaration(a, name, Alias(source)))
  {
    hide Rel, Owned, Find, Bind, DeclareLocal, Holding, UnusedWithin;
    var b := Bind(a, name, None);
    BindReportsNothing(a, name, None);
    var s := Consume(b, source);
    FindImage(of, a.scopes, c.scopes, source) by { RelImages(a, c, of); }
    var found := Find(b.scopes, source);
    if found.Some? && found.value.Some? {
      to := AliasOf(a, s, name, source, found.value.value, c, of, d);
    } else {
      to := AliasNew(a, s, name, source, c, of, d);
    }
  }

  lemma RelImages(a: Analysis, c: Run, of: map<nat, nat>)
    requires Rel(a.scopes, a.active, c, of)
    ensures Images(of, a.scopes, c.scopes)
  {}

  /** Another variable of the same result: its obligation is open again. */
  lemma AliasOf(a: Analysis, s: Analysis, name: Name, source: Name, id: nat, c: Run, of: map<nat, nat>, d: nat)
    returns (to: map<nat, nat>)
    requires a.scopes != [] && Ready(a, c, of) && d <= |a.scopes|
    requires s == Consume(Bind(a, name, None), source) && Sees(s.scopes, a.scopes)
    requires Find(s.scopes, source) == Some(Some(id)) && DeclareLocal(a, name) == Bind(a, name, None)
    ensures Outcome(Declaration(a, name, Alias(source)), c, RunDeclare(c, name, Alias(source)), to, d)
    ensures OwnedGrows(a, Declaration(a, name, Alias(source)))
  {
    hide Rel, Owned, Bind, DeclareLocal, Holding, UnusedWithin, WellFormed;
    assert Find(a.scopes, source) == Some(Some(id));
    FoundIsOwned(a.scopes, source);
    RelImages(a, c, of);
    FindImage(of, a.scopes, c.scopes, source);
    BindReportsNothing(a, name, None);
    assert s.scopes == Bind(a, name, None).scopes;
    BindTwice(a, s, name, Some(id));
    BindReportsNothing(s, name, Some(id));
    BindKeeps(a, name, Some(id));
    var e := Holding(c, name, Some(of[id]));
    HoldingChanges(c, name, Some(of[id]));
    ResultsAreOlder(a, c, of);
    FoundIsOwned(c.scopes, source);
    hide Find;
    RelBind(a, c, e, of, name, id, of[id]);
    to := of[id := of[id]];
    RelMore(Bind(a, name, Some(id)).scopes, a.active + {id}, s.active + {id}, e, to);
  }

  /** A result without an obligation gets one. */
  lemma AliasNew(a: Analysis, s: Analysis, name: Name, source: Name, c: Run, of: map<nat, nat>, d: nat)
    returns (to: map<nat, nat>)
    requires a.scopes != [] && Ready(a, c, of) && d <= |a.scopes|
    requires s == Consume(Bind(a, name, None), source) && DeclareLocal(a, name) == Bind(a, name, None)
    requires Find(Bind(a, name, None).scopes, name) == Some(None)
    requires Find(s.scopes, source) == None || Find(s.scopes, source) == Some(None)
    ensures Outcome(Declaration(a, name, Alias(source)), c, RunDeclare(c, name, Alias(source)), to, d)
    ensures OwnedGrows(a, Declaration(a, name, Alias(source)))
  {
    hide Rel, Owned, Find, Bind, DeclareLocal, Holding, UnusedWithin;
    BindReportsNothing(a, name, None);
    BindKeeps(a, name, None);
    assert s == Bind(a, name, None);
    BindTwice(a, s, name, Some(s.next));
    BindReportsNothing(s, name, Some(s.next));
    BindKeeps(a, name, Some(s.next));
    var o := match Find(c.scopes, source) case Some(Some(result)) => result case _ => c.next;
    to := of[s.next := o];
    MakingChanges(c, name);
    HoldingChanges(c, name, Some(o));
    ResultsAreOlder(a, c, of);
    FoundIsOwned(c.scopes, source);
    RelBind(a, c, RunDeclare(c, name, Alias(source)), of, name, s.next, o);
  }

  // Statements

  lemma {:induction false} StatementSound(a: Analysis, s: Stmt, c: Run, of: map<nat, nat>,
            d: nat) returns (to: map<nat, nat>)
    requires Ready(a, c, of) && InLoop(a, d) && d < |a.scopes| && Silent(Statement(a, s))
    ensures Outcome(Statement(a, s), c, Execute(c, s), to, d)
    ensures OwnedGrows(a, Statement(a, s))
    decreases |c.choices|, s, 1
  {
    hide Rel, Steps, RunSteps, WellFormed, Owned, UnusedWithin, InLoop, InScope, ExecuteIn, Declaration, RunDeclare, Loop, Rounds,
      Branches, ExecuteBranches, Merge, Restore, CheckExit, CheckContinue, CheckBreak;
    to := of;
    StatementKeeps(a, s);
    SameOwned(a, Statement(a, s));
    match s {
      case Eval(e) => EvalSound(a, e, c, of, d);
      case Declare(name, init) => to := DeclarationSound(a, name, init, c, of, d);
      case Block(statements) => to := InScopeSound(a, [], statements, c, of, d);
      case Si(condition, thenBranch, elseBranch) => to := SiSound(a, condition, thenBranch, elseBranch, c, of, d);
      case TantQue(condition, body) => RoundsSound(a, condition, [], body, c, of, d);
      case Pour(iterable, variable, body) => PourSound(a, iterable, variable, body, c, of, d);
      case Continuer => ContinuerSound(a, c, of, d);
      case Arreter => ArreterSound(a, c, of, d);
      case Retourne(e) => RetourneSound(a, e, c, of, d);
      case AgirSelon(subject, branches, hasElse, elseBranch, isResult) =>
        to := AgirSelonSound(a, subject, branches, hasElse, elseBranch, isResult, c, of, d);
    }
  }

  lemma SameOwned(a: Analysis, b: Analysis)
    ensures a.scopes == b.scopes ==> OwnedGrows(a, b)
  {}

  lemma RelLength(a: Analysis, c: Run, of: map<nat, nat>)
    requires Rel(a.scopes, a.active, c, of)
    ensures |c.scopes| == |a.scopes|
  {}

  lemma EvalSound(a: Analysis, e: Expr, c: Run, of: map<nat, nat>, d: nat)
    requires Ready(a, c, of) && d <= |a.scopes| && Silent(Steps(a, e))
    ensures Outcome(Steps(a, e), c, RunSteps(c, e), of, d) && Settled(a, Steps(a, e))
    ensures var r := RunSteps(c, e);
            r.gap || (&& r.scopes == c.scopes && Remembers(c, r) && r.next == c.next
                      && (r.signal == Normal || r.signal == Returning || r.signal == Stopped))
  {
    hide Rel, Steps, RunSteps, UnusedWithin;
    RelLength(a, c, of);
    StepsSound(a, e, c, of, a.scopes);
    StepsSettle(a, e);
  }

  lemma ContinuerSound(a: Analysis, c: Run, of: map<nat, nat>, d: nat)
    requires Ready(a, c, of) && InLoop(a, d) && Silent(CheckContinue(a))
    ensures Outcome(CheckContinue(a), c, c.(signal := Continuing), of, d)
  {
    hide Rel, UnusedWithin, InLoop, Owned;
    var reported := set id | id in NewInLoop(a) :: UnusedAtContinue(id);
    assert a.baselines != [] && reported == {};
    assert forall id | id in NewInLoop(a) :: UnusedAtContinue(id) in reported;
    assert NewInLoop(a) == {};
    ExitWithin(a, c, of, d);
    WithinAnySignal(c, c.(signal := Continuing), d);
  }

  lemma WithinAnySignal(c: Run, e: Run, d: nat)
    requires UnusedWithin(c, d) && e.scopes == c.scopes && e.used == c.used
    ensures UnusedWithin(e, d)
  {}

  lemma ArreterSound(a: Analysis, c: Run, of: map<nat, nat>, d: nat)
    requires Ready(a, c, of)
    ensures Outcome(CheckBreak(a), c, c.(signal := Breaking), of, d)
  {}

  lemma RetourneSound(a: Analysis, e: Expr, c: Run, of: map<nat, nat>, d: nat)
    requires Ready(a, c, of) && d <= |a.scopes| && Silent(CheckExit(Steps(a, e)))
    ensures Outcome(CheckExit(Steps(a, e)), c, Execute(c, Retourne(e)), of, d)
  {
    hide Rel, UnusedWithin, Steps, RunSteps, Owned;
    var b, r := Steps(a, e), RunSteps(c, e);
    EvalSound(a, e, c, of, d);
    if r.signal == Normal && !r.gap {
      assert Owned(b.scopes) * b.active <= CheckExit(b).diagnosed;
      NothingOpen(b, r, of);
      WithinAnySignal(r, r.(signal := Returning), 0);
    }
  }

  /** A scope of its own, left by whatever exit. */
  lemma {:induction false} InScopeSound(a: Analysis, names: seq<Name>, statements: seq<Stmt>, c: Run,
            of: map<nat, nat>, d: nat)
    returns (to: map<nat, nat>)
    requires Ready(a, c, of) && InLoop(a, d) && Silent(InScope(a, names, statements))
    ensures Outcome(InScope(a, names, statements), c, ExecuteIn(c, names, statements), to, d)
    ensures InScope(a, names, statements).scopes == a.scopes
    ensures var e := ExecuteIn(c, names, statements); e.gap || e.signal == Stopped || (e.scopes == c.scopes && e.next == c.next)
    decreases |c.choices|, statements, 1
  {
    hide Rel, WellFormed, Owned, UnusedWithin, InLoop, Statements, ExecuteAll, DeclareNames, HoldingNone, PushScope, PopScope,
      Later, Leave;
    InScopeSilent(a, names, statements);
    var b, e := DeclareNames(PushScope(a), names), HoldingNone(Enter(c), names);
    EnterSound(a, names, c, of, d);
    var b2, e2 := Statements(b, statements), ExecuteAll(e, statements);
    to := StatementsSound(b, statements, e, of, d);
    InScopeKeeps(a, names, statements);
    RelLength(a, c, of);
    InLoopDepth(a, d);
    ResultsAreOlder(a, c, of);
    LeaveOutcome(a, b2, c, e, e2, to, d);
  }

  lemma InLoopDepth(a: Analysis, d: nat)
    requires InLoop(a, d)
    ensures d <= |a.scopes|
  {}

  lemma InScopeSilent(a: Analysis, names: seq<Name>, statements: seq<Stmt>)
    requires WellFormed(a) && Silent(InScope(a, names, statements))
    ensures var b := DeclareNames(PushScope(a), names);
            Silent(b) && Silent(Statements(b, statements)) && WellFormed(b) && Later(PushScope(a), b)
  {
    hide WellFormed, DeclareNames, Statements;
    PushKeeps(a);
    DeclareNamesKeeps(PushScope(a), names);
    StatementsKeep(DeclareNames(PushScope(a), names), statements);
  }

  /** Entering a scope, with variables that are no results. */
  lemma EnterSound(a: Analysis, names: seq<Name>, c: Run, of: map<nat, nat>, d: nat)
    requires Ready(a, c, of) && InLoop(a, d) && Silent(DeclareNames(PushScope(a), names))
    ensures var b, e := DeclareNames(PushScope(a), names), HoldingNone(Enter(c), names);
            && Ready(b, e, of) && InLoop(b, d) && d < |b.scopes|
            && e.used == c.used && e.next == c.next && e.choices == c.choices && |e.scopes| == |c.scopes| + 1 && e.scopes[..|c.scopes|] == c.scopes
  {
    hide WellFormed, DeclareNames, HoldingNone;
    PushKeeps(a);
    assert PushScope(a).scopes[..|a.scopes|] == a.scopes;
    assert Enter(c).scopes[..|c.scopes|] == c.scopes;
    assert PushScope(a).scopes[..d] == a.scopes[..d];
    forall k | 0 <= k < |a.scopes| + 1 ensures Image(of, PushScope(a).scopes[k], Enter(c).scopes[k]) {
      if k < |a.scopes| {
        assert Image(of, a.scopes[k], c.scopes[k]);
      }
    }
    NamesSound(PushScope(a), names, Enter(c), of, d);
  }

  lemma {:induction false} NamesSound(a: Analysis, names: seq<Name>, c: Run, of: map<nat, nat>, d: nat)
    requires Ready(a, c, of) && InLoop(a, d) && d < |a.scopes| && Silent(DeclareNames(a, names))
    ensures var b, e := DeclareNames(a, names), HoldingNone(c, names);
            && Ready(b, e, of) && InLoop(b, d) && |b.scopes| == |a.scopes|
            && e.used == c.used && e.next == c.next && e.choices == c.choices && SameBelow(c.scopes, e.scopes)
    decreases |names|
  {
    if names != [] {
      hide WellFormed, Rel, InLoop, Owned, Bind, Holding, DeclareLocal, Later;
      var b, e := DeclareLocal(a, names[0]), Holding(c, names[0], None);
      DeclareKeeps(a, names[0]);
      DeclareNamesKeeps(b, names[1..]);
      SilentBack(b, DeclareNames(b, names[1..]));
      NameSound(a, names[0], c, of, d);
      NamesSound(b, names[1..], e, of, d);
    }
  }

  lemma NameSound(a: Analysis, name: Name, c: Run, of: map<nat, nat>, d: nat)
    requires Ready(a, c, of) && InLoop(a, d) && d < |a.scopes| && Silent(DeclareLocal(a, name))
    ensures var b, e := DeclareLocal(a, name), Holding(c, name, None);
            && Ready(b, e, of) && InLoop(b, d) && |b.scopes| == |a.scopes| && SameBelow(c.scopes, e.scopes)
            && e.used == c.used && e.next == c.next && e.choices == c.choices
  {
    hide WellFormed, Rel, InLoop, Owned, Bind, Holding, DeclareLocal;
    DeclareKeeps(a, name);
    NotRedeclared(a, name);
    RelBindNone(a, c, of, name);
    BindReportsNothing(a, name, None);
    BindKeeps(a, name, None);
    HoldingChanges(c, name, None);
    StillInLoop(a, DeclareLocal(a, name), d);
  }

  /** What leaving the scope makes of the exits; the numbers given in it are free again. */
  lemma LeaveOutcome(a: Analysis, b: Analysis, c: Run, e: Run, e2: Run, of: map<nat, nat>, d: nat)
    requires b.scopes != [] && Outcome(b, e, e2, of, d) && d <= |c.scopes| && (forall o | o in Owned(c.scopes) :: o < c.next)
    requires PopScope(b).scopes == a.scopes && Silent(PopScope(b))
    requires |e.scopes| == |c.scopes| + 1 && e.scopes[..|c.scopes|] == c.scopes && e.used == c.used && e.next == c.next
    ensures var f := Leave(e2).(next := c.next);
            Outcome(PopScope(b), c, f, of, d) && (f.gap || f.signal == Stopped || f.scopes == c.scopes)
  {
    hide Rel, UnusedWithin, PopScope, Owned, Held;
    if e2.gap || e2.signal == Stopped {
    } else if e2.signal == Normal {
      LeaveSound(b, e2, of);
      RelOlder(PopScope(b).scopes, PopScope(b).active, Leave(e2), c.next, of);
    } else if e2.signal == Breaking {
      LeavesUnlessGap(e2);
    } else {
      LeaveWithin(e2, if e2.signal == Returning then 0 else d);
      WithinAnySignal(Leave(e2), Leave(e2).(next := c.next), if e2.signal == Returning then 0 else d);
    }
  }

  lemma LeavesUnlessGap(c: Run)
    requires c.signal == Breaking && c.scopes != [] && !c.leaked
    ensures Leave(c).leaked ==> Leave(c).gap
  {}

  lemma RelOlder(scopes: seq<Scope>, active: set<nat>, c: Run, next: nat, of: map<nat, nat>)
    requires Rel(scopes, active, c, of) && forall o | o in Owned(c.scopes) :: o < next
    ensures Rel(scopes, active, c.(next := next), of)
  {
    forall id | id in Owned(scopes) ensures of[id] < next {
      OwnedOf(of, scopes, c.scopes, id);
    }
  }

  lemma {:induction false} StatementsSound(a: Analysis, statements: seq<Stmt>, c: Run, of: map<nat, nat>, d: nat)
    returns (to: map<nat, nat>)
    requires Ready(a, c, of) && InLoop(a, d) && d < |a.scopes| && Silent(Statements(a, statements))
    ensures Outcome(Statements(a, statements), c, ExecuteAll(c, statements), to, d)
    decreases |c.choices|, statements, 0
  {
    to := of;
    if statements != [] {
      hide Rel, WellFormed, Owned, UnusedWithin, InLoop, Statement, Execute, Later;
      var s, b, e := statements[0], Statement(a, statements[0]), Execute(c, statements[0]);
      StatementKeeps(a, s);
      StatementsKeep(b, statements[1..]);
      SilentBack(b, Statements(b, statements[1..]));
      to := StatementSound(a, s, c, of, d);
      if e.signal != Normal {
        AllStopped(e, statements[1..]);
      } else if !e.gap {
        StillInLoop(a, b, d);
        to := StatementsSound(b, statements[1..], e, to, d);
        OutcomeThrough(Statements(a, statements), c, e, ExecuteAll(c, statements), to, d);
      }
    }
  }

  lemma OutcomeThrough(a: Analysis, c: Run, e: Run, f: Run, of: map<nat, nat>, d: nat)
    requires Remembers(c, e) && c.next <= e.next && SameBelow(c.scopes, e.scopes) && Outcome(a, e, f, of, d)
    ensures Outcome(a, c, f, of, d)
  {
    hide Rel, UnusedWithin;
  }

  lemma {:induction false} SiSound(a: Analysis, condition: Expr, thenBranch: seq<Stmt>, elseBranch: seq<Stmt>, c: Run,
                                   of: map<nat, nat>, d: nat) returns (to: map<nat, nat>)
    requires Ready(a, c, of) && InLoop(a, d) && d < |a.scopes| && Silent(Statement(a, Si(condition, thenBranch, elseBranch)))
    ensures Outcome(Statement(a, Si(condition, thenBranch, elseBranch)), c,
                    Execute(c, Si(condition, thenBranch, elseBranch)), to, d)
    ensures Statement(a, Si(condition, thenBranch, elseBranch)).scopes == a.scopes
    decreases |c.choices|, Si(condition, thenBranch, elseBranch), 0
  {
    hide Rel, Steps, RunSteps, WellFormed, Owned, UnusedWithin, InLoop, InScope, ExecuteIn, Merge, Restore, Later;
    var b, r := Steps(a, condition), RunSteps(c, condition);
    var baseline := Snapshot(b);
    var t := InScope(b, [], thenBranch);
    var e := InScope(Restore(t, baseline), [], elseBranch);
    SiSilent(a, condition, thenBranch, elseBranch);
    OwnedIsKnown(b);
    StatementKeeps(a, Si(condition, thenBranch, elseBranch));
    EvalSound(a, condition, c, of, d);
    to := of;
    if r.signal == Normal && !r.gap {
      SettledInLoop(a, b, d);
      var (yes, f) := Choose(r);
      if f.signal == Stopped {
        StoppedIn(f, [], if yes then thenBranch else elseBranch);
      } else {
        RelLater(b.scopes, b.active, r, f, of);
        if yes {
          to := InScopeSound(b, [], thenBranch, f, of, d);
          ToMerged(t, e, baseline, [Snapshot(t), Snapshot(e)], Snapshot(t), f, ExecuteIn(f, [], thenBranch), to, d);
        } else {
          RestoredSound(b, t, baseline, f, of, d);
          to := InScopeSound(Restore(t, baseline), [], elseBranch, f, of, d);
          ToMerged(e, e, baseline, [Snapshot(t), Snapshot(e)], Snapshot(e), f, ExecuteIn(f, [], elseBranch), to, d);
        }
        OutcomeThrough(Merge(e, baseline, [Snapshot(t), Snapshot(e)]), c, f, Execute(c, Si(condition, thenBranch, elseBranch)), to, d);
      }
    }
  }

  lemma SettledInLoop(a: Analysis, b: Analysis, d: nat)
    requires InLoop(a, d) && Settled(a, b)
    ensures InLoop(b, d)
  {}

  lemma SiSilent(a: Analysis, condition: Expr, thenBranch: seq<Stmt>, elseBranch: seq<Stmt>)
    requires WellFormed(a) && Silent(Statement(a, Si(condition, thenBranch, elseBranch)))
    ensures var b := Steps(a, condition);
            var t := InScope(b, [], thenBranch);
            var f := Restore(t, Snapshot(b));
            var e := InScope(f, [], elseBranch);
            && Silent(b) && Silent(t) && Silent(e) && WellFormed(b) && WellFormed(f) && WellFormed(e)
            && Later(b, t) && t.scopes == b.scopes && e.scopes == b.scopes && b.next <= e.next
  {
    hide Steps, WellFormed, InScope, Merge, Restore;
    var b := Steps(a, condition);
    StepsSettle(a, condition);
    SnapshotIsKnown(b);
    var t := InScope(b, [], thenBranch);
    InScopeKeeps(b, [], thenBranch);
    RestoreKeeps(t, Snapshot(b));
    InScopeKeeps(Restore(t, Snapshot(b)), [], elseBranch);
    var e := InScope(Restore(t, Snapshot(b)), [], elseBranch);
    MergeKeeps(e, Snapshot(b), [Snapshot(t), Snapshot(e)]);
  }

  /** The state of one path is part of the merged one. */
  lemma ToMerged(p: Analysis, e: Analysis, baseline: State, paths: seq<State>, path: State, c: Run, r: Run,
            of: map<nat, nat>, d: nat)
    requires Outcome(p, c, r, of, d) && path in paths && path.active == p.active && e.scopes == p.scopes
    requires forall id | id in Owned(p.scopes) :: id < baseline.known
    ensures Outcome(Merge(e, baseline, paths), c, r, of, d) && Merge(e, baseline, paths).scopes == p.scopes
  {
    hide Rel, UnusedWithin, Owned;
    if r.signal == Normal && !r.gap {
      RelMore(p.scopes, p.active, Merge(e, baseline, paths).active, r, of);
    }
  }

  /** Back at the baseline for another path. */
  lemma RestoredSound(b: Analysis, t: Analysis, baseline: State, c: Run, of: map<nat, nat>, d: nat)
    requires Ready(b, c, of) && InLoop(b, d) && baseline == Snapshot(b) && Later(b, t) && t.scopes == b.scopes
    requires WellFormed(Restore(t, baseline))
    ensures Ready(Restore(t, baseline), c, of) && InLoop(Restore(t, baseline), d)
  {
    hide Owned, Images;
    RelMore(b.scopes, b.active, Restore(t, baseline).active, c, of);
  }

  // Loops

  lemma FreshLoop(a: Analysis)
    requires WellFormed(a)
    ensures var inside := a.(baselines := a.baselines + [Snapshot(a)]);
            WellFormed(inside) && InLoop(inside, |a.scopes|)
  {
    var inside := a.(baselines := a.baselines + [Snapshot(a)]);
    OtherBaselines(a, inside);
    assert inside.scopes[..|a.scopes|] == a.scopes;
  }

  lemma LoopSilent(a: Analysis, names: seq<Name>, body: seq<Stmt>)
    requires WellFormed(a) && Silent(Loop(a, names, body))
    ensures Silent(InScope(a.(baselines := a.baselines + [Snapshot(a)]), names, body)) && Silent(a)
    ensures Loop(a, names, body).scopes == a.scopes
  {
    hide WellFormed, InScope;
    FreshLoop(a);
    LoopKeeps(a, names, body);
  }

  /** What was open before the loop is open after it. */
  lemma LoopRel(a: Analysis, names: seq<Name>, body: seq<Stmt>, c: Run, of: map<nat, nat>)
    requires WellFormed(a) && Rel(a.scopes, a.active, c, of)
    ensures Loop(a, names, body).scopes == a.scopes
    ensures Rel(a.scopes, Loop(a, names, body).active, c, of)
  {
    LoopKeeps(a, names, body);
    hide InScope, Owned;
    var b := InScope(a.(baselines := a.baselines + [Snapshot(a)]), names, body).(baselines := a.baselines);
    assert Loop(a, names, body) == Merge(b, Snapshot(a), [Snapshot(a), Snapshot(b)]);
    forall id | id in a.active ensures id in Loop(a, names, body).active {
      assert Snapshot(a) in [Snapshot(a), Snapshot(b)];
    }
    RelMore(a.scopes, a.active, Loop(a, names, body).active, c, of);
  }

  /** However often the body runs, and however it is left. */
  lemma {:induction false} RoundsSound(a: Analysis, condition: Expr, names: seq<Name>, body: seq<Stmt>, c: Run,
                                       of: map<nat, nat>, d: nat)
    requires Ready(a, c, of) && d <= |a.scopes| && Silent(Loop(Steps(a, condition), names, body))
    ensures Outcome(Loop(Steps(a, condition), names, body), c, Rounds(c, condition, names, body), of, d)
    ensures Loop(Steps(a, condition), names, body).scopes == a.scopes
    decreases |c.choices|, body, 2
  {
    hide Rel, Steps, RunSteps, WellFormed, Owned, UnusedWithin, InLoop, Loop, InScope, ExecuteIn;
    var b, r := Steps(a, condition), RunSteps(c, condition);
    StepsSettle(a, condition);
    LoopSilent(b, names, body);
    EvalSound(a, condition, c, of, d);
    RelLength(a, c, of);
    if r.signal == Normal && r.choices != [] && !r.gap {
      var (again, f) := Choose(r);
      RelLater(b.scopes, b.active, r, f, of);
      LoopRel(b, names, body, f, of);
      if again {
        var inside := b.(baselines := b.baselines + [Snapshot(b)]);
        FreshLoop(b);
        var to := InScopeSound(inside, names, body, f, of, |a.scopes|);
        var g := ExecuteIn(f, names, body);
        if !g.gap && (g.signal == Normal || g.signal == Continuing || g.signal == Breaking) {
          var h := g.(signal := Normal);
          RemembersThrough(c, f, h);
          RelLater(a.scopes, a.active, c, h, of);
          RelLater(b.scopes, Loop(b, names, body).active, f, h, of);
          if g.signal != Breaking {
            RoundsSound(a, condition, names, body, h, of, d);
            OutcomeThrough(Loop(b, names, body), c, h, Rounds(h, condition, names, body), of, d);
          }
        }
      }
    }
  }

  lemma {:induction false} PourSound(a: Analysis, iterable: Expr, variable: Name, body: seq<Stmt>, c: Run,
                                     of: map<nat, nat>, d: nat)
    requires Ready(a, c, of) && InLoop(a, d) && d < |a.scopes| && Silent(Statement(a, Pour(iterable, variable, body)))
    ensures Outcome(Statement(a, Pour(iterable, variable, body)), c, Execute(c, Pour(iterable, variable, body)), of, d)
    ensures Statement(a, Pour(iterable, variable, body)).scopes == a.scopes
    decreases |c.choices|, Pour(iterable, variable, body), 0
  {
    hide Rel, Steps, WellFormed, Owned, UnusedWithin, InLoop, Loop, Rounds, RunSteps;
    var b, r := Steps(a, iterable), RunSteps(c, iterable);
    StepsSettle(a, iterable);
    LoopSilent(b, [variable], body);
    EvalSound(a, iterable, c, of, d);
    NothingToRead(b);
    if r.signal != Normal {
      NoRounds(r, [variable], body);
    } else if !r.gap {
      RoundsSound(b, [], [variable], body, r, of, d);
      OutcomeThrough(Loop(b, [variable], body), c, r, Rounds(r, [], [variable], body), of, d);
    }
  }

  lemma NothingToRead(a: Analysis)
    ensures Steps(a, []) == a
  {}

  // `agir selon`

  lemma {:induction false} OneBranchSound(a: Analysis, branch: Branch, c: Run, of: map<nat, nat>,
            d: nat) returns (to: map<nat, nat>)
    requires Ready(a, c, of) && InLoop(a, d) && Silent(OneBranch(a, branch))
    ensures Outcome(OneBranch(a, branch), c, ExecuteBranch(c, branch), to, d)
    decreases |c.choices|, branch, 0
  {
    hide Rel, WellFormed, Owned, UnusedWithin, InLoop, InScope, ExecuteIn, DeclareNames, HoldingNone;
    to := of;
    match branch.ending {
      case Body(statements) => to := InScopeSound(a, branch.names, statements, c, of, d);
      case PropageBranche => PropageSound(a, branch.names, c, of, d);
      case IgnoreBranche => IgnoreSound(a, branch.names, c, of, d);
    }
  }

  lemma PropageSound(a: Analysis, names: seq<Name>, c: Run, of: map<nat, nat>, d: nat)
    requires Ready(a, c, of) && InLoop(a, d) && Silent(PopScope(CheckPossibleExit(DeclareNames(PushScope(a), names))))
    ensures Outcome(PopScope(CheckPossibleExit(DeclareNames(PushScope(a), names))), c, c.(signal := Returning), of, d)
  {
    hide Rel, WellFormed, Owned, InLoop, DeclareNames, HoldingNone;
    var b, e := DeclareNames(PushScope(a), names), HoldingNone(Enter(c), names);
    EnterSound(a, names, c, of, d);
    assert Owned(b.scopes) * b.active <= CheckPossibleExit(b).diagnosed;
    NothingOpen(b, e, of);
    NothingUnused(e);
    PrefixIsOwned(e.scopes, |c.scopes|);
    NoneUnused(c.(signal := Returning));
  }

  lemma NothingUnused(c: Run)
    requires UnusedWithin(c, 0)
    ensures Owned(c.scopes) <= c.used
  {}

  lemma NoneUnused(c: Run)
    requires Owned(c.scopes) <= c.used
    ensures UnusedWithin(c, 0)
  {}

  lemma IgnoreSound(a: Analysis, names: seq<Name>, c: Run, of: map<nat, nat>, d: nat)
    requires Ready(a, c, of) && InLoop(a, d) && Silent(PopScope(DeclareNames(PushScope(a), names)))
    ensures Outcome(PopScope(DeclareNames(PushScope(a), names)), c, c, of, d)
  {
    hide Rel, WellFormed, Owned, InLoop, DeclareNames, HoldingNone, Held;
    var b, e := DeclareNames(PushScope(a), names), HoldingNone(Enter(c), names);
    EnterSound(a, names, c, of, d);
    LeaveSound(b, e, of);
    RelLater(PopScope(b).scopes, PopScope(b).active, Leave(e), c, of);
  }

  /** The branch that is taken ends in one of the states merged afterwards. */
  lemma {:induction false} BranchesSound(a: Analysis, baseline: State, branches: seq<Branch>, hasElse: bool,
            elseBranch: seq<Stmt>,
                                         c: Run, of: map<nat, nat>, d: nat) returns (to: map<nat, nat>, path: State)
    requires WellFormed(a) && baseline.known <= a.next && (forall id | id in baseline.active :: id < baseline.known)
    requires c.signal == Normal && !c.leaked && !c.gap && Rel(a.scopes, baseline.active, c, of) && InLoop(a, d) && d < |a.scopes|
    requires Silent(AfterBranches(a, baseline, branches, hasElse, elseBranch).0)
    ensures Outcome(a.(active := path.active), c, ExecuteBranches(c, branches, hasElse, elseBranch), to, d)
    ensures ExecuteBranches(c, branches, hasElse, elseBranch).signal == Normal ==>
              path in AfterBranches(a, baseline, branches, hasElse, elseBranch).1
    decreases |c.choices|, elseBranch, 2
  {
    hide Rel, WellFormed, Owned, UnusedWithin, InLoop, InScope, ExecuteIn, OneBranch, ExecuteBranch, Restore;
    to, path := of, baseline;
    RestoredHere(a, baseline, c, of, d);
    if branches == [] {
      if hasElse {
        to := InScopeSound(Restore(a, baseline), [], elseBranch, c, of, d);
        path := Snapshot(InScope(Restore(a, baseline), [], elseBranch));
      }
    } else if c.choices != [] {
      var (taken, e) := Choose(c);
      var b := OneBranch(Restore(a, baseline), branches[0]);
      OneBranchKeeps(Restore(a, baseline), branches[0]);
      BranchesSilent(b, baseline, branches[1..], hasElse, elseBranch);
      RelLater(a.scopes, baseline.active, c, e, of);
      RestoredHere(a, baseline, e, of, d);
      if taken {
        to := OneBranchSound(Restore(a, baseline), branches[0], e, of, d);
        path := Snapshot(b);
      } else {
        LaterInLoop(a, b, d);
        to, path := BranchesSound(b, baseline, branches[1..], hasElse, elseBranch, e, of, d);
      }
    }
  }

  lemma LaterInLoop(a: Analysis, b: Analysis, d: nat)
    requires InLoop(a, d) && b.scopes == a.scopes && b.baselines == a.baselines && a.next <= b.next
    ensures InLoop(b, d)
  {}

  lemma RestoredHere(a: Analysis, baseline: State, c: Run, of: map<nat, nat>, d: nat)
    requires WellFormed(a) && baseline.known <= a.next && (forall id | id in baseline.active :: id < baseline.known)
    requires c.signal == Normal && !c.leaked && !c.gap && Rel(a.scopes, baseline.active, c, of) && InLoop(a, d)
    ensures Ready(Restore(a, baseline), c, of) && InLoop(Restore(a, baseline), d)
    ensures Restore(a, baseline) == a.(active := Restore(a, baseline).active)
  {
    hide Owned, Images;
    RestoreKeeps(a, baseline);
    RelMore(a.scopes, baseline.active, Restore(a, baseline).active, c, of);
  }

  /** The analysis of the branches and of `sinon`, and the states they end in. */
  function AfterBranches(a: Analysis, baseline: State, branches: seq<Branch>, hasElse: bool,
            elseBranch: seq<Stmt>): (Analysis, seq<State>) {
    var (b, paths) := Branches(a, baseline, branches);
    if !hasElse then (b, paths)
    else
      var e := InScope(Restore(b, baseline), [], elseBranch);
      (e, paths + [Snapshot(e)])
  }

  lemma BranchesSilent(a: Analysis, baseline: State, branches: seq<Branch>, hasElse: bool, elseBranch: seq<Stmt>)
    requires WellFormed(a) && baseline.known <= a.next && (forall id | id in baseline.active :: id < baseline.known)
    requires Silent(AfterBranches(a, baseline, branches, hasElse, elseBranch).0)
    ensures Silent(a) && AfterBranches(a, baseline, branches, hasElse, elseBranch).0.scopes == a.scopes
  {
    hide WellFormed, Branches, InScope, Restore;
    BranchesKeep(a, baseline, branches);
    var b := Branches(a, baseline, branches).0;
    RestoreKeeps(b, baseline);
    InScopeKeeps(Restore(b, baseline), [], elseBranch);
  }

  lemma {:induction false} AgirSelonSound(a: Analysis, subject: Expr, branches: seq<Branch>, hasElse: bool,
            elseBranch: seq<Stmt>,
                                          isResult: bool, c: Run, of: map<nat, nat>, d: nat) returns (to: map<nat, nat>)
    requires Ready(a, c, of) && InLoop(a, d) && d < |a.scopes|
    requires Silent(Statement(a, AgirSelon(subject, branches, hasElse, elseBranch, isResult)))
    ensures var s := AgirSelon(subject, branches, hasElse, elseBranch, isResult);
            Outcome(Statement(a, s), c, Execute(c, s), to, d) && Statement(a, s).scopes == a.scopes
    decreases |c.choices|, AgirSelon(subject, branches, hasElse, elseBranch, isResult), 0
  {
    hide Rel, Steps, RunSteps, WellFormed, Owned, UnusedWithin, InLoop, InScope, Branches, ExecuteBranches, Merge, Restore;
    var b, r := Steps(a, subject), RunSteps(c, subject);
    var baseline := Snapshot(b);
    StepsSettle(a, subject);
    SnapshotIsKnown(b);
    OwnedIsKnown(b);
    SelonSilent(a, subject, branches, hasElse, elseBranch, isResult);
    BranchesSilent(b, baseline, branches, hasElse, elseBranch);
    EvalSound(a, subject, c, of, d);
    to := of;
    if r.signal != Normal {
      NoBranch(r, branches, hasElse, elseBranch);
    } else if !r.gap {
      SettledInLoop(a, b, d);
      var path;
      to, path := BranchesSound(b, baseline, branches, hasElse, elseBranch, r, of, d);
      var (e, paths) := AfterBranches(b, baseline, branches, hasElse, elseBranch);
      var s := ExecuteBranches(r, branches, hasElse, elseBranch);
      var all := if hasElse || isResult then paths else paths + [baseline];
      if s.signal == Normal {
        ToMerged(b.(active := path.active), e, baseline, all, path, r, s, to, d);
      } else {
        NotNormal(b.(active := path.active), Statement(a, AgirSelon(subject, branches, hasElse, elseBranch, isResult)),
                  r, s, to, d);
      }
      OutcomeThrough(Statement(a, AgirSelon(subject, branches, hasElse, elseBranch, isResult)), c, r, s, to, d);
    }
  }

  lemma NotNormal(p: Analysis, q: Analysis, c: Run, r: Run, of: map<nat, nat>, d: nat)
    requires Outcome(p, c, r, of, d) && r.signal != Normal
    ensures Outcome(q, c, r, of, d)
  {}

  lemma OwnedIsKnown(a: Analysis)
    requires WellFormed(a)
    ensures forall id | id in Owned(a.scopes) :: id < a.next
  {}

  lemma SelonSilent(a: Analysis, subject: Expr, branches: seq<Branch>, hasElse: bool, elseBranch: seq<Stmt>,
            isResult: bool)
    requires WellFormed(a) && Silent(Statement(a, AgirSelon(subject, branches, hasElse, elseBranch, isResult)))
    ensures var b := Steps(a, subject);
            var r := Statement(a, AgirSelon(subject, branches, hasElse, elseBranch, isResult));
            var (e, paths) := AfterBranches(b, Snapshot(b), branches, hasElse, elseBranch);
            && Silent(b) && Silent(e) && r.scopes == a.scopes
            && var all := if hasElse || isResult then paths else paths + [Snapshot(b)];
               all != [] ==> r == Merge(e, Snapshot(b), all)
  {
    hide WellFormed, Branches, InScope, Restore, Steps;
    var b := Steps(a, subject);
    StepsSettle(a, subject);
    SnapshotIsKnown(b);
    StatementKeeps(a, AgirSelon(subject, branches, hasElse, elseBranch, isResult));
    BranchesKeep(b, Snapshot(b), branches);
    var f := Branches(b, Snapshot(b), branches).0;
    RestoreKeeps(f, Snapshot(b));
    InScopeKeeps(Restore(f, Snapshot(b)), [], elseBranch);
  }

  // Functions

  lemma {:induction false} ResultsSound(a: Analysis, results: seq<Name>, c: Run,
            of: map<nat, nat>) returns (to: map<nat, nat>)
    requires a.scopes != [] && Ready(a, c, of) && a.baselines == [] && Silent(WithResults(a, results))
    ensures Ready(WithResults(a, results), HoldingResults(c, results), to) && WithResults(a, results).baselines == []
    decreases |results|
  {
    to := of;
    if results != [] {
      hide Rel, WellFormed, Owned, Bind, Holding;
      var x := results[0];
      var b := DeclareLocal(a, x);
      var e := CreateObligation(b, x);
      DeclareKeeps(a, x);
      CreateKeeps(b, x);
      ResultsKeep(e, results[1..]);
      NotRedeclared(a, x);
      OwnedIsKnown(a);
      MakingChanges(c, x);
      RelBind(a, c, HoldingNew(c, x), of, x, a.next, c.next);
      BindTwice(a, b, x, Some(a.next));
      BindReportsNothing(a, x, None);
      BindReportsNothing(b, x, Some(b.next));
      to := ResultsSound(e, results[1..], HoldingNew(c, x), of[a.next := c.next]);
    }
  }

  lemma {:induction false} ResultsKeep(a: Analysis, results: seq<Name>)
    requires a.scopes != []
    ensures Later(a, WithResults(a, results)) && (WellFormed(a) ==> WellFormed(WithResults(a, results)))
    decreases |results|
  {
    if results != [] {
      hide WellFormed, Bind, DeclareLocal, CreateObligation;
      DeclareKeeps(a, results[0]);
      CreateKeeps(DeclareLocal(a, results[0]), results[0]);
      ResultsKeep(CreateObligation(DeclareLocal(a, results[0]), results[0]), results[1..]);
    }
  }

  lemma StartIsReady(choices: seq<bool>)
    ensures Ready(START, Run([], {}, 0, false, false, choices, Normal), map[]) && InLoop(START, 0)
  {}

  /** The main result: a run of an accepted function that loses a result has skipped an operand
      that reads one, or left a scope by `arrêter` with one. */
  lemma AcceptedIsSafe(results: seq<Name>, others: seq<Name>, body: seq<Stmt>, choices: seq<bool>)
    requires Function(results, others, body).diagnostics == {}
    ensures ExecuteFunction(results, others, body, choices).leaked ==> ExecuteFunction(results, others, body, choices).gap
  {
    hide Rel, WellFormed, Owned, InLoop, Statements, ExecuteAll, DeclareNames, HoldingNone, PopScope, UnusedWithin, Leave,
      WithResults, HoldingResults;
    var c := Run([], {}, 0, false, false, choices, Normal);
    StartIsReady(choices);
    FunctionSilent(results, others, body);
    var b := DeclareNames(PushScope(START), others);
    EnterSound(START, others, c, map[], 0);
    DeclareNamesKeeps(PushScope(START), others);
    var of := ResultsSound(b, results, HoldingNone(Enter(c), others), map[]);
    var a, r := FunctionScope(results, others), Called(results, others, choices);
    OutsideLoops(a);
    var to := StatementsSound(a, body, r, of, 0);
    RelLength(a, r, of);
    EndOfFunction(Statements(a, body), r, ExecuteAll(r, body), to);
  }

  lemma EndOfFunction(b: Analysis, c: Run, e: Run, of: map<nat, nat>)
    requires Outcome(b, c, e, of, 0) && |c.scopes| == 1 && |b.scopes| == 1 && Silent(PopScope(b))
    ensures Leave(e).leaked ==> Leave(e).gap
  {
    hide Rel, PopScope, UnusedWithin, Owned, Held;
    if e.gap {
    } else if e.signal == Normal {
      LeaveSound(b, e, of);
    } else if e.signal == Stopped {
      StoppedIsLeft(e);
    } else if e.signal == Breaking {
      LeavesUnlessGap(e);
    } else {
      LeaveWithin(e, 0);
    }
  }

  lemma OutsideLoops(a: Analysis)
    requires a.baselines == []
    ensures InLoop(a, 0)
  {}

  lemma FunctionSilent(results: seq<Name>, others: seq<Name>, body: seq<Stmt>)
    requires Function(results, others, body).diagnostics == {}
    ensures var a := FunctionScope(results, others);
            && Silent(Function(results, others, body)) && Silent(Statements(a, body)) && Silent(a)
            && Silent(DeclareNames(PushScope(START), others))
  {
    hide WellFormed, DeclareNames, Statements, WithResults;
    var b := DeclareNames(PushScope(START), others);
    StartIsWellFormed();
    PushKeeps(START);
    DeclareNamesKeeps(PushScope(START), others);
    ResultsKeep(b, results);
    var a := WithResults(b, results);
    StatementsKeep(a, body);
    LaterThrough(PushScope(START), b, a);
    LaterThrough(PushScope(START), a, Statements(a, body));
    PopKeeps(START, Statements(a, body));
    NothingDiagnosed(Function(results, others, body));
  }

  lemma StartIsWellFormed()
    ensures WellFormed(START)
  {}

  lemma NothingDiagnosed(a: Analysis)
    requires WellFormed(a) && a.diagnostics == {}
    ensures Silent(a)
  {
    assert forall id :: id in a.diagnosed ==> Unused(id) in a.diagnostics;
  }
}
