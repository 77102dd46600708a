/** Where some path loses a result, some run does: with the converse, the path analysis is
    exact.
 */
module PathLosses {
  import opened Utf8
  import opened ObligationAnalysis
  import opened ResultRuns
  import opened PathAnalysis
  import opened PathSoundness
  import opened PathRuns

  /** A result is lost, or will be on the way out: of the function, or of the innermost loop,
      which began with `d` scopes. */
  ghost predicate Doomed(x: Run, d: nat) {
    || x.leaked
    || (x.signal == Returning && Unread(x) != {})
    || ((x.signal == Continuing || x.signal == Breaking) && d <= |x.scopes| && Unread(x) - Owned(x.scopes[..d]) != {})
  }

  /** From any run that is there, with the result unread, some choices lose a result. */
  ghost predicate StepsDoom(a: Flow, e: Expr, t: Option<nat>) {
    forall r | Meets(a, r) && Misses(t, r) :: exists cs: seq<bool> :: Doomed(RunSteps(r.(choices := cs), e), 0)
  }

  ghost predicate Dooms(a: Flow, s: Stmt, d: nat, t: Option<nat>) {
    forall r | Meets(a, r) && Misses(t, r) :: exists cs: seq<bool> :: Doomed(Execute(r.(choices := cs), s), d)
  }

  ghost predicate AllDoom(a: Flow, statements: seq<Stmt>, d: nat, t: Option<nat>) {
    forall r | Meets(a, r) && Misses(t, r) :: exists cs: seq<bool> :: Doomed(ExecuteAll(r.(choices := cs), statements), d)
  }

  ghost predicate InDooms(a: Flow, names: seq<Name>, statements: seq<Stmt>, d: nat, t: Option<nat>) {
    forall r | Meets(a, r) && Misses(t, r) ::
      exists cs: seq<bool> :: Doomed(ExecuteIn(r.(choices := cs), names, statements), d)
  }

  ghost predicate BranchesDoom(a: Flow, branches: seq<Branch>, hasElse: bool, elseBranch: seq<Stmt>, d: nat,
            t: Option<nat>) {
    forall r | Meets(a, r) && Misses(t, r) ::
      exists cs: seq<bool> :: Doomed(ExecuteBranches(r.(choices := cs), branches, hasElse, elseBranch), d)
  }

  ghost predicate BranchDooms(a: Flow, branch: Branch, d: nat, t: Option<nat>) {
    forall r | Meets(a, r) && Misses(t, r) :: exists cs: seq<bool> :: Doomed(ExecuteBranch(r.(choices := cs), branch), d)
  }

  /** Something there is open, or there is at least a path. */
  ghost predicate Open(a: Flow, t: Option<nat>) {
    a.live && (t.Some? ==> t.value in a.open)
  }

  lemma OpenBefore(a: Flow, c: Flow, t: Option<nat>)
    requires Open(c, t) && c.open <= a.open && (c.live ==> a.live)
    ensures Open(a, t)
  {}

  // Steps

  lemma DoomedByReturning(r: Run, t: nat, e: Run)
    requires t in Unread(r) && e.scopes == r.scopes && e.used == r.used && e.signal == Returning
    ensures Doomed(e, 0)
  {}

  lemma DoomedByStep(r: Run, e: Expr)
    requires e != [] && r.signal == Normal && Doomed(RunStep(r, e[0]), 0)
    ensures Doomed(RunSteps(r, e), 0)
  {
    hide Unread, RunStep;
  }

  lemma {:induction false} StepsLose(a: Flow, e: Expr) returns (t: Option<nat>)
    requires Sane(a) && FlowSteps(a, e).lost && !a.lost
    ensures Open(a, t) && StepsDoom(a, e, t)
    decreases e
  {
    var b := FlowStep(a, e[0]);
    if b.lost {
      hide Unread, FlowSteps, FlowStep, Doomed, Sane, RunStep, RunSteps;
      t := StepLoses(a, e[0]);
      forall r | Meets(a, r) && Misses(t, r) ensures exists cs: seq<bool> :: Doomed(RunSteps(r.(choices := cs), e), 0) {
        var cs: seq<bool> :| Doomed(RunStep(r.(choices := cs), e[0]), 0);
        DoomedByStep(r.(choices := cs), e);
      }
    } else {
      SaneSteps(a, b);
      t := StepsLose(b, e[1..]);
      OpenBefore(a, b, t);
      hide Unread, FlowSteps, FlowStep, Doomed, Sane, RunStep;
      forall r | Meets(a, r) && Misses(t, r) ensures exists cs: seq<bool> :: Doomed(RunSteps(r.(choices := cs), e), 0) {
        var cs1, x1 := StepPass(a, e[0], r, t);
        var cs2: seq<bool> :| Doomed(RunSteps(x1.(choices := cs2), e[1..]), 0);
        assert RunStep(r.(choices := cs1 + cs2), e[0]) == x1.(choices := cs2);
        assert Doomed(RunSteps(r.(choices := cs1 + cs2), e), 0);
      }
    }
  }

  lemma SaneSteps(a: Flow, b: Flow)
    requires Sane(a) && b == a.(open := b.open, lost := b.lost) && b.open <= a.open
    ensures Sane(b)
  {}

  lemma {:induction false} StepLoses(a: Flow, s: Step) returns (t: Option<nat>)
    requires Sane(a) && FlowStep(a, s).lost && !a.lost
    ensures Open(a, t)
    ensures forall r | Meets(a, r) && Misses(t, r) :: exists cs: seq<bool> :: Doomed(RunStep(r.(choices := cs), s), 0)
    decreases s
  {
    match s {
      case Propager =>
        var id :| id in a.open;
        t := Some(id);
        forall r | Meets(a, r) && Misses(t, r) ensures exists cs: seq<bool> :: Doomed(RunStep(r.(choices := cs), s), 0) {
          DoomedByReturning(r, id, RunStep(r.(choices := [true]), s));
        }
      case Perhaps(steps) =>
        hide Unread, Doomed, Sane;
        t := StepsLose(a, steps);
        forall r | Meets(a, r) && Misses(t, r) ensures exists cs: seq<bool> :: Doomed(RunStep(r.(choices := cs), s), 0) {
          var cs: seq<bool> :| Doomed(RunSteps(r.(choices := cs), steps), 0);
          assert ([true] + cs)[1..] == cs;
          assert RunStep(r.(choices := [true] + cs), s) == RunSteps(r.(choices := cs), steps);
          assert Doomed(RunStep(r.(choices := [true] + cs), s), 0);
        }
    }
  }

  /** Steps only return, or go on with what was lost. */
  lemma DoomedAnywhere(x: Run, d: nat)
    requires Doomed(x, 0) && x.signal != Continuing && x.signal != Breaking
    ensures Doomed(x, d)
  {}

  lemma {:induction false} StepSignals(r: Run, e: Expr)
    requires r.signal == Normal
    ensures RunSteps(r, e).signal != Continuing && RunSteps(r, e).signal != Breaking
    decreases e
  {
    if e != [] {
      StepSignal(r, e[0]);
      var f := RunStep(r, e[0]);
      if f.signal == Normal {
        StepSignals(f, e[1..]);
      }
    }
  }

  lemma {:induction false} StepSignal(r: Run, s: Step)
    requires r.signal == Normal
    ensures RunStep(r, s).signal != Continuing && RunStep(r, s).signal != Breaking
    decreases s
  {
    if s.Perhaps? {
      var (taken, c) := Choose(r);
      if taken && c.signal == Normal {
        StepSignals(c, s.steps);
      }
    }
  }

  /** A run that loses a result in the steps a statement begins with loses it for good. */
  lemma FirstSteps(r: Run, e: Expr, s: Stmt, d: nat)
    requires r.signal == Normal && Doomed(RunSteps(r, e), 0)
    requires (s.Eval? && s.e == e) || (s.Si? && s.condition == e) || (s.TantQue? && s.condition == e) || (s.Pour? && s.iterable == e)
             || (s.Retourne? && s.e == e) || (s.AgirSelon? && s.subject == e)
             || (s.Declare? && !s.init.Alias? && s.init.e == e)
    ensures Doomed(Execute(r, s), d)
  {
    hide Unread, RunSteps, ExecuteIn;
    StepSignals(r, e);
    var c := RunSteps(r, e);
    DoomedAnywhere(c, d);
    if s.Pour? && c.signal != Normal {
      NoRounds(c, [s.variable], s.body);
    }
  }

  lemma StepsFirst(a: Flow, e: Expr, s: Stmt, d: nat, t: Option<nat>)
    requires StepsDoom(a, e, t)
    requires (s.Eval? && s.e == e) || (s.Si? && s.condition == e) || (s.TantQue? && s.condition == e) || (s.Pour? && s.iterable == e)
             || (s.Retourne? && s.e == e) || (s.AgirSelon? && s.subject == e)
             || (s.Declare? && !s.init.Alias? && s.init.e == e)
    ensures Dooms(a, s, d, t)
  {
    hide Unread, RunSteps, Doomed, Execute;
    forall r | Meets(a, r) && Misses(t, r) ensures exists cs: seq<bool> :: Doomed(Execute(r.(choices := cs), s), d) {
      var cs: seq<bool> :| Doomed(RunSteps(r.(choices := cs), e), 0);
      FirstSteps(r.(choices := cs), e, s, d);
    }
  }

  // Statements

  lemma {:induction false} StatementLoses(a: Flow, s: Stmt, d: nat) returns (t: Option<nat>)
    requires Sane(a) && d < |a.scopes| && FlowStatement(a, s, d).lost && !a.lost
    ensures Open(a, t) && Dooms(a, s, d, t)
    decreases s, 1
  {
    hide Unread, Doomed, FlowSteps, RunSteps, FlowDeclare, RunDeclare, FlowIn, ExecuteIn, FlowLoop, Rounds, FlowBranches,
      ExecuteBranches, Sane, Open, StepsDoom, Dooms;
    match s {
      case Eval(e) =>
        t := StepsLose(a, e);
        StepsFirst(a, e, s, d, t);
      case Declare(name, init) => t := DeclarationLoses(a, name, init, d);
      case Block(statements) =>
        t := ScopeLoses(a, [], statements, d);
        BlockDooms(a, statements, d, t);
      case Si(condition, thenBranch, elseBranch) => t := SiLoses(a, condition, thenBranch, elseBranch, d);
      case TantQue(condition, body) => t := LoopLoses(a, s, condition, [], body, d);
      case Pour(iterable, variable, body) => t := LoopLoses(a, s, iterable, [variable], body, d);
      case Continuer => t := ExitLoses(a, s, d);
      case Arreter => t := ExitLoses(a, s, d);
      case Retourne(e) => t := RetourneLoses(a, e, d);
      case AgirSelon(subject, branches, hasElse, elseBranch, isResult) =>
        t := SelonLoses(a, subject, branches, hasElse, elseBranch, isResult, d);
    }
  }

  lemma DeclarationLoses(a: Flow, name: Name, init: Init, d: nat) returns (t: Option<nat>)
    requires Sane(a) && a.scopes != [] && FlowDeclare(a, name, init).lost && !a.lost
    ensures Open(a, t) && Dooms(a, Declare(name, init), d, t)
  {
    hide FlowSteps, FlowNamed, FlowNew, Dooms, StepsDoom, Sane, Open, Find;
    if init.Alias? {
      AliasLosesNothing(a, name, init.source);
    } else {
      NamedLosesNothing(FlowSteps(a, init.e), name, None);
      t := StepsLose(a, init.e);
      StepsFirst(a, init.e, Declare(name, init), d, t);
    }
  }

  lemma AliasLosesNothing(a: Flow, name: Name, source: Name)
    requires a.scopes != []
    ensures FlowDeclare(a, name, Alias(source)).lost == a.lost
  {
    hide Find;
    NamedLosesNothing(a, name, None);
    if Find(a.scopes, source).Some? {
      NamedLosesNothing(a, name, Find(a.scopes, source).value);
    }
  }

  lemma BlockDooms(a: Flow, statements: seq<Stmt>, d: nat, t: Option<nat>)
    requires InDooms(a, [], statements, d, t)
    ensures Dooms(a, Block(statements), d, t)
  {
    hide Unread, Execute, ExecuteIn, Doomed, InDooms, Owned;
    forall r | Meets(a, r) && Misses(t, r) ensures exists cs: seq<bool> :: Doomed(Execute(r.(choices := cs), Block(statements)), d) {
      var cs := InDoomsAt(a, [], statements, d, t, r);
      BlockIsScope(r.(choices := cs), statements);
      assert Doomed(Execute(r.(choices := cs), Block(statements)), d);
    }
  }

  lemma BlockIsScope(r: Run, statements: seq<Stmt>)
    requires r.signal == Normal
    ensures Execute(r, Block(statements)) == ExecuteIn(r, [], statements)
  {
    hide ExecuteIn;
  }

  lemma ExitLoses(a: Flow, s: Stmt, d: nat) returns (t: Option<nat>)
    requires Sane(a) && d < |a.scopes| && FlowExit(a, d).lost && !a.lost && (s == Continuer || s == Arreter)
    ensures Open(a, t) && Dooms(a, s, d, t)
  {
    hide Owned;
    var id :| id in a.open - Owned(a.scopes[..d]);
    t := Some(id);
    forall r | Meets(a, r) && Misses(t, r) ensures exists cs: seq<bool> :: Doomed(Execute(r.(choices := cs), s), d) {
      var x := Execute(r.(choices := []), s);
      assert id in Unread(x) - Owned(x.scopes[..d]);
      assert Doomed(Execute(r.(choices := []), s), d);
    }
  }

  lemma RetourneLoses(a: Flow, e: Expr, d: nat) returns (t: Option<nat>)
    requires Sane(a) && d < |a.scopes| && FlowExit(FlowSteps(a, e), 0).lost && !a.lost
    ensures Open(a, t) && Dooms(a, Retourne(e), d, t)
  {
    hide Unread, FlowSteps, RunSteps, StepsDoom;
    var c := FlowSteps(a, e);
    StepsGoOn(a, e);
    if c.lost {
      t := StepsLose(a, e);
      hide Dooms;
      StepsFirst(a, e, Retourne(e), d, t);
    } else {
      var id :| id in c.open;
      t := Some(id);
      forall r | Meets(a, r) && Misses(t, r) ensures exists cs: seq<bool> :: Doomed(Execute(r.(choices := cs), Retourne(e)), d) {
        var cs, x := StepsPass(a, e, r, t);
        assert cs + [] == cs;
        StepsLeadTo(r, e, cs, x, []);
        DoomedByReturning(x, id, Execute(r.(choices := cs), Retourne(e)));
        DoomedAnywhere(Execute(r.(choices := cs), Retourne(e)), d);
        assert Doomed(Execute(r.(choices := cs), Retourne(e)), d);
      }
    }
  }

  /** What is lost once stays lost. */
  lemma DoomedStays(r: Run, s: Stmt, rest: seq<Stmt>, d: nat)
    requires Doomed(Execute(r, s), d)
    ensures Doomed(ExecuteAll(r, [s] + rest), d)
  {
    hide Unread, Execute;
    assert ([s] + rest)[1..] == rest;
    if Execute(r, s).signal != Normal {
      AllStopped(Execute(r, s), rest);
    }
  }

  lemma {:induction false} AllLose(a: Flow, statements: seq<Stmt>, d: nat) returns (t: Option<nat>)
    requires Sane(a) && d < |a.scopes| && FlowAll(a, statements, d).lost && !a.lost
    ensures Open(a, t) && AllDoom(a, statements, d, t)
    decreases statements, 0
  {
    hide Unread, Doomed, FlowStatement, Execute, Sane, Meets, Leads;
    var s, rest, b := statements[0], statements[1..], FlowStatement(a, statements[0], d);
    assert [s] + rest == statements;
    StatementGoesOn(a, s, d);
    if b.lost {
      t := StatementLoses(a, s, d);
      forall r | Meets(a, r) && Misses(t, r)
        ensures exists cs: seq<bool> :: Doomed(ExecuteAll(r.(choices := cs), statements), d)
      {
        var cs: seq<bool> :| Doomed(Execute(r.(choices := cs), s), d);
        DoomedStays(r.(choices := cs), s, rest, d);
      }
    } else {
      var u := AllLose(b, rest, d);
      t := if u.Some? && u.value < a.next then u else None;
      forall r | Meets(a, r) && Misses(t, r)
        ensures exists cs: seq<bool> :: Doomed(ExecuteAll(r.(choices := cs), statements), d)
      {
        var cs1, x1 := StatementPasses(a, s, d, r, u);
        var cs2: seq<bool> :| Doomed(ExecuteAll(x1.(choices := cs2), rest), d);
        LeadsTo(r, s, cs1, x1, cs2);
        assert ExecuteAll(r.(choices := cs1 + cs2), statements) == ExecuteAll(x1.(choices := cs2), rest);
      }
    }
  }

  lemma LeadsTo(r: Run, s: Stmt, cs: seq<bool>, x: Run, more: seq<bool>)
    requires Leads(r, s, cs, x)
    ensures Execute(r.(choices := cs + more), s) == x.(choices := more)
  {}

  lemma AllLeadTo(r: Run, statements: seq<Stmt>, cs: seq<bool>, x: Run)
    requires AllLead(r, statements, cs, x)
    ensures ExecuteAll(r.(choices := cs), statements) == x.(choices := []) && Unread(x.(choices := [])) == Unread(x)
  {
    hide ExecuteAll;
    assert cs + [] == cs;
  }

  /** Leaving a scope that alone holds something unread, or holds it on the way out. */
  lemma LeavingDooms(x: Run, next: nat, d: nat)
    requires Doomed(x, d) && d < |x.scopes|
    ensures Doomed(Leave(x).(next := next), d)
  {
    var n := |x.scopes| - 1;
    assert Owned(x.scopes) == Owned(x.scopes[..n]) + Held(x.scopes[n]);
    assert x.scopes[..n][..d] == x.scopes[..d];
    if x.signal == Returning && !x.leaked {
      var id :| id in Unread(x);
      assert id in Held(x.scopes[n]) - x.used - Owned(x.scopes[..n]) || id in Unread(Leave(x));
    } else if !x.leaked {
      var id :| id in Unread(x) - Owned(x.scopes[..d]);
      assert id in Held(x.scopes[n]) - x.used - Owned(x.scopes[..n]) || id in Unread(Leave(x)) - Owned(x.scopes[..d]);
    }
  }

  lemma LeavingLoses(x: Run, id: nat)
    requires x.signal != Stopped && x.scopes != [] && id in Unread(x) && id !in Owned(x.scopes[..|x.scopes| - 1])
    ensures Leave(x).leaked
  {
    var n := |x.scopes| - 1;
    assert id in Held(x.scopes[n]) - x.used - Owned(x.scopes[..n]);
  }

  lemma {:induction false} ScopeLoses(a: Flow, names: seq<Name>, statements: seq<Stmt>, d: nat) returns (t: Option<nat>)
    requires Sane(a) && d <= |a.scopes| && FlowIn(a, names, statements, d).lost && !a.lost
    ensures Open(a, t) && InDooms(a, names, statements, d, t)
    decreases statements, 1
  {
    hide Unread, Owned, FlowAll, ExecuteAll, HoldingNone, Leave, AllDoom, AllLead, Doomed;
    var b := FlowEnter(a, names);
    EnterGoesOn(a, names);
    AllGoesOn(b, statements, d);
    var b2 := FlowAll(b, statements, d);
    if b2.lost {
      t := AllLose(b, statements, d);
      forall r | Meets(a, r) && Misses(t, r)
        ensures exists cs: seq<bool> :: Doomed(ExecuteIn(r.(choices := cs), names, statements), d)
      {
        EnteredMisses(a, names, r, t);
        var cs := AllDoomAt(b, statements, d, t, r.(scopes := b.scopes));
        EnterIs(a, names, r.(choices := cs));
        InIsDoomed(r.(choices := cs), names, statements, d);
      }
    } else {
      var id :| id in b2.open - Owned(a.scopes);
      t := None;
      OpenIsNew(a, b, b2, id);
      forall r | Meets(a, r) && Misses(t, r)
        ensures exists cs: seq<bool> :: Doomed(ExecuteIn(r.(choices := cs), names, statements), d)
      {
        var cs, x := AllPass(b, statements, d, r.(scopes := b.scopes), Some(id));
        AllLeadTo(r.(scopes := b.scopes), statements, cs, x);
        EnterIs(a, names, r.(choices := cs));
        LostAtTheEnd(a, b2, x.(choices := []), id);
        assert Leave(x.(choices := [])).leaked;
        LeakedIsDoomed(ExecuteIn(r.(choices := cs), names, statements), d);
      }
    }
  }

  lemma EnteredMisses(a: Flow, names: seq<Name>, r: Run, t: Option<nat>)
    requires Sane(a) && Meets(a, r) && Misses(t, r)
    ensures Meets(FlowEnter(a, names), r.(scopes := FlowEnter(a, names).scopes)) && Misses(t, r.(scopes := FlowEnter(a, names).scopes))
  {
    EnterGoesOn(a, names);
  }

  lemma AllDoomAt(a: Flow, statements: seq<Stmt>, d: nat, t: Option<nat>, r: Run) returns (cs: seq<bool>)
    requires AllDoom(a, statements, d, t) && Meets(a, r) && Misses(t, r)
    ensures Doomed(ExecuteAll(r.(choices := cs), statements), d)
  {
    hide ExecuteAll, Doomed, Unread;
    cs :| Doomed(ExecuteAll(r.(choices := cs), statements), d);
  }

  lemma InIsDoomed(r: Run, names: seq<Name>, statements: seq<Stmt>, d: nat)
    requires r.signal == Normal && d <= |r.scopes| && Doomed(ExecuteAll(HoldingNone(Enter(r), names), statements), d)
    ensures Doomed(ExecuteIn(r, names, statements), d)
  {
    hide ExecuteAll;
    var x := ExecuteAll(HoldingNone(Enter(r), names), statements);
    if x.signal != Stopped {
      hide Doomed, HoldingNone, Leave;
      LeavingDooms(x, r.next, d);
    }
  }

  lemma LeakedIsDoomed(x: Run, d: nat)
    requires x.leaked
    ensures Doomed(x, d)
  {}

  /** Whatever is open and not held outside came with the scope. */
  lemma OpenIsNew(a: Flow, b: Flow, b2: Flow, id: nat)
    requires Sane(a) && Sane(b2) && Onwards(b, b2) && b == a.(scopes := b.scopes) && id in b2.open && id !in Owned(a.scopes)
    ensures Open(a, None) && b2.live && id >= a.next
  {}

  lemma LostAtTheEnd(a: Flow, b: Flow, x: Run, id: nat)
    requires Meets(b, x) && |b.scopes| == |a.scopes| + 1 && b.scopes[..|a.scopes|] == a.scopes
    requires id in Unread(x) && id !in Owned(a.scopes)
    ensures Leave(x).leaked
  {
    LeavingLoses(x, id);
  }

  // Branches

  lemma {:induction false} SiLoses(a: Flow, condition: Expr, thenBranch: seq<Stmt>, elseBranch: seq<Stmt>, d: nat)
    returns (t: Option<nat>)
    requires Sane(a) && d < |a.scopes| && FlowStatement(a, Si(condition, thenBranch, elseBranch), d).lost && !a.lost
    ensures Open(a, t) && Dooms(a, Si(condition, thenBranch, elseBranch), d, t)
    decreases Si(condition, thenBranch, elseBranch), 0
  {
    hide Unread, FlowSteps, RunSteps, FlowIn, ExecuteIn, StepsLead, InDooms, StepsDoom, Doomed;
    var c := FlowSteps(a, condition);
    StepsGoOn(a, condition);
    if c.lost {
      t := StepsLose(a, condition);
      hide Dooms;
      StepsFirst(a, condition, Si(condition, thenBranch, elseBranch), d, t);
    } else {
      var yes := FlowIn(c, [], thenBranch, d).lost;
      var branch := if yes then thenBranch else elseBranch;
      t := ScopeLoses(c, [], branch, d);
      OpenBefore(a, c, t);
      forall r | Meets(a, r) && Misses(t, r)
        ensures exists cs: seq<bool> :: Doomed(Execute(r.(choices := cs), Si(condition, thenBranch, elseBranch)), d)
      {
        var cs1, x1 := StepsPass(a, condition, r, t);
        var cs2 := InDoomsAt(c, [], branch, d, t, x1);
        StepsLeadTo(r, condition, cs1, x1, [yes] + cs2);
        assert ([yes] + cs2)[1..] == cs2;
        assert Doomed(Execute(r.(choices := cs1 + ([yes] + cs2)), Si(condition, thenBranch, elseBranch)), d);
      }
    }
  }

  lemma InDoomsAt(a: Flow, names: seq<Name>, statements: seq<Stmt>, d: nat, t: Option<nat>,
            r: Run) returns (cs: seq<bool>)
    requires InDooms(a, names, statements, d, t) && Meets(a, r) && Misses(t, r)
    ensures Doomed(ExecuteIn(r.(choices := cs), names, statements), d)
  {
    hide ExecuteIn, Doomed, Unread;
    cs :| Doomed(ExecuteIn(r.(choices := cs), names, statements), d);
  }

  lemma {:induction false} SelonLoses(a: Flow, subject: Expr, branches: seq<Branch>, hasElse: bool,
            elseBranch: seq<Stmt>,
                                      isResult: bool, d: nat) returns (t: Option<nat>)
    requires Sane(a) && d < |a.scopes| && !a.lost
    requires FlowStatement(a, AgirSelon(subject, branches, hasElse, elseBranch, isResult), d).lost
    ensures Open(a, t) && Dooms(a, AgirSelon(subject, branches, hasElse, elseBranch, isResult), d, t)
    decreases AgirSelon(subject, branches, hasElse, elseBranch, isResult), 0
  {
    hide Unread, FlowSteps, RunSteps, FlowIn, ExecuteIn, FlowBranches, ExecuteBranches, StepsLead, InDooms, BranchesDoom,
      StepsDoom, Doomed;
    var c := FlowSteps(a, subject);
    StepsGoOn(a, subject);
    if c.lost {
      t := StepsLose(a, subject);
      hide Dooms;
      StepsFirst(a, subject, AgirSelon(subject, branches, hasElse, elseBranch, isResult), d, t);
    } else {
      var u := None;
      if Otherwise(c, hasElse, elseBranch, d).lost {
        u := ScopeLoses(c, [], elseBranch, d);
      }
      t := BranchesLose(c, branches, hasElse, elseBranch, d, u);
      OpenBefore(a, c, t);
      forall r | Meets(a, r) && Misses(t, r)
        ensures exists cs: seq<bool> ::
                  Doomed(Execute(r.(choices := cs), AgirSelon(subject, branches, hasElse, elseBranch, isResult)), d)
      {
        var cs1, x1 := StepsPass(a, subject, r, t);
        var cs2 := BranchesDoomAt(c, branches, hasElse, elseBranch, d, t, x1);
        StepsLeadTo(r, subject, cs1, x1, cs2);
        assert Doomed(Execute(r.(choices := cs1 + cs2), AgirSelon(subject, branches, hasElse, elseBranch, isResult)), d);
      }
    }
  }

  lemma BranchesDoomAt(a: Flow, branches: seq<Branch>, hasElse: bool, elseBranch: seq<Stmt>, d: nat, t: Option<nat>,
            r: Run)
    returns (cs: seq<bool>)
    requires BranchesDoom(a, branches, hasElse, elseBranch, d, t) && Meets(a, r) && Misses(t, r)
    ensures Doomed(ExecuteBranches(r.(choices := cs), branches, hasElse, elseBranch), d)
  {
    hide ExecuteBranches, Doomed, Unread;
    cs :| Doomed(ExecuteBranches(r.(choices := cs), branches, hasElse, elseBranch), d);
  }

  /** `u` is what `sinon` loses, if it loses something. */
  lemma {:induction false} BranchesLose(a: Flow, branches: seq<Branch>, hasElse: bool, elseBranch: seq<Stmt>, d: nat,
            u: Option<nat>)
    returns (t: Option<nat>)
    requires Sane(a) && d < |a.scopes| && FlowBranches(a, branches, Otherwise(a, hasElse, elseBranch, d), d).lost && !a.lost
    requires Otherwise(a, hasElse, elseBranch, d).lost ==> hasElse && Open(a, u) && InDooms(a, [], elseBranch, d, u)
    ensures Open(a, t) && BranchesDoom(a, branches, hasElse, elseBranch, d, t)
    decreases branches, 0
  {
    hide Unread, FlowIn, ExecuteIn, FlowBranch, ExecuteBranch, InDooms, BranchDooms, Doomed, Sane;
    var otherwise := Otherwise(a, hasElse, elseBranch, d);
    if branches == [] {
      t := u;
      forall r | Meets(a, r) && Misses(t, r)
        ensures exists cs: seq<bool> :: Doomed(ExecuteBranches(r.(choices := cs), branches, hasElse, elseBranch), d)
      {
        var cs := InDoomsAt(a, [], elseBranch, d, t, r);
        assert Doomed(ExecuteBranches(r.(choices := cs), branches, hasElse, elseBranch), d);
      }
    } else if FlowBranch(a, branches[0], d).lost {
      t := BranchLoses(a, branches[0], d);
      forall r | Meets(a, r) && Misses(t, r)
        ensures exists cs: seq<bool> :: Doomed(ExecuteBranches(r.(choices := cs), branches, hasElse, elseBranch), d)
      {
        var cs := BranchDoomsAt(a, branches[0], d, t, r);
        assert ([true] + cs)[1..] == cs;
        assert Doomed(ExecuteBranches(r.(choices := [true] + cs), branches, hasElse, elseBranch), d);
      }
    } else {
      t := BranchesLose(a, branches[1..], hasElse, elseBranch, d, u);
      forall r | Meets(a, r) && Misses(t, r)
        ensures exists cs: seq<bool> :: Doomed(ExecuteBranches(r.(choices := cs), branches, hasElse, elseBranch), d)
      {
        var cs := BranchesDoomAt(a, branches[1..], hasElse, elseBranch, d, t, r);
        assert ([false] + cs)[1..] == cs;
        assert Doomed(ExecuteBranches(r.(choices := [false] + cs), branches, hasElse, elseBranch), d);
      }
    }
  }

  lemma BranchDoomsAt(a: Flow, branch: Branch, d: nat, t: Option<nat>, r: Run) returns (cs: seq<bool>)
    requires BranchDooms(a, branch, d, t) && Meets(a, r) && Misses(t, r)
    ensures Doomed(ExecuteBranch(r.(choices := cs), branch), d)
  {
    hide ExecuteBranch, Doomed, Unread;
    cs :| Doomed(ExecuteBranch(r.(choices := cs), branch), d);
  }

  lemma {:induction false} BranchLoses(a: Flow, branch: Branch, d: nat) returns (t: Option<nat>)
    requires Sane(a) && d < |a.scopes| && FlowBranch(a, branch, d).lost && !a.lost
    ensures Open(a, t) && BranchDooms(a, branch, d, t)
    decreases branch, 0
  {
    match branch.ending {
      case Body(statements) =>
        hide Unread, FlowIn, ExecuteIn, Doomed, InDooms;
        t := ScopeLoses(a, branch.names, statements, d);
        forall r | Meets(a, r) && Misses(t, r) ensures exists cs: seq<bool> :: Doomed(ExecuteBranch(r.(choices := cs), branch), d) {
          var cs := InDoomsAt(a, branch.names, statements, d, t, r);
          assert Doomed(ExecuteBranch(r.(choices := cs), branch), d);
        }
      case PropageBranche =>
        hide Owned;
        var id :| id in a.open;
        t := Some(id);
        forall r | Meets(a, r) && Misses(t, r) ensures exists cs: seq<bool> :: Doomed(ExecuteBranch(r.(choices := cs), branch), d) {
          DoomedByReturning(r, id, ExecuteBranch(r.(choices := []), branch));
          DoomedAnywhere(ExecuteBranch(r.(choices := []), branch), d);
        }
    }
  }

  // Loops: one round is enough

  lemma {:induction false} LoopLoses(a: Flow, s: Stmt, e: Expr, names: seq<Name>, body: seq<Stmt>,
            d: nat) returns (t: Option<nat>)
    requires Sane(a) && d < |a.scopes| && FlowLoop(FlowSteps(a, e), names, body).lost && !a.lost
    requires (s.TantQue? && s.condition == e && s.body == body && names == [])
             || (s.Pour? && s.iterable == e && s.body == body && names == [s.variable])
    ensures Open(a, t) && Dooms(a, s, d, t)
    decreases s, 0
  {
    hide Unread, FlowSteps, RunSteps, FlowIn, ExecuteIn, StepsLead, InDooms, StepsDoom, Doomed;
    var c := FlowSteps(a, e);
    StepsGoOn(a, e);
    if c.lost {
      t := StepsLose(a, e);
      hide Dooms;
      StepsFirst(a, e, s, d, t);
    } else {
      t := ScopeLoses(c, names, body, |c.scopes|);
      OpenBefore(a, c, t);
      forall r | Meets(a, r) && Misses(t, r) ensures exists cs: seq<bool> :: Doomed(Execute(r.(choices := cs), s), d) {
        var cs1, x1 := StepsPass(a, e, r, t);
        var cs2 := InDoomsAt(c, names, body, |c.scopes|, t, x1);
        StepsLeadTo(r, e, cs1, x1, [true] + cs2);
        assert ([true] + cs2)[1..] == cs2;
        var y := x1.(choices := [true] + cs2);
        if s.Pour? {
          NoSteps(a, y);
          RoundDooms(y, [], names, body, y, cs2, d);
        } else {
          RoundDooms(r.(choices := cs1 + ([true] + cs2)), e, names, body, y, cs2, d);
        }
        assert Doomed(Execute(r.(choices := cs1 + ([true] + cs2)), s), d);
      }
    }
  }

  /** A round that loses a result loses it. */
  lemma RoundDooms(r: Run, e: Expr, names: seq<Name>, body: seq<Stmt>, x: Run, cs: seq<bool>, d: nat)
    requires RunSteps(r, e) == x && x.signal == Normal && x.choices == [true] + cs
    requires Doomed(ExecuteIn(x.(choices := cs), names, body), |x.scopes|)
    ensures Doomed(Rounds(r, e, names, body), d)
  {
    hide ExecuteIn, Owned, RunSteps;
    var b := ExecuteIn(x.(choices := cs), names, body);
    assert ([true] + cs)[1..] == cs;
    if b.signal == Continuing || b.signal == Breaking {
      assert b.scopes[..|x.scopes|] == b.scopes;
    }
  }

  // Functions

  /** The analysis of paths is exact: some run of a function loses a result exactly when some
      path does. */
  lemma LossIsExact(results: seq<Name>, others: seq<Name>, body: seq<Stmt>)
    ensures LosesResult(results, others, body) <==>
            exists choices: seq<bool> :: ExecuteFunction(results, others, body, choices).leaked
  {
    hide LosesResult, ExecuteFunction;
    if LosesResult(results, others, body) {
      var choices := LosingRun(results, others, body);
    }
    forall choices: seq<bool> | !LosesResult(results, others, body) ensures !ExecuteFunction(results, others, body, choices).leaked {
      NoPathNoRun(results, others, body, choices);
    }
  }

  lemma LosingRun(results: seq<Name>, others: seq<Name>, body: seq<Stmt>) returns (choices: seq<bool>)
    requires LosesResult(results, others, body)
    ensures ExecuteFunction(results, others, body, choices).leaked
  {
    hide Unread, Sane, FlowStart, Called, FlowAll, ExecuteAll, Doomed, AllDoom, AllLead;
    var a, r := FlowStart(results, others), Called(results, others, []);
    CallIsOn(results, others, []);
    CallTakesNoChoices(results, others);
    AllGoesOn(a, body, 0);
    var b := FlowAll(a, body, 0);
    if b.lost {
      var t := AllLose(a, body, 0);
      CallMisses(results, others, t);
      choices := AllDoomAt(a, body, 0, t, r);
      var x := ExecuteAll(r.(choices := choices), body);
      assert Called(results, others, choices) == r.(choices := choices);
      DoomedAtTheEnd(x);
    } else {
      var id :| id in b.open;
      OpenIsLive(b, id);
      var u := Some(id);
      CallAwaits(results, others, b, id);
      var x;
      choices, x := AllPass(a, body, 0, r, u);
      AllLeadTo(r, body, choices, x);
      assert Called(results, others, choices) == r.(choices := choices);
      EndLoses(x.(choices := []), id);
    }
  }

  lemma OpenIsLive(b: Flow, id: nat)
    requires Sane(b) && id in b.open
    ensures b.live
  {}

  lemma {:induction false} ResultsTakeNoChoices(r: Run, results: seq<Name>, choices: seq<bool>)
    ensures HoldingResults(r.(choices := choices), results) == HoldingResults(r, results).(choices := choices)
    decreases |results|
  {
    if results != [] {
      assert HoldingNew(r.(choices := choices), results[0]) == HoldingNew(r, results[0]).(choices := choices);
      ResultsTakeNoChoices(HoldingNew(r, results[0]), results[1..], choices);
    }
  }

  lemma CallTakesNoChoices(results: seq<Name>, others: seq<Name>)
    ensures forall choices: seq<bool> :: Called(results, others, choices) == Called(results, others, []).(choices := choices)
  {
    var a := Flow([], {}, 0, true, false);
    forall choices: seq<bool> ensures Called(results, others, choices) == Called(results, others, []).(choices := choices) {
      var r, s := Run([], {}, 0, false, false, choices, Normal), Run([], {}, 0, false, false, [], Normal);
      EnterIs(a, others, r);
      EnterIs(a, others, s);
      ResultsTakeNoChoices(HoldingNone(Enter(s), others), results, choices);
    }
  }

  /** Nothing has been read when a function begins. */
  lemma {:induction false} ResultsUnread(r: Run, results: seq<Name>)
    requires r.used == {}
    ensures HoldingResults(r, results).used == {}
    decreases |results|
  {
    if results != [] {
      ResultsUnread(HoldingNew(r, results[0]), results[1..]);
    }
  }

  lemma CallIsUnread(results: seq<Name>, others: seq<Name>)
    ensures Called(results, others, []).used == {}
  {
    var r := Run([], {}, 0, false, false, [], Normal);
    EnterIs(Flow([], {}, 0, true, false), others, r);
    ResultsUnread(HoldingNone(Enter(r), others), results);
  }

  /** So what is open when it begins is unread. */
  lemma CallMisses(results: seq<Name>, others: seq<Name>, t: Option<nat>)
    requires Open(FlowStart(results, others), t)
    ensures Misses(t, Called(results, others, []))
  {
    hide FlowStart, Called, Owned;
    CallIsOn(results, others, []);
    CallIsUnread(results, others);
  }

  lemma CallAwaits(results: seq<Name>, others: seq<Name>, b: Flow, id: nat)
    requires Onwards(FlowStart(results, others), b) && id in b.open
    ensures Awaits(FlowStart(results, others), b, Some(id), Called(results, others, []))
  {
    hide FlowStart, Called, Owned;
    CallIsOn(results, others, []);
    CallIsUnread(results, others);
  }

  /** Leaving the function loses what is unread. */
  lemma DoomedAtTheEnd(x: Run)
    requires Doomed(x, 0) && (x.signal != Stopped ==> |x.scopes| == 1)
    ensures Leave(x).leaked
  {
    if !x.leaked {
      assert x.scopes[..0] == [];
      assert Owned(x.scopes[..0]) == {};
      var id :| id in Unread(x);
      LeavingLoses(x, id);
    }
  }

  lemma EndLoses(x: Run, id: nat)
    requires x.signal == Normal && |x.scopes| == 1 && id in Unread(x)
    ensures Leave(x).leaked
  {
    assert x.scopes[..0] == [];
    assert Owned(x.scopes[..0]) == {};
    LeavingLoses(x, id);
  }
}
