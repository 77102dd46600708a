/** Every path of the analysis is run: what may be unread at a point is unread there in some
    run, and where some path loses a result, some run does.
 */
module PathRuns {
  import opened Utf8
  import opened ObligationAnalysis
  import opened ResultRuns
  import opened PathAnalysis
  import opened PathSoundness

  ghost predicate Meets(a: Flow, r: Run) {
    r.signal == Normal && r.scopes == a.scopes && r.next == a.next
  }

  /** The result, if any, is unread. */
  ghost predicate Misses(t: Option<nat>, r: Run) {
    t.Some? ==> t.value in Unread(r)
  }

  /** A result unread after something is unread before it, unless it is newer. */
  ghost predicate Awaits(a: Flow, b: Flow, t: Option<nat>, r: Run) {
    t.Some? ==> t.value in b.open && (t.value < a.next ==> t.value in Unread(r))
  }

  // Runs that take exactly some choices

  ghost predicate StepsLead(r: Run, e: Expr, cs: seq<bool>, x: Run) {
    forall more: seq<bool> :: RunSteps(r.(choices := cs + more), e) == x.(choices := more)
  }

  ghost predicate Leads(r: Run, s: Stmt, cs: seq<bool>, x: Run) {
    forall more: seq<bool> :: Execute(r.(choices := cs + more), s) == x.(choices := more)
  }

  ghost predicate AllLead(r: Run, statements: seq<Stmt>, cs: seq<bool>, x: Run) {
    forall more: seq<bool> :: ExecuteAll(r.(choices := cs + more), statements) == x.(choices := more)
  }

  ghost predicate InLeads(r: Run, names: seq<Name>, statements: seq<Stmt>, cs: seq<bool>, x: Run) {
    forall more: seq<bool> :: ExecuteIn(r.(choices := cs + more), names, statements) == x.(choices := more)
  }

  ghost predicate BranchesLead(r: Run, branches: seq<Branch>, hasElse: bool, elseBranch: seq<Stmt>, cs: seq<bool>,
            x: Run) {
    forall more: seq<bool> :: ExecuteBranches(r.(choices := cs + more), branches, hasElse, elseBranch) == x.(choices := more)
  }

  ghost predicate BranchLeads(r: Run, branch: Branch, cs: seq<bool>, x: Run) {
    forall more: seq<bool> :: ExecuteBranch(r.(choices := cs + more), branch) == x.(choices := more)
  }

  lemma Onto(cs: seq<bool>, ds: seq<bool>, more: seq<bool>)
    ensures cs + ds + more == cs + (ds + more)
    ensures [] + more == more
  {}

  // Steps

  lemma {:induction false} StepsPass(a: Flow, e: Expr, r: Run, t: Option<nat>) returns (cs: seq<bool>, x: Run)
    requires Meets(a, r) && Misses(t, r) && (t.Some? ==> t.value in FlowSteps(a, e).open)
    ensures StepsLead(r, e, cs, x) && Meets(FlowSteps(a, e), x) && Misses(t, x)
    decreases e
  {
    if e == [] {
      cs, x := [], r;
      forall more: seq<bool> ensures RunSteps(r.(choices := cs + more), e) == x.(choices := more) {
        Onto([], [], more);
      }
    } else {
      hide Unread, FlowStep, RunStep;
      var b := FlowStep(a, e[0]);
      var cs1, x1 := StepPass(a, e[0], r, t);
      var cs2, x2 := StepsPass(b, e[1..], x1, t);
      cs, x := cs1 + cs2, x2;
      forall more: seq<bool> ensures RunSteps(r.(choices := cs + more), e) == x.(choices := more) {
        Onto(cs1, cs2, more);
        assert RunStep(r.(choices := cs1 + (cs2 + more)), e[0]) == x1.(choices := cs2 + more);
        assert RunSteps(x1.(choices := cs2 + more), e[1..]) == x2.(choices := more);
      }
    }
  }

  lemma StepPass(a: Flow, s: Step, r: Run, t: Option<nat>) returns (cs: seq<bool>, x: Run)
    requires Meets(a, r) && Misses(t, r) && (t.Some? ==> t.value in FlowStep(a, s).open)
    ensures forall more: seq<bool> :: RunStep(r.(choices := cs + more), s) == x.(choices := more)
    ensures Meets(FlowStep(a, s), x) && Misses(t, x)
  {
    hide Owned;
    match s {
      case Use(name) => cs, x := [], Read(r, name);
      case Propager => cs, x := [false], r;
      case Perhaps(steps) => cs, x := [false], Skip(r, steps);
    }
    forall more: seq<bool> ensures RunStep(r.(choices := cs + more), s) == x.(choices := more) {
      Onto([], [], more);
    }
  }

  // Declarations

  lemma NamedPasses(a: Flow, name: Name, o: Option<nat>, r: Run, t: Option<nat>)
    requires Sane(a) && a.scopes != [] && Meets(a, r) && Misses(t, r) && (t.Some? ==> t.value in FlowNamed(a, name, o).open)
    ensures Meets(FlowNamed(a, name, o), Holding(r, name, o)) && Misses(t, Holding(r, name, o))
    ensures forall more: seq<bool> :: Holding(r.(choices := more), name, o) == Holding(r, name, o).(choices := more)
  {
    hide Owned;
  }

  lemma NewPasses(a: Flow, name: Name, r: Run, t: Option<nat>)
    requires Sane(a) && a.scopes != [] && Meets(a, r) && Awaits(a, FlowNew(a, name), t, r)
    ensures Meets(FlowNew(a, name), HoldingNew(r, name)) && Misses(t, HoldingNew(r, name))
    ensures forall more: seq<bool> :: HoldingNew(r.(choices := more), name) == HoldingNew(r, name).(choices := more)
  {
    NamedScopes(a.scopes, name, Some(a.next));
    hide Owned;
  }

  lemma DeclarationPasses(a: Flow, name: Name, init: Init, r: Run, t: Option<nat>) returns (cs: seq<bool>, x: Run)
    requires Sane(a) && a.scopes != [] && Meets(a, r) && Awaits(a, FlowDeclare(a, name, init), t, r)
    ensures Leads(r, Declare(name, init), cs, x) && Meets(FlowDeclare(a, name, init), x) && Misses(t, x)
  {
    hide Unread, FlowNamed, FlowNew, Holding, HoldingNew, FlowSteps, RunSteps, Find, Sane;
    match init {
      case Plain(e) =>
        var c := FlowSteps(a, e);
        StepsGoOn(a, e);
        NamedIsOpen(c, name, None, t);
        OlderMisses(a, c, t, r);
        var y;
        cs, y := StepsPass(a, e, r, t);
        NamedPasses(c, name, None, y, t);
        x := Holding(y, name, None);
      case Result(e) =>
        var c := FlowSteps(a, e);
        StepsGoOn(a, e);
        NewIsOpen(c, name, t);
        var u := if t.Some? && t.value < a.next then t else None;
        OlderMisses(a, c, u, r);
        var y;
        cs, y := StepsPass(a, e, r, u);
        NewPasses(c, name, y, t);
        x := HoldingNew(y, name);
      case Alias(source) =>
        cs := [];
        match Find(a.scopes, source) {
          case Some(Some(id)) =>
            NamedIsOpen(a, name, Some(id), t);
            OlderMisses(a, a, t, r);
            NamedPasses(a, name, Some(id), r, t);
            x := Holding(r, name, Some(id));
          case _ =>
            NewPasses(a, name, r, t);
            x := HoldingNew(r, name);
        }
    }
    forall more: seq<bool> ensures Execute(r.(choices := cs + more), Declare(name, init)) == x.(choices := more) {
      Onto([], [], more);
    }
  }

  lemma NamedIsOpen(a: Flow, name: Name, o: Option<nat>, t: Option<nat>)
    requires a.scopes != [] && (t.Some? ==> t.value in FlowNamed(a, name, o).open)
    ensures t.Some? ==> t.value in a.open
  {}

  lemma NewIsOpen(a: Flow, name: Name, t: Option<nat>)
    requires a.scopes != [] && (t.Some? ==> t.value in FlowNew(a, name).open)
    ensures t.Some? && t.value < a.next ==> t.value in a.open
  {}

  /** What is open before is older. */
  lemma OlderMisses(a: Flow, c: Flow, t: Option<nat>, r: Run)
    requires Sane(a) && c.open <= a.open && (t.Some? ==> t.value in c.open && (t.value < a.next ==> t.value in Unread(r)))
    ensures Misses(t, r)
  {}

  // Statements

  lemma {:induction false} StatementPasses(a: Flow, s: Stmt, d: nat, r: Run, t: Option<nat>) returns (cs: seq<bool>,
            x: Run)
    requires Sane(a) && d < |a.scopes| && Meets(a, r)
    requires FlowStatement(a, s, d).live && Awaits(a, FlowStatement(a, s, d), t, r)
    ensures Leads(r, s, cs, x) && Meets(FlowStatement(a, s, d), x) && Misses(t, x)
    decreases s, 1
  {
    hide Unread, FlowSteps, RunSteps, FlowDeclare, RunDeclare, FlowIn, ExecuteIn, FlowLoop, Rounds, FlowBranches,
      ExecuteBranches, Sane;
    match s {
      case Eval(e) =>
        StepsGoOn(a, e);
        OlderMisses(a, FlowSteps(a, e), t, r);
        cs, x := StepsPass(a, e, r, t);
      case Declare(name, init) => cs, x := DeclarationPasses(a, name, init, r, t);
      case Block(statements) =>
        cs, x := ScopePasses(a, [], statements, d, r, t);
      case Si(condition, thenBranch, elseBranch) => cs, x := SiPasses(a, condition, thenBranch, elseBranch, d, r, t);
      case TantQue(condition, body) => cs, x := LoopPasses(a, s, condition, [], body, r, t);
      case Pour(iterable, variable, body) => cs, x := LoopPasses(a, s, iterable, [variable], body, r, t);
      case AgirSelon(subject, branches, hasElse, elseBranch, isResult) =>
        cs, x := SelonPasses(a, subject, branches, hasElse, elseBranch, isResult, d, r, t);
    }
  }

  lemma {:induction false} AllPass(a: Flow, statements: seq<Stmt>, d: nat, r: Run,
            t: Option<nat>) returns (cs: seq<bool>, x: Run)
    requires Sane(a) && d < |a.scopes| && Meets(a, r)
    requires FlowAll(a, statements, d).live && Awaits(a, FlowAll(a, statements, d), t, r)
    ensures AllLead(r, statements, cs, x) && Meets(FlowAll(a, statements, d), x) && Misses(t, x)
    decreases statements, 0
  {
    if statements == [] {
      cs, x := [], r;
      HeldIsOld(a, t, r);
      forall more: seq<bool> ensures ExecuteAll(r.(choices := cs + more), statements) == x.(choices := more) {
        Onto([], [], more);
      }
    } else {
      hide Unread, FlowStatement, Execute, Sane, Leads, AllLead, Meets;
      var s, b := statements[0], FlowStatement(a, statements[0], d);
      StatementGoesOn(a, s, d);
      AllGoesOn(b, statements[1..], d);
      var u := if t.Some? && t.value < b.next then t else None;
      var cs1, x1 := StatementPasses(a, s, d, r, u);
      var cs2, x2 := AllPass(b, statements[1..], d, x1, t);
      cs, x := cs1 + cs2, x2;
      Then(r, s, statements[1..], cs1, x1, cs2, x2);
      assert [s] + statements[1..] == statements;
    }
  }

  lemma HeldIsOld(a: Flow, t: Option<nat>, r: Run)
    requires Sane(a) && Awaits(a, a, t, r)
    ensures Misses(t, r)
  {}

  lemma Then(r: Run, s: Stmt, rest: seq<Stmt>, cs1: seq<bool>, x1: Run, cs2: seq<bool>, x2: Run)
    requires Leads(r, s, cs1, x1) && AllLead(x1, rest, cs2, x2)
    ensures AllLead(r, [s] + rest, cs1 + cs2, x2)
  {
    hide Execute;
    assert ([s] + rest)[1..] == rest;
    forall more: seq<bool> ensures ExecuteAll(r.(choices := cs1 + cs2 + more), [s] + rest) == x2.(choices := more) {
      Onto(cs1, cs2, more);
      assert Execute(r.(choices := cs1 + (cs2 + more)), s) == x1.(choices := cs2 + more);
      assert ExecuteAll(x1.(choices := cs2 + more), rest) == x2.(choices := more);
    }
  }

  lemma {:induction false} ScopePasses(a: Flow, names: seq<Name>, statements: seq<Stmt>, d: nat, r: Run, t: Option<nat>)
    returns (cs: seq<bool>, x: Run)
    requires Sane(a) && d <= |a.scopes| && Meets(a, r)
    requires FlowIn(a, names, statements, d).live && Awaits(a, FlowIn(a, names, statements, d), t, r)
    ensures InLeads(r, names, statements, cs, x) && Meets(FlowIn(a, names, statements, d), x) && Misses(t, x)
    decreases statements, 1
  {
    hide Owned, FlowAll, ExecuteAll, HoldingNone, Leave;
    var b, e := FlowEnter(a, names), r.(scopes := FlowEnter(a, names).scopes);
    EnterGoesOn(a, names);
    AllGoesOn(b, statements, d);
    var b2 := FlowAll(b, statements, d);
    var y;
    cs, y := AllPass(b, statements, d, e, t);
    x := Leave(y).(next := r.next);
    LeavesUnread(a, b2, y, t);
    forall more: seq<bool> ensures ExecuteIn(r.(choices := cs + more), names, statements) == x.(choices := more) {
      EnterIs(a, names, r.(choices := cs + more));
      assert ExecuteAll(e.(choices := cs + more), statements) == y.(choices := more);
      LeaveAnyChoices(y, more);
    }
  }

  lemma LeaveAnyChoices(r: Run, more: seq<bool>)
    ensures Leave(r.(choices := more)) == Leave(r).(choices := more)
  {}

  lemma LeavesUnread(a: Flow, b: Flow, r: Run, t: Option<nat>)
    requires Meets(b, r) && |b.scopes| == |a.scopes| + 1 && b.scopes[..|a.scopes|] == a.scopes && Misses(t, r)
    requires t.Some? ==> t.value in Owned(a.scopes)
    ensures Leave(r).scopes == a.scopes && Misses(t, Leave(r)) && Leave(r).signal == Normal
  {
    hide Owned;
  }

  // Branches

  lemma {:induction false} SiPasses(a: Flow, condition: Expr, thenBranch: seq<Stmt>, elseBranch: seq<Stmt>, d: nat,
            r: Run,
                                    t: Option<nat>) returns (cs: seq<bool>, x: Run)
    requires Sane(a) && d < |a.scopes| && Meets(a, r)
    requires FlowStatement(a, Si(condition, thenBranch, elseBranch), d).live
    requires Awaits(a, FlowStatement(a, Si(condition, thenBranch, elseBranch), d), t, r)
    ensures Leads(r, Si(condition, thenBranch, elseBranch), cs, x) && Misses(t, x)
    ensures Meets(FlowStatement(a, Si(condition, thenBranch, elseBranch), d), x)
    decreases Si(condition, thenBranch, elseBranch), 0
  {
    hide Unread, FlowSteps, RunSteps, FlowIn, ExecuteIn, StepsLead, InLeads;
    var c := FlowSteps(a, condition);
    var f, g := FlowIn(c, [], thenBranch, d), FlowIn(c, [], elseBranch, d);
    StepsGoOn(a, condition);
    InGoesOn(c, [], thenBranch, d);
    InGoesOn(c, [], elseBranch, d);
    var cs1, x1 := StepsPass(a, condition, r, t);
    var yes := if t.Some? then t.value in f.open else f.live;
    var branch := if yes then thenBranch else elseBranch;
    hide Sane, Onwards;
    WayIsLive(f, g, t, yes);
    var cs2, x2 := ScopePasses(c, [], branch, d, x1, t);
    cs, x := cs1 + ([yes] + cs2), x2;
    forall more: seq<bool> ensures Execute(r.(choices := cs + more), Si(condition, thenBranch, elseBranch)) == x.(choices := more) {
      Onto(cs1, [yes] + cs2, more);
      Onto([yes], cs2, more);
      StepsLeadTo(r, condition, cs1, x1, [yes] + (cs2 + more));
      InLeadsTo(x1, [], branch, cs2, x2, more);
      assert ([yes] + (cs2 + more))[1..] == cs2 + more;
    }
  }

  /** Where something is open there is a path. */
  lemma WayIsLive(f: Flow, g: Flow, t: Option<nat>, yes: bool)
    requires yes == if t.Some? then t.value in f.open else f.live
    requires (f.live || g.live) && (t.Some? ==> t.value in f.open + g.open)
    requires (f.open != {} ==> f.live) && (g.open != {} ==> g.live)
    ensures if yes then f.live && (t.Some? ==> t.value in f.open) else g.live && (t.Some? ==> t.value in g.open)
  {}

  lemma StepsLeadTo(r: Run, e: Expr, cs: seq<bool>, x: Run, more: seq<bool>)
    requires StepsLead(r, e, cs, x)
    ensures RunSteps(r.(choices := cs + more), e) == x.(choices := more)
  {}

  lemma InLeadsTo(r: Run, names: seq<Name>, statements: seq<Stmt>, cs: seq<bool>, x: Run, more: seq<bool>)
    requires InLeads(r, names, statements, cs, x)
    ensures ExecuteIn(r.(choices := cs + more), names, statements) == x.(choices := more)
  {}

  lemma {:induction false} SelonPasses(a: Flow, subject: Expr, branches: seq<Branch>, hasElse: bool,
            elseBranch: seq<Stmt>,
                                       isResult: bool, d: nat, r: Run, t: Option<nat>) returns (cs: seq<bool>, x: Run)
    requires Sane(a) && d < |a.scopes| && Meets(a, r)
    requires FlowStatement(a, AgirSelon(subject, branches, hasElse, elseBranch, isResult), d).live
    requires Awaits(a, FlowStatement(a, AgirSelon(subject, branches, hasElse, elseBranch, isResult), d), t, r)
    ensures Leads(r, AgirSelon(subject, branches, hasElse, elseBranch, isResult), cs, x) && Misses(t, x)
    ensures Meets(FlowStatement(a, AgirSelon(subject, branches, hasElse, elseBranch, isResult), d), x)
    decreases AgirSelon(subject, branches, hasElse, elseBranch, isResult), 0
  {
    hide Unread, FlowSteps, RunSteps, FlowIn, FlowBranches, ExecuteBranches, StepsLead, BranchesLead;
    var c := FlowSteps(a, subject);
    StepsGoOn(a, subject);
    OtherwiseGoesOn(c, hasElse, elseBranch, d);
    BranchesGoOn(c, branches, Otherwise(c, hasElse, elseBranch, d), d);
    var otherwise := Otherwise(c, hasElse, elseBranch, d);
    assert FlowStatement(a, AgirSelon(subject, branches, hasElse, elseBranch, isResult), d) == FlowBranches(c, branches, otherwise, d);
    if t.Some? {
      HeldIsOlder(FlowBranches(c, branches, otherwise, d), t.value);
    }
    var cs1, x1 := StepsPass(a, subject, r, t);
    hide Sane, Onwards;
    var ocs, ox := [], x1;
    if Allows(otherwise, t) {
      ocs, ox := ScopePasses(c, [], elseBranch, d, x1, t);
    }
    var cs2, x2 := BranchesPass(c, branches, hasElse, elseBranch, d, x1, t, ocs, ox);
    cs, x := cs1 + cs2, x2;
    forall more: seq<bool>
      ensures Execute(r.(choices := cs + more), AgirSelon(subject, branches, hasElse, elseBranch, isResult)) == x.(choices := more)
    {
      Onto(cs1, cs2, more);
      StepsLeadTo(r, subject, cs1, x1, cs2 + more);
      BranchesLeadTo(x1, branches, hasElse, elseBranch, cs2, x2, more);
    }
  }

  lemma BranchesLeadTo(r: Run, branches: seq<Branch>, hasElse: bool, elseBranch: seq<Stmt>, cs: seq<bool>, x: Run,
            more: seq<bool>)
    requires BranchesLead(r, branches, hasElse, elseBranch, cs, x)
    ensures ExecuteBranches(r.(choices := cs + more), branches, hasElse, elseBranch) == x.(choices := more)
  {}

  lemma OtherwiseGoesOn(a: Flow, hasElse: bool, elseBranch: seq<Stmt>, d: nat)
    requires Sane(a) && d <= |a.scopes|
    ensures Sane(Otherwise(a, hasElse, elseBranch, d)) && Onwards(a, Otherwise(a, hasElse, elseBranch, d))
  {
    hide FlowIn;
    if hasElse {
      InGoesOn(a, [], elseBranch, d);
    } else {
      NowhereGoesOn(a);
    }
  }

  /** There is a path, with the result unread. */
  ghost predicate Allows(b: Flow, t: Option<nat>) {
    b.live && (t.Some? ==> t.value in b.open)
  }

  /** `ocs` and `ox` are what `sinon` does, if it is a way on. */
  lemma {:induction false} BranchesPass(a: Flow, branches: seq<Branch>, hasElse: bool, elseBranch: seq<Stmt>, d: nat,
            r: Run,
                                        t: Option<nat>, ocs: seq<bool>, ox: Run) returns (cs: seq<bool>, x: Run)
    requires Sane(a) && d < |a.scopes| && Meets(a, r) && Misses(t, r)
    requires Allows(FlowBranches(a, branches, Otherwise(a, hasElse, elseBranch, d), d), t)
    requires Allows(Otherwise(a, hasElse, elseBranch, d), t) ==>
               hasElse && InLeads(r, [], elseBranch, ocs, ox) && Meets(Otherwise(a, hasElse, elseBranch, d), ox) && Misses(t, ox)
    ensures BranchesLead(r, branches, hasElse, elseBranch, cs, x) && Misses(t, x)
    ensures Meets(FlowBranches(a, branches, Otherwise(a, hasElse, elseBranch, d), d), x)
    decreases branches, 0
  {
    hide Unread, FlowIn, ExecuteIn, FlowBranch, ExecuteBranch, InLeads, BranchLeads;
    var otherwise := Otherwise(a, hasElse, elseBranch, d);
    OtherwiseGoesOn(a, hasElse, elseBranch, d);
    if branches == [] {
      cs, x := ocs, ox;
      forall more: seq<bool> ensures ExecuteBranches(r.(choices := cs + more), branches, hasElse, elseBranch) == x.(choices := more) {
        InLeadsTo(r, [], elseBranch, cs, x, more);
      }
    } else {
      var f, g := FlowBranch(a, branches[0], d), FlowBranches(a, branches[1..], otherwise, d);
      BranchGoesOn(a, branches[0], d);
      BranchesGoOn(a, branches[1..], otherwise, d);
      var yes := if t.Some? then t.value in f.open else f.live;
      WayIsLive(f, g, t, yes);
      hide Sane, Onwards;
      if yes {
        var cs2;
        cs2, x := BranchPasses(a, branches[0], d, r, t);
        cs := [true] + cs2;
        forall more: seq<bool> ensures ExecuteBranches(r.(choices := cs + more), branches, hasElse, elseBranch) == x.(choices := more) {
          Onto([true], cs2, more);
          assert ([true] + (cs2 + more))[1..] == cs2 + more;
          BranchLeadsTo(r, branches[0], cs2, x, more);
        }
      } else {
        var cs2;
        cs2, x := BranchesPass(a, branches[1..], hasElse, elseBranch, d, r, t, ocs, ox);
        cs := [false] + cs2;
        forall more: seq<bool> ensures ExecuteBranches(r.(choices := cs + more), branches, hasElse, elseBranch) == x.(choices := more) {
          Onto([false], cs2, more);
          assert ([false] + (cs2 + more))[1..] == cs2 + more;
          BranchesLeadTo(r, branches[1..], hasElse, elseBranch, cs2, x, more);
        }
      }
    }
  }

  lemma BranchLeadsTo(r: Run, branch: Branch, cs: seq<bool>, x: Run, more: seq<bool>)
    requires BranchLeads(r, branch, cs, x)
    ensures ExecuteBranch(r.(choices := cs + more), branch) == x.(choices := more)
  {}

  lemma {:induction false} BranchPasses(a: Flow, branch: Branch, d: nat, r: Run,
            t: Option<nat>) returns (cs: seq<bool>, x: Run)
    requires Sane(a) && d < |a.scopes| && Meets(a, r) && Misses(t, r)
    requires FlowBranch(a, branch, d).live && (t.Some? ==> t.value in FlowBranch(a, branch, d).open)
    ensures BranchLeads(r, branch, cs, x) && Meets(FlowBranch(a, branch, d), x) && Misses(t, x)
    decreases branch, 0
  {
    hide Unread, FlowIn, ExecuteIn, InLeads;
    cs, x := [], r;
    if branch.ending.Body? {
      cs, x := ScopePasses(a, branch.names, branch.ending.statements, d, r, t);
    }
    forall more: seq<bool> ensures ExecuteBranch(r.(choices := cs + more), branch) == x.(choices := more) {
      Onto([], [], more);
      if branch.ending.Body? {
        InLeadsTo(r, branch.names, branch.ending.statements, cs, x, more);
      }
    }
  }

  // Loops: no round at all

  lemma LoopPasses(a: Flow, s: Stmt, e: Expr, names: seq<Name>, body: seq<Stmt>, r: Run, t: Option<nat>)
    returns (cs: seq<bool>, x: Run)
    requires Sane(a) && Meets(a, r) && Awaits(a, FlowSteps(a, e), t, r)
    requires (s.TantQue? && s.condition == e && s.body == body && names == [])
             || (s.Pour? && s.iterable == e && s.body == body && names == [s.variable])
    ensures Leads(r, s, cs, x) && Meets(FlowLoop(FlowSteps(a, e), names, body), x) && Misses(t, x)
  {
    hide Unread, FlowSteps, RunSteps, FlowIn, ExecuteIn, StepsLead;
    StepsGoOn(a, e);
    OlderMisses(a, FlowSteps(a, e), t, r);
    var cs1, x1 := StepsPass(a, e, r, t);
    cs, x := cs1 + [false], x1;
    forall more: seq<bool> ensures Execute(r.(choices := cs + more), s) == x.(choices := more) {
      Onto(cs1, [false], more);
      StepsLeadTo(r, e, cs1, x1, [false] + more);
      assert ([false] + more)[1..] == more;
      if s.Pour? {
        NoSteps(a, x1.(choices := [false] + more));
      }
    }
  }
}
