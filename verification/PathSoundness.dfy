/** Every run stays on the paths of the analysis: where no path loses a result, no run does,
    however often its loops go round.
 */
module PathSoundness {
  import opened Utf8
  import opened ObligationAnalysis
  import opened ObligationLaws
  import opened ResultRuns
  import opened PathAnalysis

  /** The results held and not read. */
  function Unread(r: Run): set<nat> {
    Owned(r.scopes) - r.used
  }

  /** The run is where the analysis is, and has no more unread. */
  ghost predicate On(a: Flow, r: Run) {
    r.signal == Normal && r.scopes == a.scopes && r.next == a.next && a.live && Unread(r) <= a.open
  }

  ghost predicate SameBelow(ss: seq<Scope>, ts: seq<Scope>) {
    |ss| == |ts| && (ss != [] ==> ss[..|ss| - 1] == ts[..|ss| - 1])
  }

  /** What was read before stays so. */
  ghost predicate Remembers(r: Run, e: Run) {
    forall id | id < r.next && id in r.used :: id in e.used
  }

  /** What a statement did in a run that loses nothing: at the end of a round everything
      unread is held around the loop, and at the end of the function nothing is unread. */
  ghost predicate Safe(b: Flow, r: Run, e: Run, d: nat) {
    && !e.leaked && Remembers(r, e)
    && (e.signal == Normal ==> On(b, e))
    && (e.signal == Continuing || e.signal == Breaking ==> d <= |e.scopes| && Unread(e) <= Owned(e.scopes[..d]))
    && (e.signal == Returning ==> Unread(e) == {})
    && (e.signal != Stopped ==> SameBelow(r.scopes, e.scopes))
  }

  lemma RemembersThrough(r: Run, e: Run, f: Run)
    requires Remembers(r, e) && Remembers(e, f) && r.next <= e.next
    ensures Remembers(r, f)
  {}

  // Steps

  ghost predicate StepsSafely(b: Flow, r: Run, e: Run) {
    && !e.leaked && Remembers(r, e) && e.scopes == r.scopes && e.next == r.next
    && (e.signal == Normal ==> On(b, e)) && (e.signal == Returning ==> Unread(e) == {})
    && (e.signal == Normal || e.signal == Returning || e.signal == Stopped)
  }

  lemma {:induction false} StepsAreSafe(a: Flow, e: Expr, r: Run)
    requires On(a, r) && !r.leaked && !FlowSteps(a, e).lost
    ensures StepsSafely(FlowSteps(a, e), r, RunSteps(r, e))
    decreases e
  {
    if e != [] {
      hide On, Unread, FlowStep, RunStep;
      var b, f := FlowStep(a, e[0]), RunStep(r, e[0]);
      StepIsSafe(a, e[0], r);
      if f.signal == Normal {
        StepsAreSafe(b, e[1..], f);
      }
    }
  }

  lemma {:induction false} StepIsSafe(a: Flow, s: Step, r: Run)
    requires On(a, r) && !r.leaked && !FlowStep(a, s).lost
    ensures StepsSafely(FlowStep(a, s), r, RunStep(r, s))
    decreases s
  {
    hide Owned;
    match s {
      case Use(name) =>
      case Propager =>
      case Perhaps(steps) =>
        var (taken, c) := Choose(r);
        if taken {
          hide Find;
          StepsAreSafe(a, steps, c);
        }
    }
  }

  // Declarations

  lemma NamedIsOn(a: Flow, name: Name, o: Option<nat>, r: Run)
    requires Sane(a) && a.scopes != [] && On(a, r) && (o.Some? ==> o.value in Owned(a.scopes))
    ensures On(FlowNamed(a, name, o), Holding(r, name, o)) && SameBelow(r.scopes, Holding(r, name, o).scopes)
    ensures Holding(r, name, o) == r.(scopes := Rebound(r.scopes, name, o))
  {
    NamedScopes(a.scopes, name, o);
    hide Owned;
  }

  lemma NewIsOn(a: Flow, name: Name, r: Run)
    requires Sane(a) && a.scopes != [] && On(a, r)
    ensures On(FlowNew(a, name), HoldingNew(r, name)) && SameBelow(r.scopes, HoldingNew(r, name).scopes)
    ensures Remembers(r, HoldingNew(r, name)) && HoldingNew(r, name).leaked == r.leaked
  {
    NamedScopes(a.scopes, name, Some(a.next));
    hide Owned;
  }

  lemma DeclarationIsSafe(a: Flow, name: Name, init: Init, r: Run, d: nat)
    requires Sane(a) && a.scopes != [] && On(a, r) && !r.leaked && !FlowDeclare(a, name, init).lost && d <= |a.scopes|
    ensures Safe(FlowDeclare(a, name, init), r, RunDeclare(r, name, init), d)
  {
    hide Sane, Owned, FlowNamed, FlowNew, Holding, HoldingNew, FlowSteps, RunSteps, Find, Rebound;
    match init {
      case Plain(e) =>
        var c, f := FlowSteps(a, e), RunSteps(r, e);
        StepsGoOn(a, e);
        assert FlowNamed(c, name, None).lost == c.lost by { NamedLosesNothing(c, name, None); }
        StepsAreSafe(a, e, r);
        if f.signal == Normal {
          NamedIsOn(c, name, None, f);
        }
      case Result(e) =>
        var c, f := FlowSteps(a, e), RunSteps(r, e);
        StepsGoOn(a, e);
        NamedLosesNothing(c, name, None);
        StepsAreSafe(a, e, r);
        if f.signal == Normal {
          NewIsOn(c, name, f);
        }
      case Alias(source) =>
        match Find(a.scopes, source) {
          case Some(Some(id)) =>
            FoundIsOwned(a.scopes, source);
            NamedIsOn(a, name, Some(id), r);
          case _ => NewIsOn(a, name, r);
        }
    }
  }

  lemma NamedLosesNothing(a: Flow, name: Name, o: Option<nat>)
    requires a.scopes != []
    ensures FlowNamed(a, name, o).lost == FlowNew(a, name).lost == a.lost
  {}

  // Scopes

  lemma {:induction false} NonesAreHeld(r: Run, front: seq<Scope>, s: Scope, names: seq<Name>)
    requires r.scopes == front + [s]
    ensures HoldingNone(r, names) == r.(scopes := front + [s + NoResults(names)])
    decreases |names|
  {
    if names == [] {
      assert s + NoResults([]) == s;
    } else {
      var n := |front|;
      assert (front + [s])[..n] == front;
      assert Holding(r, names[0], None) == r.(scopes := front + [s[names[0] := None]]);
      NonesAreHeld(Holding(r, names[0], None), front, s[names[0] := None], names[1..]);
      assert s[names[0] := None] + NoResults(names[1..]) == s + NoResults(names);
    }
  }

  lemma EnterIs(a: Flow, names: seq<Name>, r: Run)
    requires r.scopes == a.scopes
    ensures HoldingNone(Enter(r), names) == r.(scopes := FlowEnter(a, names).scopes)
  {
    NonesAreHeld(Enter(r), r.scopes, map[], names);
    assert map[] + NoResults(names) == NoResults(names);
  }

  /** Leaving a scope whose unread results are held around it. */
  lemma LeavesNothing(r: Run)
    requires r.scopes != [] && r.signal != Stopped && !r.leaked && Unread(r) <= Owned(r.scopes[..|r.scopes| - 1])
    ensures !Leave(r).leaked && Unread(Leave(r)) == Unread(r)
  {}

  lemma ScopeIsLeft(a: Flow, b: Flow, r: Run, e0: Run, e: Run, d: nat)
    requires r.scopes == a.scopes && r.next == a.next && e0 == r.(scopes := e0.scopes)
    requires |e0.scopes| == |a.scopes| + 1 && e0.scopes[..|a.scopes|] == a.scopes
    requires d <= |a.scopes| && Safe(b, e0, e, d) && b.open <= Owned(a.scopes)
    ensures var f := a.(open := b.open * Owned(a.scopes), live := b.live, lost := b.lost);
            Safe(f, r, Leave(e).(next := r.next), d) && (Leave(e).signal != Stopped ==> Leave(e).scopes == a.scopes)
  {
    if e.signal != Stopped {
      var n := |a.scopes|;
      assert e.scopes[..n] == a.scopes;
      if e.signal == Continuing || e.signal == Breaking {
        PrefixIsOwned(a.scopes, d);
        assert e.scopes[..n][..d] == e.scopes[..d];
      }
      hide Owned;
      LeavesNothing(e);
    }
  }

  lemma {:induction false} PrefixIsOwned(ss: seq<Scope>, d: nat)
    requires d <= |ss|
    ensures Owned(ss[..d]) <= Owned(ss)
    decreases |ss|
  {
    if d < |ss| {
      PrefixIsOwned(ss[..|ss| - 1], d);
      assert ss[..|ss| - 1][..d] == ss[..d];
    } else {
      assert ss[..d] == ss;
    }
  }

  // Statements

  lemma {:induction false} StatementIsSafe(a: Flow, s: Stmt, r: Run, d: nat)
    requires Sane(a) && On(a, r) && !r.leaked && d < |a.scopes| && !FlowStatement(a, s, d).lost
    ensures Safe(FlowStatement(a, s, d), r, Execute(r, s), d)
    decreases |r.choices|, s, 1
  {
    hide Sane, Unread, Owned, FlowSteps, RunSteps, FlowDeclare, RunDeclare, FlowIn, ExecuteIn, FlowLoop, Rounds, FlowBranches,
      ExecuteBranches, FlowExit;
    match s {
      case Eval(e) => StepsAreSafe(a, e, r);
      case Declare(name, init) => DeclarationIsSafe(a, name, init, r, d);
      case Block(statements) => ScopeIsSafe(a, [], statements, r, d);
      case Si(condition, thenBranch, elseBranch) => SiIsSafe(a, condition, thenBranch, elseBranch, r, d);
      case TantQue(condition, body) =>
        StepsGoOn(a, condition);
        RoundsAreSafe(a, condition, [], body, r, d);
      case Pour(iterable, variable, body) => PourIsSafe(a, iterable, variable, body, r, d);
      case Continuer => ExitIsSafe(a, r, d, Continuing);
      case Arreter => ExitIsSafe(a, r, d, Breaking);
      case Retourne(e) => RetourneIsSafe(a, e, r, d);
      case AgirSelon(subject, branches, hasElse, elseBranch, isResult) =>
        SelonIsSafe(a, subject, branches, hasElse, elseBranch, isResult, r, d);
    }
  }

  lemma ExitIsSafe(a: Flow, r: Run, d: nat, signal: Signal)
    requires On(a, r) && !r.leaked && d <= |a.scopes| && !FlowExit(a, d).lost
    requires signal == Continuing || signal == Breaking
    ensures Safe(FlowExit(a, d), r, r.(signal := signal), d)
  {
    hide Owned;
    assert a.open - Owned(a.scopes[..d]) == {};
    forall id | id in a.open ensures id in Owned(a.scopes[..d]) {
      assert id !in a.open - Owned(a.scopes[..d]);
    }
  }

  lemma RetourneIsSafe(a: Flow, e: Expr, r: Run, d: nat)
    requires Sane(a) && On(a, r) && !r.leaked && d <= |a.scopes| && !FlowExit(FlowSteps(a, e), 0).lost
    ensures Safe(FlowExit(FlowSteps(a, e), 0), r, Execute(r, Retourne(e)), d)
  {
    hide FlowSteps, RunSteps, Sane;
    StepsAreSafe(a, e, r);
    assert a.scopes[..0] == [];
    assert Owned([]) == {};
    hide Owned;
  }

  lemma {:induction false} StatementsAreSafe(a: Flow, statements: seq<Stmt>, r: Run, d: nat)
    requires Sane(a) && On(a, r) && !r.leaked && d < |a.scopes| && !FlowAll(a, statements, d).lost
    ensures Safe(FlowAll(a, statements, d), r, ExecuteAll(r, statements), d)
    decreases |r.choices|, statements, 0
  {
    if statements != [] {
      hide Sane, Unread, Owned, FlowStatement, Execute, Remembers, SameBelow;
      var b, e := FlowStatement(a, statements[0], d), Execute(r, statements[0]);
      StatementGoesOn(a, statements[0], d);
      StatementIsSafe(a, statements[0], r, d);
      if e.signal == Normal {
        StatementsAreSafe(b, statements[1..], e, d);
        SafeAfter(FlowAll(a, statements, d), r, e, ExecuteAll(r, statements), d);
      } else {
        AllStopped(e, statements[1..]);
      }
    }
  }

  lemma SafeAfter(b: Flow, r: Run, e: Run, f: Run, d: nat)
    requires Safe(b, e, f, d) && Remembers(r, e) && SameBelow(r.scopes, e.scopes) && r.next <= e.next
    ensures Safe(b, r, f, d)
  {
    hide On, Unread, Owned;
  }

  lemma {:induction false} AllStopped(r: Run, statements: seq<Stmt>)
    requires r.signal != Normal
    ensures ExecuteAll(r, statements) == r
    decreases statements
  {
    if statements != [] {
      AllStopped(r, statements[1..]);
    }
  }

  lemma {:induction false} ScopeIsSafe(a: Flow, names: seq<Name>, statements: seq<Stmt>, r: Run, d: nat)
    requires Sane(a) && On(a, r) && !r.leaked && d <= |a.scopes| && !FlowIn(a, names, statements, d).lost
    ensures Safe(FlowIn(a, names, statements, d), r, ExecuteIn(r, names, statements), d)
    ensures ExecuteIn(r, names, statements).signal != Stopped ==>
              ExecuteIn(r, names, statements).scopes == a.scopes && ExecuteIn(r, names, statements).next == a.next
    decreases |r.choices|, statements, 1
  {
    hide Owned, FlowAll, ExecuteAll, HoldingNone, Leave;
    var b, e := FlowEnter(a, names), HoldingNone(Enter(r), names);
    EnterGoesOn(a, names);
    EnterIs(a, names, r);
    AllGoesOn(b, statements, d);
    StatementsAreSafe(b, statements, e, d);
    var b2, e2 := FlowAll(b, statements, d), ExecuteAll(e, statements);
    assert b2.open - Owned(a.scopes) == {};
    if e2.signal == Stopped {
      StoppedIsLeft(e2);
    }
    forall id | id in b2.open ensures id in Owned(a.scopes) {
      assert id !in b2.open - Owned(a.scopes);
    }
    hide Safe;
    ScopeIsLeft(a, b2, r, e, e2, d);
  }

  lemma StoppedIsLeft(r: Run)
    requires r.signal == Stopped
    ensures Leave(r) == r
  {}

  // Branches

  /** More may be open. */
  lemma OneWay(a: Flow, b: Flow, c: Flow, r: Run, e: Run, d: nat)
    requires Safe(b, r, e, d) && b.scopes == c.scopes && b.next == c.next && b.open <= c.open && (b.live ==> c.live)
    ensures Safe(c, r, e, d)
  {
    hide Owned;
  }

  /** A choice changes nothing else. */
  lemma Chosen(a: Flow, r: Run)
    requires On(a, r)
    ensures var (yes, e) := Choose(r);
            && (e.signal == Normal || e.signal == Stopped) && e.leaked == r.leaked && Remembers(r, e) && e.scopes == r.scopes
            && e.next == r.next && e.used == r.used
            && (e.signal == Normal ==> On(a, e) && |e.choices| < |r.choices|)
  {}

  /** Safe from the run before, when nothing happened in between but steps. */
  lemma SafeFrom(b: Flow, r: Run, e: Run, f: Run, d: nat)
    requires Safe(b, e, f, d) && Remembers(r, e) && e.scopes == r.scopes && e.next == r.next
    ensures Safe(b, r, f, d)
  {
    hide Owned;
  }

  lemma StepsThenSafe(a: Flow, r: Run, e: Run, b: Flow, d: nat)
    requires StepsSafely(a, r, e) && e.signal != Normal && d <= |r.scopes|
    ensures Safe(b, r, e, d)
  {}

  lemma StoppedIn(r: Run, names: seq<Name>, statements: seq<Stmt>)
    requires r.signal != Normal
    ensures ExecuteIn(r, names, statements) == r
  {}

  lemma {:induction false} SiIsSafe(a: Flow, condition: Expr, thenBranch: seq<Stmt>, elseBranch: seq<Stmt>, r: Run,
            d: nat)
    requires Sane(a) && On(a, r) && !r.leaked && d < |a.scopes|
    requires !FlowStatement(a, Si(condition, thenBranch, elseBranch), d).lost
    ensures Safe(FlowStatement(a, Si(condition, thenBranch, elseBranch), d), r,
                 Execute(r, Si(condition, thenBranch, elseBranch)), d)
    decreases |r.choices|, Si(condition, thenBranch, elseBranch), 0
  {
    hide Sane, On, Unread, FlowSteps, RunSteps, FlowIn, ExecuteIn, Choose, Remembers, Safe;
    var c, e := FlowSteps(a, condition), RunSteps(r, condition);
    var whole := FlowStatement(a, Si(condition, thenBranch, elseBranch), d);
    StepsGoOn(a, condition);
    StepsAreSafe(a, condition, r);
    AreNormal(a, r);
    if e.signal != Normal {
      StepsThenSafe(c, r, e, whole, d);
    } else {
      Chosen(c, e);
      var (yes, f) := Choose(e);
      var branch := if yes then thenBranch else elseBranch;
      RemembersThrough(r, e, f);
      if f.signal == Stopped {
        StoppedIn(f, [], branch);
        StoppedIsSafe(whole, r, f, d);
      } else {
        ScopeIsSafe(c, [], branch, f, d);
        OneWay(c, FlowIn(c, [], branch, d), whole, f, ExecuteIn(f, [], branch), d);
        SafeFrom(whole, r, f, ExecuteIn(f, [], branch), d);
      }
    }
  }

  lemma AreNormal(a: Flow, r: Run)
    requires On(a, r)
    ensures r.signal == Normal && r.scopes == a.scopes && r.next == a.next
  {}

  lemma StoppedIsSafe(b: Flow, r: Run, e: Run, d: nat)
    requires !e.leaked && Remembers(r, e) && e.signal == Stopped
    ensures Safe(b, r, e, d)
  {}

  lemma {:induction false} SelonIsSafe(a: Flow, subject: Expr, branches: seq<Branch>, hasElse: bool,
            elseBranch: seq<Stmt>,
                                       isResult: bool, r: Run, d: nat)
    requires Sane(a) && On(a, r) && !r.leaked && d < |a.scopes|
    requires !FlowStatement(a, AgirSelon(subject, branches, hasElse, elseBranch, isResult), d).lost
    ensures Safe(FlowStatement(a, AgirSelon(subject, branches, hasElse, elseBranch, isResult), d), r,
                 Execute(r, AgirSelon(subject, branches, hasElse, elseBranch, isResult)), d)
    decreases |r.choices|, AgirSelon(subject, branches, hasElse, elseBranch, isResult), 0
  {
    hide Sane, On, Unread, FlowSteps, RunSteps, FlowIn, FlowBranches, ExecuteBranches, Remembers, Safe;
    var c, e := FlowSteps(a, subject), RunSteps(r, subject);
    StepsGoOn(a, subject);
    StepsAreSafe(a, subject, r);
    AreNormal(a, r);
    var whole := FlowStatement(a, AgirSelon(subject, branches, hasElse, elseBranch, isResult), d);
    if e.signal != Normal {
      StepsThenSafe(c, r, e, whole, d);
      NoBranch(e, branches, hasElse, elseBranch);
    } else {
      BranchesAreSafe(c, branches, hasElse, elseBranch, e, d);
      SafeFrom(whole, r, e, ExecuteBranches(e, branches, hasElse, elseBranch), d);
    }
  }

  lemma NoBranch(r: Run, branches: seq<Branch>, hasElse: bool, elseBranch: seq<Stmt>)
    requires r.signal != Normal
    ensures ExecuteBranches(r, branches, hasElse, elseBranch) == r
  {}

  function Otherwise(a: Flow, hasElse: bool, elseBranch: seq<Stmt>, d: nat): (r: Flow)
    requires d <= |a.scopes|
    ensures r.scopes == a.scopes && r.next == a.next
  {
    if hasElse then FlowIn(a, [], elseBranch, d) else Nowhere(a)
  }

  /** The branch that is taken is one of the ways on. */
  lemma {:induction false} BranchesAreSafe(a: Flow, branches: seq<Branch>, hasElse: bool, elseBranch: seq<Stmt>,
            r: Run, d: nat)
    requires Sane(a) && On(a, r) && !r.leaked && d < |a.scopes|
    requires !FlowBranches(a, branches, Otherwise(a, hasElse, elseBranch, d), d).lost
    ensures Safe(FlowBranches(a, branches, Otherwise(a, hasElse, elseBranch, d), d), r,
                 ExecuteBranches(r, branches, hasElse, elseBranch), d)
    decreases |r.choices|, elseBranch, 2
  {
    hide Sane, Unread, FlowIn, ExecuteIn, FlowBranch, ExecuteBranch, Owned, Remembers, Safe;
    var whole := FlowBranches(a, branches, Otherwise(a, hasElse, elseBranch, d), d);
    Chosen(a, r);
    Itself(r);
    if branches == [] {
      if hasElse {
        ScopeIsSafe(a, [], elseBranch, r, d);
      } else {
        StoppedIsSafe(whole, r, r.(signal := Stopped), d);
      }
    } else if r.choices == [] {
      StoppedIsSafe(whole, r, r.(signal := Stopped), d);
    } else {
      var (taken, e) := Choose(r);
      var rest := FlowBranches(a, branches[1..], Otherwise(a, hasElse, elseBranch, d), d);
      if taken {
        BranchIsSafe(a, branches[0], e, d);
        OneWay(a, FlowBranch(a, branches[0], d), whole, e, ExecuteBranch(e, branches[0]), d);
        SafeFrom(whole, r, e, ExecuteBranch(e, branches[0]), d);
      } else {
        BranchesAreSafe(a, branches[1..], hasElse, elseBranch, e, d);
        OneWay(a, rest, whole, e, ExecuteBranches(e, branches[1..], hasElse, elseBranch), d);
        SafeFrom(whole, r, e, ExecuteBranches(e, branches[1..], hasElse, elseBranch), d);
      }
    }
  }

  lemma Itself(r: Run)
    ensures Remembers(r, r.(signal := Stopped)) && Remembers(r, r)
  {}

  lemma {:induction false} BranchIsSafe(a: Flow, branch: Branch, r: Run, d: nat)
    requires Sane(a) && On(a, r) && !r.leaked && d < |a.scopes| && !FlowBranch(a, branch, d).lost
    ensures Safe(FlowBranch(a, branch, d), r, ExecuteBranch(r, branch), d)
    decreases |r.choices|, branch, 0
  {
    hide Sane, FlowIn, ExecuteIn;
    match branch.ending {
      case Body(statements) => ScopeIsSafe(a, branch.names, statements, r, d);
      case PropageBranche =>
        assert a.scopes[..0] == [];
        assert Owned([]) == {};
        hide Owned;
      case IgnoreBranche =>
    }
  }

  // Loops

  /** After a round nothing is unread that was not before it. */
  lemma RoundIsOver(a: Flow, r: Run, e: Run)
    requires On(a, r) && Sane(a) && Remembers(r, e) && e.scopes == a.scopes && e.next == a.next
    ensures On(a, e.(signal := Normal)) && Unread(e) <= Unread(r)
  {}

  /** A loop that goes round any number of times. The analysis sees its body once. */
  lemma {:induction false} RoundsAreSafe(a: Flow, condition: Expr, names: seq<Name>, body: seq<Stmt>, r: Run, d: nat)
    requires Sane(a) && On(a, r) && !r.leaked && d < |a.scopes| && !FlowLoop(FlowSteps(a, condition), names, body).lost
    ensures Safe(FlowLoop(FlowSteps(a, condition), names, body), r, Rounds(r, condition, names, body), d)
    decreases |r.choices|, body, 2
  {
    hide Sane, On, Unread, Owned, FlowSteps, RunSteps, FlowIn, ExecuteIn, Remembers, Safe;
    var c, e := FlowSteps(a, condition), RunSteps(r, condition);
    var whole := FlowLoop(c, names, body);
    StepsGoOn(a, condition);
    StepsAreSafe(a, condition, r);
    AreNormal(a, r);
    Itself(e);
    if e.signal != Normal {
      StepsThenSafe(c, r, e, whole, d);
    } else if e.choices == [] {
      RemembersThrough(r, e, e.(signal := Stopped));
      StoppedIsSafe(whole, r, e.(signal := Stopped), d);
    } else {
      var f := e.(choices := e.choices[1..]);
      Chosen(c, e);
      RemembersThrough(r, e, f);
      if !e.choices[0] {
        IsSafe(c, whole, r, f, d);
      } else {
        RoundIsSafe(a, condition, names, body, r, f, d);
      }
    }
  }

  lemma IsSafe(b: Flow, c: Flow, r: Run, e: Run, d: nat)
    requires On(b, e) && c == b.(lost := c.lost) && !e.leaked && Remembers(r, e) && e.scopes == r.scopes
    ensures Safe(c, r, e, d)
  {}

  lemma {:induction false} RoundIsSafe(a: Flow, condition: Expr, names: seq<Name>, body: seq<Stmt>, r: Run, f: Run,
            d: nat)
    requires Sane(a) && On(a, r) && !r.leaked && d < |a.scopes| && !FlowLoop(FlowSteps(a, condition), names, body).lost
    requires On(FlowSteps(a, condition), f) && !f.leaked && Remembers(r, f) && |f.choices| < |r.choices|
    ensures var b := ExecuteIn(f, names, body);
            Safe(FlowLoop(FlowSteps(a, condition), names, body), r,
                 match b.signal
                 case Normal => Rounds(b, condition, names, body)
                 case Continuing => Rounds(b.(signal := Normal), condition, names, body)
                 case Breaking => b.(signal := Normal)
                 case _ => b, d)
    decreases |r.choices|, body, 1
  {
    hide Sane, On, Unread, Owned, FlowSteps, RunSteps, FlowIn, ExecuteIn, Remembers, Safe, Rounds;
    var c := FlowSteps(a, condition);
    var whole, b := FlowLoop(c, names, body), ExecuteIn(f, names, body);
    StepsGoOn(a, condition);
    AreNormal(a, r);
    AreNormal(c, f);
    ScopeIsSafe(c, names, body, f, |c.scopes|);
    SafeRemembers(FlowIn(c, names, body, |c.scopes|), f, b, |c.scopes|);
    RemembersThrough(r, f, b);
    if b.signal == Stopped {
      StoppedIsSafe(whole, r, b, d);
    } else if b.signal == Returning {
      ReturningIsSafe(FlowIn(c, names, body, |c.scopes|), whole, r, f, b, d);
    } else {
      RoundIsOver(c, f, b);
      RoundIsOver(a, r, b);
      var g := b.(signal := Normal);
      AgainRemembers(r, b);
      if b.signal == Breaking {
        IsSafe(c, whole, r, g, d);
      } else {
        RoundsAreSafe(a, condition, names, body, g, d);
        SafeFrom(whole, r, g, Rounds(g, condition, names, body), d);
      }
    }
  }

  lemma AgainRemembers(r: Run, b: Run)
    requires Remembers(r, b)
    ensures Remembers(r, b.(signal := Normal))
  {}

  lemma SafeRemembers(b: Flow, r: Run, e: Run, d: nat)
    requires Safe(b, r, e, d)
    ensures Remembers(r, e) && !e.leaked
  {}

  lemma ReturningIsSafe(b: Flow, c: Flow, r: Run, f: Run, e: Run, d: nat)
    requires Safe(b, f, e, d) || Safe(b, f, e, |f.scopes|)
    requires e.signal == Returning && Remembers(r, e) && f.scopes == r.scopes
    ensures Safe(c, r, e, d)
  {}

  lemma {:induction false} PourIsSafe(a: Flow, iterable: Expr, variable: Name, body: seq<Stmt>, r: Run, d: nat)
    requires Sane(a) && On(a, r) && !r.leaked && d < |a.scopes| && !FlowStatement(a, Pour(iterable, variable, body), d).lost
    ensures Safe(FlowStatement(a, Pour(iterable, variable, body), d), r, Execute(r, Pour(iterable, variable, body)), d)
    decreases |r.choices|, Pour(iterable, variable, body), 0
  {
    hide Sane, On, Unread, Owned, FlowSteps, RunSteps, FlowLoop, Remembers, Safe, Rounds;
    var c, e := FlowSteps(a, iterable), RunSteps(r, iterable);
    var whole := FlowLoop(c, [variable], body);
    StepsGoOn(a, iterable);
    StepsAreSafe(a, iterable, r);
    AreNormal(a, r);
    NoSteps(c, e);
    if e.signal != Normal {
      StepsThenSafe(c, r, e, whole, d);
      NoRounds(e, [variable], body);
    } else {
      RoundsAreSafe(c, [], [variable], body, e, d);
      SafeFrom(whole, r, e, Rounds(e, [], [variable], body), d);
    }
  }

  lemma NoSteps(a: Flow, r: Run)
    ensures FlowSteps(a, []) == a && RunSteps(r, []) == r
  {}

  lemma NoRounds(r: Run, names: seq<Name>, body: seq<Stmt>)
    requires r.signal != Normal
    ensures Rounds(r, [], names, body) == r
  {}

  // Functions

  lemma {:induction false} ResultsAreOn(a: Flow, results: seq<Name>, r: Run)
    requires Sane(a) && a.scopes != [] && On(a, r) && !r.leaked
    ensures Sane(FlowResults(a, results)) && On(FlowResults(a, results), HoldingResults(r, results))
    ensures !HoldingResults(r, results).leaked && FlowResults(a, results).lost == a.lost
    decreases |results|
  {
    if results != [] {
      hide Sane, On, FlowNew, HoldingNew;
      NewGoesOn(a, results[0]);
      NewIsOn(a, results[0], r);
      NamedLosesNothing(a, results[0], None);
      ResultsAreOn(FlowNew(a, results[0]), results[1..], HoldingNew(r, results[0]));
    }
  }

  /** A call starts where the analysis does. */
  lemma CallIsOn(results: seq<Name>, others: seq<Name>, choices: seq<bool>)
    ensures Sane(FlowStart(results, others)) && On(FlowStart(results, others), Called(results, others, choices))
    ensures !Called(results, others, choices).leaked && !FlowStart(results, others).lost
  {
    var a, r := Flow([], {}, 0, true, false), Run([], {}, 0, false, false, choices, Normal);
    EnterIs(a, others, r);
    EnterGoesOn(a, others);
    hide Owned;
    ResultsAreOn(FlowEnter(a, others), results, HoldingNone(Enter(r), others));
  }

  /** Where no path loses a result, no run does. */
  lemma NoPathNoRun(results: seq<Name>, others: seq<Name>, body: seq<Stmt>, choices: seq<bool>)
    requires !LosesResult(results, others, body)
    ensures !ExecuteFunction(results, others, body, choices).leaked
  {
    hide Sane, FlowStart, Called, FlowAll, ExecuteAll;
    var a, r := FlowStart(results, others), Called(results, others, choices);
    CallIsOn(results, others, choices);
    StatementsAreSafe(a, body, r, 0);
    var e := ExecuteAll(r, body);
    if e.signal != Stopped {
      assert e.scopes[..0] == [];
      assert Owned([]) == {};
      hide Owned;
      assert Unread(e) == {};
      LeavesNothing(e);
    }
  }
}
