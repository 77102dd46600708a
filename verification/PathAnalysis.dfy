/** Which results may still be unread at each point of a function, path by path: the exact
    analysis that the analyzer's is measured against. Operands that may be skipped, every
    exit of a loop and code no path reaches are told apart here.
 */
module PathAnalysis {
  import opened Utf8
  import opened ObligationAnalysis
  import opened ObligationLaws

  /** `open` are the results unread on some path to this point, `live` whether there is one,
      and `lost` whether some path has lost a result. */
  datatype Flow = Flow(scopes: seq<Scope>, open: set<nat>, next: nat, live: bool, lost: bool)

  /** The open results are held, older than the next one, and on some path. */
  ghost predicate Sane(a: Flow) {
    && a.open <= Owned(a.scopes) && (forall id | id in Owned(a.scopes) :: id < a.next)
    && (a.open != {} ==> a.live)
  }

  /** What following more paths does: nothing older is opened or found, nothing lost found
      again. */
  ghost predicate Onwards(a: Flow, b: Flow) {
    && |b.scopes| == |a.scopes| && (a.scopes != [] ==> b.scopes[..|a.scopes| - 1] == a.scopes[..|a.scopes| - 1])
    && a.next <= b.next && (b.live ==> a.live) && (a.lost ==> b.lost)
    && (forall id | id in b.open :: id in a.open || id >= a.next)
  }

  // Steps

  function FlowRead(a: Flow, name: Name): Flow {
    match Find(a.scopes, name)
    case Some(Some(id)) => a.(open := a.open - {id})
    case _ => a
  }

  /** All paths leave, down to the first `d` scopes. */
  function FlowExit(a: Flow, d: nat): Flow
    requires d <= |a.scopes|
  {
    a.(open := {}, live := false, lost := a.lost || a.open - Owned(a.scopes[..d]) != {})
  }

  function FlowSteps(a: Flow, e: Expr): (r: Flow)
    ensures r == a.(open := r.open, lost := r.lost) && r.open <= a.open && (a.lost ==> r.lost)
    decreases e
  {
    if e == [] then a else FlowSteps(FlowStep(a, e[0]), e[1..])
  }

  /** What may be skipped may also leave everything unread. */
  function FlowStep(a: Flow, s: Step): (r: Flow)
    ensures r == a.(open := r.open, lost := r.lost) && r.open <= a.open && (a.lost ==> r.lost)
    decreases s
  {
    match s
    case Use(name) => FlowRead(a, name)
    case Propager => a.(lost := a.lost || a.open != {})
    case Perhaps(steps) => a.(lost := FlowSteps(a, steps).lost)
  }

  /** A variable of the last scope takes a value. */
  function Rebound(scopes: seq<Scope>, name: Name, result: Option<nat>): seq<Scope>
    requires scopes != []
  {
    scopes[..|scopes| - 1] + [scopes[|scopes| - 1][name := result]]
  }

  /** What the variable held before is no longer held by it. */
  function FlowNamed(a: Flow, name: Name, result: Option<nat>): Flow
    requires a.scopes != []
  {
    var scopes := Rebound(a.scopes, name, result);
    a.(scopes := scopes, open := a.open * Owned(scopes))
  }

  function FlowNew(a: Flow, name: Name): Flow
    requires a.scopes != []
  {
    var b := FlowNamed(a, name, Some(a.next));
    b.(open := if a.live then b.open + {a.next} else b.open, next := a.next + 1)
  }

  function FlowDeclare(a: Flow, name: Name, init: Init): (r: Flow)
    requires a.scopes != []
    ensures |r.scopes| == |a.scopes| && (a.lost ==> r.lost)
  {
    match init
    case Plain(e) => FlowNamed(FlowSteps(a, e), name, None)
    case Result(e) => FlowNew(FlowSteps(a, e), name)
    case Alias(source) =>
      match Find(a.scopes, source)
      case Some(Some(id)) => FlowNamed(a, name, Some(id))
      case _ => FlowNew(a, name)
  }

  /** Two ways on. */
  function FlowJoin(a: Flow, b: Flow, c: Flow): Flow {
    a.(open := b.open + c.open, live := b.live || c.live, lost := b.lost || c.lost)
  }

  function NoResults(names: seq<Name>): Scope {
    map name | name in names :: None
  }

  function FlowEnter(a: Flow, names: seq<Name>): Flow {
    a.(scopes := a.scopes + [NoResults(names)])
  }

  // Statements; the innermost loop began with `d` scopes, and outside loops `d` is 0

  function FlowStatement(a: Flow, s: Stmt, d: nat): (r: Flow)
    requires a.scopes != [] && d <= |a.scopes|
    ensures |r.scopes| == |a.scopes| && (a.lost ==> r.lost)
    decreases s, 0
  {
    match s
    case Eval(e) => FlowSteps(a, e)
    case Declare(name, init) => FlowDeclare(a, name, init)
    case Block(statements) => FlowIn(a, [], statements, d)
    case Si(condition, thenBranch, elseBranch) =>
      var c := FlowSteps(a, condition);
      FlowJoin(c, FlowIn(c, [], thenBranch, d), FlowIn(c, [], elseBranch, d))
    case TantQue(condition, body) => FlowLoop(FlowSteps(a, condition), [], body)
    case Pour(iterable, variable, body) => FlowLoop(FlowSteps(a, iterable), [variable], body)
    case Continuer => FlowExit(a, d)
    case Arreter => FlowExit(a, d)
    case Retourne(e) => FlowExit(FlowSteps(a, e), 0)
    case AgirSelon(subject, branches, hasElse, elseBranch, _) =>
      var c := FlowSteps(a, subject);
      FlowBranches(c, branches, if hasElse then FlowIn(c, [], elseBranch, d) else Nowhere(c), d)
  }

  function FlowAll(a: Flow, statements: seq<Stmt>, d: nat): (r: Flow)
    requires a.scopes != [] && d <= |a.scopes|
    ensures |r.scopes| == |a.scopes| && (a.lost ==> r.lost)
    decreases statements, 0
  {
    if statements == [] then a else FlowAll(FlowStatement(a, statements[0], d), statements[1..], d)
  }

  /** A scope of its own: what is open at its end and held by nothing around is lost. */
  function FlowIn(a: Flow, names: seq<Name>, statements: seq<Stmt>, d: nat): (r: Flow)
    requires d <= |a.scopes|
    ensures r == a.(open := r.open, live := r.live, lost := r.lost) && (a.lost ==> r.lost)
    decreases statements, 1
  {
    var b := FlowAll(FlowEnter(a, names), statements, d);
    a.(open := b.open * Owned(a.scopes), live := b.live, lost := b.lost || b.open - Owned(a.scopes) != {})
  }

  /** Whether a round loses a result; the paths on from the loop leave no more unread than
      the one that skips it. */
  function FlowLoop(a: Flow, names: seq<Name>, body: seq<Stmt>): (r: Flow)
    ensures r == a.(lost := r.lost) && (a.lost ==> r.lost)
    decreases body, 2
  {
    a.(lost := FlowIn(a, names, body, |a.scopes|).lost)
  }

  /** That no branch matches without `sinon` is the end of the run. */
  function Nowhere(a: Flow): Flow {
    a.(open := {}, live := false)
  }

  /** Each branch on its own, and what follows when none matches. */
  function FlowBranches(a: Flow, branches: seq<Branch>, otherwise: Flow, d: nat): (r: Flow)
    requires d <= |a.scopes|
    ensures otherwise.scopes == a.scopes && otherwise.next == a.next ==> r == a.(open := r.open, live := r.live, lost := r.lost)
    ensures otherwise.lost ==> r.lost
    decreases branches, 0
  {
    if branches == [] then otherwise
    else FlowJoin(a, FlowBranch(a, branches[0], d), FlowBranches(a, branches[1..], otherwise, d))
  }

  function FlowBranch(a: Flow, branch: Branch, d: nat): (r: Flow)
    requires d <= |a.scopes|
    ensures r == a.(open := r.open, live := r.live, lost := r.lost) && (a.lost ==> r.lost)
    decreases branch, 0
  {
    match branch.ending
    case Body(statements) => FlowIn(a, branch.names, statements, d)
    case PropageBranche => FlowExit(a, 0)
    case IgnoreBranche => a
  }

  // Functions

  function FlowResults(a: Flow, results: seq<Name>): (r: Flow)
    requires a.scopes != []
    ensures |r.scopes| == |a.scopes|
    decreases |results|
  {
    if results == [] then a else FlowResults(FlowNew(a, results[0]), results[1..])
  }

  function FlowStart(results: seq<Name>, others: seq<Name>): (r: Flow)
    ensures |r.scopes| == 1
  {
    FlowResults(FlowEnter(Flow([], {}, 0, true, false), others), results)
  }

  /** Whether some path through the function loses a result. */
  predicate LosesResult(results: seq<Name>, others: seq<Name>, body: seq<Stmt>) {
    var b := FlowAll(FlowStart(results, others), body, 0);
    b.lost || b.open != {}
  }

  // What following paths keeps

  lemma OnwardsThrough(a: Flow, b: Flow, c: Flow)
    requires Onwards(a, b) && Onwards(b, c)
    ensures Onwards(a, c)
  {}

  lemma StepsGoOn(a: Flow, e: Expr)
    requires Sane(a)
    ensures Sane(FlowSteps(a, e)) && Onwards(a, FlowSteps(a, e))
  {}

  /** What the scopes around hold, they hold after a variable has been named. */
  lemma NamedScopes(ss: seq<Scope>, name: Name, o: Option<nat>)
    requires ss != []
    ensures var ts := Rebound(ss, name, o);
            && ts[..|ss| - 1] == ss[..|ss| - 1] && Owned(ts) <= Owned(ss) + (if o.Some? then {o.value} else {})
            && (o.Some? ==> o.value in Owned(ts))
  {
    hide Owned, Held;
    var front, last := ss[..|ss| - 1], ss[|ss| - 1];
    var now := last[name := o];
    LastIs(ss);
    assert Rebound(ss, name, o) == front + [now];
    hide *;
    OwnedSnoc(front, last);
    OwnedSnoc(front, now);
    HeldNow(last, name, o);
  }

  lemma LastIs(ss: seq<Scope>)
    requires ss != []
    ensures ss == ss[..|ss| - 1] + [ss[|ss| - 1]]
  {}

  lemma OwnedSnoc(front: seq<Scope>, last: Scope)
    ensures Owned(front + [last]) == Owned(front) + Held(last)
    ensures (front + [last])[..|front|] == front
  {
    hide Held;
    assert (front + [last])[..|front|] == front;
  }

  lemma HeldNow(scope: Scope, name: Name, o: Option<nat>)
    ensures Held(scope[name := o]) <= Held(scope) + (if o.Some? then {o.value} else {})
    ensures o.Some? ==> o.value in Held(scope[name := o])
  {
    if o.Some? {
      assert scope[name := o][name] == o;
    }
  }

  lemma NamedGoesOn(a: Flow, name: Name, o: Option<nat>)
    requires Sane(a) && a.scopes != [] && (o.Some? ==> o.value < a.next)
    ensures Sane(FlowNamed(a, name, o)) && Onwards(a, FlowNamed(a, name, o))
  {
    NamedScopes(a.scopes, name, o);
    hide Owned;
  }

  lemma NewGoesOn(a: Flow, name: Name)
    requires Sane(a) && a.scopes != []
    ensures Sane(FlowNew(a, name)) && Onwards(a, FlowNew(a, name))
  {
    NamedScopes(a.scopes, name, Some(a.next));
    hide Owned;
  }

  lemma DeclareGoesOn(a: Flow, name: Name, init: Init)
    requires Sane(a) && a.scopes != []
    ensures Sane(FlowDeclare(a, name, init)) && Onwards(a, FlowDeclare(a, name, init))
  {
    hide Sane, Onwards, FlowNamed, FlowNew, Find, FlowSteps;
    match init {
      case Plain(e) =>
        StepsGoOn(a, e);
        NamedGoesOn(FlowSteps(a, e), name, None);
        OnwardsThrough(a, FlowSteps(a, e), FlowDeclare(a, name, init));
      case Result(e) =>
        StepsGoOn(a, e);
        NewGoesOn(FlowSteps(a, e), name);
        OnwardsThrough(a, FlowSteps(a, e), FlowDeclare(a, name, init));
      case Alias(source) =>
        match Find(a.scopes, source) {
          case Some(Some(id)) =>
            FoundIsOwned(a.scopes, source);
            HeldIsOlder(a, id);
            NamedGoesOn(a, name, Some(id));
          case _ => NewGoesOn(a, name);
        }
    }
  }

  lemma HeldIsOlder(a: Flow, id: nat)
    requires Sane(a) && id in Owned(a.scopes)
    ensures id < a.next
  {}

  lemma EnterGoesOn(a: Flow, names: seq<Name>)
    requires Sane(a)
    ensures Sane(FlowEnter(a, names)) && Owned(FlowEnter(a, names).scopes) == Owned(a.scopes)
    ensures FlowEnter(a, names).scopes[..|a.scopes|] == a.scopes
  {
    var scopes := FlowEnter(a, names).scopes;
    assert scopes[..|scopes| - 1] == a.scopes;
    assert Held(NoResults(names)) == {};
  }

  lemma ExitGoesOn(a: Flow, d: nat)
    requires Sane(a) && d <= |a.scopes|
    ensures Sane(FlowExit(a, d)) && Onwards(a, FlowExit(a, d))
  {}

  lemma JoinGoesOn(a: Flow, b: Flow, c: Flow)
    requires Sane(a) && Sane(b) && Sane(c) && b.scopes == c.scopes == a.scopes && Onwards(a, b) && Onwards(a, c)
    ensures Sane(FlowJoin(a, b, c)) && Onwards(a, FlowJoin(a, b, c))
  {
    hide Owned;
  }

  lemma {:induction false} StatementGoesOn(a: Flow, s: Stmt, d: nat)
    requires Sane(a) && a.scopes != [] && d <= |a.scopes|
    ensures Sane(FlowStatement(a, s, d)) && Onwards(a, FlowStatement(a, s, d))
    decreases s, 0
  {
    hide Sane, Onwards, FlowSteps, FlowDeclare, FlowIn, FlowLoop, FlowBranches, FlowExit, FlowJoin;
    match s {
      case Eval(e) => StepsGoOn(a, e);
      case Declare(name, init) => DeclareGoesOn(a, name, init);
      case Block(statements) => InGoesOn(a, [], statements, d);
      case Si(condition, thenBranch, elseBranch) =>
        var c := FlowSteps(a, condition);
        StepsGoOn(a, condition);
        InGoesOn(c, [], thenBranch, d);
        InGoesOn(c, [], elseBranch, d);
        JoinGoesOn(c, FlowIn(c, [], thenBranch, d), FlowIn(c, [], elseBranch, d));
        OnwardsThrough(a, c, FlowStatement(a, s, d));
      case TantQue(condition, body) =>
        StepsGoOn(a, condition);
        LoopGoesOn(FlowSteps(a, condition), [], body);
        OnwardsThrough(a, FlowSteps(a, condition), FlowStatement(a, s, d));
      case Pour(iterable, variable, body) =>
        StepsGoOn(a, iterable);
        LoopGoesOn(FlowSteps(a, iterable), [variable], body);
        OnwardsThrough(a, FlowSteps(a, iterable), FlowStatement(a, s, d));
      case Continuer => ExitGoesOn(a, d);
      case Arreter => ExitGoesOn(a, d);
      case Retourne(e) =>
        StepsGoOn(a, e);
        ExitGoesOn(FlowSteps(a, e), 0);
        OnwardsThrough(a, FlowSteps(a, e), FlowStatement(a, s, d));
      case AgirSelon(subject, branches, hasElse, elseBranch, _) =>
        StepsGoOn(a, subject);
        var c := FlowSteps(a, subject);
        if hasElse {
          InGoesOn(c, [], elseBranch, d);
        } else {
          NowhereGoesOn(c);
        }
        BranchesGoOn(c, branches, if hasElse then FlowIn(c, [], elseBranch, d) else Nowhere(c), d);
        OnwardsThrough(a, FlowSteps(a, subject), FlowStatement(a, s, d));
    }
  }

  lemma {:induction false} AllGoesOn(a: Flow, statements: seq<Stmt>, d: nat)
    requires Sane(a) && a.scopes != [] && d <= |a.scopes|
    ensures Sane(FlowAll(a, statements, d)) && Onwards(a, FlowAll(a, statements, d))
    decreases statements, 0
  {
    if statements != [] {
      hide Sane, Onwards, FlowStatement;
      var b := FlowStatement(a, statements[0], d);
      StatementGoesOn(a, statements[0], d);
      AllGoesOn(b, statements[1..], d);
      OnwardsThrough(a, b, FlowAll(b, statements[1..], d));
    }
  }

  lemma {:induction false} InGoesOn(a: Flow, names: seq<Name>, statements: seq<Stmt>, d: nat)
    requires Sane(a) && d <= |a.scopes|
    ensures Sane(FlowIn(a, names, statements, d)) && Onwards(a, FlowIn(a, names, statements, d))
    decreases statements, 1
  {
    hide FlowAll, Owned;
    EnterGoesOn(a, names);
    AllGoesOn(FlowEnter(a, names), statements, d);
  }

  lemma {:induction false} LoopGoesOn(a: Flow, names: seq<Name>, body: seq<Stmt>)
    requires Sane(a)
    ensures Sane(FlowLoop(a, names, body)) && Onwards(a, FlowLoop(a, names, body))
    decreases body, 2
  {
    hide FlowIn, Owned;
  }

  lemma NowhereGoesOn(a: Flow)
    requires Sane(a)
    ensures Sane(Nowhere(a)) && Onwards(a, Nowhere(a))
  {}

  lemma {:induction false} BranchesGoOn(a: Flow, branches: seq<Branch>, otherwise: Flow, d: nat)
    requires Sane(a) && d <= |a.scopes| && Sane(otherwise) && Onwards(a, otherwise) && otherwise.scopes == a.scopes
    ensures Sane(FlowBranches(a, branches, otherwise, d)) && Onwards(a, FlowBranches(a, branches, otherwise, d))
    decreases branches, 0
  {
    if branches != [] {
      hide Sane, Onwards, FlowBranch, FlowJoin;
      BranchGoesOn(a, branches[0], d);
      BranchesGoOn(a, branches[1..], otherwise, d);
      JoinGoesOn(a, FlowBranch(a, branches[0], d), FlowBranches(a, branches[1..], otherwise, d));
    }
  }

  lemma {:induction false} BranchGoesOn(a: Flow, branch: Branch, d: nat)
    requires Sane(a) && d <= |a.scopes|
    ensures Sane(FlowBranch(a, branch, d)) && Onwards(a, FlowBranch(a, branch, d))
    decreases branch, 0
  {
    hide FlowIn, Owned;
    if branch.ending.Body? {
      InGoesOn(a, branch.names, branch.ending.statements, d);
    }
  }
}
