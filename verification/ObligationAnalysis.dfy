/** The analyzer's tracking of results that must be used: every variable that receives a
    Résultat carries an obligation, reading the variable settles it, and leaving its scope
    before that is an error. Branches are analysed one after the other and merged, loop
    bodies once.
 */
module ObligationAnalysis {
  import opened Utf8

  type Name = nat

  /** What evaluating an expression does, in order: reading a variable, `propager`, which may
      leave the function, and the right operand of `et` or `ou`, which may be skipped. */
  datatype Step = Use(name: Name) | Propager | Perhaps(steps: seq<Step>)

  type Expr = seq<Step>

  /** What initialises a variable: a value that is no result, a result, or the result another
      variable has. */
  datatype Init = Plain(e: Expr) | Result(e: Expr) | Alias(source: Name)

  datatype Ending = Body(statements: seq<Stmt>) | PropageBranche | IgnoreBranche

  /** `names` are bound by the patterns. */
  datatype Branch = Branch(names: seq<Name>, ending: Ending)

  /** An absent `sinon` of a `si` is an empty one. */
  datatype Stmt =
    | Eval(e: Expr)
    | Declare(name: Name, init: Init)
    | Block(statements: seq<Stmt>)
    | Si(condition: Expr, thenBranch: seq<Stmt>, elseBranch: seq<Stmt>)
    | TantQue(condition: Expr, body: seq<Stmt>)
    | Pour(iterable: Expr, variable: Name, body: seq<Stmt>)
    | Continuer
    | Arreter
    | Retourne(e: Expr)
    | AgirSelon(subject: Expr, branches: seq<Branch>, hasElse: bool, elseBranch: seq<Stmt>, isResult: bool)

  /** A variable has an obligation, or is of another type. */
  type Scope = map<Name, Option<nat>>

  /** LUM-S0029, LUM-S0039, LUM-S0007, LUM-S0053 and LUM-S0052. */
  datatype Diagnostic =
    | Unused(obligation: nat)
    | UnusedAtContinue(obligation: nat)
    | Redeclared(name: Name)
    | ContinueOutsideLoop
    | BreakOutsideLoop

  /** The obligations there were, those below `known`, and which of them were open. */
  datatype State = State(active: set<nat>, known: nat)

  /** Obligations are numbered from 0; `diagnosed` are those reported at some exit. */
  datatype Analysis = Analysis(
    scopes: seq<Scope>, active: set<nat>, next: nat, baselines: seq<State>,
    diagnosed: set<nat>, diagnostics: set<Diagnostic>)

  const START := Analysis([], {}, 0, [], {}, {})

  /** The innermost variable of a name. */
  function Find(scopes: seq<Scope>, name: Name): Option<Option<nat>>
    decreases |scopes|
  {
    if scopes == [] then None
    else if name in scopes[|scopes| - 1] then Some(scopes[|scopes| - 1][name])
    else Find(scopes[..|scopes| - 1], name)
  }

  function Held(scope: Scope): set<nat> {
    set name | name in scope && scope[name].Some? :: scope[name].value
  }

  function Owned(scopes: seq<Scope>): set<nat>
    decreases |scopes|
  {
    if scopes == [] then {} else Owned(scopes[..|scopes| - 1]) + Held(scopes[|scopes| - 1])
  }

  /** What analysing more keeps: the scopes but for the last, earlier obligations, the loops
      around, and what was reported. */
  ghost predicate Later(a: Analysis, b: Analysis) {
    && |a.scopes| == |b.scopes| && (a.scopes != [] ==> a.scopes[..|a.scopes| - 1] == b.scopes[..|a.scopes| - 1])
    && a.next <= b.next && a.baselines == b.baselines
    && a.diagnosed <= b.diagnosed && a.diagnostics <= b.diagnostics
  }

  ghost predicate WellFormed(a: Analysis) {
    && (forall id | id in a.active :: id < a.next)
    && (forall id | id in a.diagnosed :: Unused(id) in a.diagnostics)
    && (forall id | id in Owned(a.scopes) :: id < a.next)
  }

  // Steps of the analysis

  /** Obligations are reported at an exit, each once in all, and perhaps closed. */
  function Diagnosed(a: Analysis, ids: set<nat>, closed: bool): (r: Analysis)
    ensures r == a.(active := r.active, diagnosed := r.diagnosed, diagnostics := r.diagnostics)
  {
    a.(active := if closed then a.active - ids else a.active, diagnosed := a.diagnosed + ids,
       diagnostics := a.diagnostics + set id | id in ids - a.diagnosed :: Unused(id))
  }

  function PushScope(a: Analysis): Analysis {
    a.(scopes := a.scopes + [map[]])
  }

  /** Open obligations of the scope that no scope around owns are reported, once each. */
  function PopScope(a: Analysis): Analysis
    requires a.scopes != []
  {
    var rest := a.scopes[..|a.scopes| - 1];
    Diagnosed(a, Held(a.scopes[|a.scopes| - 1]) * a.active - Owned(rest), true).(scopes := rest)
  }

  function Consume(a: Analysis, name: Name): (r: Analysis)
    ensures r.scopes == a.scopes
  {
    match Find(a.scopes, name)
    case Some(Some(id)) => a.(active := a.active - {id})
    case _ => a
  }

  /** Leaving the function. */
  function CheckExit(a: Analysis): (r: Analysis)
    ensures r.scopes == a.scopes
  {
    Diagnosed(a, Owned(a.scopes) * a.active, true)
  }

  /** Perhaps leaving the function. */
  function CheckPossibleExit(a: Analysis): (r: Analysis)
    ensures r.scopes == a.scopes
  {
    Diagnosed(a, Owned(a.scopes) * a.active, false)
  }

  /** Obligations opened since the innermost loop began. */
  function NewInLoop(a: Analysis): set<nat> {
    if a.baselines == [] then {} else a.active - a.baselines[|a.baselines| - 1].active
  }

  function Dropped(a: Analysis, ids: set<nat>): Analysis {
    a.(active := a.active - ids, diagnostics := a.diagnostics + set id | id in ids :: UnusedAtContinue(id))
  }

  function CheckContinue(a: Analysis): Analysis {
    if a.baselines == [] then a.(diagnostics := a.diagnostics + {ContinueOutsideLoop}) else Dropped(a, NewInLoop(a))
  }

  /** No obligation is checked at `arrêter`. */
  function CheckBreak(a: Analysis): Analysis {
    a.(diagnostics := a.diagnostics + (if a.baselines == [] then {BreakOutsideLoop} else {}))
  }

  function Snapshot(a: Analysis): State {
    State(a.active, a.next)
  }

  function Restore(a: Analysis, s: State): Analysis {
    a.(active := s.active + set id | id in a.active && id >= s.known)
  }

  /** An obligation of the baseline is open when it is on some path. */
  function Merge(a: Analysis, baseline: State, paths: seq<State>): Analysis {
    a.(active := (set p, id | p in paths && id in p.active && id < baseline.known :: id)
                 + set id | id in a.active && id >= baseline.known)
  }

  function Bind(a: Analysis, name: Name, obligation: Option<nat>): Analysis
    requires a.scopes != []
  {
    var n := |a.scopes| - 1;
    a.(scopes := a.scopes[..n] + [a.scopes[n][name := obligation]])
  }

  /** A second declaration in one scope is an error and leaves the first. */
  function DeclareLocal(a: Analysis, name: Name): (r: Analysis)
    ensures |r.scopes| == |a.scopes|
  {
    if a.scopes == [] then a
    else if name in a.scopes[|a.scopes| - 1] then a.(diagnostics := a.diagnostics + {Redeclared(name)})
    else Bind(a, name, None)
  }

  function DeclareNames(a: Analysis, names: seq<Name>): (r: Analysis)
    ensures |r.scopes| == |a.scopes|
    decreases |names|
  {
    if names == [] then a else DeclareNames(DeclareLocal(a, names[0]), names[1..])
  }

  function CreateObligation(a: Analysis, name: Name): (r: Analysis)
    requires a.scopes != []
    ensures |r.scopes| == |a.scopes|
  {
    Bind(a, name, Some(a.next)).(active := a.active + {a.next}, next := a.next + 1)
  }

  /** Reading a right operand that may be skipped counts like any other. */
  function Steps(a: Analysis, e: Expr): (r: Analysis)
    ensures r.scopes == a.scopes
    decreases e
  {
    if e == [] then a else Steps(OneStep(a, e[0]), e[1..])
  }

  function OneStep(a: Analysis, s: Step): (r: Analysis)
    ensures r.scopes == a.scopes
    decreases s
  {
    match s
    case Use(name) => Consume(a, name)
    case Propager => CheckPossibleExit(a)
    case Perhaps(steps) => Steps(a, steps)
  }

  /** The name is declared before its initialiser is resolved. */
  function Declaration(a: Analysis, name: Name, init: Init): (r: Analysis)
    requires a.scopes != []
    ensures |r.scopes| == |a.scopes|
  {
    var d := DeclareLocal(a, name);
    match init
    case Plain(e) => Steps(d, e)
    case Result(e) => Opened(Steps(d, e), name)
    case Alias(source) =>
      var b := Consume(d, source);
      match Find(b.scopes, source)
      case None => Opened(b, name)
      case Some(None) => CreateObligation(b, name)
      case Some(Some(id)) => Bind(b, name, Some(id)).(active := b.active + {id})
  }

  /** A variable without an obligation gets a new one. */
  function Opened(a: Analysis, name: Name): (r: Analysis)
    requires a.scopes != []
    ensures |r.scopes| == |a.scopes|
  {
    match Find(a.scopes, name)
    case Some(Some(_)) => a
    case _ => CreateObligation(a, name)
  }

  function Statement(a: Analysis, s: Stmt): (r: Analysis)
    ensures |r.scopes| == |a.scopes|
    decreases s, 0
  {
    match s
    case Eval(e) => Steps(a, e)
    case Declare(name, init) => if a.scopes == [] then a else Declaration(a, name, init)
    case Block(statements) => InScope(a, [], statements)
    case Si(condition, thenBranch, elseBranch) =>
      var c := Steps(a, condition);
      var baseline := Snapshot(c);
      var t := InScope(c, [], thenBranch);
      var e := InScope(Restore(t, baseline), [], elseBranch);
      Merge(e, baseline, [Snapshot(t), Snapshot(e)])
    case TantQue(condition, body) => Loop(Steps(a, condition), [], body)
    case Pour(iterable, variable, body) => Loop(Steps(a, iterable), [variable], body)
    case Continuer => CheckContinue(a)
    case Arreter => CheckBreak(a)
    case Retourne(e) => CheckExit(Steps(a, e))
    case AgirSelon(subject, branches, hasElse, elseBranch, isResult) =>
      var c := Steps(a, subject);
      var baseline := Snapshot(c);
      var (b, paths) := Branches(c, baseline, branches);
      if hasElse then
        var e := InScope(Restore(b, baseline), [], elseBranch);
        Merge(e, baseline, paths + [Snapshot(e)])
      else
        var all := if isResult then paths else paths + [baseline];
        if all == [] then b else Merge(b, baseline, all)
  }

  /** A scope of its own, with some variables that are no results to begin with. */
  function InScope(a: Analysis, names: seq<Name>, statements: seq<Stmt>): (r: Analysis)
    ensures |r.scopes| == |a.scopes|
    decreases statements, 1
  {
    PopScope(Statements(DeclareNames(PushScope(a), names), statements))
  }

  function Statements(a: Analysis, statements: seq<Stmt>): (r: Analysis)
    ensures |r.scopes| == |a.scopes|
    decreases statements, 0
  {
    if statements == [] then a else Statements(Statement(a, statements[0]), statements[1..])
  }

  /** The body once, merged with not running it. */
  function Loop(a: Analysis, names: seq<Name>, body: seq<Stmt>): (r: Analysis)
    ensures |r.scopes| == |a.scopes|
    decreases body, 2
  {
    var baseline := Snapshot(a);
    var b := InScope(a.(baselines := a.baselines + [baseline]), names, body).(baselines := a.baselines);
    Merge(b, baseline, [baseline, Snapshot(b)])
  }

  /** Each branch from the baseline on, and the states they end in. */
  function Branches(a: Analysis, baseline: State, branches: seq<Branch>): (r: (Analysis, seq<State>))
    ensures |r.0.scopes| == |a.scopes|
    decreases branches, 0
  {
    if branches == [] then (a, [])
    else
      var b := OneBranch(Restore(a, baseline), branches[0]);
      var (c, paths) := Branches(b, baseline, branches[1..]);
      (c, [Snapshot(b)] + paths)
  }

  function OneBranch(a: Analysis, branch: Branch): (r: Analysis)
    ensures |r.scopes| == |a.scopes|
    decreases branch, 0
  {
    match branch.ending
    case Body(statements) => InScope(a, branch.names, statements)
    case PropageBranche => PopScope(CheckPossibleExit(DeclareNames(PushScope(a), branch.names)))
    case IgnoreBranche => PopScope(DeclareNames(PushScope(a), branch.names))
  }

  /** A function: its parameters, those of a result type with an obligation, and its body. */
  function FunctionScope(results: seq<Name>, others: seq<Name>): (r: Analysis)
    ensures |r.scopes| == 1
  {
    WithResults(DeclareNames(PushScope(START), others), results)
  }

  function WithResults(a: Analysis, results: seq<Name>): (r: Analysis)
    requires a.scopes != []
    ensures |r.scopes| == |a.scopes|
    decreases |results|
  {
    if results == [] then a
    else WithResults(CreateObligation(DeclareLocal(a, results[0]), results[0]), results[1..])
  }

  function Function(results: seq<Name>, others: seq<Name>, body: seq<Stmt>): Analysis {
    PopScope(Statements(FunctionScope(results, others), body))
  }
}
