/** What running a function does with results: which variables hold them, which have been
    read, and whether one has left its last scope unread. */
module ResultRuns {
  import opened Utf8
  import opened ObligationAnalysis

  /** `Stopped`: the run is not over, or ended in a run-time error. */
  datatype Signal = Normal | Continuing | Breaking | Returning | Stopped

  /** Results are numbered as they are made; the numbers given in a scope are free again once
      it is left. `choices` decide every condition, every skipped
      operand, every `propager` and every branch; a run may end for want of choices. `gap` is
      whether an operand that reads an unread result was skipped, or a scope left by
      `arrêter` with a result that nothing around holds. */
  datatype Run = Run(scopes: seq<Scope>, used: set<nat>, next: nat, leaked: bool, gap: bool, choices: seq<bool>, signal: Signal)

  function Choose(r: Run): (bool, Run) {
    if r.choices == [] then (false, r.(signal := Stopped)) else (r.choices[0], r.(choices := r.choices[1..]))
  }

  function Enter(r: Run): Run {
    r.(scopes := r.scopes + [map[]])
  }

  /** Leaving a scope, by whatever exit, loses the results that nothing around holds. */
  function Leave(r: Run): (t: Run)
    ensures (r.leaked ==> t.leaked) && (r.gap ==> t.gap) && t.next == r.next
  {
    if r.signal == Stopped || r.scopes == [] then r
    else
      var rest := r.scopes[..|r.scopes| - 1];
      var loses := Held(r.scopes[|r.scopes| - 1]) - r.used - Owned(rest) != {};
      r.(scopes := rest, leaked := r.leaked || loses, gap := r.gap || (loses && r.signal == Breaking))
  }

  function Read(r: Run, name: Name): Run {
    match Find(r.scopes, name)
    case Some(Some(result)) => r.(used := r.used + {result})
    case _ => r
  }

  /** The results an operand would read. */
  function Reads(scopes: seq<Scope>, e: Expr): set<nat>
    decreases e
  {
    if e == [] then {} else StepReads(scopes, e[0]) + Reads(scopes, e[1..])
  }

  function StepReads(scopes: seq<Scope>, step: Step): set<nat>
    decreases step
  {
    match step
    case Use(name) => (match Find(scopes, name) case Some(Some(result)) => {result} case _ => {})
    case Propager => {}
    case Perhaps(steps) => Reads(scopes, steps)
  }

  function Skip(r: Run, e: Expr): Run {
    r.(gap := r.gap || Reads(r.scopes, e) - r.used != {})
  }

  function RunSteps(r: Run, e: Expr): (s: Run)
    ensures |s.choices| <= |r.choices| && s.scopes == r.scopes && s.next == r.next && s.leaked == r.leaked && (r.gap ==> s.gap)
    decreases e
  {
    if e == [] || r.signal != Normal then r else RunSteps(RunStep(r, e[0]), e[1..])
  }

  function RunStep(r: Run, step: Step): (s: Run)
    ensures |s.choices| <= |r.choices| && s.scopes == r.scopes && s.next == r.next && s.leaked == r.leaked && (r.gap ==> s.gap)
    decreases step
  {
    match step
    case Use(name) => Read(r, name)
    case Propager =>
      var (leaves, c) := Choose(r);
      if c.signal == Normal && leaves then c.(signal := Returning) else c
    case Perhaps(steps) =>
      var (taken, c) := Choose(r);
      if taken then RunSteps(c, steps) else Skip(c, steps)
  }

  function Holding(r: Run, name: Name, result: Option<nat>): Run {
    if r.scopes == [] then r
    else
      var n := |r.scopes| - 1;
      r.(scopes := r.scopes[..n] + [r.scopes[n][name := result]])
  }

  function HoldingNew(r: Run, name: Name): Run {
    Holding(r, name, Some(r.next)).(used := r.used - {r.next}, next := r.next + 1)
  }

  function HoldingNone(r: Run, names: seq<Name>): (s: Run)
    ensures s.choices == r.choices && s.leaked == r.leaked && s.gap == r.gap && s.next == r.next && |s.scopes| == |r.scopes|
    decreases |names|
  {
    if names == [] then r else HoldingNone(Holding(r, names[0], None), names[1..])
  }

  /** The initialiser is evaluated before the variable exists. */
  function RunDeclare(r: Run, name: Name, init: Init): (s: Run)
    ensures |s.choices| <= |r.choices| && s.leaked == r.leaked && |s.scopes| == |r.scopes|
    ensures (r.gap ==> s.gap) && r.next <= s.next
  {
    match init
    case Plain(e) => var c := RunSteps(r, e); if c.signal == Normal then Holding(c, name, None) else c
    case Result(e) => var c := RunSteps(r, e); if c.signal == Normal then HoldingNew(c, name) else c
    case Alias(source) =>
      match Find(r.scopes, source)
      case Some(Some(result)) => Holding(r, name, Some(result))
      case _ => HoldingNew(r, name)
  }

  function Execute(r: Run, s: Stmt): (t: Run)
    ensures |t.choices| <= |r.choices| && (r.leaked ==> t.leaked) && (t.signal != Stopped ==> |t.scopes| == |r.scopes|)
    ensures (r.gap ==> t.gap) && r.next <= t.next && (r.signal == Stopped ==> t.signal == Stopped)
    decreases |r.choices|, s, 0
  {
    if r.signal != Normal then r
    else match s
      case Eval(e) => RunSteps(r, e)
      case Declare(name, init) => RunDeclare(r, name, init)
      case Block(statements) => ExecuteIn(r, [], statements)
      case Si(condition, thenBranch, elseBranch) =>
        var c := RunSteps(r, condition);
        if c.signal != Normal then c
        else
          var (yes, d) := Choose(c);
          ExecuteIn(d, [], if yes then thenBranch else elseBranch)
      case TantQue(condition, body) => Rounds(r, condition, [], body)
      case Pour(iterable, variable, body) => Rounds(RunSteps(r, iterable), [], [variable], body)
      case Continuer => r.(signal := Continuing)
      case Arreter => r.(signal := Breaking)
      case Retourne(e) => var c := RunSteps(r, e); if c.signal == Normal then c.(signal := Returning) else c
      case AgirSelon(subject, branches, hasElse, elseBranch, _) =>
        ExecuteBranches(RunSteps(r, subject), branches, hasElse, elseBranch)
  }

  function ExecuteAll(r: Run, statements: seq<Stmt>): (t: Run)
    ensures |t.choices| <= |r.choices| && (r.leaked ==> t.leaked) && (t.signal != Stopped ==> |t.scopes| == |r.scopes|)
    ensures (r.gap ==> t.gap) && r.next <= t.next && (r.signal == Stopped ==> t.signal == Stopped)
    decreases |r.choices|, statements, 0
  {
    if statements == [] then r else ExecuteAll(Execute(r, statements[0]), statements[1..])
  }

  function ExecuteIn(r: Run, names: seq<Name>, statements: seq<Stmt>): (t: Run)
    ensures |t.choices| <= |r.choices| && (r.leaked ==> t.leaked) && (t.signal != Stopped ==> |t.scopes| == |r.scopes|)
    ensures (r.gap ==> t.gap) && r.next <= t.next && (r.signal == Stopped ==> t.signal == Stopped)
    decreases |r.choices|, statements, 1
  {
    if r.signal != Normal then r else Leave(ExecuteAll(HoldingNone(Enter(r), names), statements)).(next := r.next)
  }

  /** The rounds of a loop, each with a scope of its own. */
  function Rounds(r: Run, condition: Expr, names: seq<Name>, body: seq<Stmt>): (t: Run)
    ensures |t.choices| <= |r.choices| && (r.leaked ==> t.leaked) && (t.signal != Stopped ==> |t.scopes| == |r.scopes|)
    ensures (r.gap ==> t.gap) && r.next <= t.next && (r.signal == Stopped ==> t.signal == Stopped)
    decreases |r.choices|, body, 2
  {
    var c := RunSteps(r, condition);
    if c.signal != Normal || c.choices == [] then c.(signal := if c.signal == Normal then Stopped else c.signal)
    else
      var (again, d) := Choose(c);
      if !again then d
      else
        var b := ExecuteIn(d, names, body);
        match b.signal
        case Normal => Rounds(b, condition, names, body)
        case Continuing => Rounds(b.(signal := Normal), condition, names, body)
        case Breaking => b.(signal := Normal)
        case _ => b
  }

  /** The first branch that matches; that none does without `sinon` is a run-time error. */
  function ExecuteBranches(r: Run, branches: seq<Branch>, hasElse: bool, elseBranch: seq<Stmt>): (t: Run)
    ensures |t.choices| <= |r.choices| && (r.leaked ==> t.leaked) && (t.signal != Stopped ==> |t.scopes| == |r.scopes|)
    ensures (r.gap ==> t.gap) && r.next <= t.next && (r.signal == Stopped ==> t.signal == Stopped)
    decreases |r.choices|, elseBranch, 2
  {
    if r.signal != Normal then r
    else if branches == [] then if hasElse then ExecuteIn(r, [], elseBranch) else r.(signal := Stopped)
    else if r.choices == [] then r.(signal := Stopped)
    else
      var (taken, c) := Choose(r);
      if taken then ExecuteBranch(c, branches[0]) else ExecuteBranches(c, branches[1..], hasElse, elseBranch)
  }

  function ExecuteBranch(r: Run, branch: Branch): (t: Run)
    ensures |t.choices| <= |r.choices| && (r.leaked ==> t.leaked) && (t.signal != Stopped ==> |t.scopes| == |r.scopes|)
    ensures (r.gap ==> t.gap) && r.next <= t.next
    decreases |r.choices|, branch, 0
  {
    match branch.ending
    case Body(statements) => ExecuteIn(r, branch.names, statements)
    case PropageBranche => r.(signal := Returning)
    case IgnoreBranche => r
  }

  /** Running a function on arguments, some of them results. */
  function HoldingResults(r: Run, results: seq<Name>): Run
    decreases |results|
  {
    if results == [] then r else HoldingResults(HoldingNew(r, results[0]), results[1..])
  }

  function Called(results: seq<Name>, others: seq<Name>, choices: seq<bool>): Run {
    HoldingResults(HoldingNone(Enter(Run([], {}, 0, false, false, choices, Normal)), others), results)
  }

  function ExecuteFunction(results: seq<Name>, others: seq<Name>, body: seq<Stmt>, choices: seq<bool>): Run {
    Leave(ExecuteAll(Called(results, others, choices), body))
  }
}
