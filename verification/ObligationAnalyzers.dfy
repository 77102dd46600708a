/** The analyzer's walk over a function: its scopes, obligations and loop baselines change
    in place, and each method does what the specification of the analysis says.
 */
module ObligationAnalyzers {
  import opened Utf8
  import A = ObligationAnalysis

  type Name = A.Name

  /** Of `all`, those that are no longer pending and wanted. */
  function Visited(all: set<nat>, pending: set<nat>, wanted: set<nat>): set<nat> {
    (all - pending) * wanted
  }

  lemma NoneVisited(all: set<nat>, wanted: set<nat>)
    ensures Visited(all, all, wanted) == {} && Visited(all, {}, wanted) == all * wanted
  {}

  lemma VisitOne(all: set<nat>, pending: set<nat>, wanted: set<nat>, id: nat)
    requires pending <= all && id in pending
    ensures var done := Visited(all, pending, wanted);
            && id !in done
            && Visited(all, pending - {id}, wanted) == if id in wanted then done + {id} else done
  {}

  lemma DiagnosedNone(a: A.Analysis, closed: bool)
    ensures A.Diagnosed(a, {}, closed) == a && A.Dropped(a, {}) == a
  {
    assert a.active - {} == a.active;
  }

  lemma DiagnosedOneMore(a: A.Analysis, ids: set<nat>, id: nat, closed: bool)
    ensures A.Diagnosed(A.Diagnosed(a, ids, closed), {id}, closed) == A.Diagnosed(a, ids + {id}, closed)
  {
    var b := A.Diagnosed(a, ids, closed);
    assert a.active - ids - {id} == a.active - (ids + {id});
    assert (set x | x in ids - a.diagnosed :: A.Unused(x)) + (set x | x in {id} - b.diagnosed :: A.Unused(x))
        == set x | x in ids + {id} - a.diagnosed :: A.Unused(x);
  }

  lemma DiagnosedActive(a: A.Analysis, ids: set<nat>, closed: bool)
    ensures A.Diagnosed(a, ids, closed).active == if closed then a.active - ids else a.active
  {}

  lemma DroppedOneMore(a: A.Analysis, ids: set<nat>, id: nat)
    ensures A.Dropped(A.Dropped(a, ids), {id}) == A.Dropped(a, ids + {id})
  {
    assert a.active - ids - {id} == a.active - (ids + {id});
    assert (set x | x in ids :: A.UnusedAtContinue(x)) + (set x | x in {id} :: A.UnusedAtContinue(x))
        == set x | x in ids + {id} :: A.UnusedAtContinue(x);
  }

  class ObligationAnalyzer {
    var scopes: seq<A.Scope>
    var active: set<nat>
    var next: nat
    var baselines: seq<A.State>
    var diagnosed: set<nat>
    var diagnostics: set<A.Diagnostic>

    constructor ()
      ensures Now() == A.START
    {
      scopes, active, next, baselines, diagnosed, diagnostics := [], {}, 0, [], {}, {};
    }

    ghost function Now(): A.Analysis
      reads this
    {
      A.Analysis(scopes, active, next, baselines, diagnosed, diagnostics)
    }

    method PushScope()
      modifies this
      ensures Now() == A.PushScope(old(Now()))
    {
      scopes := scopes + [map[]];
    }

    method DiagnoseOne(id: nat, closed: bool)
      modifies this
      ensures Now() == A.Diagnosed(old(Now()), {id}, closed)
    {
      if id !in diagnosed {
        diagnosed := diagnosed + {id};
        diagnostics := diagnostics + {A.Unused(id)};
      }
      if closed {
        active := active - {id};
      }
    }

    /** Reports each open obligation of the scope that nothing around owns. */
    method PopScope()
      requires scopes != []
      modifies this
      ensures Now() == A.PopScope(old(Now()))
    {
      hide A.Owned, A.Held, A.Diagnosed, Visited;
      var rest := scopes[..|scopes| - 1];
      var all := A.Held(scopes[|scopes| - 1]);
      var pending := all;
      ghost var begun := Now();
      ghost var wanted := active - A.Owned(rest);
      NoneVisited(all, wanted);
      DiagnosedNone(begun, true);
      while pending != {}
        invariant pending <= all && Now() == A.Diagnosed(begun, Visited(all, pending, wanted), true)
        decreases |pending|
      {
        var id :| id in pending;
        VisitOne(all, pending, wanted, id);
        DiagnosedOneMore(begun, Visited(all, pending, wanted), id, true);
        DiagnosedActive(begun, Visited(all, pending, wanted), true);
        pending := pending - {id};
        if id in active && id !in A.Owned(rest) {
          DiagnoseOne(id, true);
        }
      }
      scopes := rest;
      NoneVisited(all, wanted);
      assert all * wanted == all * begun.active - A.Owned(rest);
    }

    method ConsumeObligation(name: Name)
      modifies this
      ensures Now() == A.Consume(old(Now()), name)
      ensures forall id :: A.Find(scopes, name) == Some(Some(id)) ==> id !in active
      ensures forall id | id in old(active) && id !in active :: A.Find(scopes, name) == Some(Some(id))
    {
      match A.Find(scopes, name)
      case Some(Some(id)) => active := active - {id};
      case _ =>
    }

    /** Reports every open obligation; `leaves` says whether the function is left for sure. */
    method DiagnoseActiveObligations(leaves: bool)
      modifies this
      ensures Now() == if leaves then A.CheckExit(old(Now())) else A.CheckPossibleExit(old(Now()))
    {
      hide A.Owned, A.Diagnosed, Visited;
      var all := A.Owned(scopes);
      var pending := all;
      ghost var begun := Now();
      NoneVisited(all, active);
      DiagnosedNone(begun, leaves);
      while pending != {}
        invariant pending <= all && Now() == A.Diagnosed(begun, Visited(all, pending, begun.active), leaves)
        decreases |pending|
      {
        var id :| id in pending;
        VisitOne(all, pending, begun.active, id);
        DiagnosedOneMore(begun, Visited(all, pending, begun.active), id, leaves);
        DiagnosedActive(begun, Visited(all, pending, begun.active), leaves);
        pending := pending - {id};
        if id in active {
          DiagnoseOne(id, leaves);
        }
      }
      NoneVisited(all, begun.active);
    }

    method DiagnoseNewLoopObligations()
      modifies this
      ensures Now() == A.CheckContinue(old(Now()))
    {
      if baselines == [] {
        diagnostics := diagnostics + {A.ContinueOutsideLoop};
        return;
      }
      hide A.Dropped, Visited;
      var baseline := baselines[|baselines| - 1].active;
      var pending := active;
      ghost var begun, all, wanted := Now(), active, active - baseline;
      NoneVisited(all, wanted);
      DiagnosedNone(begun, true);
      while pending != {}
        invariant pending <= all && Now() == A.Dropped(begun, Visited(all, pending, wanted))
        decreases |pending|
      {
        var id :| id in pending;
        VisitOne(all, pending, wanted, id);
        DroppedOneMore(begun, Visited(all, pending, wanted), id);
        pending := pending - {id};
        if id !in baseline {
          DropOne(id);
        }
      }
      NoneVisited(all, wanted);
      assert all * wanted == wanted;
    }

    method DropOne(id: nat)
      modifies this
      ensures Now() == A.Dropped(old(Now()), {id})
    {
      diagnostics := diagnostics + {A.UnusedAtContinue(id)};
      active := active - {id};
    }

    /** Every obligation of the baseline is open when some path leaves it open. */
    method MergeObligationStates(baseline: A.State, paths: seq<A.State>)
      modifies this
      ensures Now() == A.Merge(old(Now()), baseline, paths)
    {
      for id := 0 to baseline.known
        invariant Now() == old(Now()).(active := active)
        invariant forall x: nat :: x in active <==>
                                   if x < id then exists p | p in paths :: x in p.active else x in old(active)
      {
        var open := false;
        for k := 0 to |paths|
          invariant Now() == old(Now()).(active := active)
          invariant forall x: nat :: x in active <==>
                                     if x < id then exists p | p in paths :: x in p.active else x in old(active)
          invariant open <==> exists j | 0 <= j < k :: id in paths[j].active
        {
          open := open || id in paths[k].active;
        }
        active := if open then active + {id} else active - {id};
      }
      assert forall x: nat :: x in active <==> x in A.Merge(old(Now()), baseline, paths).active;
    }

    method RestoreObligationState(state: A.State)
      modifies this
      ensures Now() == A.Restore(old(Now()), state)
    {
      active := state.active + set id | id in active && id >= state.known;
    }

    method DeclareLocal(name: Name)
      modifies this
      ensures Now() == A.DeclareLocal(old(Now()), name)
    {
      if scopes == [] {
        return;
      }
      var n := |scopes| - 1;
      if name in scopes[n] {
        diagnostics := diagnostics + {A.Redeclared(name)};
        return;
      }
      scopes := scopes[..n] + [scopes[n][name := None]];
    }

    method DeclareNames(names: seq<Name>)
      modifies this
      ensures Now() == A.DeclareNames(old(Now()), names)
    {
      hide A.DeclareLocal;
      for i := 0 to |names|
        invariant A.DeclareNames(Now(), names[i..]) == A.DeclareNames(old(Now()), names)
      {
        assert names[i..][1..] == names[i + 1..];
        DeclareLocal(names[i]);
      }
    }

    method CreateObligation(name: Name)
      requires scopes != []
      modifies this
      ensures Now() == A.CreateObligation(old(Now()), name)
    {
      var n := |scopes| - 1;
      active := active + {next};
      scopes := scopes[..n] + [scopes[n][name := Some(next)]];
      next := next + 1;
    }

    method ResolveExpression(e: A.Expr)
      modifies this
      ensures Now() == A.Steps(old(Now()), e)
      decreases e
    {
      hide A.Consume, A.CheckPossibleExit;
      for i := 0 to |e|
        invariant A.Steps(Now(), e[i..]) == A.Steps(old(Now()), e)
      {
        assert e[i..][1..] == e[i + 1..];
        match e[i]
        case Use(name) => ConsumeObligation(name);
        case Propager => DiagnoseActiveObligations(false);
        case Perhaps(steps) => ResolveExpression(steps);
      }
    }

    /** The variable exists before its initialiser is resolved. */
    method ResolveDeclaration(name: Name, init: A.Init)
      requires scopes != []
      modifies this
      ensures Now() == A.Declaration(old(Now()), name, init)
    {
      hide A.DeclareLocal, A.Steps, A.Consume, A.CreateObligation;
      DeclareLocal(name);
      match init
      case Plain(e) => ResolveExpression(e);
      case Result(e) =>
        ResolveExpression(e);
        OpenUnlessOpened(name);
      case Alias(source) =>
        ConsumeObligation(source);
        match A.Find(scopes, source)
        case None => OpenUnlessOpened(name);
        case Some(None) => CreateObligation(name);
        case Some(Some(id)) =>
          var n := |scopes| - 1;
          scopes := scopes[..n] + [scopes[n][name := Some(id)]];
          active := active + {id};
    }

    method OpenUnlessOpened(name: Name)
      requires scopes != []
      modifies this
      ensures Now() == A.Opened(old(Now()), name)
    {
      match A.Find(scopes, name)
      case Some(Some(_)) =>
      case _ => CreateObligation(name);
    }

    method ResolveStatement(s: A.Stmt)
      modifies this
      ensures Now() == A.Statement(old(Now()), s)
      decreases s, 0
    {
      hide A.Steps, A.InScope, A.Loop, A.Branches, A.Declaration, A.Merge, A.Restore, A.CheckExit, A.CheckContinue;
      match s
      case Eval(e) => ResolveExpression(e);
      case Declare(name, init) =>
        if scopes != [] {
          ResolveDeclaration(name, init);
        }
      case Block(statements) => ResolveBlock([], statements);
      case Si(condition, thenBranch, elseBranch) =>
        ResolveExpression(condition);
        var baseline := A.State(active, next);
        ResolveBlock([], thenBranch);
        var thenState := A.State(active, next);
        RestoreObligationState(baseline);
        ResolveBlock([], elseBranch);
        MergeObligationStates(baseline, [thenState, A.State(active, next)]);
      case TantQue(condition, body) =>
        ResolveExpression(condition);
        ResolveLoop([], body);
      case Pour(iterable, variable, body) =>
        ResolveExpression(iterable);
        ResolveLoop([variable], body);
      case Continuer => DiagnoseNewLoopObligations();
      case Arreter =>
        if baselines == [] {
          diagnostics := diagnostics + {A.BreakOutsideLoop};
        }
      case Retourne(e) =>
        ResolveExpression(e);
        DiagnoseActiveObligations(true);
      case AgirSelon(_, _, _, _, _) => ResolveMatch(s);
    }

    method ResolveBlock(names: seq<Name>, statements: seq<A.Stmt>)
      modifies this
      ensures Now() == A.InScope(old(Now()), names, statements)
      decreases statements, 1
    {
      hide A.DeclareNames, A.PopScope, A.Statement;
      PushScope();
      DeclareNames(names);
      ghost var entered := Now();
      for i := 0 to |statements|
        invariant A.Statements(Now(), statements[i..]) == A.Statements(entered, statements)
        invariant |scopes| == |old(scopes)| + 1
      {
        assert statements[i..][1..] == statements[i + 1..];
        ResolveStatement(statements[i]);
      }
      PopScope();
    }

    method ResolveLoop(names: seq<Name>, body: seq<A.Stmt>)
      modifies this
      ensures Now() == A.Loop(old(Now()), names, body)
      decreases body, 2
    {
      hide A.InScope, A.Merge;
      var baseline := A.State(active, next);
      var outer := baselines;
      baselines := baselines + [baseline];
      ResolveBlock(names, body);
      baselines := outer;
      MergeObligationStates(baseline, [baseline, A.State(active, next)]);
    }

    method ResolveMatch(s: A.Stmt)
      requires s.AgirSelon?
      modifies this
      ensures Now() == A.Statement(old(Now()), s)
      decreases s, -1
    {
      hide A.Steps, A.InScope, A.OneBranch, A.Merge, A.Restore;
      ResolveExpression(s.subject);
      var baseline := A.State(active, next);
      var paths: seq<A.State> := [];
      ghost var begun := Now();
      assert s.branches[0..] == s.branches && forall more: seq<A.State> :: [] + more == more;
      for i := 0 to |s.branches|
        invariant A.Branches(begun, baseline, s.branches) ==
                  var (a, more) := A.Branches(Now(), baseline, s.branches[i..]); (a, paths + more)
      {
        assert s.branches[i..][1..] == s.branches[i + 1..];
        RestoreObligationState(baseline);
        ResolveBranch(s.branches[i]);
        var path := A.State(active, next);
        ghost var more := A.Branches(Now(), baseline, s.branches[i + 1..]).1;
        assert paths + ([path] + more) == paths + [path] + more;
        paths := paths + [path];
      }
      assert paths + [] == paths;
      if s.hasElse {
        RestoreObligationState(baseline);
        ResolveBlock([], s.elseBranch);
        paths := paths + [A.State(active, next)];
      } else if !s.isResult {
        paths := paths + [baseline];
      }
      if paths != [] {
        MergeObligationStates(baseline, paths);
      }
    }

    method ResolveBranch(branch: A.Branch)
      modifies this
      ensures Now() == A.OneBranch(old(Now()), branch)
      decreases branch, 0
    {
      hide A.InScope, A.DeclareNames, A.PopScope, A.CheckPossibleExit, A.CheckExit;
      match branch.ending
      case Body(statements) => ResolveBlock(branch.names, statements);
      case PropageBranche =>
        PushScope();
        DeclareNames(branch.names);
        DiagnoseActiveObligations(false);
        PopScope();
      case IgnoreBranche =>
        PushScope();
        DeclareNames(branch.names);
        PopScope();
    }

    /** A function of its own: parameters, body, and the end of its scope. */
    method ResolveFunction(results: seq<Name>, others: seq<Name>, body: seq<A.Stmt>)
      requires Now() == A.START
      modifies this
      ensures Now() == A.Function(results, others, body)
    {
      hide A.DeclareNames, A.DeclareLocal, A.CreateObligation, A.PopScope, A.Statement;
      PushScope();
      DeclareNames(others);
      ghost var begun := Now();
      for i := 0 to |results|
        invariant |scopes| == 1
        invariant A.WithResults(Now(), results[i..]) == A.WithResults(begun, results)
      {
        assert results[i..][1..] == results[i + 1..];
        DeclareLocal(results[i]);
        CreateObligation(results[i]);
      }
      ghost var entered := Now();
      for i := 0 to |body|
        invariant |scopes| == 1
        invariant A.Statements(Now(), body[i..]) == A.Statements(entered, body)
      {
        assert body[i..][1..] == body[i + 1..];
        ResolveStatement(body[i]);
      }
      PopScope();
    }
  }
}
