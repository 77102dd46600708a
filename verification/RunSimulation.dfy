/** A run of a function beside its analysis: the variables are the same, and what the
    analysis takes to be settled has been read. */
module RunSimulation {
  import opened Utf8
  import opened ObligationAnalysis
  import opened ObligationLaws
  import opened ResultRuns
  import opened PathSoundness

  // A run beside the analysis: each obligation stands for one result

  ghost predicate Image(of: map<nat, nat>, s: Scope, t: Scope) {
    s.Keys == t.Keys &&
    forall x | x in s ::
      if s[x].None? then t[x].None? else s[x].value in of && t[x] == Some(of[s[x].value])
  }

  ghost predicate Images(of: map<nat, nat>, ss: seq<Scope>, ts: seq<Scope>) {
    |ss| == |ts| && forall k | 0 <= k < |ss| :: Image(of, ss[k], ts[k])
  }

  /** Every variable of the analysis is one of the run, and the result of an obligation
      that is settled has been read. */
  ghost predicate Rel(scopes: seq<Scope>, active: set<nat>, c: Run, of: map<nat, nat>) {
    && Images(of, scopes, c.scopes)
    && forall id | id in Owned(scopes) :: id in of && of[id] < c.next && (of[id] in c.used || id in active)
  }

  lemma {:induction false} FindImage(of: map<nat, nat>, ss: seq<Scope>, ts: seq<Scope>, x: Name)
    requires Images(of, ss, ts)
    ensures Find(ss, x).None? <==> Find(ts, x).None?
    ensures Find(ss, x).Some? ==> (Find(ss, x).value.None? <==> Find(ts, x).value.None?)
    ensures Find(ss, x).Some? && Find(ss, x).value.Some? ==>
              Find(ss, x).value.value in of && Find(ts, x).value == Some(of[Find(ss, x).value.value])
    decreases |ss|
  {
    if ss != [] {
      assert Image(of, ss[|ss| - 1], ts[|ss| - 1]);
      if x !in ss[|ss| - 1] {
        FindImage(of, ss[..|ss| - 1], ts[..|ss| - 1], x);
      }
    }
  }

  lemma {:induction false} OwnedOf(of: map<nat, nat>, ss: seq<Scope>, ts: seq<Scope>, id: nat)
    requires Images(of, ss, ts) && id in Owned(ss)
    ensures id in of && of[id] in Owned(ts)
    decreases |ss|
  {
    var n := |ss| - 1;
    assert Image(of, ss[n], ts[n]);
    if id in Held(ss[n]) {
      var x :| x in ss[n] && ss[n][x] == Some(id);
      assert ts[n][x] == Some(of[id]);
    } else {
      OwnedOf(of, ss[..n], ts[..n], id);
    }
  }

  lemma {:induction false} OwnedFrom(of: map<nat, nat>, ss: seq<Scope>, ts: seq<Scope>, o: nat) returns (id: nat)
    requires Images(of, ss, ts) && o in Owned(ts)
    ensures id in Owned(ss) && id in of && of[id] == o
    decreases |ss|
  {
    var n := |ss| - 1;
    assert Image(of, ss[n], ts[n]);
    if o in Held(ts[n]) {
      var x :| x in ts[n] && ts[n][x] == Some(o);
      id := ss[n][x].value;
    } else {
      id := OwnedFrom(of, ss[..n], ts[..n], o);
    }
  }

  // Exits

  /** Every result held and not read is held in the first `d` scopes. */
  ghost predicate UnusedWithin(c: Run, d: nat) {
    d <= |c.scopes| && forall o | o in Owned(c.scopes) && o !in c.used :: o in Owned(c.scopes[..d])
  }

  ghost predicate Silent(a: Analysis) {
    a.diagnostics == {} && a.diagnosed == {}
  }

  lemma SilentBack(a: Analysis, b: Analysis)
    requires Later(a, b) && Silent(b)
    ensures Silent(a)
  {}

  /** The innermost loop began with `d` scopes; older obligations are held there. */
  ghost predicate InLoop(a: Analysis, d: nat) {
    d <= |a.scopes| &&
    (a.baselines != [] ==>
       var baseline := a.baselines[|a.baselines| - 1];
       && baseline.known <= a.next
       && (forall id | id in baseline.active :: id < baseline.known)
       && (forall id | id in Owned(a.scopes) && id < baseline.known :: id in Owned(a.scopes[..d])))
  }

  lemma ExitWithin(a: Analysis, c: Run, of: map<nat, nat>, d: nat)
    requires Rel(a.scopes, a.active, c, of) && InLoop(a, d) && a.baselines != [] && NewInLoop(a) == {}
    ensures UnusedWithin(c, d)
  {
    forall o | o in Owned(c.scopes) && o !in c.used ensures o in Owned(c.scopes[..d]) {
      var id := OwnedFrom(of, a.scopes, c.scopes, o);
      assert id in a.active;
      assert id !in NewInLoop(a);
      OwnedOf(of, a.scopes[..d], c.scopes[..d], id);
    }
  }

  lemma NothingOpen(a: Analysis, c: Run, of: map<nat, nat>)
    requires Rel(a.scopes, a.active, c, of) && Owned(a.scopes) * a.active == {}
    ensures UnusedWithin(c, 0)
  {
    forall o | o in Owned(c.scopes) ensures o in c.used {
      var id := OwnedFrom(of, a.scopes, c.scopes, o);
      assert id !in Owned(a.scopes) * a.active;
    }
  }

  /** Leaving a scope as the analysis does. */
  lemma LeaveSound(b: Analysis, c: Run, of: map<nat, nat>)
    requires b.scopes != [] && Rel(b.scopes, b.active, c, of) && !c.leaked && c.signal == Normal && Silent(PopScope(b))
    ensures !Leave(c).leaked && Rel(PopScope(b).scopes, PopScope(b).active, Leave(c), of)
  {
    var n := |b.scopes| - 1;
    var left := Held(b.scopes[n]) * b.active - Owned(b.scopes[..n]);
    assert left <= PopScope(b).diagnosed;
    assert left == {};
    assert Images(of, b.scopes[..n], c.scopes[..n]);
    assert forall id | id in Owned(b.scopes[..n]) :: id in Owned(b.scopes);
    forall o | o in Held(c.scopes[n]) && o !in c.used ensures o in Owned(c.scopes[..n]) {
      var id := HeldFrom(of, b.scopes[n], c.scopes[n], o);
      assert id in Owned(b.scopes);
      assert id !in left;
      OwnedOf(of, b.scopes[..n], c.scopes[..n], id);
    }
    assert Held(c.scopes[n]) - c.used - Owned(c.scopes[..n]) == {};
  }

  lemma HeldFrom(of: map<nat, nat>, s: Scope, t: Scope, o: nat) returns (id: nat)
    requires Image(of, s, t) && o in Held(t)
    ensures id in Held(s) && id in of && of[id] == o
  {
    var x :| x in t && t[x] == Some(o);
    id := s[x].value;
  }

  /** Leaving a scope on the way out. */
  lemma LeaveWithin(c: Run, d: nat)
    requires UnusedWithin(c, d) && d < |c.scopes| && !c.leaked && c.signal != Stopped
    ensures !Leave(c).leaked && UnusedWithin(Leave(c), d)
  {
    var n := |c.scopes| - 1;
    assert Owned(c.scopes) == Owned(c.scopes[..n]) + Held(c.scopes[n]);
    PrefixIsOwned(c.scopes[..n], d);
    assert c.scopes[..n][..d] == c.scopes[..d];
    assert Held(c.scopes[n]) - c.used - Owned(c.scopes[..n]) == {};
  }

  // Expressions

  /** What `scopes` finds with an obligation, `seen` finds too: the analysis may already
      know a variable the run does not. */
  ghost predicate Sees(scopes: seq<Scope>, seen: seq<Scope>) {
    && Owned(seen) <= Owned(scopes)
    && forall x | Find(scopes, x).Some? && Find(scopes, x).value.Some? :: Find(seen, x) == Find(scopes, x)
  }

  ghost predicate StepsOutcome(seen: seq<Scope>, active: set<nat>, c: Run, d: Run, of: map<nat, nat>) {
    d.gap ||
    (&& !d.leaked && Remembers(c, d) && d.scopes == c.scopes && d.next == c.next
     && (d.signal == Normal ==> Rel(seen, active, d, of))
     && (d.signal == Returning ==> UnusedWithin(d, 0))
     && (d.signal == Normal || d.signal == Returning || d.signal == Stopped))
  }

  lemma {:induction false} StepsSound(a: Analysis, e: Expr, c: Run, of: map<nat, nat>, seen: seq<Scope>)
    requires c.signal == Normal && !c.leaked && !c.gap && Rel(seen, a.active, c, of) && Sees(a.scopes, seen)
    requires Silent(Steps(a, e))
    ensures StepsOutcome(seen, Steps(a, e).active, c, RunSteps(c, e), of)
    decreases e
  {
    if e != [] {
      hide Rel, Sees, OneStep, RunStep, UnusedWithin, WellFormed, Remembers;
      var b := OneStep(a, e[0]);
      StepSettles(a, e[0]);
      StepsSettle(b, e[1..]);
      StepSound(a, e[0], c, of, seen);
      var d := RunStep(c, e[0]);
      if d.signal != Normal {
        StepsStop(d, e[1..]);
      } else if !d.gap {
        StepsSound(b, e[1..], d, of, seen);
        StepsThrough(seen, Steps(b, e[1..]).active, c, d, RunSteps(d, e[1..]), of);
      }
    }
  }

  lemma StepsThrough(seen: seq<Scope>, active: set<nat>, c: Run, d: Run, f: Run, of: map<nat, nat>)
    requires Remembers(c, d) && d.scopes == c.scopes && d.next == c.next && StepsOutcome(seen, active, d, f, of)
    ensures StepsOutcome(seen, active, c, f, of)
  {
    hide Rel, UnusedWithin;
  }

  lemma StepsStop(c: Run, e: Expr)
    requires c.signal != Normal
    ensures RunSteps(c, e) == c
  {}

  lemma {:induction false} StepSound(a: Analysis, s: Step, c: Run, of: map<nat, nat>, seen: seq<Scope>)
    requires c.signal == Normal && !c.leaked && !c.gap && Rel(seen, a.active, c, of) && Sees(a.scopes, seen)
    requires Silent(OneStep(a, s))
    ensures StepsOutcome(seen, OneStep(a, s).active, c, RunStep(c, s), of)
    decreases s
  {
    match s {
      case Use(name) => UseSound(a, name, c, of, seen);
      case Propager => PropagerSound(a, c, of, seen);
      case Perhaps(steps) =>
        hide Rel, Sees, UnusedWithin, Steps, RunSteps, Reads;
        var (taken, d) := Choose(c);
        RelLater(seen, a.active, c, d, of);
        if taken {
          StepsSound(a, steps, d, of, seen);
        } else if Reads(d.scopes, steps) <= d.used {
          SkipSound(a, steps, d, of, seen);
          RelLater(seen, Steps(a, steps).active, d, Skip(d, steps), of);
        } else {
          var id :| id in Reads(d.scopes, steps) && id !in d.used;
          assert id in Reads(d.scopes, steps) - d.used;
        }
    }
  }

  /** Skipping an operand is no loss where all it reads has been read. */
  lemma {:induction false} SkipSound(a: Analysis, e: Expr, c: Run, of: map<nat, nat>, seen: seq<Scope>)
    requires Rel(seen, a.active, c, of) && Sees(a.scopes, seen) && Reads(c.scopes, e) <= c.used
    ensures Rel(seen, Steps(a, e).active, c, of)
    decreases e
  {
    if e != [] {
      hide Rel, Sees, OneStep, StepReads;
      SkippedStep(a, e[0], c, of, seen);
      SkipSound(OneStep(a, e[0]), e[1..], c, of, seen);
    }
  }

  lemma {:induction false} SkippedStep(a: Analysis, s: Step, c: Run, of: map<nat, nat>, seen: seq<Scope>)
    requires Rel(seen, a.active, c, of) && Sees(a.scopes, seen) && StepReads(c.scopes, s) <= c.used
    ensures Rel(seen, OneStep(a, s).active, c, of)
    decreases s
  {
    match s {
      case Use(name) => FindImage(of, seen, c.scopes, name);
      case Propager =>
      case Perhaps(steps) =>
        hide Rel, Sees, Steps, Reads;
        SkipSound(a, steps, c, of, seen);
    }
  }

  /** More may have been read. */
  lemma RelLater(seen: seq<Scope>, active: set<nat>, c: Run, d: Run, of: map<nat, nat>)
    requires Rel(seen, active, c, of) && d.scopes == c.scopes && Remembers(c, d) && c.next <= d.next
    ensures Rel(seen, active, d, of)
  {}

  lemma RelMore(seen: seq<Scope>, active: set<nat>, more: set<nat>, c: Run, of: map<nat, nat>)
    requires Rel(seen, active, c, of) && forall id | id in active && id in Owned(seen) :: id in more
    ensures Rel(seen, more, c, of)
  {}

  lemma UseSound(a: Analysis, name: Name, c: Run, of: map<nat, nat>, seen: seq<Scope>)
    requires c.signal == Normal && !c.leaked && !c.gap && Rel(seen, a.active, c, of) && Sees(a.scopes, seen)
    ensures StepsOutcome(seen, Consume(a, name).active, c, Read(c, name), of)
  {
    FindImage(of, seen, c.scopes, name);
    RelLater(seen, a.active, c, Read(c, name), of);
  }

  lemma PropagerSound(a: Analysis, c: Run, of: map<nat, nat>, seen: seq<Scope>)
    requires c.signal == Normal && !c.leaked && !c.gap && Rel(seen, a.active, c, of) && Sees(a.scopes, seen)
    requires Silent(CheckPossibleExit(a))
    ensures StepsOutcome(seen, CheckPossibleExit(a).active, c, RunStep(c, Propager), of)
  {
    var d := RunStep(c, Propager);
    assert Owned(a.scopes) * a.active <= CheckPossibleExit(a).diagnosed;
    RelLater(seen, a.active, c, d, of);
    NothingOpen(a.(scopes := seen), d, of);
  }
}
