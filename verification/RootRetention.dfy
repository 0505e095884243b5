/** What the root-retained mark of a retired revision is worth: the sweeps of
    `runtime/hot_reload_retention.go` against the guest, which may change its globals between
    two of them.

    `History` is computed beside a run from its sweeps, its guest steps and the releases of
    payloads; it does not look at the marks. */
module RootRetention {
  import opened Options
  import opened GlobalShape
  import opened HotReload

  /** Revisions whose last sweep found no global referring to them; those of them that the
      guest has since made globals refer to again; and those whose payload was released,
      outside of shutdown, while globals referred to them. */
  datatype History = History(unreferenced: set<nat>, entered: set<nat>, lost: set<nat>)

  const NOTHING_YET := History({}, {}, {})

  ghost function AfterSweep(s: State, h: History, r: nat): History {
    if r !in s.kept then h
    else h.(unreferenced := if r in s.roots then h.unreferenced - {r} else h.unreferenced + {r}, entered := h.entered - {r})
  }

  ghost function AfterGuest(s: State, h: History, roots: set<nat>): History {
    if !s.open || !Storable(s, roots) then h
    else h.(entered := set i | i in roots && (i in h.entered || (i !in s.roots && i in h.unreferenced)))
  }

  /** The step releases the payload of `i`. */
  ghost predicate Releases(s: State, step: Step, i: nat) {
    && !step.Shutdown? && i < |s.revisions| && !s.revisions[i].closed
    && i < |Next(s, step).revisions| && Next(s, step).revisions[i].closed
  }

  ghost function Observe(s: State, h: History, step: Step): History {
    var seen :=
      match step
      case SweepOne(r) => AfterSweep(s, h, r)
      case GuestRuns(roots) => AfterGuest(s, h, roots)
      case _ => h;
    seen.(lost := h.lost + set i | 0 <= i < |s.revisions| && i in s.roots && Releases(s, step, i))
  }

  ghost function Trace(s: State, h: History, steps: seq<Step>): History
    decreases |steps|
  {
    if steps == [] then h else Trace(Next(s, steps[0]), Observe(s, h, steps[0]), steps[1..])
  }

  // ----- the mark is the verdict of the last sweep ---------------------------------------------------

  ghost predicate MarkOk(s: State, h: History, i: nat)
    requires i < |s.revisions|
  {
    (s.revisions[i].rootRetained <==> i !in h.unreferenced) && (Idle(s.revisions[i]) ==> s.revisions[i].closed)
  }

  ghost predicate Marks(s: State, h: History) {
    s.open ==>
      && (forall i :: i in h.unreferenced ==> i < |s.revisions| - 1)
      && (forall i :: 0 <= i < |s.revisions| - 1 ==> MarkOk(s, h, i))
      && h.entered == s.roots * h.unreferenced
  }

  lemma {:induction false} SweepKeepsMarks(s: State, h: History, r: nat)
    requires Chain(s) && Marks(s, h)
    ensures Marks(SweepStep(s, r), AfterSweep(s, h, r))
  {
    hide RevisionOk;
    var t, g := SweepStep(s, r), AfterSweep(s, h, r);
    if t.open && r in s.kept {
      forall i | 0 <= i < |t.revisions| - 1 ensures MarkOk(t, g, i) { assert MarkOk(s, h, i); }
    }
  }

  lemma {:induction false} GuestKeepsMarks(s: State, h: History, roots: set<nat>)
    requires Marks(s, h)
    ensures Marks(Next(s, GuestRuns(roots)), AfterGuest(s, h, roots))
  {
    hide Storable;
    var t, g := Next(s, GuestRuns(roots)), AfterGuest(s, h, roots);
    if t.open {
      forall i | 0 <= i < |t.revisions| - 1 ensures MarkOk(t, g, i) { assert MarkOk(s, h, i); }
    }
  }

  lemma {:induction false} PinsKeepMarks(s: State, h: History, holder: nat, r: nat)
    requires Chain(s) && Marks(s, h)
    ensures Marks(RetainStep(s, holder, r), h) && Marks(ReleaseStep(s, holder), h)
  {
    hide RevisionOk;
    var t, u := RetainStep(s, holder, r), ReleaseStep(s, holder);
    if s.open {
      forall i | 0 <= i < |s.revisions| - 1 ensures MarkOk(t, h, i) && MarkOk(u, h, i) { assert MarkOk(s, h, i); }
    }
  }

  lemma {:induction false} InstallKeepsMarks(s: State, h: History, target: Program)
    requires Chain(s) && Marks(s, h) && s.open
    ensures Marks(Install(s, target), h)
  {
    hide RevisionOk, Rebound;
    var t := Install(s, target);
    forall i | 0 <= i < |t.revisions| - 1 ensures MarkOk(t, h, i) {
      if i < |s.revisions| - 1 { assert MarkOk(s, h, i); }
    }
  }

  /** Marks depend on revisions, roots and openness only. */
  lemma {:induction false} SameMarks(s: State, t: State, h: History)
    requires Marks(s, h) && t.open == s.open && t.revisions == s.revisions && t.roots == s.roots
    ensures Marks(t, h)
  {
    if s.open {
      forall i | 0 <= i < |t.revisions| - 1 ensures MarkOk(t, h, i) { assert MarkOk(s, h, i); }
    }
  }

  lemma {:induction false} LostIsApart(s: State, h: History, g: History)
    requires Marks(s, h) && g == h.(lost := g.lost)
    ensures Marks(s, g)
  {
    if s.open {
      forall i | 0 <= i < |s.revisions| - 1 ensures MarkOk(s, g, i) { assert MarkOk(s, h, i); }
    }
  }

  lemma {:induction false} StepKeepsMarks(s: State, h: History, step: Step)
    requires Invariant(s) && Marks(s, h)
    ensures Marks(Next(s, step), Observe(s, h, step))
  {
    hide Marks, Releases, SweepStep, RetainStep, ReleaseStep, Install, AfterSweep, AfterGuest;
    var t := Next(s, step);
    match step
    case SweepOne(r) => SweepKeepsMarks(s, h, r); LostIsApart(t, AfterSweep(s, h, r), Observe(s, h, step));
    case GuestRuns(roots) => GuestKeepsMarks(s, h, roots); LostIsApart(t, AfterGuest(s, h, roots), Observe(s, h, step));
    case Retain(holder, r) => PinsKeepMarks(s, h, holder, r); LostIsApart(t, h, Observe(s, h, step));
    case Release(holder) => PinsKeepMarks(s, h, holder, 0); LostIsApart(t, h, Observe(s, h, step));
    case Commit(p) => CommitKeepsMarks(s, h, p); LostIsApart(t, h, Observe(s, h, step));
    case Shutdown => ClosedMarks(t, Observe(s, h, step));
    case _ => SameMarks(s, t, h); LostIsApart(t, h, Observe(s, h, step));
  }

  lemma {:induction false} ClosedMarks(s: State, h: History)
    requires !s.open
    ensures Marks(s, h)
  {
  }

  lemma {:induction false} CommitKeepsMarks(s: State, h: History, p: nat)
    requires Invariant(s) && Marks(s, h)
    ensures Marks(CommitStep(s, p), h)
  {
    hide Marks, Install, HasCapacity, CanBind, Bounded, CellsOk, PlanOk;
    if PlanIs(s, p, Applying) {
      SameMarks(s, EndPlan(s, p, Abandoned), h);
      if s.open && OnBase(s, p) && CommitStep(s, p) != EndPlan(s, p, Abandoned) {
        InstallKeepsMarks(s, h, s.plans[p].target);
        InstallKeepsPlanCount(s, s.plans[p].target);
        SameMarks(Install(s, s.plans[p].target), CommitStep(s, p), h);
      }
    }
  }

  lemma {:induction false} InstallKeepsPlanCount(s: State, target: Program)
    requires s.current.Some? && s.current.value < |s.revisions|
    ensures Install(s, target).plans == s.plans
  {
    hide Rebound;
  }

  lemma {:induction false} RunKeepsMarks(s: State, h: History, steps: seq<Step>)
    requires Invariant(s) && Marks(s, h)
    ensures Invariant(Run(s, steps)) && Marks(Run(s, steps), Trace(s, h, steps))
    decreases |steps|
  {
    hide Next, Invariant, Marks, Observe;
    if steps != [] {
      StepKeeps(s, steps[0]);
      StepKeepsMarks(s, h, steps[0]);
      RunKeepsMarks(Next(s, steps[0]), Observe(s, h, steps[0]), steps[1..]);
    }
  }

  lemma {:induction false} StartMarks(limit: nat, p: Program)
    ensures Marks(Initial(limit, p), NOTHING_YET)
  {
  }

  /** In every run: a retired revision is marked exactly if its last sweep, or its retirement
      when it was not swept yet, found it referenced; an unmarked one is closed as soon as
      nobody pins it. */
  lemma {:induction false} MarkIsLastSweep(limit: nat, p: Program, steps: seq<Step>)
    requires ValidProgram(p) && HasRoot(p)
    ensures Invariant(Run(Initial(limit, p), steps)) && Marks(Run(Initial(limit, p), steps), Trace(Initial(limit, p), NOTHING_YET, steps))
  {
    InitialInvariant(limit, p);
    StartMarks(limit, p);
    hide Next, Invariant, Marks, Observe;
    RunKeepsMarks(Initial(limit, p), NOTHING_YET, steps);
  }

  // ----- exactly when a referenced revision is released -----------------------------------------------

  lemma {:induction false} ReleasedIsUnreferenced(s: State, h: History, step: Step, i: nat)
    requires Invariant(s) && Marks(s, h) && s.open && Releases(s, step, i)
    ensures i in Observe(s, h, step).unreferenced && (step.SweepOne? ==> i !in s.roots) && Next(s, step).roots == s.roots
  {
    ReleasedOnlyWhenIdle(s, step, i);
    StepKeeps(s, step);
    StepKeepsMarks(s, h, step);
    var t := Next(s, step);
    assert RevisionOk(s, i) && RevisionOk(t, i);
    assert step.Release? || step.SweepOne?;
    assert MarkOk(t, Observe(s, h, step), i);
  }

  /** Whatever happened before: the step that releases a payload does so while globals refer
      to the revision exactly if a reference was stored after the last sweep of the
      revision had found none. */
  lemma {:induction false} ReleasedExactly(limit: nat, p: Program, steps: seq<Step>, step: Step, i: nat)
    requires ValidProgram(p) && HasRoot(p)
    requires Run(Initial(limit, p), steps).open && Releases(Run(Initial(limit, p), steps), step, i)
    ensures var s, h := Run(Initial(limit, p), steps), Trace(Initial(limit, p), NOTHING_YET, steps);
      i in s.roots <==> i in h.entered
  {
    MarkIsLastSweep(limit, p, steps);
    var s, h := Run(Initial(limit, p), steps), Trace(Initial(limit, p), NOTHING_YET, steps);
    hide Run, Trace, Next;
    ReleasedIsUnreferenced(s, h, step, i);
    if step.SweepOne? { assert i !in s.roots; } else { SeenBySweepsOnly(s, h, step); }
  }

  lemma {:induction false} SeenBySweepsOnly(s: State, h: History, step: Step)
    requires !step.SweepOne?
    ensures Observe(s, h, step).unreferenced == h.unreferenced
  {
    hide Next, Releases, Storable;
  }

  // ----- guests that never take a retired revision up again -------------------------------------------

  /** The condition on a guest step: it adds no retired revision to what globals refer to. */
  ghost predicate Disciplined(s: State, step: Step) {
    step.GuestRuns? ==> forall i :: i in step.roots && i < |s.revisions| && s.revisions[i].retired ==> i in s.roots
  }

  ghost predicate AllDisciplined(s: State, steps: seq<Step>)
    decreases |steps|
  {
    steps == [] || (!steps[0].Shutdown? && Disciplined(s, steps[0]) && AllDisciplined(Next(s, steps[0]), steps[1..]))
  }

  /** Whatever globals refer to is there, and marked if it is retired. */
  ghost predicate RootsLive(s: State) {
    s.open && forall i :: i in s.roots ==>
      i < |s.revisions| && !s.revisions[i].closed && (s.revisions[i].retired ==> s.revisions[i].rootRetained)
  }

  lemma {:induction false} DisciplinedStep(s: State, step: Step)
    requires Invariant(s) && RootsLive(s) && Disciplined(s, step) && !step.Shutdown?
    ensures RootsLive(Next(s, step)) && forall i :: i in s.roots ==> !Releases(s, step, i)
  {
    hide HasCapacity, CanBind, Compatible, ValidProgram, Bounded, CellsOk, PlanOk, Rebound;
    assert RevisionOk(s, |s.revisions| - 1);
    if step.GuestRuns? {
      forall i | 0 <= i < |s.revisions| - 1 ensures s.revisions[i].retired { assert RevisionOk(s, i); }
    }
  }

  /** If no guest step refers globals to a retired revision that they did not refer to
      already, then no payload is ever released while globals refer to it. */
  lemma {:induction false} DisciplinedRun(s: State, h: History, steps: seq<Step>)
    requires Invariant(s) && RootsLive(s) && AllDisciplined(s, steps)
    ensures RootsLive(Run(s, steps)) && Trace(s, h, steps).lost == h.lost
    decreases |steps|
  {
    hide Next, Invariant, RootsLive, Disciplined, Releases;
    if steps != [] {
      StepKeeps(s, steps[0]);
      DisciplinedStep(s, steps[0]);
      assert Observe(s, h, steps[0]).lost == h.lost;
      DisciplinedRun(Next(s, steps[0]), Observe(s, h, steps[0]), steps[1..]);
    }
  }

  lemma {:induction false} DisciplinedIsSafe(limit: nat, p: Program, steps: seq<Step>)
    requires ValidProgram(p) && HasRoot(p) && AllDisciplined(Initial(limit, p), steps)
    ensures RootsLive(Run(Initial(limit, p), steps)) && Trace(Initial(limit, p), NOTHING_YET, steps).lost == {}
  {
    InitialInvariant(limit, p);
    hide Next, Invariant, Releases;
    DisciplinedRun(Initial(limit, p), NOTHING_YET, steps);
  }

  // ----- a stale mark releases ------------------------------------------------------------------------

  ghost predicate OnlyReleases(steps: seq<Step>) { forall k :: 0 <= k < |steps| ==> steps[k].Release? }

  lemma {:induction false} ReleaseStepEffect(s: State, holder: nat, i: nat)
    requires Chain(s) && i < |s.revisions|
    ensures var t := ReleaseStep(s, holder);
      && |t.revisions| == |s.revisions| && t.roots == s.roots && t.open == s.open
      && t.revisions[i].rootRetained == s.revisions[i].rootRetained && t.revisions[i].retired == s.revisions[i].retired
      && (t.revisions[i].closed ==> s.revisions[i].closed || !s.revisions[i].rootRetained)
  {
    hide RevisionOk;
  }

  lemma {:induction false} ReleasesEffect(s: State, steps: seq<Step>, i: nat)
    requires Invariant(s) && OnlyReleases(steps) && i < |s.revisions|
    ensures var t := Run(s, steps);
      |t.revisions| == |s.revisions| && t.roots == s.roots
      && (t.revisions[i].closed ==> s.revisions[i].closed || !s.revisions[i].rootRetained)
    decreases |steps|
  {
    hide Bounded, CellsOk, PlanOk, RevisionOk, ReleaseStep;
    if steps != [] {
      var t := Next(s, steps[0]);
      ReleaseStepEffect(s, steps[0].holder, i);
      StepKeeps(s, steps[0]);
      hide Invariant, Next;
      ReleasesEffect(t, steps[1..], i);
    }
  }

  /** Letting every holder go closes a revision whose last sweep found it unreferenced. */
  lemma {:induction false} ReleaseAll(s: State, h: History, i: nat) returns (steps: seq<Step>)
    requires Invariant(s) && Marks(s, h) && s.open && i in h.unreferenced && i < |s.revisions|
    ensures OnlyReleases(steps) && i < |Run(s, steps).revisions| && Run(s, steps).revisions[i].closed
    decreases |HoldersOf(s, i)|
  {
    if s.revisions[i].closed {
      steps := [];
    } else {
      assert RevisionOk(s, i) && MarkOk(s, h, i);
      var holder :| holder in HoldersOf(s, i);
      var t, g := Next(s, Release(holder)), Observe(s, h, Release(holder));
      ReleaseStepEffect(s, holder, i);
      OneFewerHolder(s, t, holder, i);
      StepKeeps(s, Release(holder));
      StepKeepsMarks(s, h, Release(holder));
      SeenBySweepsOnly(s, h, Release(holder));
      hide Next, Invariant, Marks, Observe;
      var rest := ReleaseAll(t, g, i);
      steps := [Release(holder)] + rest;
      RunOne(s, Release(holder), rest);
    }
  }

  /** A reachable state loses the referenced revision `i` by nothing but its holders letting
      go exactly if `i` entered the globals after its last sweep as unreferenced. */
  lemma {:induction false} DoomedExactly(limit: nat, p: Program, steps: seq<Step>, i: nat)
    requires ValidProgram(p) && HasRoot(p)
    requires var s := Run(Initial(limit, p), steps);
      s.open && i < |s.revisions| && s.revisions[i].retired && !s.revisions[i].closed
    ensures var s, h := Run(Initial(limit, p), steps), Trace(Initial(limit, p), NOTHING_YET, steps);
      i in h.entered <==> exists more :: OnlyReleases(more) && i in Run(s, more).roots && i < |Run(s, more).revisions| && Run(s, more).revisions[i].closed
  {
    MarkIsLastSweep(limit, p, steps);
    var s, h := Run(Initial(limit, p), steps), Trace(Initial(limit, p), NOTHING_YET, steps);
    assert RevisionOk(s, i);
    assert i < |s.revisions| - 1;
    assert MarkOk(s, h, i);
    hide Next, Trace, RevisionOk, OnlyReleases;
    if i in h.entered {
      var more := ReleaseAll(s, h, i);
      ReleasesEffect(s, more, i);
    }
    if more :| OnlyReleases(more) && i in Run(s, more).roots && i < |Run(s, more).revisions| && Run(s, more).revisions[i].closed {
      ReleasesEffect(s, more, i);
    }
  }

  lemma {:induction false} RunOne(s: State, step: Step, steps: seq<Step>)
    ensures Run(s, [step] + steps) == Run(Next(s, step), steps)
  {
    hide Next;
    assert ([step] + steps)[1..] == steps;
  }

  // ----- a run that loses a referenced revision -------------------------------------------------------

  /** One module with one function-typed global; the target differs in its code. */
  const HANDLER: seq<Global> := [Global("handler", "func()")]
  const OLD_PROGRAM := Program("main", map["main" := HANDLER], 1, 0)
  const NEW_PROGRAM := Program("main", map["main" := HANDLER], 2, 0)

  /** A call of the old revision is under way (holder 7) when the patch commits and its sweep
      finds no reference; the call then stores a function of the old revision in the global
      and returns. */
  const PATCH_DURING_CALL: seq<Step> := [Retain(7, 0), Prepare(NEW_PROGRAM), BeginApply(0), Commit(0)]
  const STORE_AND_RETURN: seq<Step> := [SweepOne(0), GuestRuns({0}), Release(7)]

  ghost predicate Patched(s: State) {
    && s.open && |s.revisions| == 2 && s.current == Some(1) && s.holders == map[7 := 0] && 0 in s.kept && s.roots == {}
    && s.revisions[0] == Revision(1, OLD_PROGRAM, 1, true, true, false) && s.revisions[1].program == NEW_PROGRAM
  }

  lemma {:induction false} ProgramsFit()
    ensures ValidProgram(OLD_PROGRAM) && ValidProgram(NEW_PROGRAM) && HasRoot(OLD_PROGRAM)
    ensures Compatible(OLD_PROGRAM, NEW_PROGRAM) && OLD_PROGRAM != NEW_PROGRAM && DeclaresGlobal(NEW_PROGRAM)
  {
    ShapeOfItself(HANDLER);
    assert NEW_PROGRAM.modules["main"] != [];
  }

  lemma {:induction false} PrepareDuringCall()
    ensures var s := Next(Next(Next(Initial(0, OLD_PROGRAM), Retain(7, 0)), Prepare(NEW_PROGRAM)), BeginApply(0));
      && s.open && s.revisions == [Revision(1, OLD_PROGRAM, 1, false, false, false)] && s.current == Some(0)
      && s.holders == map[7 := 0] && s.plans == [Plan(1, NEW_PROGRAM, Applying)] && s.limit == 0 && s.roots == {}
  {
    ProgramsFit();
    hide ValidProgram, Compatible, Live;
    var s1 := Next(Initial(0, OLD_PROGRAM), Retain(7, 0));
    assert s1.revisions == [Revision(1, OLD_PROGRAM, 1, false, false, false)];
    var s2 := Next(s1, Prepare(NEW_PROGRAM));
    assert s2.plans == [Plan(1, NEW_PROGRAM, Ready)];
  }

  lemma {:induction false} PatchDuringCall()
    ensures Patched(Run(Initial(0, OLD_PROGRAM), PATCH_DURING_CALL))
  {
    ProgramsFit();
    InitialInvariant(0, OLD_PROGRAM);
    var s := Initial(0, OLD_PROGRAM);
    var prepared := [PATCH_DURING_CALL[0], PATCH_DURING_CALL[1], PATCH_DURING_CALL[2]];
    RunThree(s, prepared[0], prepared[1], prepared[2]);
    PrepareDuringCall();
    RunKeeps(s, prepared);
    var t := Run(s, prepared);
    assert PATCH_DURING_CALL == prepared + [Commit(0)];
    RunLast(s, prepared, Commit(0));
    hide Run, Invariant, ValidProgram, Compatible, Live;
    CommitInstalls(t, 0);
    hide Next, Rebound;
  }

  lemma {:induction false} StoreAndReturn(s: State)
    requires Patched(s)
    ensures var t := Next(Next(Next(s, SweepOne(0)), GuestRuns({0})), Release(7));
      t.open && |t.revisions| == 2 && t.revisions[0].closed && 0 in t.roots
  {
    ProgramsFit();
    var s1 := SweepStep(s, 0);
    assert s1.revisions[0] == Revision(1, OLD_PROGRAM, 1, false, true, false) && s1.revisions[1] == s.revisions[1];
    hide SweepStep, DeclaresGlobal;
    assert Storable(s1, {0});
    var s2 := s1.(roots := {0});
    assert ReleaseStep(s2, 7).revisions[0].closed;
  }

  lemma {:induction false} RunThree(s: State, a: Step, b: Step, c: Step)
    ensures Run(s, [a, b, c]) == Next(Next(Next(s, a), b), c)
  {
    hide Next;
    RunOne(s, a, [b, c]);
    RunOne(Next(s, a), b, [c]);
    RunOne(Next(Next(s, a), b), c, []);
    assert [a] + [b, c] == [a, b, c] && [b] + [c] == [b, c] && [c] + [] == [c];
  }

  lemma {:induction false} RunLast(s: State, steps: seq<Step>, last: Step)
    ensures Run(s, steps + [last]) == Next(Run(s, steps), last)
    decreases |steps|
  {
    hide Next;
    if steps == [] {
      RunOne(s, last, []);
      assert steps + [last] == [last] + [];
    } else {
      assert (steps + [last])[1..] == steps[1..] + [last];
      RunLast(Next(s, steps[0]), steps[1..], last);
    }
  }

  /** The payload is released although the global refers to it. */
  lemma {:induction false} StaleMarkReleases()
    ensures var s := Run(Run(Initial(0, OLD_PROGRAM), PATCH_DURING_CALL), STORE_AND_RETURN);
      s.open && |s.revisions| == 2 && s.revisions[0].closed && 0 in s.roots
  {
    PatchDuringCall();
    var s := Run(Initial(0, OLD_PROGRAM), PATCH_DURING_CALL);
    hide Run, Next, Patched;
    StoreAndReturn(s);
    RunThree(s, STORE_AND_RETURN[0], STORE_AND_RETURN[1], STORE_AND_RETURN[2]);
  }
}
