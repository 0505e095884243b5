/** Revisions of a running instance: pinning, retiring and closing
    (`runtime/hot_reload_revision.go`, `runtime/hot_reload_retention.go`), patch plans
    (`runtime/hot_reload.go`) and the binding of module state they rely on. */
module HotReload {
  import opened Options
  import opened GlobalShape

  /** A linked program: its root module, the globals of each module, and the rest of the
      image and the symbols, of which only equality matters. */
  datatype Program = Program(root: string, modules: map<string, seq<Global>>, code: nat, symbols: nat)

  /** Validation admits no repeated identity in a module. */
  ghost predicate ValidProgram(p: Program) { forall path :: path in p.modules ==> Unique(p.modules[path]) }

  predicate HasRoot(p: Program) { p.root in p.modules }

  /** Equal image hashes. */
  predicate SameImage(p: Program, q: Program) { p.(symbols := 0) == q.(symbols := 0) }

  predicate DeclaresGlobal(p: Program) { exists path :: path in p.modules && p.modules[path] != [] }

  // ----- one revision --------------------------------------------------------------------------

  /** `closed` is also when the payload is released. */
  datatype Revision = Revision(
    generation: nat, program: Program, pins: nat, rootRetained: bool, retired: bool, closed: bool)

  predicate Idle(r: Revision) { r.retired && !r.rootRetained && r.pins == 0 }

  function CloseReady(r: Revision): Revision { if Idle(r) then r.(closed := true) else r }

  function Pinned(r: Revision): Revision { if r.closed then r else r.(pins := r.pins + 1) }

  function Unpinned(r: Revision): Revision { CloseReady(r.(pins := if r.pins > 0 then r.pins - 1 else 0)) }

  function Retired(r: Revision): Revision { CloseReady(r.(retired := true, rootRetained := true)) }

  function Rooted(r: Revision, retained: bool): Revision { CloseReady(r.(rootRetained := retained)) }

  class InstanceRevision {
    const generation: nat
    const program: Program
    var pins: nat
    var rootRetained: bool
    var retired: bool
    var closed: bool

    function View(): Revision
      reads this
    {
      Revision(generation, program, pins, rootRetained, retired, closed)
    }

    constructor (generation: nat, program: Program)
      ensures View() == Revision(generation, program, 0, false, false, false)
    {
      this.generation, this.program := generation, program;
      pins, rootRetained, retired, closed := 0, false, false, false;
    }

    method Retain() returns (ok: bool)
      modifies this
      ensures View() == Pinned(old(View())) && ok == !old(closed)
    {
      if closed {
        return false;
      }
      pins := pins + 1;
      return true;
    }

    method CloseIfReady()
      modifies this
      ensures View() == CloseReady(old(View()))
    {
      if closed || !retired || rootRetained || pins != 0 {
        return;
      }
      closed := true;
    }

    method Release()
      modifies this
      ensures View() == Unpinned(old(View()))
    {
      if pins > 0 {
        pins := pins - 1;
      }
      CloseIfReady();
    }

    method Retire(retained: bool)
      modifies this
      ensures View() == CloseReady(old(View()).(retired := true, rootRetained := retained))
    {
      retired, rootRetained := true, retained;
      CloseIfReady();
    }

    method SetRootRetained(retained: bool)
      modifies this
      ensures View() == Rooted(old(View()), retained)
    {
      rootRetained := retained;
      CloseIfReady();
    }
  }

  // ----- the instance -----------------------------------------------------------------------------

  datatype PlanState = Ready | Applying | Committed | Abandoned
  datatype Plan = Plan(base: nat, target: Program, state: PlanState)

  /** Revisions in order of creation; `kept` is the list of retired ones, `cells` the module
      states, `holders` who pins what, and `roots` the revisions that the globals of the
      current one refer to. */
  datatype State = State(
    limit: nat, open: bool, revisions: seq<Revision>, current: Option<nat>, kept: set<nat>,
    cells: map<string, Cells>, plans: seq<Plan>, pending: Option<nat>, holders: map<nat, nat>, roots: set<nat>)

  function FreshCells(p: Program): map<string, Cells> { map path | path in p.modules :: Index(p.modules[path]) }

  function Initial(limit: nat, p: Program): State {
    State(limit, true, [Revision(1, p, 0, false, false, false)], Some(0), {}, FreshCells(p), [], None, map[], {})
  }

  datatype Step =
    | Prepare(target: Program)
    | ClosePlan(plan: nat)
    | BeginApply(plan: nat)
    | FailApply(plan: nat)
    | Commit(plan: nat)
    | Retain(holder: nat, revision: nat)
    | Release(holder: nat)
    | SweepOne(revision: nat)
    | FilterKept
    | GuestRuns(roots: set<nat>)
    | Shutdown

  function Live(s: State): set<nat> { set i | 0 <= i < |s.revisions| && !s.revisions[i].closed }

  /** `liveRevisionCount`: the current revision and the kept ones that are not closed. */
  function LiveCount(s: State): nat {
    (if s.current.Some? && s.current.value in Live(s) then 1 else 0) + |s.kept * Live(s)|
  }

  predicate HasCapacity(s: State) { s.limit > 0 ==> LiveCount(s) + 1 <= s.limit }

  ghost predicate SameShapes(before: Program, after: Program) {
    before.root == after.root
    && forall path :: path in before.modules ==> path in after.modules && SameShape(before.modules[path], after.modules[path])
  }

  /** `buildPatchPlan`: an equal image needs no comparison. */
  ghost predicate Compatible(before: Program, after: Program) { SameImage(before, after) || SameShapes(before, after) }

  /** `newInstanceRevision`: the modules bind, and one of them is the root. */
  ghost predicate CanBind(before: Program, cells: map<string, Cells>, after: Program) {
    && HasRoot(after)
    && forall path :: path in after.modules && path in before.modules ==> path in cells && Binds(after.modules[path], cells[path])
  }

  /** A target equal to the current program is refused; shape checks beyond the globals may
      refuse more. */
  ghost function PrepareStep(s: State, target: Program): State {
    if !s.open || s.current.None? || s.pending.Some? || s.current.value >= |s.revisions| || !ValidProgram(target)
       || s.revisions[s.current.value].program == target
       || !HasCapacity(s) || !Compatible(s.revisions[s.current.value].program, target)
    then s
    else
      s.(plans := s.plans + [Plan(s.revisions[s.current.value].generation, target, Ready)], pending := Some(|s.plans|))
  }

  function SetPlan(s: State, p: nat, state: PlanState): State
    requires p < |s.plans|
  {
    s.(plans := s.plans[p := s.plans[p].(state := state)])
  }

  function EndPlan(s: State, p: nat, state: PlanState): State
    requires p < |s.plans|
  {
    SetPlan(s, p, state).(pending := if s.pending == Some(p) then None else s.pending)
  }

  predicate PlanIs(s: State, p: nat, state: PlanState) { p < |s.plans| && s.plans[p].state == state }

  /** The plan's base is still current: same generation, and hence the same revision. */
  predicate OnBase(s: State, p: nat) {
    p < |s.plans| && s.current.Some? && s.current.value < |s.revisions|
    && s.revisions[s.current.value].generation == s.plans[p].base
  }

  /** A module that existed keeps its state, a new one gets a fresh one. */
  function Rebound(before: Program, cells: map<string, Cells>, after: Program): map<string, Cells> {
    map path | path in after.modules ::
      if path in before.modules && path in cells then cells[path] else Index(after.modules[path])
  }

  function Install(s: State, target: Program): State
    requires s.current.Some? && s.current.value < |s.revisions|
  {
    var c := s.current.value;
    s.(revisions := s.revisions[c := Retired(s.revisions[c])]
                    + [Revision(s.revisions[c].generation + 1, target, 0, false, false, false)],
       current := Some(|s.revisions|), kept := s.kept + {c},
       cells := Rebound(s.revisions[c].program, s.cells, target))
  }

  ghost function CommitStep(s: State, p: nat): State {
    if !PlanIs(s, p, Applying) then s
    else if !s.open || !OnBase(s, p) || !HasCapacity(s) || !CanBind(s.revisions[s.current.value].program, s.cells, s.plans[p].target)
    then EndPlan(s, p, Abandoned)
    else EndPlan(Install(s, s.plans[p].target), p, Committed)
  }

  function RetainStep(s: State, h: nat, r: nat): State {
    if h in s.holders || r >= |s.revisions| || s.revisions[r].closed then s
    else s.(revisions := s.revisions[r := Pinned(s.revisions[r])], holders := s.holders[h := r])
  }

  function ReleaseStep(s: State, h: nat): State {
    if h !in s.holders || s.holders[h] >= |s.revisions| then s
    else
      var r := s.holders[h];
      var after := Unpinned(s.revisions[r]);
      s.(revisions := s.revisions[r := after], holders := s.holders - {h}, kept := if after.closed then s.kept - {r} else s.kept)
  }

  function SweepStep(s: State, r: nat): State {
    if r !in s.kept || r >= |s.revisions| then s
    else s.(revisions := s.revisions[r := Rooted(s.revisions[r], r in s.roots)])
  }

  /** Closing ignores pins and roots only here. */
  function ShutdownStep(s: State): State {
    s.(open := false, current := None, kept := {},
       revisions := seq(|s.revisions|, i requires 0 <= i < |s.revisions| => s.revisions[i].(closed := true)))
  }

  /** What the guest can leave in globals: revisions that exist, if there are globals. */
  ghost predicate Storable(s: State, roots: set<nat>) {
    && (forall i :: i in roots ==> i < |s.revisions|)
    && s.current.Some? && s.current.value < |s.revisions|
    && (roots != {} ==> DeclaresGlobal(s.revisions[s.current.value].program))
  }

  ghost function Next(s: State, step: Step): State {
    match step
    case Prepare(target) => PrepareStep(s, target)
    case ClosePlan(p) => if PlanIs(s, p, Ready) then EndPlan(s, p, Abandoned) else s
    case BeginApply(p) => if PlanIs(s, p, Ready) then SetPlan(s, p, Applying) else s
    case FailApply(p) => if PlanIs(s, p, Applying) then EndPlan(s, p, Abandoned) else s
    case Commit(p) => CommitStep(s, p)
    case Retain(h, r) => RetainStep(s, h, r)
    case Release(h) => ReleaseStep(s, h)
    case SweepOne(r) => SweepStep(s, r)
    case FilterKept => s.(kept := s.kept * Live(s))
    case GuestRuns(roots) => if s.open && Storable(s, roots) then s.(roots := roots) else s
    case Shutdown => ShutdownStep(s)
  }

  ghost function Run(s: State, steps: seq<Step>): State
    decreases |steps|
  {
    if steps == [] then s else Run(Next(s, steps[0]), steps[1..])
  }

  // ----- the invariant ---------------------------------------------------------------------------

  ghost function HoldersOf(s: State, r: nat): set<nat> { set h | h in s.holders && s.holders[h] == r }

  ghost predicate RevisionOk(s: State, i: nat)
    requires i < |s.revisions|
  {
    var r := s.revisions[i];
    && r.generation == i + 1 && r.pins == |HoldersOf(s, i)| && ValidProgram(r.program) && HasRoot(r.program)
    && (s.open && i == |s.revisions| - 1 ==> !r.retired && !r.closed)
    && (s.open && i < |s.revisions| - 1 ==> r.retired && (r.closed ==> r.pins == 0) && (!r.closed ==> i in s.kept))
  }

  ghost predicate Chain(s: State) {
    && |s.revisions| > 0
    && (s.open ==> s.current == Some(|s.revisions| - 1)) && (!s.open ==> s.current == None)
    && (forall i :: i in s.kept ==> i < |s.revisions| - 1)
    && (forall h :: h in s.holders ==> s.holders[h] < |s.revisions|)
    && (forall i :: 0 <= i < |s.revisions| ==> RevisionOk(s, i))
  }

  ghost predicate Bounded(s: State) { s.open && s.limit > 0 ==> |Live(s)| <= s.limit }

  ghost predicate PlanOk(s: State, p: nat)
    requires p < |s.plans|
  {
    var plan := s.plans[p];
    1 <= plan.base <= |s.revisions| && ValidProgram(plan.target) && Compatible(s.revisions[plan.base - 1].program, plan.target)
  }

  /** The module states have exactly the cells that the current code declares. */
  ghost predicate CellsOk(s: State) {
    s.open ==> |s.revisions| > 0 && s.cells == FreshCells(s.revisions[|s.revisions| - 1].program)
  }

  ghost predicate Invariant(s: State) {
    Chain(s) && Bounded(s) && CellsOk(s) && forall p :: 0 <= p < |s.plans| ==> PlanOk(s, p)
  }

  // ----- pins, sweeps and shutdown -----------------------------------------------------------------

  lemma {:induction false} OneMoreHolder(s: State, t: State, h: nat, r: nat, i: nat)
    requires h !in s.holders && t.holders == s.holders[h := r]
    ensures |HoldersOf(t, i)| == |HoldersOf(s, i)| + if i == r then 1 else 0
  {
    assert HoldersOf(t, i) == if i == r then HoldersOf(s, i) + {h} else HoldersOf(s, i);
  }

  lemma {:induction false} OneFewerHolder(s: State, t: State, h: nat, i: nat)
    requires h in s.holders && t.holders == s.holders - {h}
    ensures |HoldersOf(t, i)| == |HoldersOf(s, i)| - if i == s.holders[h] then 1 else 0
  {
    assert i == s.holders[h] <==> h in HoldersOf(s, i);
    assert HoldersOf(t, i) == HoldersOf(s, i) - {h};
  }

  lemma {:induction false} RetainKeepsChain(s: State, h: nat, r: nat)
    requires Chain(s)
    ensures Chain(RetainStep(s, h, r))
  {
    var t := RetainStep(s, h, r);
    if t != s {
      hide ValidProgram, HoldersOf;
      forall i | 0 <= i < |t.revisions| ensures RevisionOk(t, i) {
        assert RevisionOk(s, i);
        OneMoreHolder(s, t, h, r, i);
      }
    }
  }

  lemma {:induction false} ReleaseKeepsChain(s: State, h: nat)
    requires Chain(s)
    ensures Chain(ReleaseStep(s, h))
  {
    var t := ReleaseStep(s, h);
    if t != s {
      hide ValidProgram, HoldersOf;
      forall i | 0 <= i < |t.revisions| ensures RevisionOk(t, i) {
        assert RevisionOk(s, i);
        OneFewerHolder(s, t, h, i);
      }
    }
  }

  lemma {:induction false} SweepKeepsChain(s: State, r: nat)
    requires Chain(s)
    ensures Chain(SweepStep(s, r))
  {
    var t := SweepStep(s, r);
    if t != s {
      hide ValidProgram;
      forall i | 0 <= i < |t.revisions| ensures RevisionOk(t, i) {
        assert RevisionOk(s, i);
        assert HoldersOf(t, i) == HoldersOf(s, i);
      }
    }
  }

  /** The code of the revisions, and what is closed, when only `kept` revisions change. */
  ghost predicate SameCode(s: State, t: State) {
    && t.limit == s.limit && t.open == s.open && t.cells == s.cells && t.plans == s.plans && |t.revisions| == |s.revisions|
    && forall i :: 0 <= i < |s.revisions| ==>
        t.revisions[i].program == s.revisions[i].program && (s.revisions[i].closed ==> t.revisions[i].closed)
  }

  lemma {:induction false} SameCodeKeeps(s: State, t: State)
    requires Invariant(s) && Chain(t) && SameCode(s, t)
    ensures Invariant(t)
  {
    hide Chain;
    Fewer(Live(t), Live(s));
    forall p | 0 <= p < |t.plans| ensures PlanOk(t, p) { assert PlanOk(s, p); }
  }

  lemma {:induction false} Fewer(a: set<nat>, b: set<nat>)
    requires a <= b
    ensures |a| <= |b|
  {
    assert b == a + (b - a);
  }

  lemma {:induction false} FilterKeeps(s: State)
    requires Invariant(s)
    ensures Invariant(s.(kept := s.kept * Live(s)))
  {
    var t := s.(kept := s.kept * Live(s));
    forall i | 0 <= i < |t.revisions| ensures RevisionOk(t, i) {
      assert RevisionOk(s, i);
      assert HoldersOf(t, i) == HoldersOf(s, i);
    }
    SameCodeKeeps(s, t);
  }

  lemma {:induction false} ShutdownKeeps(s: State)
    requires Invariant(s)
    ensures Invariant(ShutdownStep(s))
  {
    var t := ShutdownStep(s);
    forall i | 0 <= i < |t.revisions| ensures RevisionOk(t, i) {
      assert RevisionOk(s, i);
      assert HoldersOf(t, i) == HoldersOf(s, i);
    }
    forall p | 0 <= p < |t.plans| ensures PlanOk(t, p) { assert PlanOk(s, p); }
  }

  lemma {:induction false} RetainKeeps(s: State, h: nat, r: nat)
    requires Invariant(s)
    ensures Invariant(RetainStep(s, h, r))
  {
    RetainKeepsChain(s, h, r);
    hide Chain;
    SameCodeKeeps(s, RetainStep(s, h, r));
  }

  lemma {:induction false} ReleaseKeeps(s: State, h: nat)
    requires Invariant(s)
    ensures Invariant(ReleaseStep(s, h))
  {
    ReleaseKeepsChain(s, h);
    hide Chain;
    SameCodeKeeps(s, ReleaseStep(s, h));
  }

  lemma {:induction false} SweepKeeps(s: State, r: nat)
    requires Invariant(s)
    ensures Invariant(SweepStep(s, r))
  {
    SweepKeepsChain(s, r);
    hide Chain;
    SameCodeKeeps(s, SweepStep(s, r));
  }

  // ----- plans ----------------------------------------------------------------------------------------

  /** A step on plans alone. */
  lemma {:induction false} PlansOnly(s: State, t: State)
    requires Invariant(s)
    requires t == s.(plans := t.plans, pending := t.pending, roots := t.roots)
    requires forall p :: 0 <= p < |t.plans| ==> PlanOk(t, p)
    ensures Invariant(t)
  {
    hide ValidProgram;
    forall i | 0 <= i < |t.revisions| ensures RevisionOk(t, i) {
      assert RevisionOk(s, i);
      assert HoldersOf(t, i) == HoldersOf(s, i);
    }
    assert Live(t) == Live(s);
  }

  lemma {:induction false} PrepareKeeps(s: State, target: Program)
    requires Invariant(s)
    ensures Invariant(PrepareStep(s, target))
  {
    var t := PrepareStep(s, target);
    if t != s {
      hide ValidProgram, Compatible;
      assert RevisionOk(s, s.current.value);
      forall p | 0 <= p < |t.plans| ensures PlanOk(t, p) { if p < |s.plans| { assert PlanOk(s, p); } }
      hide Chain, HasCapacity;
      PlansOnly(s, t);
    }
  }

  lemma {:induction false} PlanStateKeeps(s: State, p: nat, state: PlanState)
    requires Invariant(s) && p < |s.plans|
    ensures Invariant(SetPlan(s, p, state)) && Invariant(EndPlan(s, p, state))
  {
    hide Chain, Bounded, ValidProgram, Compatible;
    forall q | 0 <= q < |s.plans| ensures PlanOk(SetPlan(s, p, state), q) && PlanOk(EndPlan(s, p, state), q) { assert PlanOk(s, q); }
    PlansOnly(s, SetPlan(s, p, state));
    PlansOnly(s, EndPlan(s, p, state));
  }

  // ----- installing a revision ------------------------------------------------------------------------

  /** The count that the capacity check uses is the number of live revisions. */
  lemma {:induction false} LiveCountIsExact(s: State)
    requires Chain(s) && s.open
    ensures LiveCount(s) == |Live(s)|
  {
    var c := s.current.value;
    assert RevisionOk(s, c);
    forall i | i in Live(s) && i != c ensures i in s.kept { assert RevisionOk(s, i); }
    assert Live(s) == (s.kept * Live(s)) + {c};
  }

  lemma {:induction false} InstallKeepsChain(s: State, target: Program)
    requires Chain(s) && s.open && ValidProgram(target) && HasRoot(target)
    ensures Chain(Install(s, target))
  {
    hide ValidProgram;
    var t := Install(s, target);
    var c := s.current.value;
    assert RevisionOk(s, c);
    forall i | 0 <= i < |t.revisions| ensures RevisionOk(t, i) {
      if i < |s.revisions| {
        assert RevisionOk(s, i);
        assert HoldersOf(t, i) == HoldersOf(s, i);
      } else {
        assert HoldersOf(t, i) == {};
      }
    }
  }

  lemma {:induction false} InstallLives(s: State, target: Program)
    requires s.current.Some? && s.current.value < |s.revisions| && !s.revisions[s.current.value].closed
    ensures Live(Install(s, target)) == Live(s) + {|s.revisions|} && |s.revisions| !in Live(s)
  {
    hide Rebound;
    var t, c := Install(s, target), s.current.value;
    assert |t.revisions| == |s.revisions| + 1 && !t.revisions[|s.revisions|].closed;
    forall i | 0 <= i < |s.revisions| ensures t.revisions[i].closed == s.revisions[i].closed {
      assert !Retired(s.revisions[c]).closed;
    }
  }

  lemma {:induction false} InstallKeepsBound(s: State, target: Program)
    requires Chain(s) && s.open && HasCapacity(s)
    ensures Bounded(Install(s, target))
  {
    LiveCountIsExact(s);
    assert RevisionOk(s, s.current.value);
    assert Install(s, target).limit == s.limit;
    InstallLives(s, target);
    hide Chain, LiveCount, RevisionOk, Live, Install;
  }

  lemma {:induction false} CompatibleShapes(before: Program, after: Program)
    requires Compatible(before, after) && ValidProgram(before)
    ensures SameShapes(before, after)
  {
    if SameImage(before, after) {
      forall path | path in before.modules ensures SameShape(before.modules[path], after.modules[path]) {
        ShapeOfItself(before.modules[path]);
      }
    }
  }

  lemma {:induction false} ModuleBinds(before: Program, target: Program, path: string)
    requires ValidProgram(before) && SameShapes(before, target) && path in before.modules
    ensures path in target.modules && path in FreshCells(before)
    ensures Binds(target.modules[path], FreshCells(before)[path]) && FreshCells(before)[path] == Index(target.modules[path])
  {
    hide Binds, Index, SameShape;
    AcceptedBinds(before.modules[path], target.modules[path]);
  }

  lemma {:induction false} ReboundAt(before: Program, target: Program, path: string)
    requires ValidProgram(before) && SameShapes(before, target) && path in target.modules
    ensures path in Rebound(before, FreshCells(before), target) && path in FreshCells(target)
    ensures Rebound(before, FreshCells(before), target)[path] == FreshCells(target)[path]
    ensures path in before.modules ==> path in FreshCells(before) && Binds(target.modules[path], FreshCells(before)[path])
  {
    if path in before.modules { ModuleBinds(before, target, path); }
    hide Binds, Index, SameShapes, ValidProgram;
  }

  lemma {:induction false} RootStays(before: Program, target: Program)
    requires HasRoot(before) && SameShapes(before, target)
    ensures HasRoot(target)
  {
    hide SameShape;
  }

  lemma {:induction false} ReboundKeys(before: Program, cells: map<string, Cells>, target: Program)
    ensures Rebound(before, cells, target).Keys == FreshCells(target).Keys == target.modules.Keys
  {
    hide Index;
  }

  lemma {:induction false} ReboundBinds(before: Program, target: Program)
    requires ValidProgram(before) && HasRoot(before) && SameShapes(before, target)
    ensures CanBind(before, FreshCells(before), target)
  {
    hide Binds, ValidProgram, FreshCells, SameShapes;
    RootStays(before, target);
    forall path | path in target.modules && path in before.modules
      ensures path in FreshCells(before) && Binds(target.modules[path], FreshCells(before)[path])
    {
      ReboundAt(before, target, path);
    }
  }

  lemma {:induction false} ReboundCells(before: Program, target: Program)
    requires ValidProgram(before) && SameShapes(before, target)
    ensures Rebound(before, FreshCells(before), target) == FreshCells(target)
  {
    hide Binds, ValidProgram, Rebound, FreshCells, SameShapes;
    ReboundKeys(before, FreshCells(before), target);
    forall path | path in target.modules
      ensures Rebound(before, FreshCells(before), target)[path] == FreshCells(target)[path]
    {
      ReboundAt(before, target, path);
    }
  }

  /** A compatible target finds every cell it needs, of the type it expects. */
  lemma {:induction false} CompatibleBinds(s: State, target: Program)
    requires Chain(s) && CellsOk(s) && s.open && Compatible(s.revisions[|s.revisions| - 1].program, target)
    ensures HasRoot(target) && CanBind(s.revisions[|s.revisions| - 1].program, s.cells, target)
    ensures Install(s, target).cells == FreshCells(target)
  {
    var before := s.revisions[|s.revisions| - 1].program;
    assert RevisionOk(s, |s.revisions| - 1);
    hide ValidProgram, SameShapes, Compatible, FreshCells, Rebound;
    CompatibleShapes(before, target);
    RootStays(before, target);
    ReboundBinds(before, target);
    ReboundCells(before, target);
  }

  lemma {:induction false} InstallKeepsPlans(s: State, target: Program, p: nat)
    requires s.current.Some? && s.current.value < |s.revisions| && p < |s.plans| && PlanOk(s, p)
    ensures PlanOk(Install(s, target), p)
  {
    hide ValidProgram, Compatible;
  }

  lemma {:induction false} InstallKeeps(s: State, target: Program)
    requires Invariant(s) && s.open && HasCapacity(s) && ValidProgram(target)
    requires Compatible(s.revisions[|s.revisions| - 1].program, target)
    ensures Invariant(Install(s, target))
  {
    CompatibleBinds(s, target);
    InstallKeepsChain(s, target);
    InstallKeepsBound(s, target);
    forall p | 0 <= p < |s.plans| ensures PlanOk(Install(s, target), p) { InstallKeepsPlans(s, target, p); }
    hide Bounded, HasCapacity, ValidProgram, Compatible, PlanOk;
  }

  lemma {:induction false} CommitKeeps(s: State, p: nat)
    requires Invariant(s)
    ensures Invariant(CommitStep(s, p))
  {
    if PlanIs(s, p, Applying) {
      PlanStateKeeps(s, p, Abandoned);
      if s.open && OnBase(s, p) && HasCapacity(s) {
        BaseIsCurrent(s, p);
        hide Chain, CellsOk, Bounded, HasCapacity, CanBind;
        InstallKeeps(s, s.plans[p].target);
        PlanStateKeeps(Install(s, s.plans[p].target), p, Committed);
      }
    }
  }

  lemma {:induction false} BaseIsCurrent(s: State, p: nat)
    requires Invariant(s) && s.open && OnBase(s, p)
    ensures s.current == Some(|s.revisions| - 1) && ValidProgram(s.plans[p].target)
    ensures Compatible(s.revisions[|s.revisions| - 1].program, s.plans[p].target)
  {
    hide ValidProgram, Compatible;
    assert RevisionOk(s, s.current.value) && PlanOk(s, p);
  }

  // ----- every run -------------------------------------------------------------------------------------

  lemma {:induction false} StepKeeps(s: State, step: Step)
    requires Invariant(s)
    ensures Invariant(Next(s, step))
  {
    match step
    case Prepare(target) => PrepareKeeps(s, target);
    case ClosePlan(p) => if p < |s.plans| { hide Invariant; PlanStateKeeps(s, p, Abandoned); }
    case BeginApply(p) => if p < |s.plans| { hide Invariant; PlanStateKeeps(s, p, Applying); }
    case FailApply(p) => if p < |s.plans| { hide Invariant; PlanStateKeeps(s, p, Abandoned); }
    case Commit(p) => CommitKeeps(s, p);
    case Retain(h, r) => hide Invariant; RetainKeeps(s, h, r);
    case Release(h) => hide Invariant; ReleaseKeeps(s, h);
    case SweepOne(r) => hide Invariant; SweepKeeps(s, r);
    case FilterKept => FilterKeeps(s);
    case GuestRuns(roots) => hide Invariant; GuestKeeps(s, roots);
    case Shutdown => ShutdownKeeps(s);
  }

  lemma {:induction false} GuestKeeps(s: State, roots: set<nat>)
    requires Invariant(s)
    ensures Invariant(s.(roots := roots))
  {
    hide ValidProgram, Compatible, Chain;
    forall p | 0 <= p < |s.plans| ensures PlanOk(s.(roots := roots), p) { assert PlanOk(s, p); }
    PlansOnly(s, s.(roots := roots));
  }

  lemma {:induction false} RunKeeps(s: State, steps: seq<Step>)
    requires Invariant(s)
    ensures Invariant(Run(s, steps))
    decreases |steps|
  {
    hide Next, Invariant;
    if steps != [] {
      StepKeeps(s, steps[0]);
      RunKeeps(Next(s, steps[0]), steps[1..]);
    }
  }

  lemma {:induction false} InitialInvariant(limit: nat, p: Program)
    requires ValidProgram(p) && HasRoot(p)
    ensures Invariant(Initial(limit, p))
  {
    var s := Initial(limit, p);
    assert HoldersOf(s, 0) == {};
    assert RevisionOk(s, 0);
    assert Live(s) == {0};
  }

  /** Over any chain of patches generations strictly increase, the newest revision is the
      current one, and live revisions never exceed a positive limit. */
  lemma {:induction false} RevisionsAreOrdered(limit: nat, p: Program, steps: seq<Step>)
    requires ValidProgram(p) && HasRoot(p)
    ensures var s := Run(Initial(limit, p), steps);
      && (forall i, j :: 0 <= i < j < |s.revisions| ==> s.revisions[i].generation < s.revisions[j].generation)
      && (s.open ==> s.current == Some(|s.revisions| - 1) && !s.revisions[|s.revisions| - 1].closed)
      && (s.open && limit > 0 ==> |Live(s)| <= limit)
  {
    hide Next;
    InitialInvariant(limit, p);
    RunKeeps(Initial(limit, p), steps);
    LimitKept(Initial(limit, p), steps);
    var s := Run(Initial(limit, p), steps);
    hide Run;
    forall i | 0 <= i < |s.revisions| ensures s.revisions[i].generation == i + 1 { assert RevisionOk(s, i); }
    assert RevisionOk(s, |s.revisions| - 1);
  }

  lemma {:induction false} LimitKept(s: State, steps: seq<Step>)
    ensures Run(s, steps).limit == s.limit
    decreases |steps|
  {
    if steps != [] {
      assert Next(s, steps[0]).limit == s.limit;
      hide Next;
      LimitKept(Next(s, steps[0]), steps[1..]);
    }
  }

  /** A payload is released, outside of shutdown, only when its revision is retired, pinned
      by nobody and marked as not reachable from globals. */
  lemma {:induction false} ReleasedOnlyWhenIdle(s: State, step: Step, i: nat)
    requires Invariant(s) && s.open && !step.Shutdown? && i < |s.revisions| && !s.revisions[i].closed
    requires i < |Next(s, step).revisions| && Next(s, step).revisions[i].closed
    ensures var t := Next(s, step);
      t.current != Some(i) && t.revisions[i].retired && HoldersOf(t, i) == {} && !t.revisions[i].rootRetained
  {
    hide CanBind, HasCapacity, Compatible, ValidProgram;
    StepKeeps(s, step);
    var t := Next(s, step);
    assert RevisionOk(s, i) && RevisionOk(t, i);
    assert step.Release? || step.SweepOne?;
  }

  /** A plan applied to the revision it was made for always binds its module states, and
      leaves every existing cell with its type text. */
  lemma {:induction false} PlanAlwaysBinds(s: State, p: nat)
    requires Invariant(s) && s.open && PlanIs(s, p, Applying) && OnBase(s, p) && HasCapacity(s)
    ensures var t := Next(s, Commit(p));
      && PlanIs(t, p, Committed) && |t.revisions| == |s.revisions| + 1
      && t.revisions[|s.revisions|].program == s.plans[p].target
      && (forall path :: path in s.cells ==> path in t.cells && t.cells[path] == s.cells[path])
  {
    BaseIsCurrent(s, p);
    CommitInstalls(s, p);
    InstallKeepsCells(s, s.plans[p].target);
    hide Chain, HasCapacity, CanBind, FreshCells, Compatible, CellsOk, ValidProgram, Next;
  }

  lemma {:induction false} CommitInstalls(s: State, p: nat)
    requires Invariant(s) && s.open && PlanIs(s, p, Applying) && OnBase(s, p) && HasCapacity(s)
    ensures Next(s, Commit(p)) == EndPlan(Install(s, s.plans[p].target), p, Committed)
  {
    BaseIsCurrent(s, p);
    CompatibleBinds(s, s.plans[p].target);
    hide Chain, HasCapacity, CanBind, FreshCells, Compatible, CellsOk, ValidProgram, Install;
  }

  lemma {:induction false} InstallRebinds(s: State, target: Program)
    requires Chain(s) && s.open
    ensures Install(s, target).cells == Rebound(s.revisions[|s.revisions| - 1].program, s.cells, target)
    ensures ValidProgram(s.revisions[|s.revisions| - 1].program)
  {
    hide Rebound;
    assert RevisionOk(s, |s.revisions| - 1);
  }

  lemma {:induction false} InstallKeepsCells(s: State, target: Program)
    requires Chain(s) && CellsOk(s) && s.open && Compatible(s.revisions[|s.revisions| - 1].program, target)
    ensures forall path :: path in s.cells ==> path in Install(s, target).cells && Install(s, target).cells[path] == s.cells[path]
  {
    var before := s.revisions[|s.revisions| - 1].program;
    hide Chain, SameShapes, Compatible, ValidProgram, FreshCells, Rebound, Install;
    InstallRebinds(s, target);
    CompatibleShapes(before, target);
    forall path | path in s.cells
      ensures path in Install(s, target).cells && Install(s, target).cells[path] == s.cells[path]
    {
      CellStays(before, target, path);
    }
  }

  lemma {:induction false} CellStays(before: Program, target: Program, path: string)
    requires SameShapes(before, target) && path in FreshCells(before)
    ensures path in Rebound(before, FreshCells(before), target)
    ensures Rebound(before, FreshCells(before), target)[path] == FreshCells(before)[path]
  {
    hide Index, SameShape;
  }
}
