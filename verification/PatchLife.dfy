/** What patching is for: a compatible program with room beside the live revisions becomes the
    current one, the old one goes when nobody needs it, and shutdown closes them all. */
module PatchLife {
  import opened Options
  import opened GlobalShape
  import opened HotReload

  ghost predicate Room(s: State) { s.limit == 0 || |Live(s)| < s.limit }

  lemma {:induction false} RoomIsCapacity(s: State)
    requires Invariant(s) && s.open
    ensures HasCapacity(s) <==> Room(s)
  {
    hide Bounded, CellsOk, PlanOk;
    LiveCountIsExact(s);
  }

  /** An image is the program without its symbols. */
  lemma {:induction false} ImageIgnoresSymbols(p: Program, q: Program)
    ensures SameImage(p, q) <==> p.root == q.root && p.modules == q.modules && p.code == q.code
  {
  }

  ghost function Current(s: State): Revision
    requires s.revisions != []
  {
    s.revisions[|s.revisions| - 1]
  }

  ghost predicate Patchable(s: State, target: Program) {
    s.open && s.pending.None? && s.revisions != [] && ValidProgram(target) && Current(s).program != target
    && Room(s) && Compatible(Current(s).program, target)
  }

  /** A plan is made exactly for a different, compatible program, when no other plan is pending
      and one more revision is within the limit. */
  lemma {:induction false} PreparesExactly(s: State, target: Program)
    requires Invariant(s)
    ensures var t := Next(s, Prepare(target));
      && (Patchable(s, target) ==>
            && t.plans == s.plans + [Plan(Current(s).generation, target, Ready)] && t.pending == Some(|s.plans|)
            && t == s.(plans := t.plans, pending := t.pending))
      && (!Patchable(s, target) ==> t == s)
  {
    hide ValidProgram, Compatible, HasCapacity, Room, RevisionOk, Bounded, CellsOk, PlanOk;
    if s.open { RoomIsCapacity(s); }
  }

  /** The new revision is current and untouched; the old one is retired, marked and open, on
      the list of those to sweep. */
  ghost predicate Patched(s: State, t: State, target: Program) {
    var n := |s.revisions|;
    && n > 0 && |t.revisions| == n + 1 && t.open && t.current == Some(n) && t.limit == s.limit && t.holders == s.holders
    && Current(t) == Revision(Current(s).generation + 1, target, 0, false, false, false)
    && t.revisions[n - 1] == Current(s).(retired := true, rootRetained := true)
    && (forall i :: 0 <= i < n - 1 ==> t.revisions[i] == s.revisions[i])
    && t.kept == s.kept + {n - 1}
  }

  lemma {:induction false} CommitPatches(s: State, p: nat)
    requires Invariant(s) && s.open && PlanIs(s, p, Applying) && s.plans[p].base == Current(s).generation && Room(s)
    ensures var t := Next(s, Commit(p));
      Patched(s, t, s.plans[p].target) && PlanIs(t, p, Committed) && t.pending == (if s.pending == Some(p) then None else s.pending)
  {
    hide ValidProgram, Compatible, HasCapacity, Room, Bounded, CellsOk, PlanOk, Install, Next, Patched;
    RoomIsCapacity(s);
    assert OnBase(s, p);
    CommitInstalls(s, p);
    InstallPatches(s, s.plans[p].target);
    InstallEnds(s, s.plans[p].target, p);
  }

  lemma {:induction false} InstallPatches(s: State, target: Program)
    requires Chain(s) && s.open
    ensures Patched(s, Install(s, target), target)
    ensures Install(s, target).plans == s.plans && Install(s, target).pending == s.pending
  {
    hide ValidProgram, Rebound, HoldersOf;
    assert RevisionOk(s, |s.revisions| - 1);
  }

  lemma {:induction false} InstallEnds(s: State, target: Program, p: nat)
    requires Chain(s) && s.open && p < |s.plans| && Patched(s, Install(s, target), target)
    requires Install(s, target).plans == s.plans && Install(s, target).pending == s.pending
    ensures var t := EndPlan(Install(s, target), p, Committed);
      Patched(s, t, target) && PlanIs(t, p, Committed) && t.pending == (if s.pending == Some(p) then None else s.pending)
  {
    hide Install, Chain;
  }

  /** From any reachable state a patch that may be prepared can be applied at once. */
  lemma {:induction false} PatchSucceeds(s: State, target: Program)
    requires Invariant(s) && Patchable(s, target)
    ensures var p := |s.plans|;
      var t := Next(Next(Next(s, Prepare(target)), BeginApply(p)), Commit(p));
      Patched(s, t, target) && PlanIs(t, p, Committed) && t.pending.None? && Invariant(t)
  {
    var p := |s.plans|;
    hide Invariant, ValidProgram, Compatible, Room, Patched;
    PreparesExactly(s, target);
    var prepared := Next(s, Prepare(target));
    StepKeeps(s, Prepare(target));
    StepKeeps(prepared, BeginApply(p));
    var begun := Next(prepared, BeginApply(p));
    assert begun == prepared.(plans := begun.plans) && PlanIs(begun, p, Applying) && begun.plans[p].target == target;
    assert begun.plans[p].base == Current(begun).generation;
    StepKeeps(begun, Commit(p));
    RoomSame(s, begun);
    hide Next;
    CommitPatches(begun, p);
    SamePatched(s, begun, Next(begun, Commit(p)), target);
  }

  lemma {:induction false} SamePatched(s: State, begun: State, t: State, target: Program)
    requires Patched(begun, t, target) && begun == s.(plans := begun.plans, pending := begun.pending)
    ensures Patched(s, t, target)
  {
  }

  lemma {:induction false} RoomSame(s: State, t: State)
    requires t == s.(plans := t.plans, pending := t.pending) && Room(s)
    ensures Room(t)
  {
    assert Live(t) == Live(s);
  }

  /** A plan given up, or failing, is abandoned and makes way for another; a stale one fails. */
  lemma {:induction false} PlansEnd(s: State, p: nat)
    requires p < |s.plans|
    ensures s.plans[p].state.Ready? ==> Abandons(s, Next(s, ClosePlan(p)), p)
    ensures s.plans[p].state.Applying? ==> Abandons(s, Next(s, FailApply(p)), p)
    ensures s.plans[p].state.Applying? && !OnBase(s, p) ==> Abandons(s, Next(s, Commit(p)), p)
    ensures !s.plans[p].state.Ready? ==> Next(s, ClosePlan(p)) == s && Next(s, BeginApply(p)) == s
    ensures !s.plans[p].state.Applying? ==> Next(s, FailApply(p)) == s && Next(s, Commit(p)) == s
  {
    hide CanBind, HasCapacity, OnBase;
  }

  ghost predicate Abandons(s: State, t: State, p: nat) {
    p < |s.plans| && t == s.(plans := s.plans[p := s.plans[p].(state := Abandoned)], pending := t.pending)
    && t.pending == (if s.pending == Some(p) then None else s.pending)
  }

  // ----- pins ------------------------------------------------------------------------------------------

  /** A revision that is not closed can be pinned, and only such. */
  lemma {:induction false} PinsExactly(s: State, h: nat, r: nat)
    requires h !in s.holders && r < |s.revisions|
    ensures var t := Next(s, Retain(h, r));
      if s.revisions[r].closed then t == s
      else t.holders == s.holders[h := r] && t.revisions[r] == s.revisions[r].(pins := s.revisions[r].pins + 1) && |t.revisions| == |s.revisions|
  {
  }

  /** Letting go of the last pin of a retired, unmarked revision closes it and takes it off the
      list; otherwise letting go only counts. */
  lemma {:induction false} LetsGoExactly(s: State, h: nat)
    requires Invariant(s) && h in s.holders
    ensures s.holders[h] < |s.revisions| && s.revisions[s.holders[h]].pins > 0
    ensures var r, t := s.holders[h], Next(s, Release(h));
      var was, now := s.revisions[r], t.revisions[r];
      && t.holders == s.holders - {h} && now.pins == was.pins - 1
      && (now.closed <==> was.closed || (was.pins == 1 && was.retired && !was.rootRetained))
      && (if now.closed then t.kept == s.kept - {r} else t.kept == s.kept)
  {
    hide ValidProgram, Bounded, CellsOk, PlanOk;
    var r := s.holders[h];
    assert RevisionOk(s, r) && h in HoldersOf(s, r);
    assert HoldersOf(s, r) != {};
  }

  /** A sweep marks what globals refer to and closes what is neither marked nor pinned; what is
      closed then leaves the list. */
  lemma {:induction false} SweepsExactly(s: State, r: nat)
    requires r in s.kept && r < |s.revisions| && s.revisions[r].retired && !s.revisions[r].closed
    ensures var t := Next(s, SweepOne(r));
      && t.revisions[r].rootRetained == (r in s.roots) && t.revisions[r].pins == s.revisions[r].pins
      && (t.revisions[r].closed <==> r !in s.roots && s.revisions[r].pins == 0)
      && (r in Next(t, FilterKept).kept <==> !t.revisions[r].closed)
  {
  }

  /** Shutdown closes every revision and leaves nothing current or listed. */
  lemma {:induction false} ShutdownClosesAll(s: State)
    ensures var t := Next(s, Shutdown);
      && !t.open && t.current.None? && t.kept == {} && |t.revisions| == |s.revisions|
      && forall i :: 0 <= i < |t.revisions| ==> t.revisions[i].closed
  {
  }

  /** The guest may leave any revision that exists in a global, if its program has one. */
  lemma {:induction false} GuestStores(s: State, roots: set<nat>)
    requires s.open && s.current.Some? && s.current.value < |s.revisions| && forall i :: i in roots ==> i < |s.revisions|
    requires roots == {} || exists path :: path in s.revisions[s.current.value].program.modules && s.revisions[s.current.value].program.modules[path] != []
    ensures Next(s, GuestRuns(roots)) == s.(roots := roots)
  {
  }
}
