/** What decisions do to the resources of their call: with the history of who exported what and
    which calls were accepted or discarded. */
module RouteOutcome {
  import opened Options
  import opened RouteOwnership
  import opened RouteSafety

  /** The effect of finishing a decision on a call whose list is still there: accepted in time,
      everything the result lists is active and in order and nothing is owed; discarded, or too
      late, nothing changes and everything it lists is owed a close. */
  lemma {:induction false} FinishResultEffect(s: State, call: nat)
    requires Decision(call) in s.threads && s.threads[Decision(call)].Deciding? && call in s.results && call in s.provisional
    ensures var x, ids, accept := Next(s, FinishResult(call)), s.results[call], s.threads[Decision(call)].accept;
      if accept && s.phase.Accepts() then
        && x.resources.Keys == s.resources.Keys && x.threads[Decision(call)].Todo() == {}
        && (forall id :: id in x.resources ==> x.resources[id].active == (s.resources[id].active || id in ids))
        && (forall id :: id in x.order <==> id in s.order || (id in ids && id in s.resources))
      else x.resources == s.resources && x.order == s.order && x.threads[Decision(call)].Todo() == ids
  {
  }

  // ----- history ---------------------------------------------------------------------------------------

  /** Which call exported a resource, and the decisions that were adopted. */
  datatype History = History(owner: map<Id, nat>, accepted: set<nat>, discarded: set<nat>)

  const NO_HISTORY := History(map[], {}, {})

  function Decided(h: History): set<nat> { h.accepted + h.discarded }

  function Recorded(h: History, s: State, step: Step): History {
    var x := Next(s, step);
    match step
    case Export(call) => if s.lastResource < x.lastResource then h.(owner := h.owner[x.lastResource := call]) else h
    case Decide(call, accept) =>
      if Decision(call) in s.threads || Decision(call) !in x.threads then h
      else if accept then h.(accepted := h.accepted + {call}) else h.(discarded := h.discarded + {call})
    case _ => h
  }

  function HistoryOf(h: History, s: State, steps: seq<Step>): History
    decreases |steps|
  {
    if steps == [] then h else HistoryOf(Recorded(h, s, steps[0]), Next(s, steps[0]), steps[1..])
  }

  // ----- the invariant ---------------------------------------------------------------------------------

  ghost predicate Owns(h: History, n: nat, ids: set<Id>) { forall id :: id in ids ==> id in h.owner && h.owner[id] == n }

  /** A decision owes closes only for what was discarded, or decided too late. */
  ghost predicate MayClose(s: State, h: History, n: nat) { n in h.discarded || !s.phase.Accepts() }

  ghost predicate ThreadOwns(s: State, h: History, t: Tid)
    requires t in s.threads
  {
    var th := s.threads[t];
    match t
    case Call(n) => Owns(h, n, th.Todo()) && (th.Read? ==> Owns(h, n, th.ids))
    case Decision(n) =>
      && n in Decided(h) && Owns(h, n, th.Todo())
      && (th.Deciding? ==> if th.accept then n in h.accepted else n in h.discarded)
      && (th.Todo() != {} ==> MayClose(s, h, n))
    case _ => true
  }

  /** A decided call is past reading its list, and decided once. */
  ghost predicate DecidedOnce(s: State, h: History, n: nat) {
    n in Decided(h) ==>
      && n <= s.lastCall && (Call(n) in s.threads ==> s.threads[Call(n)].Ending? || s.threads[Call(n)].Working?)
      && (n in s.owners ==> Decision(n) in s.threads)
  }

  ghost predicate ActiveOwned(s: State, h: History, id: Id) {
    id in s.resources && s.resources[id].active ==> id in h.owner && h.owner[id] in h.accepted
  }

  ghost predicate Attributed(s: State, h: History) {
    && h.accepted !! h.discarded && (forall id :: id in h.owner ==> id <= s.lastResource)
    && (forall n :: Owns(h, n, Listed(s, n))) && (forall n :: n in s.results ==> Owns(h, n, s.results[n]))
    && (forall t :: t in s.threads ==> ThreadOwns(s, h, t))
    && (forall n :: DecidedOnce(s, h, n)) && (forall id :: ActiveOwned(s, h, id))
  }

  // ----- every step keeps it ----------------------------------------------------------------------------

  lemma {:induction false} AttributedKept(s: State, x: State, h: History, actor: Tid)
    requires Attributed(s, h) && Frame(s, x, actor) && (forall n :: Owns(h, n, Listed(x, n)))
    requires forall id :: id in x.resources && x.resources[id].active ==> (id in s.resources && s.resources[id].active) || ActiveOwned(x, h, id)
    requires actor in x.threads ==> ThreadOwns(x, h, actor)
    requires actor.Call? ==> DecidedOnce(x, h, actor.n) && (actor.n in x.results ==> Owns(h, actor.n, x.results[actor.n]))
    requires forall n :: actor == Decision(n) && n in Decided(h) && n in x.owners ==> actor in x.threads
    ensures Attributed(x, h)
  {
    hide Owns, Listed;
    forall t | t in x.threads ensures ThreadOwns(x, h, t) {
      if t != actor { assert ThreadOwns(s, h, t); }
    }
    forall n ensures DecidedOnce(x, h, n) { assert DecidedOnce(s, h, n); }
    forall id ensures ActiveOwned(x, h, id) { assert ActiveOwned(s, h, id); }
  }

  lemma {:induction false} ListsOwned(s: State, x: State, h: History)
    requires forall n :: Owns(h, n, Listed(s, n))
    requires forall n :: Listed(x, n) <= Listed(s, n)
    ensures forall n :: Owns(h, n, Listed(x, n))
  {
    hide Listed;
    forall n ensures Owns(h, n, Listed(x, n)) { assert Owns(h, n, Listed(s, n)); }
  }

  lemma {:induction false} AdmitAttributed(s: State, h: History, service: bool, borrows: set<Id>)
    requires Attributed(s, h)
    ensures Attributed(AdmitStep(s, service, borrows), h)
  {
    hide Borrowable;
    var t, x := Call(s.lastCall + 1), AdmitStep(s, service, borrows);
    if x != s {
      assert DecidedOnce(s, h, t.n);
      ListsOwned(s, x, h);
      AttributedKept(s, x, h, t);
    }
  }

  lemma {:induction false} ReturnAttributed(s: State, h: History, call: nat)
    requires Attributed(s, h)
    ensures Attributed(ReturnStep(s, call), h)
  {
    var t, x := Call(call), ReturnStep(s, call);
    if x != s {
      assert DecidedOnce(s, h, call) && Owns(h, call, Listed(s, call)) && ThreadOwns(s, h, t);
      ListsOwned(s, x, h);
      OwnsNothing(h, call);
      hide Owns, Listed, Forgotten;
      AttributedKept(s, x, h, t);
    }
  }

  lemma {:induction false} ReadAttributed(s: State, h: History, call: nat, failed: bool)
    requires Attributed(s, h)
    ensures Attributed(ReadStep(s, call, failed), h)
  {
    var t, x := Call(call), ReadStep(s, call, failed);
    if x != s {
      assert DecidedOnce(s, h, call) && Owns(h, call, Listed(s, call)) && ThreadOwns(s, h, t);
      ListsOwned(s, x, h);
      OwnsNothing(h, call);
      hide Owns, Listed, Forgotten;
      AttributedKept(s, x, h, t);
    }
  }

  lemma {:induction false} RejectAttributed(s: State, h: History, call: nat)
    requires Attributed(s, h)
    ensures Attributed(RejectStep(s, call), h)
  {
    var t, x := Call(call), RejectStep(s, call);
    if x != s {
      assert DecidedOnce(s, h, call) && Owns(h, call, Listed(s, call)) && ThreadOwns(s, h, t);
      ListsOwned(s, x, h);
      OwnsNothing(h, call);
      hide Owns, Listed, Forgotten;
      AttributedKept(s, x, h, t);
    }
  }

  lemma {:induction false} PublishAttributed(s: State, h: History, call: nat)
    requires Attributed(s, h)
    ensures Attributed(PublishStep(s, call), h)
  {
    var t, x := Call(call), PublishStep(s, call);
    if x != s {
      assert DecidedOnce(s, h, call) && Owns(h, call, Listed(s, call)) && ThreadOwns(s, h, t);
      ListsOwned(s, x, h);
      OwnsNothing(h, call);
      hide Owns, Listed, Forgotten;
      AttributedKept(s, x, h, t);
    }
  }

  lemma {:induction false} ExportAttributed(s: State, h: History, call: nat)
    requires Attributed(s, h) && ExportStep(s, call) != s
    ensures Attributed(ExportStep(s, call), h.(owner := h.owner[s.lastResource + 1 := call]))
  {
    var x, g := ExportStep(s, call), h.(owner := h.owner[s.lastResource + 1 := call]);
    forall n, ids | Owns(h, n, ids) ensures Owns(g, n, ids) {}
    forall n ensures Owns(g, n, Listed(x, n)) { assert Owns(h, n, Listed(s, n)); }
    hide Owns, Listed, InCall, Frame;
    forall n | n in x.results ensures Owns(g, n, x.results[n]) { assert Owns(h, n, s.results[n]); }
    forall t | t in x.threads ensures ThreadOwns(x, g, t) { assert ThreadOwns(s, h, t); }
    forall n ensures DecidedOnce(x, g, n) { assert DecidedOnce(s, h, n); }
    forall id ensures ActiveOwned(x, g, id) { assert ActiveOwned(s, h, id); }
  }

  lemma {:induction false} DecideAttributed(s: State, h: History, call: nat, accept: bool)
    requires Basic(s) && Attributed(s, h) && DecideStep(s, call, accept) != s
    ensures var g := if accept then h.(accepted := h.accepted + {call}) else h.(discarded := h.discarded + {call});
      Attributed(DecideStep(s, call, accept), g)
  {
    var x := DecideStep(s, call, accept);
    var g := if accept then h.(accepted := h.accepted + {call}) else h.(discarded := h.discarded + {call});
    assert OwnerOk(s, call) && DecidedOnce(s, h, call);
    hide Basic, Frame;
    forall n, ids | Owns(h, n, ids) ensures Owns(g, n, ids) {}
    forall n ensures Owns(g, n, Listed(x, n)) { assert Owns(h, n, Listed(s, n)); }
    hide Owns, Listed;
    forall n | n in x.results ensures Owns(g, n, x.results[n]) { assert Owns(h, n, s.results[n]); }
    forall t | t in x.threads ensures ThreadOwns(x, g, t) {
      if t != Decision(call) { assert ThreadOwns(s, h, t); } else { assert Owns(g, call, {}) by { OwnsNothing(g, call); } }
    }
    forall n ensures DecidedOnce(x, g, n) { assert DecidedOnce(s, h, n); }
    forall id ensures ActiveOwned(x, g, id) { assert ActiveOwned(s, h, id); }
  }

  lemma {:induction false} OwnsNothing(h: History, n: nat)
    ensures Owns(h, n, {})
  {
  }

  lemma {:induction false} FinishAttributed(s: State, h: History, call: nat)
    requires Attributed(s, h)
    ensures Attributed(FinishResultStep(s, call), h)
  {
    var t, x := Decision(call), FinishResultStep(s, call);
    if x != s {
      assert ThreadOwns(s, h, t) && Owns(h, call, s.results[call]);
      ListsOwned(s, x, h);
      OwnsNothing(h, call);
      hide Listed, Forgotten;
      AttributedKept(s, x, h, t);
    }
  }

  lemma {:induction false} ReleaseAttributed(s: State, h: History, n: nat, call: nat)
    requires Attributed(s, h)
    ensures Attributed(StartReleaseStep(s, n, call), h)
  {
    hide Owns;
    if StartReleaseStep(s, n, call) != s {
      ListsOwned(s, StartReleaseStep(s, n, call), h);
      AttributedKept(s, StartReleaseStep(s, n, call), h, Release(n));
    }
  }

  /** A thread that works on its list, its end, and steps of other threads than calls. */
  lemma {:induction false} WorkerAttributed(s: State, x: State, h: History, t: Tid)
    requires Attributed(s, h) && Frame(s, x, t) && x.provisional == s.provisional && (t.Call? ==> x.results == s.results && x.owners == s.owners)
    requires forall id :: id in x.resources && x.resources[id].active ==> id in s.resources && s.resources[id].active
    requires t in x.threads && (t.Call? || t.Decision?) ==>
      t in s.threads && x.threads[t].Working? && s.threads[t].Working? && x.threads[t].Todo() <= s.threads[t].Todo()
    requires t.Call? && t !in x.threads ==> t in s.threads && (s.threads[t].Working? || s.threads[t].Ending?)
    requires t.Decision? && t !in x.threads ==> t.n !in x.owners
    requires t == Cleanup ==> x.owners <= s.owners
    ensures Attributed(x, h)
  {
    if t in s.threads { assert ThreadOwns(s, h, t); }
    if t.Call? || t.Decision? { assert DecidedOnce(s, h, t.n); }
    ListsOwned(s, x, h);
    if t in x.threads && (t.Call? || t.Decision?) { assert Owns(h, t.n, x.threads[t].Todo()); }
    hide Listed, Owns;
    AttributedKept(s, x, h, t);
  }

  lemma {:induction false} AttemptAttributed(s: State, h: History, t: Tid, todo: set<Id>, id: Id)
    requires Attributed(s, h) && id in s.resources
    requires t.Call? || t.Decision? ==> t in s.threads && s.threads[t].Working? && todo <= s.threads[t].Todo()
    requires t != Cleanup || t in s.threads
    ensures Attributed(BeginAttempt(s, t, todo, id), h)
  {
    WorkerAttributed(s, BeginAttempt(s, t, todo, id), h, t);
  }

  lemma {:induction false} PickAttributed(s: State, h: History, t: Tid, id: Id)
    requires Attributed(s, h)
    ensures Attributed(PickStep(s, t, id), h)
  {
    hide BeginAttempt, Attributed;
    var x := PickStep(s, t, id);
    if x != s {
      if id in s.resources { AttemptAttributed(s, h, t, s.threads[t].todo, id); } else { WorkerAttributed(s, x, h, t); }
    }
  }

  lemma {:induction false} DropAttributed(s: State, h: History, n: nat, id: Id)
    requires Attributed(s, h)
    ensures Attributed(StartDropStep(s, n, id), h)
  {
    hide BeginAttempt, Attributed;
    if StartDropStep(s, n, id) != s { AttemptAttributed(s, h, Drop(n), {}, id); }
  }

  lemma {:induction false} InvokeAttributed(s: State, h: History, t: Tid)
    requires Attributed(s, h)
    ensures Attributed(InvokeStep(s, t), h)
  {
    hide Attributed;
    if InvokeStep(s, t) != s { WorkerAttributed(s, InvokeStep(s, t), h, t); }
  }

  lemma {:induction false} CloseAttributed(s: State, h: History, t: Tid, ok: bool)
    requires Attributed(s, h)
    ensures Attributed(FinishCloseStep(s, t, ok), h)
  {
    hide Attributed;
    if t in s.threads && s.threads[t].Job().Closing? {
      if t.Drop? { WorkerAttributed(s, FinishDrop(s, t, ok), h, t); } else { WorkerAttributed(s, FinishRelease(s, t, ok), h, t); }
    }
  }

  lemma {:induction false} EndAttributed(s: State, h: History, t: Tid)
    requires Attributed(s, h)
    ensures Attributed(EndStep(s, t), h)
  {
    hide Attributed;
    if EndStep(s, t) != s { WorkerAttributed(s, EndStep(s, t), h, t); }
  }

  lemma {:induction false} ReportAttributed(s: State, h: History, n: nat)
    requires Attributed(s, h)
    ensures Attributed(ReportStep(s, n), h)
  {
    hide Attributed;
    if ReportStep(s, n) != s { WorkerAttributed(s, ReportStep(s, n), h, Drop(n)); }
  }

  lemma {:induction false} CleanupAttributed(s: State, h: History, force: bool)
    requires Attributed(s, h)
    ensures Attributed(DrainStep(s), h) && Attributed(BeginCleanupStep(s, force), h)
    ensures Attributed(PassBarrierStep(s), h) && Attributed(JoinStep(s), h)
  {
    hide Attributed, AllListed, Counted;
    if DrainStep(s) != s { WorkerAttributed(s, DrainStep(s), h, Cleanup); }
    if BeginCleanupStep(s, force) != s { WorkerAttributed(s, BeginCleanupStep(s, force), h, Cleanup); }
    if PassBarrierStep(s) != s { WorkerAttributed(s, PassBarrierStep(s), h, Cleanup); }
    if JoinStep(s) != s { WorkerAttributed(s, JoinStep(s), h, Cleanup); }
  }

  lemma {:induction false} FinishCleanupAttributed(s: State, h: History)
    requires Attributed(s, h)
    ensures Attributed(FinishCleanupStep(s), h)
  {
    var x := FinishCleanupStep(s);
    if x != s {
      forall n ensures Owns(h, n, Listed(x, n)) { OwnsNothing(h, n); }
      AttributedKept(s, x, h, Cleanup);
    }
  }

  lemma {:induction false} StepAttributed(s: State, h: History, step: Step)
    requires Basic(s) && Attributed(s, h)
    ensures Attributed(Next(s, step), Recorded(h, s, step))
  {
    hide Attributed, Frame, AdmitStep, ReturnStep, ReadStep, RejectStep, PublishStep, FinishResultStep,
      StartReleaseStep, StartDropStep, PickStep, InvokeStep, FinishCloseStep, ReportStep, EndStep, DrainStep,
      BeginCleanupStep, PassBarrierStep, JoinStep, FinishCleanupStep, Basic;
    match step
    case Admit(service, borrows) => AdmitAttributed(s, h, service, borrows);
    case Export(call) => if ExportStep(s, call) != s { ExportAttributed(s, h, call); }
    case ReturnBorrows(call) => ReturnAttributed(s, h, call);
    case ReadProvisional(call, failed) => ReadAttributed(s, h, call, failed);
    case Reject(call) => RejectAttributed(s, h, call);
    case Publish(call) => PublishAttributed(s, h, call);
    case Decide(call, accept) => if DecideStep(s, call, accept) != s { DecideAttributed(s, h, call, accept); }
    case FinishResult(call) => FinishAttributed(s, h, call);
    case StartRelease(n, call) => ReleaseAttributed(s, h, n, call);
    case StartDrop(n, id) => DropAttributed(s, h, n, id);
    case Pick(t, id) => PickAttributed(s, h, t, id);
    case Invoke(t) => InvokeAttributed(s, h, t);
    case FinishClose(t, ok) => CloseAttributed(s, h, t, ok);
    case Report(n) => ReportAttributed(s, h, n);
    case End(t) => EndAttributed(s, h, t);
    case Drain => CleanupAttributed(s, h, false);
    case BeginCleanup(force) => CleanupAttributed(s, h, force);
    case PassBarrier => CleanupAttributed(s, h, false);
    case Join => CleanupAttributed(s, h, false);
    case FinishCleanup => FinishCleanupAttributed(s, h);
  }

  lemma {:induction false} RunAttributed(s: State, h: History, steps: seq<Step>)
    requires Basic(s) && Attributed(s, h)
    ensures Basic(Run(s, steps)) && Attributed(Run(s, steps), HistoryOf(h, s, steps))
    decreases |steps|
  {
    hide Next, Basic, Attributed, Recorded;
    if steps != [] {
      StepKeepsBasic(s, steps[0]);
      StepAttributed(s, h, steps[0]);
      RunAttributed(Next(s, steps[0]), Recorded(h, s, steps[0]), steps[1..]);
    }
  }

  // ----- every run -----------------------------------------------------------------------------------------

  lemma {:induction false} StartAttributed()
    ensures Attributed(INITIAL, NO_HISTORY)
  {
  }

  /** In every run no call is both accepted and discarded, and a resource is active only if the
      call that exported it was accepted. */
  lemma {:induction false} ActiveIsAccepted(steps: seq<Step>, id: Id)
    ensures var s, h := Run(INITIAL, steps), HistoryOf(NO_HISTORY, INITIAL, steps);
      && h.accepted !! h.discarded
      && (id in s.resources && s.resources[id].active ==> id in h.owner && h.owner[id] in h.accepted && h.owner[id] !in h.discarded)
  {
    StartInvariant();
    StartAttributed();
    hide Next, Basic, Recorded;
    RunAttributed(INITIAL, NO_HISTORY, steps);
    assert ActiveOwned(Run(INITIAL, steps), HistoryOf(NO_HISTORY, INITIAL, steps), id);
  }

  /** In every run a decision closes resources of its own call only, and only if the call was
      discarded, or the set no longer takes calls. */
  lemma {:induction false} DecisionClosesItsOwn(steps: seq<Step>, n: nat, id: Id)
    ensures var s, h := Run(INITIAL, steps), HistoryOf(NO_HISTORY, INITIAL, steps);
      ClosingNow(s, Decision(n), id) ==>
        id in h.owner && h.owner[id] == n && n in Decided(h) && (n in h.discarded || !s.phase.Accepts())
  {
    StartInvariant();
    StartAttributed();
    RunAttributed(INITIAL, NO_HISTORY, steps);
    var s, h := Run(INITIAL, steps), HistoryOf(NO_HISTORY, INITIAL, steps);
    hide Run, HistoryOf, Next, Recorded;
    if ClosingNow(s, Decision(n), id) {
      assert JobOk(s, Decision(n)) && ThreadOwns(s, h, Decision(n));
    }
  }

  // ----- who is let in, and what becomes of closes ---------------------------------------------------------

  /** A service call is let in while the set is open, a call on a resource also while it drains,
      and only if everything it borrows is active and has no close on record. */
  lemma {:induction false} AdmitsExactly(s: State, service: bool, borrows: set<Id>)
    ensures var x, n := Next(s, Admit(service, borrows)), s.lastCall + 1;
      if (s.phase.Open? || (s.phase.Draining? && !service))
         && forall id :: id in borrows ==> id in s.resources && s.resources[id].active && id !in s.closes
      then x.lastCall == n && x.threads == s.threads[Call(n) := Handler(borrows)] && x.resources.Keys == s.resources.Keys
      else x == s
  {
    hide Frame;
    assert forall id :: Borrowable(s, id) <==> id in s.resources && s.resources[id].active && id !in s.closes;
  }

  /** An export is late exactly if its call no longer runs and has read its list. */
  lemma {:induction false} LateExactly(s: State, call: nat)
    requires s.phase.Accepts() && call <= s.lastCall
    ensures var x, id := Next(s, Export(call)), s.lastResource + 1;
      && x.lastResource == id && id in x.resources && !x.resources[id].active && id in Listed(x, call)
      && x.late == s.late + (if Call(call) in s.threads && (s.threads[Call(call)].Handler? || s.threads[Call(call)].Returned?) then {} else {id})
  {
    hide Frame;
    assert s.late + {} == s.late;
  }

  /** The late release of a result whose decision is over closes what the result lists. */
  lemma {:induction false} ReleasesExactly(s: State, n: nat, call: nat)
    requires Release(n) !in s.threads
    ensures var x := Next(s, StartRelease(n, call));
      if s.phase.Accepts() && call in s.results && call !in s.owners
      then x == s.(threads := s.threads[Release(n) := Working(s.results[call], NoJob)])
      else x == s
  {
    hide Frame;
  }

  /** A resource that is gone: from the table, the order and the record of closes. */
  ghost predicate Gone(s: State, x: State, id: Id) {
    x.resources == s.resources - {id} && x.order == s.order - {id} && x.closes == s.closes - {id}
  }

  /** A successful close takes the resource away.  One that Drop made and that failed leaves
      everything as it was; the attempt is over only when it has been reported. */
  lemma {:induction false} DropClosesExactly(s: State, t: Tid, ok: bool)
    requires t in s.threads && t.Drop? && s.threads[t].Job().Closing?
    ensures var x, job := Next(s, FinishClose(t, ok)), s.threads[t].job;
      && x.done == s.done && x.succeeded == (if ok then s.succeeded + {job.id} else s.succeeded)
      && if ok then Gone(s, x, job.id) else x.resources == s.resources && x.order == s.order && x.closes == s.closes
  {
    hide Frame;
  }

  /** One made for a list that failed leaves the resource, back in the order, for another attempt;
      but once cleanup has begun it is taken away as well. */
  lemma {:induction false} ListClosesExactly(s: State, t: Tid, ok: bool)
    requires t in s.threads && !t.Drop? && s.threads[t].Job().Closing?
    ensures var x, job := Next(s, FinishClose(t, ok)), s.threads[t].job;
      && x.done == s.done + {job.attempt} && x.succeeded == (if ok then s.succeeded + {job.id} else s.succeeded)
      && if ok || !s.phase.Accepts() then Gone(s, x, job.id)
         else x.resources == s.resources && x.order == s.order + {job.id} && x.closes == s.closes
  {
    hide Frame;
  }

  /** Closing an open set drains it.  Cleanup begins when forced, or by itself exactly when a
      draining set has no call, no undecided result and no resource left. */
  lemma {:induction false} BeginsExactly(s: State, force: bool)
    requires s.phase.Accepts()
    ensures Next(s, Drain).phase.Draining?
    ensures var x := Next(s, BeginCleanup(force));
      if force || (s.phase.Draining? && s.owners == {} && s.resources == map[] && forall t :: t in s.threads ==> !t.Call?)
      then x.phase.Cleaning? && Cleanup in x.threads && x.threads[Cleanup] == Barrier(if force then s.order + AllListed(s) else {})
      else x == s
  {
    hide Frame, AllListed;
  }

  /** A closed set holds nothing. */
  lemma {:induction false} ClosedIsEmpty(s: State)
    requires Cleanup in s.threads && s.threads[Cleanup] == Working({}, NoJob)
    ensures var x := Next(s, FinishCleanup);
      && x.phase.Closed? && x.threads == s.threads - {Cleanup} && x.resources == map[] && x.closes == map[]
      && x.order == {} && x.provisional == map[] && x.owners == {}
  {
    hide Frame;
  }
}
