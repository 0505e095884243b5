/** What the ownership invariant of a RouteSet comes to over whole runs, and which resources
    a late export loses for good. */
module RouteSafety {
  import opened Options
  import opened RouteOwnership

  // ----- what was read from a list ------------------------------------------------------------------

  /** What a thread can still close was read from a list. */
  ghost predicate ThreadTaken(s: State, t: Tid)
    requires t in s.threads
  {
    var th := s.threads[t];
    th.Todo() <= s.taken && (th.Read? ==> th.ids <= s.taken) && (th.Job().Busy() ==> th.job.id in s.taken)
  }

  /** While lists can still be dropped, what was read from a list is known to its call. */
  ghost predicate ListTaken(s: State, n: nat) {
    s.phase.Accepts() ==>
      && (Call(n) in s.threads && s.threads[Call(n)].Read? ==> Listed(s, n) * s.taken <= s.threads[Call(n)].ids)
      && (n in s.owners && n in s.results ==> Listed(s, n) * s.taken <= s.results[n])
  }

  ghost predicate OnList(s: State, n: nat, id: Id) { id in Listed(s, n) }

  ghost predicate ListsApart(s: State) {
    && (forall n: nat, id: Id :: OnList(s, n, id) ==> id <= s.lastResource && id !in s.lost)
    && (forall n: nat, m: nat, id: Id :: OnList(s, n, id) && OnList(s, m, id) ==> n == m)
  }

  /** Lost resources were never read from a list, and only what was read is ever closed. */
  ghost predicate Takes(s: State) {
    && s.order <= s.taken && s.attempted <= s.taken && s.lost !! s.taken
    && (forall id :: id in s.taken || id in s.lost ==> id <= s.lastResource)
    && (forall id :: id in s.resources && s.resources[id].active ==> id in s.taken)
    && (forall n :: n in s.results ==> s.results[n] <= s.taken)
    && (forall t :: t in s.threads ==> ThreadTaken(s, t))
    && (forall n :: ListTaken(s, n)) && ListsApart(s)
  }

  ghost predicate Invariant(s: State) { Basic(s) && Takes(s) }

  /** Lists that only shrink stay apart, unless something on one of them is lost. */
  lemma {:induction false} ListsStayApart(s: State, x: State)
    requires ListsApart(s) && s.lastResource <= x.lastResource && forall n :: Listed(x, n) <= Listed(s, n)
    requires forall n: nat, id: Id :: OnList(x, n, id) ==> id !in x.lost - s.lost
    ensures ListsApart(x)
  {
    hide Listed;
    forall n: nat, id: Id | OnList(x, n, id) ensures OnList(s, n, id) {}
    hide OnList;
  }

  lemma {:induction false} TakesKept(s: State, x: State, actor: Tid)
    requires Takes(s) && Frame(s, x, actor)
    requires x.taken == s.taken && x.lost == s.lost && x.lastResource == s.lastResource
    requires x.order <= s.taken && x.attempted <= s.taken
    requires forall id :: id in x.resources && x.resources[id].active ==> id in s.taken
    requires actor in x.threads ==> ThreadTaken(x, actor)
    requires forall n :: Listed(x, n) <= Listed(s, n)
    requires actor.Call? ==> ListTaken(x, actor.n) && (actor.n in x.results ==> x.results[actor.n] <= s.taken)
    ensures Takes(x)
  {
    hide Listed;
    forall t | t in x.threads ensures ThreadTaken(x, t) { if t != actor { assert ThreadTaken(s, t); } }
    forall n ensures ListTaken(x, n) { if actor != Call(n) { assert ListTaken(s, n); } }
    ListsStayApart(s, x);
  }

  // ----- steps that read or drop no list ------------------------------------------------------------

  lemma {:induction false} AdmitTakes(s: State, service: bool, borrows: set<Id>)
    requires Threads(s) && Takes(s)
    ensures Takes(AdmitStep(s, service, borrows))
  {
    hide Borrowable, CleanupOk;
    var t, x := Call(s.lastCall + 1), AdmitStep(s, service, borrows);
    if x != s {
      assert OwnerOk(s, t.n) && ListTaken(s, t.n);
      TakesKept(s, x, t);
    }
  }

  lemma {:induction false} ReturnTakes(s: State, call: nat)
    requires Threads(s) && Takes(s)
    ensures Takes(ReturnStep(s, call))
  {
    var t, x := Call(call), ReturnStep(s, call);
    if x != s {
      assert OwnerOk(s, call) && ListTaken(s, call);
      TakesKept(s, x, t);
    }
  }

  lemma {:induction false} PublishTakes(s: State, call: nat)
    requires Threads(s) && Takes(s)
    ensures Takes(PublishStep(s, call))
  {
    var t, x := Call(call), PublishStep(s, call);
    if x != s {
      assert ThreadTaken(s, t) && ListTaken(s, call);
      TakesKept(s, x, t);
    }
  }

  lemma {:induction false} DecideTakes(s: State, call: nat, accept: bool)
    requires Takes(s)
    ensures Takes(DecideStep(s, call, accept))
  {
    if DecideStep(s, call, accept) != s { TakesKept(s, DecideStep(s, call, accept), Decision(call)); }
  }

  lemma {:induction false} StartReleaseTakes(s: State, n: nat, call: nat)
    requires Takes(s)
    ensures Takes(StartReleaseStep(s, n, call))
  {
    if StartReleaseStep(s, n, call) != s { TakesKept(s, StartReleaseStep(s, n, call), Release(n)); }
  }

  lemma {:induction false} AttemptTakes(s: State, t: Tid, todo: set<Id>, id: Id)
    requires Takes(s) && id in s.resources && id in s.taken && todo <= s.taken
    requires t.Call? ==> t in s.threads && !s.threads[t].Read?
    ensures Takes(BeginAttempt(s, t, todo, id))
  {
    if t.Call? { assert ListTaken(s, t.n); }
    TakesKept(s, BeginAttempt(s, t, todo, id), t);
  }

  lemma {:induction false} PickTakes(s: State, t: Tid, id: Id)
    requires Takes(s)
    ensures Takes(PickStep(s, t, id))
  {
    hide BeginAttempt;
    var x := PickStep(s, t, id);
    if x != s {
      assert ThreadTaken(s, t);
      if id in s.resources {
        AttemptTakes(s, t, s.threads[t].todo, id);
      } else {
        if t.Call? { assert ListTaken(s, t.n); }
        TakesKept(s, x, t);
      }
    }
  }

  lemma {:induction false} DropTakes(s: State, n: nat, id: Id)
    requires Takes(s)
    ensures Takes(StartDropStep(s, n, id))
  {
    hide BeginAttempt;
    if StartDropStep(s, n, id) != s { AttemptTakes(s, Drop(n), {}, id); }
  }

  lemma {:induction false} InvokeTakes(s: State, t: Tid)
    requires Takes(s)
    ensures Takes(InvokeStep(s, t))
  {
    var x := InvokeStep(s, t);
    if x != s {
      assert ThreadTaken(s, t);
      if t.Call? { assert ListTaken(s, t.n); }
      TakesKept(s, x, t);
    }
  }

  lemma {:induction false} FinishDropTakes(s: State, t: Tid, ok: bool)
    requires Takes(s) && t in s.threads && s.threads[t].Job().Closing? && t.Drop?
    ensures Takes(FinishDrop(s, t, ok))
  {
    assert ThreadTaken(s, t);
    TakesKept(s, FinishDrop(s, t, ok), t);
  }

  lemma {:induction false} FinishReleaseTakes(s: State, t: Tid, ok: bool)
    requires Takes(s) && t in s.threads && s.threads[t].Job().Closing? && !t.Drop?
    ensures Takes(FinishRelease(s, t, ok))
  {
    assert ThreadTaken(s, t);
    if t.Call? { assert ListTaken(s, t.n); }
    TakesKept(s, FinishRelease(s, t, ok), t);
  }

  lemma {:induction false} ReportTakes(s: State, n: nat)
    requires Takes(s)
    ensures Takes(ReportStep(s, n))
  {
    if ReportStep(s, n) != s { TakesKept(s, ReportStep(s, n), Drop(n)); }
  }

  lemma {:induction false} EndTakes(s: State, t: Tid)
    requires Takes(s)
    ensures Takes(EndStep(s, t))
  {
    if EndStep(s, t) != s {
      if t.Call? { assert ListTaken(s, t.n); }
      TakesKept(s, EndStep(s, t), t);
    }
  }

  lemma {:induction false} DrainTakes(s: State)
    requires Takes(s)
    ensures Takes(DrainStep(s))
  {
    if Cleanup in s.threads { assert ThreadTaken(s, Cleanup); }
    if DrainStep(s) != s { TakesKept(s, DrainStep(s), Cleanup); }
  }

  lemma {:induction false} BarrierTakes(s: State)
    requires Takes(s)
    ensures Takes(PassBarrierStep(s))
  {
    hide Counted;
    if PassBarrierStep(s) != s {
      assert ThreadTaken(s, Cleanup);
      TakesKept(s, PassBarrierStep(s), Cleanup);
    }
  }

  lemma {:induction false} JoinTakes(s: State)
    requires Takes(s)
    ensures Takes(JoinStep(s))
  {
    if JoinStep(s) != s {
      assert ThreadTaken(s, Cleanup);
      TakesKept(s, JoinStep(s), Cleanup);
    }
  }

  lemma {:induction false} FinishCleanupTakes(s: State)
    requires Takes(s)
    ensures Takes(FinishCleanupStep(s))
  {
    if FinishCleanupStep(s) != s { TakesKept(s, FinishCleanupStep(s), Cleanup); }
  }

  // ----- steps that read a list -----------------------------------------------------------------------

  lemma {:induction false} ExportLists(s: State, call: nat)
    requires ListsApart(s) && ExportStep(s, call) != s
    requires forall id :: id in s.lost ==> id <= s.lastResource
    ensures ListsApart(ExportStep(s, call))
    ensures forall n: nat, id: Id :: OnList(ExportStep(s, call), n, id) ==> OnList(s, n, id) || id > s.lastResource
  {
    hide Frame, InCall;
    var x, added := ExportStep(s, call), s.lastResource + 1;
    forall n: nat, id: Id ensures OnList(x, n, id) <==> OnList(s, n, id) || (n == call && id == added) {}
    forall n: nat ensures !OnList(s, n, added) {}
    hide OnList;
  }

  lemma {:induction false} ExportTakes(s: State, call: nat)
    requires Takes(s)
    ensures Takes(ExportStep(s, call))
  {
    var x := ExportStep(s, call);
    if x != s {
      ExportLists(s, call);
      hide Frame, InCall, ListsApart;
      forall t | t in x.threads ensures ThreadTaken(x, t) { assert ThreadTaken(s, t); }
      forall n ensures ListTaken(x, n) {
        assert ListTaken(s, n);
        forall id | id in Listed(x, n) && id in x.taken ensures id in Listed(s, n) {
          assert OnList(x, n, id);
          assert OnList(s, n, id);
        }
      }
    }
  }

  lemma {:induction false} ReadLists(s: State, call: nat, failed: bool)
    requires ListsApart(s) && ReadStep(s, call, failed) != s
    ensures ListsApart(ReadStep(s, call, failed))
    ensures forall n :: Listed(ReadStep(s, call, failed), n) <= Listed(s, n)
    ensures failed ==> Listed(ReadStep(s, call, failed), call) == {}
    ensures forall n, id :: id in Listed(ReadStep(s, call, failed), n) && id in Listed(s, call) ==> n == call
    ensures Listed(s, call) !! s.lost && forall id :: id in Listed(s, call) ==> id <= s.lastResource
  {
    hide Frame;
    var x := ReadStep(s, call, failed);
    ListsStayApart(s, x);
    forall id | id in Listed(s, call) ensures id !in s.lost && id <= s.lastResource { assert OnList(s, call, id); }
    forall n, id | id in Listed(x, n) && id in Listed(s, call) ensures n == call { assert OnList(s, n, id) && OnList(s, call, id); }
  }

  lemma {:induction false} ReadTakes(s: State, call: nat, failed: bool)
    requires Threads(s) && Takes(s)
    ensures Takes(ReadStep(s, call, failed))
  {
    var t, x := Call(call), ReadStep(s, call, failed);
    if x != s {
      assert OwnerOk(s, call);
      ReadLists(s, call, failed);
      hide Listed, CleanupOk, ListsApart;
      forall u | u in x.threads ensures ThreadTaken(x, u) { if u != t { assert ThreadTaken(s, u); } }
      forall n ensures ListTaken(x, n) { assert ListTaken(s, n); }
    }
  }

  lemma {:induction false} ListedApart(s: State)
    requires ListsApart(s)
    ensures forall id :: id in AllListed(s) ==> id <= s.lastResource && id !in s.lost
  {
    forall id | id in AllListed(s) ensures id <= s.lastResource && id !in s.lost {
      var n :| n in s.provisional && id in s.provisional[n];
      assert OnList(s, n, id);
    }
  }

  lemma {:induction false} BeginCleanupTakes(s: State, force: bool)
    requires Takes(s)
    ensures Takes(BeginCleanupStep(s, force))
  {
    var x := BeginCleanupStep(s, force);
    if x != s {
      ListedApart(s);
      ListsStayApart(s, x);
      hide AllListed, ListsApart, Frame;
      forall t | t in x.threads ensures ThreadTaken(x, t) { if t != Cleanup { assert ThreadTaken(s, t); } }
      forall n ensures ListTaken(x, n) {}
    }
  }

  // ----- steps that drop a list -------------------------------------------------------------------------

  /** Dropping a list loses what was never read from it, and only that. */
  lemma {:induction false} DropsList(s: State, x: State, call: nat, ids: set<Id>)
    requires ListsApart(s) && x.provisional == s.provisional - {call} && x.lastResource == s.lastResource
    requires x.lost == s.lost + Forgotten(s, call, ids)
    ensures ListsApart(x) && (forall n :: Listed(x, n) <= Listed(s, n)) && Listed(x, call) == {}
    ensures forall id :: id in Forgotten(s, call, ids) ==> id <= s.lastResource
  {
    forall n: nat, id: Id | OnList(x, n, id) ensures id !in x.lost - s.lost {
      assert OnList(s, n, id);
      if id in Forgotten(s, call, ids) { assert OnList(s, call, id); }
    }
    ListsStayApart(s, x);
    forall id | id in Forgotten(s, call, ids) ensures id <= s.lastResource { assert OnList(s, call, id); }
  }

  lemma {:induction false} DropTakesList(s: State, x: State, actor: Tid, call: nat, ids: set<Id>)
    requires Takes(s) && Frame(s, x, actor) && x.provisional == s.provisional - {call}
    requires x.lost == s.lost + Forgotten(s, call, ids) && (s.phase.Accepts() ==> Listed(s, call) * s.taken <= ids)
    requires x.taken == s.taken && x.lastResource == s.lastResource && x.attempted == s.attempted && x.order <= s.taken
    requires x.results == s.results && forall id :: id in x.resources && x.resources[id].active ==> id in s.taken
    requires actor in x.threads ==> ThreadTaken(x, actor)
    requires actor.Call? ==> ListTaken(x, actor.n)
    ensures Takes(x)
  {
    DropsList(s, x, call, ids);
    assert x.lost !! x.taken;
    hide Listed, Forgotten, ListsApart;
    forall u | u in x.threads ensures ThreadTaken(x, u) { if u != actor { assert ThreadTaken(s, u); } }
    forall n ensures ListTaken(x, n) { if actor != Call(n) { assert ListTaken(s, n); } }
  }

  lemma {:induction false} RejectTakes(s: State, call: nat)
    requires Threads(s) && Takes(s)
    ensures Takes(RejectStep(s, call))
  {
    var t, x := Call(call), RejectStep(s, call);
    if x != s {
      assert OwnerOk(s, call) && ListTaken(s, call) && ThreadTaken(s, t);
      hide ListsApart;
      DropTakesList(s, x, t, call, s.threads[t].ids);
    }
  }

  lemma {:induction false} DecisionTakes(s: State, call: nat)
    requires Takes(s) && call in s.owners && call in s.provisional && FinishResultStep(s, call) != s
    ensures Takes(FinishResultStep(s, call))
  {
    var t, x := Decision(call), FinishResultStep(s, call);
    assert ListTaken(s, call);
    hide ListsApart, CleanupOk, ListTaken;
    if s.threads[t].accept && s.phase.Accepts() {
      DropTakesList(s, x, t, call, s.results[call]);
    } else {
      DropTakesList(s, x, t, call, s.results[call]);
    }
  }

  lemma {:induction false} FinishResultTakes(s: State, call: nat)
    requires Threads(s) && Takes(s)
    ensures Takes(FinishResultStep(s, call))
  {
    var t, x := Decision(call), FinishResultStep(s, call);
    if x != s {
      assert ShapeOk(s, t);
      if call in s.provisional {
        hide Takes, FinishResultStep, Frame;
        DecisionTakes(s, call);
      } else {
        TakesKept(s, x, t);
      }
    }
  }

  // ----- every run -------------------------------------------------------------------------------------

  lemma {:induction false} InvariantIsSafe(s: State)
    requires Invariant(s)
    ensures Safe(s)
  {
    hide ThreadTaken, ListTaken, ListsApart, ShapeOk, OwnerOk, CleanupOk, ListOk, Held;
    forall t, id | ClosingNow(s, t, id)
      ensures id in s.closes && s.closes[id].tid == t && id !in s.succeeded && forall call :: !Borrowing(s, call, id)
    {
      assert JobOk(s, t);
      assert EntryOk(s, id);
    }
    forall id | Exported(s, id) && id !in s.lost ensures s.phase.Closed? ==> id in s.attempted { assert CoverOk(s, id); }
  }

  lemma {:induction false} StepKeepsTakes(s: State, step: Step)
    requires Basic(s) && Takes(s)
    ensures Takes(Next(s, step))
  {
    hide Takes, Frame, AdmitStep, ExportStep, ReturnStep, ReadStep, RejectStep, PublishStep, DecideStep, FinishResultStep,
      StartReleaseStep, StartDropStep, PickStep, InvokeStep, FinishDrop, FinishRelease, ReportStep, EndStep, DrainStep,
      BeginCleanupStep, PassBarrierStep, JoinStep, FinishCleanupStep, Threads, Jobs, Entries, Covers;
    match step
    case Admit(service, borrows) => AdmitTakes(s, service, borrows);
    case Export(call) => ExportTakes(s, call);
    case ReturnBorrows(call) => ReturnTakes(s, call);
    case ReadProvisional(call, failed) => ReadTakes(s, call, failed);
    case Reject(call) => RejectTakes(s, call);
    case Publish(call) => PublishTakes(s, call);
    case Decide(call, accept) => DecideTakes(s, call, accept);
    case FinishResult(call) => FinishResultTakes(s, call);
    case StartRelease(n, call) => StartReleaseTakes(s, n, call);
    case StartDrop(n, id) => DropTakes(s, n, id);
    case Pick(t, id) => PickTakes(s, t, id);
    case Invoke(t) => InvokeTakes(s, t);
    case FinishClose(t, ok) =>
      if t in s.threads && s.threads[t].Job().Closing? {
        if t.Drop? { FinishDropTakes(s, t, ok); } else { FinishReleaseTakes(s, t, ok); }
      }
    case Report(n) => ReportTakes(s, n);
    case End(t) => EndTakes(s, t);
    case Drain => DrainTakes(s);
    case BeginCleanup(force) => BeginCleanupTakes(s, force);
    case PassBarrier => BarrierTakes(s);
    case Join => JoinTakes(s);
    case FinishCleanup => FinishCleanupTakes(s);
  }

  lemma {:induction false} RunKeepsInvariant(s: State, steps: seq<Step>)
    requires Invariant(s)
    ensures Invariant(Run(s, steps))
    decreases |steps|
  {
    hide Next, Basic, Takes;
    if steps != [] {
      StepKeepsBasic(s, steps[0]);
      StepKeepsTakes(s, steps[0]);
      RunKeepsInvariant(Next(s, steps[0]), steps[1..]);
    }
  }

  lemma {:induction false} StartInvariant()
    ensures Invariant(INITIAL)
  {
  }

  /** In every run: at most one close of a resource is in flight, none while it is borrowed,
      none after one succeeded; and when the set is closed, an exported resource has had a
      close attempt exactly if it was not on a list that a rejection or a decision dropped
      without having read it, which happens to late exports only. */
  lemma {:induction false} OwnershipIsSafe(steps: seq<Step>)
    ensures Safe(Run(INITIAL, steps))
  {
    StartInvariant();
    hide Safe, Invariant, Next;
    RunKeepsInvariant(INITIAL, steps);
    InvariantIsSafe(Run(INITIAL, steps));
  }

  /** Once lost, a resource is never closed, whatever happens later. */
  lemma {:induction false} LostForGood(s: State, steps: seq<Step>, id: Id)
    requires Invariant(s) && id in s.lost
    ensures id in Run(s, steps).lost && id !in Run(s, steps).attempted
    decreases |steps|
  {
    if steps != [] {
      StepKeepsBasic(s, steps[0]);
      StepKeepsTakes(s, steps[0]);
      LostStays(s, steps[0]);
      hide Next, Takes, Basic;
      LostForGood(Next(s, steps[0]), steps[1..], id);
    } else {
      hide Basic;
    }
  }

  lemma {:induction false} LostStays(s: State, step: Step)
    ensures s.lost <= Next(s, step).lost
  {
    hide AdmitStep, ExportStep, ReturnStep, ReadStep, RejectStep, PublishStep, DecideStep, FinishResultStep,
      StartReleaseStep, StartDropStep, PickStep, InvokeStep, FinishCloseStep, ReportStep, EndStep, DrainStep,
      BeginCleanupStep, PassBarrierStep, JoinStep, FinishCleanupStep;
  }

  // ----- an export that comes too late ------------------------------------------------------------------

  const CALL_RETURNS: seq<Step> := [Admit(true, {}), ReturnBorrows(1), ReadProvisional(1, false)]
  const EXPORT_LATE: seq<Step> := [Export(1), Publish(1), End(Call(1))]
  const ACCEPT_RESULT: seq<Step> := [Decide(1, true), FinishResult(1), End(Decision(1))]
  const SHUT_DOWN: seq<Step> := [BeginCleanup(true), PassBarrier, Join, FinishCleanup]

  const LIST_READ := INITIAL.(lastCall := 1, threads := map[Call(1) := Read({})])
  const PUBLISHED := INITIAL.(
    lastCall := 1, lastResource := 1, resources := map[1 := Entry(false, {}, None)], provisional := map[1 := {1}],
    results := map[1 := {}], owners := {1}, late := {1})
  const ACCEPTED := PUBLISHED.(provisional := map[], owners := {}, lost := {1})
  const ENDED := ACCEPTED.(phase := Closed, resources := map[])

  lemma {:induction false} RunThree(s: State, a: Step, b: Step, c: Step)
    ensures Run(s, [a, b, c]) == Next(Next(Next(s, a), b), c)
  {
    hide Next;
    RunOne(s, a, [b, c]);
    RunOne(Next(s, a), b, [c]);
    RunOne(Next(Next(s, a), b), c, []);
    assert [a] + [b, c] == [a, b, c] && [b] + [c] == [b, c] && [c] + [] == [c];
  }

  lemma {:induction false} RunOne(s: State, step: Step, steps: seq<Step>)
    ensures Run(s, [step] + steps) == Run(Next(s, step), steps)
  {
    hide Next;
    assert ([step] + steps)[1..] == steps;
  }

  lemma {:induction false} RunAppend(s: State, first: seq<Step>, second: seq<Step>)
    ensures Run(s, first + second) == Run(Run(s, first), second)
    decreases |first|
  {
    hide Next;
    if first == [] {
      assert first + second == second;
    } else {
      assert (first + second)[1..] == first[1..] + second;
      RunAppend(Next(s, first[0]), first[1..], second);
    }
  }

  lemma {:induction false} ReturnRun()
    ensures Run(INITIAL, CALL_RETURNS) == LIST_READ
  {
    hide Run, Frame;
    RunThree(INITIAL, CALL_RETURNS[0], CALL_RETURNS[1], CALL_RETURNS[2]);
    var s := Next(INITIAL, CALL_RETURNS[0]);
    assert s == INITIAL.(lastCall := 1, threads := map[Call(1) := Handler({})]);
    assert Next(s, CALL_RETURNS[1]) == INITIAL.(lastCall := 1, threads := map[Call(1) := Returned]);
  }

  lemma {:induction false} ExportLateRun()
    ensures Run(LIST_READ, EXPORT_LATE) == PUBLISHED
  {
    hide Run, Frame;
    RunThree(LIST_READ, EXPORT_LATE[0], EXPORT_LATE[1], EXPORT_LATE[2]);
    assert Listed(LIST_READ, 1) + {1} == {1} && LIST_READ.late + {1} == {1} && LIST_READ.owners + {1} == {1};
    var s := Next(LIST_READ, EXPORT_LATE[0]);
    assert s == LIST_READ.(lastResource := 1, resources := map[1 := Entry(false, {}, None)], provisional := map[1 := {1}], late := {1});
    assert Next(s, EXPORT_LATE[1]) == s.(threads := map[Call(1) := Ending], results := map[1 := {}], owners := {1});
  }

  lemma {:induction false} AcceptRun()
    ensures Run(PUBLISHED, ACCEPT_RESULT) == ACCEPTED
  {
    hide Run, Frame;
    RunThree(PUBLISHED, ACCEPT_RESULT[0], ACCEPT_RESULT[1], ACCEPT_RESULT[2]);
    var s := Next(PUBLISHED, ACCEPT_RESULT[0]);
    assert s == PUBLISHED.(threads := map[Decision(1) := Deciding(true)]);
    assert Forgotten(s, 1, {}) == {1} && s.lost + Forgotten(s, 1, {}) == {1};
    assert Next(s, ACCEPT_RESULT[1]) == PUBLISHED.(threads := map[Decision(1) := Ending], provisional := map[], lost := {1});
  }

  lemma {:induction false} ShutdownRun()
    ensures Run(ACCEPTED, SHUT_DOWN) == ENDED
  {
    hide Frame, Run;
    var s := ACCEPTED.(phase := Cleaning, threads := map[Cleanup := Barrier({})]);
    assert Next(ACCEPTED, SHUT_DOWN[0]) == s by {
      assert ACCEPTED.order + AllListed(ACCEPTED) == {};
      assert ACCEPTED.threads[Cleanup := Barrier({})] == map[Cleanup := Barrier({})];
    }
    RunOne(ACCEPTED, SHUT_DOWN[0], [SHUT_DOWN[1], SHUT_DOWN[2], SHUT_DOWN[3]]);
    RunThree(s, SHUT_DOWN[1], SHUT_DOWN[2], SHUT_DOWN[3]);
    assert SHUT_DOWN == [SHUT_DOWN[0]] + [SHUT_DOWN[1], SHUT_DOWN[2], SHUT_DOWN[3]];
    CleanupRun(s);
  }

  lemma {:induction false} CleanupRun(s: State)
    requires s == ACCEPTED.(phase := Cleaning, threads := map[Cleanup := Barrier({})])
    ensures Next(Next(Next(s, PassBarrier), Join), FinishCleanup) == ENDED
  {
    hide Frame, PassBarrierStep, JoinStep, FinishCleanupStep;
    var u := s.(threads := map[Cleanup := Joining({}, {})]);
    var v := s.(threads := map[Cleanup := Working({}, NoJob)]);
    BarrierRun(s, u);
    JoinRun(u, v);
    FinishRun(v);
  }

  lemma {:induction false} BarrierRun(s: State, u: State)
    requires s.threads == map[Cleanup := Barrier({})] && s.owners == {} && u == s.(threads := map[Cleanup := Joining({}, {})])
    ensures PassBarrierStep(s) == u
  {
    hide Frame;
    assert s.threads[Cleanup := Joining({}, {})] == u.threads;
  }

  lemma {:induction false} JoinRun(u: State, v: State)
    requires u.threads == map[Cleanup := Joining({}, {})] && v == u.(threads := map[Cleanup := Working({}, NoJob)])
    ensures JoinStep(u) == v
  {
    hide Frame;
    assert u.threads[Cleanup := Working({}, NoJob)] == v.threads;
  }

  lemma {:induction false} FinishRun(v: State)
    requires v == ACCEPTED.(phase := Cleaning, threads := map[Cleanup := Working({}, NoJob)])
    ensures FinishCleanupStep(v) == ENDED
  {
    hide Frame;
    assert v.threads - {Cleanup} == map[];
  }

  /** An exporter used after the call's list was read: accepting the result drops the list
      with the new resource on it, and not even shutdown closes that resource. */
  lemma {:induction false} LateExportLeaks()
    ensures var s := Run(INITIAL, CALL_RETURNS + EXPORT_LATE + ACCEPT_RESULT + SHUT_DOWN);
      s.phase.Closed? && Exported(s, 1) && 1 in s.lost && 1 !in s.attempted
  {
    hide Next, Run;
    RunAppend(INITIAL, CALL_RETURNS + EXPORT_LATE + ACCEPT_RESULT, SHUT_DOWN);
    RunAppend(INITIAL, CALL_RETURNS + EXPORT_LATE, ACCEPT_RESULT);
    RunAppend(INITIAL, CALL_RETURNS, EXPORT_LATE);
    ReturnRun();
    ExportLateRun();
    AcceptRun();
    ShutdownRun();
  }
}
