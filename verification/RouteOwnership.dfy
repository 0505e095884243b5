/** Who closes the resources of a RouteSet, and when: `Call`, `Export`, `Drop`, result
    decisions and shutdown of `rpc/route_set.go` and `rpc/route_set_resources.go`.

    One step is one lock section or one call into a resource; a run is any
    interleaving of the threads. */
module RouteOwnership {
  import opened Options

  type Id = nat

  datatype Phase = Open | Draining | Cleaning | Closed
  {
    predicate Accepts() { Open? || Draining? }
  }

  /** `gate` names the call that created the current `borrowDone` channel; it is cleared, and
      the channel closed, with the last borrower. */
  datatype Entry = Entry(active: bool, borrowers: set<nat>, gate: Option<nat>)

  /** Who is working: a call, the decision on its result, the late release of an accepted
      result, a Drop, or the one cleanup. */
  datatype Tid = Call(n: nat) | Decision(n: nat) | Release(n: nat) | Drop(n: nat) | Cleanup

  /** A close attempt, identified by the thread that made it and a serial number. */
  datatype Attempt = Attempt(tid: Tid, serial: nat)

  datatype Job =
    | NoJob
    | Waiting(id: Id, attempt: Attempt, gate: Option<nat>)
    | Closing(id: Id, attempt: Attempt)
    | Reporting(attempt: Attempt)
  {
    predicate Busy() { Waiting? || Closing? }
  }

  datatype Thread =
    | Handler(borrows: set<Id>)
    | Returned
    | Read(ids: set<Id>)
    | Deciding(accept: bool)
    | Working(todo: set<Id>, job: Job)
    | Ending
    | Barrier(owed: set<Id>)
    | Joining(owed: set<Id>, results: set<nat>)
  {
    function Job(): Job { if Working? then job else NoJob }
    function Todo(): set<Id> { if Working? then todo else if Barrier? || Joining? then owed else {} }
  }

  datatype State = State(
    phase: Phase,
    resources: map<Id, Entry>,
    closes: map<Id, Attempt>,
    done: set<Attempt>,
    order: set<Id>,
    provisional: map<nat, set<Id>>,
    results: map<nat, set<Id>>,
    owners: set<nat>,
    threads: map<Tid, Thread>,
    lastCall: nat,
    lastResource: nat,
    lastAttempt: nat,
    // history: closes begun, closes that succeeded, exports after the call's list was read,
    // resources read from a list, and resources on a list that was dropped without them
    attempted: set<Id>,
    succeeded: set<Id>,
    late: set<Id>,
    taken: set<Id>,
    lost: set<Id>)

  const INITIAL := State(Open, map[], map[], {}, {}, map[], map[], {}, map[], 0, 0, 0, {}, {}, {}, {}, {})

  datatype Step =
    | Admit(service: bool, borrows: set<Id>)
    | Export(call: nat)
    | ReturnBorrows(call: nat)
    | ReadProvisional(call: nat, failed: bool)
    | Reject(call: nat)
    | Publish(call: nat)
    | Decide(call: nat, accept: bool)
    | FinishResult(call: nat)
    | StartRelease(n: nat, call: nat)
    | StartDrop(n: nat, id: Id)
    | Pick(tid: Tid, id: Id)
    | Invoke(tid: Tid)
    | FinishClose(tid: Tid, ok: bool)
    | Report(n: nat)
    | End(tid: Tid)
    | Drain
    | BeginCleanup(force: bool)
    | PassBarrier
    | Join
    | FinishCleanup

  /** What every step leaves alone: it moves one thread, nothing it counts is undone, and
      owners come and go only through that thread or the end of cleanup. */
  ghost predicate Frame(s: State, x: State, actor: Tid) {
    && (forall t :: t != actor ==> (t in x.threads <==> t in s.threads))
    && (forall t :: t != actor && t in s.threads ==> x.threads[t] == s.threads[t])
    && s.lastCall <= x.lastCall && s.lastResource <= x.lastResource && s.lastAttempt <= x.lastAttempt
    && s.attempted <= x.attempted && s.late <= x.late && s.taken <= x.taken && s.lost <= x.lost
    && (x.phase.Accepts() ==> s.phase.Accepts())
    && (s.phase.Closed? ==> x.phase.Closed?)
    && (actor != Cleanup ==> x.phase == s.phase)
    && (forall n :: n in s.owners && actor != Decision(n) && actor != Cleanup ==> n in x.owners)
    && (forall n :: n in x.owners && n !in s.owners ==> actor == Call(n))
    && (forall n :: n in s.results ==> n in x.results)
    && (forall n :: n in x.results && actor != Call(n) ==> n in s.results)
    && (forall n :: n in s.results && actor != Call(n) ==> x.results[n] == s.results[n])
  }

  // ----- lock sections of a call ------------------------------------------------------------

  predicate Borrowable(s: State, id: Id) {
    id in s.resources && s.resources[id].active && id !in s.closes
  }

  function AdmitStep(s: State, service: bool, borrows: set<Id>): (x: State)
    ensures Frame(s, x, Call(s.lastCall + 1))
  {
    var n := s.lastCall + 1;
    if !(if service then s.phase.Open? else s.phase.Accepts()) || exists id :: id in borrows && !Borrowable(s, id) then s
    else
      s.(lastCall := n, threads := s.threads[Call(n) := Handler(borrows)],
         resources := map id | id in s.resources ::
           var e := s.resources[id];
           if id !in borrows then e
           else Entry(e.active, e.borrowers + {n}, if e.borrowers == {} then Some(n) else e.gate))
  }

  function Listed(s: State, call: nat): set<Id> { if call in s.provisional then s.provisional[call] else {} }

  predicate InCall(s: State, call: nat) {
    Call(call) in s.threads && (s.threads[Call(call)].Handler? || s.threads[Call(call)].Returned?)
  }

  /** An exporter outlives its handler, so exports may come late. */
  function ExportStep(s: State, call: nat): (x: State)
    ensures Frame(s, x, Call(call))
  {
    var id := s.lastResource + 1;
    if !s.phase.Accepts() || call > s.lastCall then s
    else
      s.(lastResource := id, resources := s.resources[id := Entry(false, {}, None)],
         provisional := s.provisional[call := Listed(s, call) + {id}],
         late := if InCall(s, call) then s.late else s.late + {id})
  }

  function ReturnStep(s: State, call: nat): (x: State)
    ensures Frame(s, x, Call(call))
  {
    var t := Call(call);
    if t !in s.threads || !s.threads[t].Handler? then s
    else
      s.(threads := s.threads[t := Returned],
         resources := map id | id in s.resources ::
           var e := s.resources[id];
           if id !in s.threads[t].borrows then e
           else Entry(e.active, e.borrowers - {call}, if e.borrowers - {call} == {} then None else e.gate))
  }

  function ReadStep(s: State, call: nat, failed: bool): (x: State)
    ensures Frame(s, x, Call(call))
  {
    var t := Call(call);
    if t !in s.threads || !s.threads[t].Returned? then s
    else if failed
    then
      s.(threads := s.threads[t := Working(Listed(s, call), NoJob)], provisional := s.provisional - {call},
         taken := s.taken + Listed(s, call))
    else s.(threads := s.threads[t := Read(Listed(s, call))], taken := s.taken + Listed(s, call))
  }

  /** What is forgotten when the list of `call` is dropped and only `ids` are acted on.
      Once cleanup has begun, it has read every list itself. */
  function Forgotten(s: State, call: nat, ids: set<Id>): set<Id> {
    if s.phase.Accepts() then Listed(s, call) - ids else {}
  }

  function RejectStep(s: State, call: nat): (x: State)
    ensures Frame(s, x, Call(call))
  {
    var t := Call(call);
    if t !in s.threads || !s.threads[t].Read? then s
    else
      s.(threads := s.threads[t := Working(s.threads[t].ids, NoJob)], provisional := s.provisional - {call},
         lost := s.lost + Forgotten(s, call, s.threads[t].ids))
  }

  function PublishStep(s: State, call: nat): (x: State)
    ensures Frame(s, x, Call(call))
  {
    var t := Call(call);
    if t !in s.threads || !s.threads[t].Read? then s
    else s.(threads := s.threads[t := Ending], results := s.results[call := s.threads[t].ids], owners := s.owners + {call})
  }

  // ----- decisions ------------------------------------------------------------------------------

  function DecideStep(s: State, call: nat, accept: bool): (x: State)
    ensures Frame(s, x, Decision(call))
  {
    if call !in s.owners || Decision(call) in s.threads then s
    else s.(threads := s.threads[Decision(call) := Deciding(accept)])
  }

  function FinishResultStep(s: State, call: nat): (x: State)
    ensures Frame(s, x, Decision(call))
  {
    var t := Decision(call);
    if t !in s.threads || !s.threads[t].Deciding? || call !in s.results then s
    else if call !in s.provisional then s.(threads := s.threads[t := Ending])
    else
      var ids := s.results[call];
      var y := s.(provisional := s.provisional - {call}, lost := s.lost + Forgotten(s, call, ids));
      if s.threads[t].accept && s.phase.Accepts() then
        y.(threads := s.threads[t := Ending],
           resources := map id | id in s.resources :: if id in ids then s.resources[id].(active := true) else s.resources[id],
           order := s.order + (ids * s.resources.Keys))
      else y.(threads := s.threads[t := Working(ids, NoJob)])
  }

  /** `Result.release` of an accepted result nobody received. */
  function StartReleaseStep(s: State, n: nat, call: nat): (x: State)
    ensures Frame(s, x, Release(n))
  {
    if !s.phase.Accepts() || Release(n) in s.threads || call !in s.results || call in s.owners then s
    else s.(threads := s.threads[Release(n) := Working(s.results[call], NoJob)])
  }

  // ----- closing --------------------------------------------------------------------------------

  /** No attempt on `id` is unfinished. */
  predicate Free(s: State, id: Id) { id in s.closes ==> s.closes[id] in s.done }

  function BeginAttempt(s: State, t: Tid, todo: set<Id>, id: Id): (x: State)
    requires id in s.resources
    ensures Frame(s, x, t)
  {
    var a := Attempt(t, s.lastAttempt + 1);
    s.(lastAttempt := s.lastAttempt + 1, closes := s.closes[id := a],
       threads := s.threads[t := Working(todo, Waiting(id, a, s.resources[id].gate))])
  }

  function StartDropStep(s: State, n: nat, id: Id): (x: State)
    ensures Frame(s, x, Drop(n))
  {
    if !s.phase.Accepts() || Drop(n) in s.threads || id !in s.resources || !s.resources[id].active || !Free(s, id) then s
    else BeginAttempt(s, Drop(n), {}, id)
  }

  /** The next object of a `releaseObjects` list. */
  function PickStep(s: State, t: Tid, id: Id): (x: State)
    ensures Frame(s, x, t)
  {
    if t !in s.threads || !s.threads[t].Working? || !s.threads[t].job.NoJob? || id !in s.threads[t].todo || !Free(s, id) then s
    else if id !in s.resources then s.(threads := s.threads[t := Working(s.threads[t].todo - {id}, NoJob)])
    else BeginAttempt(s, t, s.threads[t].todo, id)
  }

  /** The `borrowDone` channel captured by the attempt is not closed yet. */
  predicate StillBorrowed(s: State, id: Id, gate: Option<nat>) {
    gate.Some? && id in s.resources && s.resources[id].gate == gate
  }

  function InvokeStep(s: State, t: Tid): (x: State)
    ensures Frame(s, x, t)
  {
    if t !in s.threads || !s.threads[t].Job().Waiting? then s
    else
      var job := s.threads[t].job;
      if StillBorrowed(s, job.id, job.gate) then s
      else s.(threads := s.threads[t := Working(s.threads[t].todo, Closing(job.id, job.attempt))], attempted := s.attempted + {job.id})
  }

  function Detach(s: State, id: Id): State {
    s.(resources := s.resources - {id}, order := s.order - {id}, closes := s.closes - {id})
  }

  /** The outcome of a close made for Drop; the attempt is marked done in a later section. */
  function FinishDrop(s: State, t: Tid, ok: bool): (x: State)
    requires t in s.threads && s.threads[t].Job().Closing?
    ensures Frame(s, x, t)
  {
    var job := s.threads[t].job;
    (if ok then Detach(s, job.id).(succeeded := s.succeeded + {job.id}) else s)
    .(threads := s.threads[t := Working({}, Reporting(job.attempt))])
  }

  /** The outcome of a close made by `releaseObjects`. */
  function FinishRelease(s: State, t: Tid, ok: bool): (x: State)
    requires t in s.threads && s.threads[t].Job().Closing?
    ensures Frame(s, x, t)
  {
    var job := s.threads[t].job;
    (if ok then Detach(s, job.id).(succeeded := s.succeeded + {job.id})
     else if s.phase.Accepts() then s.(order := s.order + {job.id})
     else Detach(s, job.id))
    .(threads := s.threads[t := Working(s.threads[t].todo - {job.id}, NoJob)], done := s.done + {job.attempt})
  }

  function FinishCloseStep(s: State, t: Tid, ok: bool): (x: State)
    ensures Frame(s, x, t)
  {
    if t !in s.threads || !s.threads[t].Job().Closing? then s
    else if t.Drop? then FinishDrop(s, t, ok)
    else FinishRelease(s, t, ok)
  }

  function ReportStep(s: State, n: nat): (x: State)
    ensures Frame(s, x, Drop(n))
  {
    var t := Drop(n);
    if t !in s.threads || !s.threads[t].Job().Reporting? then s
    else s.(threads := s.threads - {t}, done := s.done + {s.threads[t].job.attempt})
  }

  /** A call, decision or release with nothing left to do. */
  function EndStep(s: State, t: Tid): (x: State)
    ensures Frame(s, x, t)
  {
    if t !in s.threads || t.Drop? || t.Cleanup? || !(s.threads[t].Ending? || s.threads[t] == Working({}, NoJob)) then s
    else s.(threads := s.threads - {t}, owners := if t.Decision? then s.owners - {t.n} else s.owners)
  }

  // ----- shutdown -----------------------------------------------------------------------------

  function AllListed(s: State): set<Id> {
    set call, id | call in s.provisional && id in s.provisional[call] :: id
  }

  function DrainStep(s: State): (x: State)
    ensures Frame(s, x, Cleanup)
  {
    if s.phase.Open? then s.(phase := Draining) else s
  }

  function BeginCleanupStep(s: State, force: bool): (x: State)
    ensures Frame(s, x, Cleanup)
  {
    if !s.phase.Accepts() then s
    else if !force && !(s.phase.Draining? && (forall t :: t in s.threads ==> !t.Call?) && s.owners == {} && s.resources == map[]) then s
    else
      var owed := if force then s.order + AllListed(s) else {};
      s.(phase := Cleaning, threads := s.threads[Cleanup := Barrier(owed)], taken := s.taken + owed)
  }

  /** Threads counted by the `calls` wait group. */
  predicate Counted(s: State, t: Tid) {
    t in s.threads && (t.Call? || t.Release? || (t.Drop? && !s.threads[t].Job().Reporting?))
  }

  function PassBarrierStep(s: State): (x: State)
    ensures Frame(s, x, Cleanup)
  {
    if Cleanup !in s.threads || !s.threads[Cleanup].Barrier? || exists t :: t in s.threads && Counted(s, t) then s
    else s.(threads := s.threads[Cleanup := Joining(s.threads[Cleanup].owed, s.owners)])
  }

  function JoinStep(s: State): (x: State)
    ensures Frame(s, x, Cleanup)
  {
    if Cleanup !in s.threads || !s.threads[Cleanup].Joining? || !(s.threads[Cleanup].results !! s.owners) then s
    else s.(threads := s.threads[Cleanup := Working(s.threads[Cleanup].owed, NoJob)])
  }

  function FinishCleanupStep(s: State): (x: State)
    ensures Frame(s, x, Cleanup)
  {
    if Cleanup !in s.threads || s.threads[Cleanup] != Working({}, NoJob) then s
    else
      s.(phase := Closed, threads := s.threads - {Cleanup}, resources := map[], closes := map[], order := {},
         provisional := map[], owners := {})
  }

  function Next(s: State, step: Step): State {
    match step
    case Admit(service, borrows) => AdmitStep(s, service, borrows)
    case Export(call) => ExportStep(s, call)
    case ReturnBorrows(call) => ReturnStep(s, call)
    case ReadProvisional(call, failed) => ReadStep(s, call, failed)
    case Reject(call) => RejectStep(s, call)
    case Publish(call) => PublishStep(s, call)
    case Decide(call, accept) => DecideStep(s, call, accept)
    case FinishResult(call) => FinishResultStep(s, call)
    case StartRelease(n, call) => StartReleaseStep(s, n, call)
    case StartDrop(n, id) => StartDropStep(s, n, id)
    case Pick(t, id) => PickStep(s, t, id)
    case Invoke(t) => InvokeStep(s, t)
    case FinishClose(t, ok) => FinishCloseStep(s, t, ok)
    case Report(n) => ReportStep(s, n)
    case End(t) => EndStep(s, t)
    case Drain => DrainStep(s)
    case BeginCleanup(force) => BeginCleanupStep(s, force)
    case PassBarrier => PassBarrierStep(s)
    case Join => JoinStep(s)
    case FinishCleanup => FinishCleanupStep(s)
  }

  function Run(s: State, steps: seq<Step>): State
    decreases |steps|
  {
    if steps == [] then s else Run(Next(s, steps[0]), steps[1..])
  }

  // ----- what is promised -----------------------------------------------------------------------

  ghost predicate ClosingNow(s: State, t: Tid, id: Id) {
    t in s.threads && s.threads[t].Job().Closing? && s.threads[t].job.id == id
  }

  ghost predicate Borrowing(s: State, call: nat, id: Id) {
    Call(call) in s.threads && s.threads[Call(call)].Handler? && id in s.threads[Call(call)].borrows
  }

  ghost predicate Exported(s: State, id: Id) { 0 < id <= s.lastResource }

  ghost predicate Safe(s: State) {
    && (forall t, u, id :: ClosingNow(s, t, id) && ClosingNow(s, u, id) ==> t == u)
    && (forall t, id, call :: ClosingNow(s, t, id) ==> !Borrowing(s, call, id))
    && (forall t, id :: ClosingNow(s, t, id) ==> id !in s.succeeded)
    && (s.phase.Closed? ==> forall id :: Exported(s, id) ==> (id in s.attempted <==> id !in s.lost))
    && s.lost <= s.late
  }

  // ----- the invariant ------------------------------------------------------------------------------

  ghost predicate ShapeOk(s: State, t: Tid)
    requires t in s.threads
  {
    var th := s.threads[t];
    && !(th.Working? && th.job.Reporting? && !t.Drop?)
    && match t
       case Call(n) => 0 < n <= s.lastCall && (th.Handler? || th.Returned? || th.Read? || th.Ending? || th.Working?)
       case Decision(n) => n in s.owners && (th.Deciding? || th.Ending? || th.Working?)
       case Release(n) => th.Working?
       case Drop(n) => th.Working? && th.todo == {} && !th.job.NoJob?
       case Cleanup => s.phase.Cleaning? && (th.Barrier? || th.Joining? || th.Working?)
  }

  /** An owner's call has published its result. */
  ghost predicate OwnerOk(s: State, n: nat) {
    n in s.owners ==>
      n in s.results && n <= s.lastCall && (Call(n) in s.threads ==> s.threads[Call(n)].Ending? || s.threads[Call(n)].Working?)
  }

  /** How far cleanup has come, and what can no longer happen. */
  ghost predicate CleanupOk(s: State) {
    && (s.phase.Cleaning? ==> Cleanup in s.threads)
    && (s.phase.Closed? ==> s.owners == {} && forall t :: !Counted(s, t))
    && (Cleanup in s.threads && !s.threads[Cleanup].Barrier? ==> forall t :: !Counted(s, t))
    && (Cleanup in s.threads && s.threads[Cleanup].Joining? ==> s.owners <= s.threads[Cleanup].results)
    && (Cleanup in s.threads && s.threads[Cleanup].Working? ==> s.owners == {})
  }

  ghost predicate JobOk(s: State, t: Tid)
    requires t in s.threads
  {
    var th, job := s.threads[t], s.threads[t].Job();
    && (!job.NoJob? ==> job.attempt.tid == t && job.attempt.serial <= s.lastAttempt && job.attempt !in s.done)
    && (job.Busy() ==>
        && job.id in s.closes && s.closes[job.id] == job.attempt && job.id in s.resources
        && (!t.Drop? ==> job.id in th.todo))
    && (job.Waiting? ==> s.resources[job.id].gate.None? || s.resources[job.id].gate == job.gate)
    && (job.Closing? ==> s.resources[job.id].gate.None? && job.id in s.attempted)
  }

  ghost predicate EntryOk(s: State, id: Id)
    requires id in s.resources
  {
    && 0 < id <= s.lastResource && id !in s.succeeded
    && (s.resources[id].gate.None? <==> s.resources[id].borrowers == {})
    && (forall n :: n in s.resources[id].borrowers <==> Borrowing(s, n, id))
  }

  ghost predicate Held(s: State, id: Id) {
    || (s.phase.Accepts() && (id in s.order || id in AllListed(s)))
    || exists t :: t in s.threads && id in s.threads[t].Todo()
  }

  /** An export with no close attempt yet is still known to someone who will make one. */
  ghost predicate CoverOk(s: State, id: Id) {
    Exported(s, id) && id !in s.lost && id !in s.attempted ==> !s.phase.Closed? && id in s.resources && Held(s, id)
  }

  ghost predicate ListOk(s: State, n: nat) {
    && (Call(n) in s.threads && s.threads[Call(n)].Read? ==> Listed(s, n) <= s.threads[Call(n)].ids + s.late)
    && (n in s.owners && n in s.results ==> Listed(s, n) <= s.results[n] + s.late)
  }

  ghost predicate Ranges(s: State) {
    && (forall a :: a in s.done ==> a.serial <= s.lastAttempt)
    && (forall id :: id in s.succeeded ==> id <= s.lastResource)
    && (forall id :: id in s.attempted ==> id <= s.lastResource)
  }

  ghost predicate Threads(s: State) {
    && CleanupOk(s) && (forall t :: t in s.threads ==> ShapeOk(s, t)) && (forall n :: OwnerOk(s, n))
  }

  ghost predicate Jobs(s: State) {
    Ranges(s) && forall t :: t in s.threads ==> JobOk(s, t)
  }

  ghost predicate Entries(s: State) {
    && (forall id :: id in s.resources ==> EntryOk(s, id))
    && (forall n, id :: Borrowing(s, n, id) ==> id in s.resources)
  }

  ghost predicate Covers(s: State) {
    (forall id :: CoverOk(s, id)) && (forall n :: ListOk(s, n)) && s.lost <= s.late
  }

  ghost predicate Basic(s: State) {
    Threads(s) && Jobs(s) && Entries(s) && Covers(s)
  }

  // ----- how the parts survive a step that moves one thread ---------------------------------------

  lemma {:induction false} ThreadsKept(s: State, x: State, actor: Tid)
    requires Threads(s) && Frame(s, x, actor) && actor != Cleanup
    requires actor in x.threads ==> ShapeOk(x, actor)
    requires Counted(x, actor) ==> Counted(s, actor) || s.phase.Accepts()
    requires actor.Call? ==> OwnerOk(x, actor.n) && (actor.n in x.owners ==> actor.n in s.owners || actor in s.threads)
    ensures Threads(x)
  {
    forall t | t in x.threads ensures ShapeOk(x, t) {
      if t != actor { assert ShapeOk(s, t); }
    }
    forall n ensures OwnerOk(x, n) {
      if actor != Call(n) { assert OwnerOk(s, n); }
    }
    CleanupKept(s, x, actor);
  }

  lemma {:induction false} CleanupKept(s: State, x: State, actor: Tid)
    requires CleanupOk(s) && Frame(s, x, actor) && actor != Cleanup && (Cleanup in s.threads ==> ShapeOk(s, Cleanup))
    requires Counted(x, actor) ==> Counted(s, actor) || s.phase.Accepts()
    requires actor.Call? && actor.n in x.owners ==> actor.n in s.owners || actor in s.threads
    ensures CleanupOk(x)
  {
    forall t | Counted(x, t) ensures Counted(s, t) || s.phase.Accepts() {}
    forall n | n in x.owners ensures n in s.owners || Counted(s, Call(n)) {}
  }

  /** Other threads' unfinished attempts, and the gates they wait at, are left alone. */
  ghost predicate ClosesKept(s: State, x: State, actor: Tid) {
    && (forall a :: a in x.done ==> a in s.done || a.tid == actor)
    && (forall id :: id in s.closes && s.closes[id].tid != actor && s.closes[id] !in s.done ==>
          id in x.closes && x.closes[id] == s.closes[id])
    && (forall id :: id in s.closes && s.closes[id].tid != actor && s.closes[id] !in s.done && id in s.resources ==>
          id in x.resources && (x.resources[id].gate == s.resources[id].gate || x.resources[id].gate.None?))
  }

  lemma {:induction false} JobsKept(s: State, x: State, actor: Tid)
    requires Jobs(s) && Frame(s, x, actor) && ClosesKept(s, x, actor) && Ranges(x)
    requires actor in x.threads ==> JobOk(x, actor)
    ensures Jobs(x)
  {
    forall t | t in x.threads ensures JobOk(x, t) {
      if t != actor { assert JobOk(s, t); }
    }
  }

  predicate IsHandler(s: State, t: Tid) { t in s.threads && s.threads[t].Handler? }

  lemma {:induction false} EntriesKept(s: State, x: State, actor: Tid)
    requires Entries(s) && Frame(s, x, actor) && !IsHandler(s, actor) && !IsHandler(x, actor)
    requires forall id :: id in x.resources ==> 0 < id <= x.lastResource && id !in x.succeeded
    requires forall id :: id in x.resources && id in s.resources ==>
      x.resources[id].borrowers == s.resources[id].borrowers && x.resources[id].gate == s.resources[id].gate
    requires forall id :: id in x.resources && id !in s.resources ==> x.resources[id].borrowers == {} && x.resources[id].gate.None?
    requires forall id :: id in s.resources && id !in x.resources ==> s.resources[id].borrowers == {}
    ensures Entries(x)
  {
    forall n, id ensures Borrowing(x, n, id) <==> Borrowing(s, n, id) {}
    forall id | id in x.resources ensures EntryOk(x, id) {
      if id in s.resources { assert EntryOk(s, id); }
    }
    forall n, id | Borrowing(x, n, id) ensures id in x.resources { assert EntryOk(s, id); }
  }

  ghost predicate Unsettled(s: State, id: Id) { Exported(s, id) && id !in s.lost && id !in s.attempted }

  ghost predicate Owed(s: State, t: Tid, id: Id) { t in s.threads && id in s.threads[t].Todo() }

  lemma {:induction false} CoversKept(s: State, x: State, actor: Tid)
    requires Covers(s) && Frame(s, x, actor) && x.phase == s.phase && x.lastResource == s.lastResource
    requires forall id :: Unsettled(x, id) && id in s.resources ==> id in x.resources
    requires forall id :: Unsettled(x, id) && id in s.order ==> id in x.order
    requires x.phase.Accepts() ==>
      forall id :: Unsettled(x, id) && id in AllListed(s) ==> id in AllListed(x) || id in x.order || Owed(x, actor, id)
    requires forall id :: Unsettled(x, id) && Owed(s, actor, id) ==> Owed(x, actor, id)
    requires forall n :: Listed(x, n) <= Listed(s, n)
    requires actor.Call? ==> ListOk(x, actor.n)
    requires x.lost <= s.lost + x.late
    ensures Covers(x)
  {
    forall id ensures CoverOk(x, id) {
      assert CoverOk(s, id);
      if Unsettled(x, id) { HeldKept(s, x, actor, id); }
    }
    forall n ensures ListOk(x, n) { assert ListOk(s, n); }
  }

  lemma {:induction false} HeldKept(s: State, x: State, actor: Tid, id: Id)
    requires Held(s, id) && Frame(s, x, actor) && x.phase == s.phase
    requires id in s.order ==> id in x.order
    requires x.phase.Accepts() && id in AllListed(s) ==> id in AllListed(x) || id in x.order || Owed(x, actor, id)
    requires Owed(s, actor, id) ==> Owed(x, actor, id)
    ensures Held(x, id)
  {
    hide AllListed;
    if t :| Owed(s, t, id) {
      assert Owed(x, t, id);
    }
  }

  // ----- steps of a call ----------------------------------------------------------------------------

  /** A step that touches neither resources nor attempts. */
  ghost predicate Aside(s: State, x: State) {
    && x.resources == s.resources && x.closes == s.closes && x.done == s.done && x.attempted == s.attempted
    && x.succeeded == s.succeeded && x.lastResource == s.lastResource && x.lastAttempt == s.lastAttempt
  }

  lemma {:induction false} AsideKeeps(s: State, x: State, actor: Tid)
    requires Jobs(s) && Entries(s) && Frame(s, x, actor) && Aside(s, x)
    requires !IsHandler(s, actor) && !IsHandler(x, actor)
    requires actor in x.threads ==> JobOk(x, actor)
    ensures Jobs(x) && Entries(x)
  {
    hide Frame;
    assert ClosesKept(s, x, actor) && Ranges(x);
    JobsKept(s, x, actor);
    forall id | id in x.resources ensures 0 < id <= x.lastResource && id !in x.succeeded { assert EntryOk(s, id); }
    EntriesKept(s, x, actor);
  }

  lemma {:induction false} ReadKeeps(s: State, call: nat, failed: bool)
    requires Basic(s)
    ensures Basic(ReadStep(s, call, failed))
  {
    var t, x := Call(call), ReadStep(s, call, failed);
    if x != s {
      assert ShapeOk(s, t) && OwnerOk(s, call);
      ThreadsKept(s, x, t);
      AsideKeeps(s, x, t);
      ListsShrink(s, x, call);
      CoversKept(s, x, t);
    }
  }

  lemma {:induction false} ListsShrink(s: State, x: State, call: nat)
    requires x.provisional == s.provisional || x.provisional == s.provisional - {call}
    ensures forall n :: Listed(x, n) <= Listed(s, n)
    ensures forall id :: id in AllListed(s) ==> id in AllListed(x) || id in Listed(s, call)
  {
    forall id | id in AllListed(s) ensures id in AllListed(x) || id in Listed(s, call) {
      var c :| c in s.provisional && id in s.provisional[c];
      assert c != call ==> c in x.provisional && id in x.provisional[c];
    }
  }

  lemma {:induction false} RejectKeeps(s: State, call: nat)
    requires Basic(s)
    ensures Basic(RejectStep(s, call))
  {
    var t, x := Call(call), RejectStep(s, call);
    if x != s {
      assert ShapeOk(s, t) && OwnerOk(s, call) && ListOk(s, call);
      ThreadsKept(s, x, t);
      AsideKeeps(s, x, t);
      ListsShrink(s, x, call);
      CoversKept(s, x, t);
    }
  }

  lemma {:induction false} PublishKeeps(s: State, call: nat)
    requires Basic(s)
    ensures Basic(PublishStep(s, call))
  {
    var t, x := Call(call), PublishStep(s, call);
    if x != s {
      assert ShapeOk(s, t) && OwnerOk(s, call) && ListOk(s, call);
      ThreadsKept(s, x, t);
      AsideKeeps(s, x, t);
      CoversKept(s, x, t);
    }
  }

  lemma {:induction false} ExportKeepsCover(s: State, call: nat)
    requires Basic(s)
    ensures Covers(ExportStep(s, call))
  {
    hide Jobs, Entries, ShapeOk, CleanupOk;
    var x := ExportStep(s, call);
    if x != s {
      var added := s.lastResource + 1;
      assert call in x.provisional && added in x.provisional[call];
      assert added in AllListed(x);
      forall id ensures CoverOk(x, id) {
        assert CoverOk(s, id);
        if Unsettled(x, id) && id != added {
          if id in AllListed(s) {
            var c :| c in s.provisional && id in s.provisional[c];
            assert c in x.provisional && id in x.provisional[c];
          }
          HeldKept(s, x, Call(call), id);
        }
      }
      forall n ensures ListOk(x, n) { assert ListOk(s, n) && OwnerOk(s, n); }
    }
  }

  lemma {:induction false} ExportKeeps(s: State, call: nat)
    requires Basic(s)
    ensures Basic(ExportStep(s, call))
  {
    ExportKeepsCover(s, call);
    hide Covers, AllListed;
    var t, x := Call(call), ExportStep(s, call);
    if x != s {
      assert t in s.threads ==> ShapeOk(s, t) && JobOk(s, t);
      assert OwnerOk(s, call);
      ThreadsKept(s, x, t);
      forall id | id in s.closes && id in s.resources ensures id in x.resources && x.resources[id] == s.resources[id] {
        assert EntryOk(s, id);
      }
      JobsKept(s, x, t);
      ExportEntries(s, call);
    }
  }

  lemma {:induction false} ExportEntries(s: State, call: nat)
    requires Entries(s) && Ranges(s)
    ensures Entries(ExportStep(s, call))
  {
    var x := ExportStep(s, call);
    hide Frame, AllListed;
    if x != s {
      forall id | id in x.resources ensures EntryOk(x, id) {
        if id in s.resources {
          assert EntryOk(s, id);
          forall n ensures Borrowing(x, n, id) <==> Borrowing(s, n, id) {}
        } else {
          forall n ensures !Borrowing(x, n, id) { assert Borrowing(x, n, id) ==> Borrowing(s, n, id); }
        }
      }
      forall n, id | Borrowing(x, n, id) ensures id in x.resources { assert Borrowing(s, n, id); }
    }
  }

  lemma {:induction false} AdmitEntries(s: State, service: bool, borrows: set<Id>)
    requires Entries(s) && Threads(s)
    ensures Entries(AdmitStep(s, service, borrows))
  {
    hide Frame, CleanupOk, OwnerOk, Borrowable;
    var x, added := AdmitStep(s, service, borrows), s.lastCall + 1;
    if x != s {
      assert Call(added) in s.threads ==> ShapeOk(s, Call(added));
      forall n, id ensures Borrowing(x, n, id) <==> Borrowing(s, n, id) || (n == added && id in borrows) {}
      forall id | id in x.resources ensures EntryOk(x, id) {
        assert EntryOk(s, id);
      }
      forall n, id | Borrowing(x, n, id) ensures id in x.resources {
        if n == added { AdmittedExist(s, service, borrows, id); }
      }
    }
  }

  lemma {:induction false} AdmittedExist(s: State, service: bool, borrows: set<Id>, id: Id)
    requires AdmitStep(s, service, borrows) != s && id in borrows
    ensures Borrowable(s, id) && id in s.resources
  {
  }

  lemma {:induction false} AdmitKeeps(s: State, service: bool, borrows: set<Id>)
    requires Basic(s)
    ensures Basic(AdmitStep(s, service, borrows))
  {
    var t, x := Call(s.lastCall + 1), AdmitStep(s, service, borrows);
    AdmitEntries(s, service, borrows);
    hide Entries;
    if x != s {
      assert t in s.threads ==> ShapeOk(s, t);
      assert OwnerOk(s, t.n) && ListOk(s, t.n);
      ThreadsKept(s, x, t);
      forall id | id in s.closes && id in s.resources ensures x.resources[id] == s.resources[id] {
        assert id in borrows ==> Borrowable(s, id);
      }
      JobsKept(s, x, t);
      CoversKept(s, x, t);
    }
  }

  lemma {:induction false} ReturnEntries(s: State, call: nat)
    requires Entries(s)
    ensures Entries(ReturnStep(s, call))
  {
    hide Frame;
    var x := ReturnStep(s, call);
    if x != s {
      forall n, id ensures Borrowing(x, n, id) <==> Borrowing(s, n, id) && n != call {}
      forall id | id in x.resources ensures EntryOk(x, id) {
        assert EntryOk(s, id);
        assert call in s.resources[id].borrowers <==> Borrowing(s, call, id);
      }
    }
  }

  lemma {:induction false} ReturnKeeps(s: State, call: nat)
    requires Basic(s)
    ensures Basic(ReturnStep(s, call))
  {
    var t, x := Call(call), ReturnStep(s, call);
    ReturnEntries(s, call);
    hide Entries;
    if x != s {
      assert ShapeOk(s, t) && OwnerOk(s, call) && ListOk(s, call);
      ThreadsKept(s, x, t);
      JobsKept(s, x, t);
      CoversKept(s, x, t);
    }
  }

  // ----- steps of a decision ------------------------------------------------------------------------

  lemma {:induction false} DecideKeeps(s: State, call: nat, accept: bool)
    requires Basic(s)
    ensures Basic(DecideStep(s, call, accept))
  {
    var t, x := Decision(call), DecideStep(s, call, accept);
    if x != s {
      ThreadsKept(s, x, t);
      AsideKeeps(s, x, t);
      CoversKept(s, x, t);
    }
  }

  lemma {:induction false} StartReleaseKeeps(s: State, n: nat, call: nat)
    requires Basic(s)
    ensures Basic(StartReleaseStep(s, n, call))
  {
    var t, x := Release(n), StartReleaseStep(s, n, call);
    if x != s {
      ThreadsKept(s, x, t);
      AsideKeeps(s, x, t);
      CoversKept(s, x, t);
    }
  }

  lemma {:induction false} FinishResultKeeps(s: State, call: nat)
    requires Basic(s)
    ensures Basic(FinishResultStep(s, call))
  {
    var t, x := Decision(call), FinishResultStep(s, call);
    if x != s {
      assert ShapeOk(s, t);
      assert Threads(x) by { hide Jobs, Entries, Covers; ThreadsKept(s, x, t); }
      FinishResultJobs(s, call);
      FinishResultEntries(s, call);
      FinishResultCover(s, call);
    }
  }

  lemma {:induction false} FinishResultJobs(s: State, call: nat)
    requires Jobs(s)
    ensures Jobs(FinishResultStep(s, call))
  {
    var t, x := Decision(call), FinishResultStep(s, call);
    if x != s { JobsKept(s, x, t); }
  }

  lemma {:induction false} FinishResultEntries(s: State, call: nat)
    requires Entries(s)
    ensures Entries(FinishResultStep(s, call))
  {
    var t, x := Decision(call), FinishResultStep(s, call);
    if x != s {
      forall id | id in x.resources ensures 0 < id <= x.lastResource && id !in x.succeeded { assert EntryOk(s, id); }
      EntriesKept(s, x, t);
    }
  }

  lemma {:induction false} FinishResultCover(s: State, call: nat)
    requires Covers(s) && call in s.owners
    ensures Covers(FinishResultStep(s, call))
  {
    var t, x := Decision(call), FinishResultStep(s, call);
    if x != s {
      assert ListOk(s, call);
      ListsShrink(s, x, call);
      forall id | Unsettled(x, id) ensures id in s.resources && id !in s.lost { assert CoverOk(s, id); }
      CoversKept(s, x, t);
    }
  }

  lemma {:induction false} EndKeeps(s: State, t: Tid)
    requires Basic(s)
    ensures Basic(EndStep(s, t))
  {
    var x := EndStep(s, t);
    if x != s {
      assert ShapeOk(s, t);
      assert t.Call? ==> OwnerOk(s, t.n) && ListOk(s, t.n);
      ThreadsKept(s, x, t);
      AsideKeeps(s, x, t);
      CoversKept(s, x, t);
    }
  }

  // ----- close attempts -----------------------------------------------------------------------------

  /** A worker, the cleanup included, goes on with its list. */
  lemma {:induction false} WorkerKeeps(s: State, x: State, t: Tid)
    requires Threads(s) && Frame(s, x, t) && x.phase == s.phase && x.owners == s.owners && x.results == s.results
    requires t in s.threads && s.threads[t].Working? && t in x.threads && x.threads[t].Working?
    requires if t.Drop? then x.threads[t].todo == {} && !x.threads[t].job.NoJob? else !x.threads[t].job.Reporting?
    requires Counted(x, t) ==> Counted(s, t)
    ensures Threads(x)
  {
    assert ShapeOk(s, t);
    if t != Cleanup {
      assert t.Call? ==> OwnerOk(s, t.n);
      ThreadsKept(s, x, t);
    } else {
      forall u | u in x.threads ensures ShapeOk(x, u) { assert ShapeOk(s, u); }
      forall n ensures OwnerOk(x, n) { assert OwnerOk(s, n); }
      forall u | Counted(x, u) ensures Counted(s, u) {}
    }
  }

  /** A new attempt on a resource nobody is closing. */
  lemma {:induction false} AttemptKeeps(s: State, t: Tid, todo: set<Id>, id: Id)
    requires Basic(s) && id in s.resources && Free(s, id)
    requires t in s.threads ==> s.threads[t] == Working(todo, NoJob)
    requires if t.Drop? then t !in s.threads && todo == {} && s.phase.Accepts() else t in s.threads && id in todo
    ensures Basic(BeginAttempt(s, t, todo, id))
  {
    var x := BeginAttempt(s, t, todo, id);
    assert Threads(x) by {
      hide Jobs, Entries, Covers;
      if t.Drop? { ThreadsKept(s, x, t); } else { WorkerKeeps(s, x, t); }
    }
    AttemptJobs(s, t, todo, id);
    assert Entries(x) by {
      hide Jobs, Covers, Threads;
      forall i | i in x.resources ensures 0 < i <= x.lastResource && i !in x.succeeded { assert EntryOk(s, i); }
      EntriesKept(s, x, t);
    }
    hide Entries, Jobs, Threads;
    assert t.Call? ==> ListOk(s, t.n);
    CoversKept(s, x, t);
  }

  lemma {:induction false} AttemptJobs(s: State, t: Tid, todo: set<Id>, id: Id)
    requires Jobs(s) && id in s.resources && Free(s, id) && (!t.Drop? ==> id in todo)
    ensures Jobs(BeginAttempt(s, t, todo, id))
  {
    JobsKept(s, BeginAttempt(s, t, todo, id), t);
  }

  lemma {:induction false} StartDropKeeps(s: State, n: nat, id: Id)
    requires Basic(s)
    ensures Basic(StartDropStep(s, n, id))
  {
    hide Basic, Frame, BeginAttempt;
    if StartDropStep(s, n, id) != s { AttemptKeeps(s, Drop(n), {}, id); }
  }

  lemma {:induction false} PickKeeps(s: State, t: Tid, id: Id)
    requires Basic(s)
    ensures Basic(PickStep(s, t, id))
  {
    if PickStep(s, t, id) != s {
      assert ShapeOk(s, t);
      hide Basic, BeginAttempt, Frame;
      if id in s.resources { AttemptKeeps(s, t, s.threads[t].todo, id); } else { SkipKeeps(s, t, id); }
    }
  }

  /** An object that is already gone is passed over. */
  lemma {:induction false} SkipKeeps(s: State, t: Tid, id: Id)
    requires Basic(s) && id !in s.resources && PickStep(s, t, id) != s
    ensures Basic(PickStep(s, t, id))
  {
    hide BeginAttempt;
    var x := PickStep(s, t, id);
    assert Threads(x) by { hide Jobs, Entries, Covers; assert ShapeOk(s, t); WorkerKeeps(s, x, t); }
    assert Jobs(x) && Entries(x) by { hide Threads, Covers; AsideKeeps(s, x, t); }
    hide Entries, Jobs, Threads;
    assert t.Call? ==> ListOk(s, t.n);
    assert CoverOk(s, id);
    CoversKept(s, x, t);
  }

  lemma {:induction false} InvokeKeeps(s: State, t: Tid)
    requires Basic(s)
    ensures Basic(InvokeStep(s, t))
  {
    var x := InvokeStep(s, t);
    if x != s {
      assert Threads(x) by { hide Jobs, Entries, Covers; assert ShapeOk(s, t); WorkerKeeps(s, x, t); }
      InvokeJobs(s, t);
      assert Entries(x) by {
        hide Threads, Jobs, Covers;
        forall i | i in x.resources ensures 0 < i <= x.lastResource && i !in x.succeeded { assert EntryOk(s, i); }
        EntriesKept(s, x, t);
      }
      hide Entries, Jobs, Threads;
      assert t.Call? ==> ListOk(s, t.n);
      CoversKept(s, x, t);
    }
  }

  /** A close is invoked only when the borrowers it found have left, and no others came. */
  lemma {:induction false} InvokeJobs(s: State, t: Tid)
    requires Jobs(s) && Entries(s)
    ensures Jobs(InvokeStep(s, t))
  {
    var x := InvokeStep(s, t);
    if x != s {
      assert JobOk(s, t) && EntryOk(s, s.threads[t].job.id);
      JobsKept(s, x, t);
    }
  }

  /** What a finished close on `id` may change. */
  ghost predicate Finishes(s: State, x: State, t: Tid, id: Id) {
    && t in s.threads && s.threads[t].Working? && t in x.threads && x.threads[t].Working?
    && s.threads[t].todo - {id} <= x.threads[t].todo
    && x.phase == s.phase && x.owners == s.owners && x.results == s.results && x.provisional == s.provisional
    && x.lastResource == s.lastResource && x.attempted == s.attempted && x.late == s.late
    && x.taken == s.taken && x.lost == s.lost
    && s.order - {id} <= x.order
    && (|| (x.resources == s.resources && x.succeeded == s.succeeded)
        || (x.resources == s.resources - {id} && x.succeeded <= s.succeeded + {id}))
  }

  lemma {:induction false} EntriesFinish(s: State, x: State, t: Tid, id: Id)
    requires Entries(s) && Frame(s, x, t) && Finishes(s, x, t, id) && id in s.resources && s.resources[id].gate.None?
    ensures Entries(x)
  {
    assert EntryOk(s, id);
    forall i | i in x.resources ensures 0 < i <= x.lastResource && i !in x.succeeded { assert EntryOk(s, i); }
    EntriesKept(s, x, t);
  }

  lemma {:induction false} CoversFinish(s: State, x: State, t: Tid, id: Id)
    requires Covers(s) && Frame(s, x, t) && Finishes(s, x, t, id) && id in s.attempted
    ensures Covers(x)
  {
    assert t.Call? ==> ListOk(s, t.n);
    CoversKept(s, x, t);
  }

  lemma {:induction false} FinishDropKeeps(s: State, t: Tid, ok: bool)
    requires Basic(s) && t in s.threads && s.threads[t].Job().Closing? && t.Drop?
    ensures Basic(FinishDrop(s, t, ok))
  {
    var x, id := FinishDrop(s, t, ok), s.threads[t].job.id;
    FinishDropJobs(s, t, ok);
    FinishDropThreads(s, t, ok);
    assert ShapeOk(s, t);
    FinishDropEffect(s, t, ok);
    assert JobOk(s, t);
    hide FinishDrop, Jobs, Threads, Entries, Covers, Frame, Finishes;
    EntriesFinish(s, x, t, id);
    CoversFinish(s, x, t, id);
  }

  lemma {:induction false} FinishDropThreads(s: State, t: Tid, ok: bool)
    requires Threads(s) && t in s.threads && s.threads[t].Job().Closing? && t.Drop?
    ensures Threads(FinishDrop(s, t, ok))
  {
    assert ShapeOk(s, t);
    hide Threads;
    WorkerKeeps(s, FinishDrop(s, t, ok), t);
  }

  lemma {:induction false} FinishDropEffect(s: State, t: Tid, ok: bool)
    requires t in s.threads && s.threads[t].Job().Closing? && s.threads[t].todo == {}
    ensures Frame(s, FinishDrop(s, t, ok), t) && Finishes(s, FinishDrop(s, t, ok), t, s.threads[t].job.id)
  {
    hide Frame;
  }

  lemma {:induction false} FinishDropJobs(s: State, t: Tid, ok: bool)
    requires Jobs(s) && Entries(s) && t in s.threads && s.threads[t].Job().Closing? && t.Drop?
    ensures Jobs(FinishDrop(s, t, ok))
  {
    assert JobOk(s, t) && EntryOk(s, s.threads[t].job.id);
    JobsKept(s, FinishDrop(s, t, ok), t);
  }

  lemma {:induction false} FinishReleaseKeeps(s: State, t: Tid, ok: bool)
    requires Basic(s) && t in s.threads && s.threads[t].Job().Closing? && !t.Drop?
    ensures Basic(FinishRelease(s, t, ok))
  {
    var x, id := FinishRelease(s, t, ok), s.threads[t].job.id;
    FinishReleaseJobs(s, t, ok);
    FinishReleaseThreads(s, t, ok);
    FinishReleaseEffect(s, t, ok);
    assert JobOk(s, t);
    hide FinishRelease, Jobs, Threads, Entries, Covers, Frame, Finishes;
    EntriesFinish(s, x, t, id);
    CoversFinish(s, x, t, id);
  }

  lemma {:induction false} FinishReleaseThreads(s: State, t: Tid, ok: bool)
    requires Threads(s) && t in s.threads && s.threads[t].Job().Closing? && !t.Drop?
    ensures Threads(FinishRelease(s, t, ok))
  {
    assert ShapeOk(s, t);
    hide Threads;
    WorkerKeeps(s, FinishRelease(s, t, ok), t);
  }

  lemma {:induction false} FinishReleaseEffect(s: State, t: Tid, ok: bool)
    requires t in s.threads && s.threads[t].Job().Closing?
    ensures Frame(s, FinishRelease(s, t, ok), t) && Finishes(s, FinishRelease(s, t, ok), t, s.threads[t].job.id)
  {
    hide Frame;
    if ok {
    } else if s.phase.Accepts() {
    } else {
    }
  }

  lemma {:induction false} FinishReleaseJobs(s: State, t: Tid, ok: bool)
    requires Jobs(s) && Entries(s) && t in s.threads && s.threads[t].Job().Closing? && !t.Drop?
    ensures Jobs(FinishRelease(s, t, ok))
  {
    assert JobOk(s, t) && EntryOk(s, s.threads[t].job.id);
    JobsKept(s, FinishRelease(s, t, ok), t);
  }

  lemma {:induction false} ReportKeeps(s: State, n: nat)
    requires Basic(s)
    ensures Basic(ReportStep(s, n))
  {
    var t, x := Drop(n), ReportStep(s, n);
    if x != s {
      assert ShapeOk(s, t) && JobOk(s, t);
      assert Threads(x) by { hide Jobs, Entries, Covers; ThreadsKept(s, x, t); }
      assert Jobs(x) by { hide Threads, Covers, Entries; JobsKept(s, x, t); }
      assert Entries(x) by {
        hide Threads, Jobs, Covers;
        forall i | i in x.resources ensures 0 < i <= x.lastResource && i !in x.succeeded { assert EntryOk(s, i); }
        EntriesKept(s, x, t);
      }
      hide Entries, Jobs, Threads;
      CoversKept(s, x, t);
    }
  }

  // ----- shutdown -----------------------------------------------------------------------------------

  lemma {:induction false} DrainKeeps(s: State)
    requires Basic(s)
    ensures Basic(DrainStep(s))
  {
    var x := DrainStep(s);
    if x != s {
      assert Cleanup in s.threads ==> ShapeOk(s, Cleanup);
      forall t | t in x.threads ensures ShapeOk(x, t) && JobOk(x, t) { assert ShapeOk(s, t) && JobOk(s, t); }
      forall n ensures OwnerOk(x, n) && ListOk(x, n) { assert OwnerOk(s, n) && ListOk(s, n); }
      forall id | id in x.resources ensures EntryOk(x, id) {
        assert EntryOk(s, id);
        forall n ensures Borrowing(x, n, id) <==> Borrowing(s, n, id) {}
      }
      forall n, id | Borrowing(x, n, id) ensures id in x.resources { assert Borrowing(s, n, id); }
      forall id ensures CoverOk(x, id) {
        assert CoverOk(s, id);
        assert AllListed(x) == AllListed(s);
        hide AllListed;
        assert Held(s, id) ==> Held(x, id);
      }
    }
  }

  /** From here on the cleanup owes every resource that an accepted or pending result holds. */
  lemma {:induction false} BeginCleanupCover(s: State, force: bool)
    requires Covers(s) && Cleanup !in s.threads
    ensures Covers(BeginCleanupStep(s, force))
  {
    var x := BeginCleanupStep(s, force);
    hide Frame, AllListed;
    if x != s {
      forall id ensures CoverOk(x, id) {
        assert CoverOk(s, id);
        if Unsettled(x, id) && force {
          if id in s.order || id in AllListed(s) {
            assert Owed(x, Cleanup, id);
          } else {
            var t :| t in s.threads && id in s.threads[t].Todo();
            assert x.threads[t] == s.threads[t];
          }
        }
      }
      forall n ensures ListOk(x, n) { assert ListOk(s, n); }
    }
  }

  lemma {:induction false} BeginCleanupThreads(s: State, force: bool)
    requires Threads(s) && Cleanup !in s.threads
    ensures Threads(BeginCleanupStep(s, force))
  {
    hide AllListed;
    var x := BeginCleanupStep(s, force);
    if x != s {
      forall t | t in x.threads ensures ShapeOk(x, t) { if t != Cleanup { assert ShapeOk(s, t); } }
      forall n ensures OwnerOk(x, n) { assert OwnerOk(s, n); }
    }
  }

  lemma {:induction false} BeginCleanupKeeps(s: State, force: bool)
    requires Basic(s)
    ensures Basic(BeginCleanupStep(s, force))
  {
    assert Cleanup in s.threads ==> ShapeOk(s, Cleanup);
    var x := BeginCleanupStep(s, force);
    if x != s {
      BeginCleanupThreads(s, force);
      BeginCleanupCover(s, force);
      hide Threads, Covers, AllListed;
      AsideKeeps(s, x, Cleanup);
    }
  }

  lemma {:induction false} PassBarrierThreads(s: State)
    requires Threads(s)
    ensures Threads(PassBarrierStep(s))
  {
    var x := PassBarrierStep(s);
    if x != s {
      forall t | t in x.threads ensures ShapeOk(x, t) { assert ShapeOk(s, t); }
      forall n ensures OwnerOk(x, n) { assert OwnerOk(s, n); }
      forall t ensures Counted(x, t) <==> Counted(s, t) {}
    }
  }

  lemma {:induction false} JoinThreads(s: State)
    requires Threads(s)
    ensures Threads(JoinStep(s))
  {
    var x := JoinStep(s);
    if x != s {
      forall t | t in x.threads ensures ShapeOk(x, t) { assert ShapeOk(s, t); }
      forall n ensures OwnerOk(x, n) { assert OwnerOk(s, n); }
      forall t ensures Counted(x, t) <==> Counted(s, t) {}
    }
  }

  /** Passing the barrier and joining the results keep what the cleanup owes. */
  lemma {:induction false} CleanupAdvances(s: State, x: State)
    requires Basic(s) && (x == PassBarrierStep(s) || x == JoinStep(s))
    ensures Basic(x)
  {
    PassBarrierThreads(s);
    JoinThreads(s);
    hide Threads;
    if x != s {
      assert Jobs(x) && Entries(x) by { hide Covers; AsideKeeps(s, x, Cleanup); }
      hide Entries, Jobs;
      CoversKept(s, x, Cleanup);
    }
  }

  /** At the end nobody owes a close, so nothing is left unattempted. */
  lemma {:induction false} FinishCleanupCover(s: State)
    requires Threads(s) && Covers(s)
    ensures Covers(FinishCleanupStep(s))
  {
    var x := FinishCleanupStep(s);
    hide AllListed, Frame;
    if x != s {
      assert ShapeOk(s, Cleanup);
      forall t ensures !(t in s.threads && s.threads[t].Todo() != {}) {
        assert t in s.threads ==> ShapeOk(s, t) && !Counted(s, t);
      }
      forall id ensures CoverOk(x, id) { assert CoverOk(s, id); }
      forall n ensures ListOk(x, n) { assert ListOk(s, n); }
    }
  }

  lemma {:induction false} FinishCleanupKeeps(s: State)
    requires Basic(s)
    ensures Basic(FinishCleanupStep(s))
  {
    var x := FinishCleanupStep(s);
    FinishCleanupCover(s);
    hide Covers;
    if x != s {
      assert ShapeOk(s, Cleanup);
      forall t | t in x.threads ensures ShapeOk(x, t) && JobOk(x, t) {
        assert ShapeOk(s, t) && JobOk(s, t) && !Counted(s, t);
      }
      forall n ensures OwnerOk(x, n) { assert OwnerOk(s, n); }
      forall n, id ensures !Borrowing(x, n, id) { assert !Counted(s, Call(n)); }
      forall t ensures !Counted(x, t) { assert !Counted(s, t); }
    }
  }

  // ----- every step -----------------------------------------------------------------------------------

  lemma {:induction false} StepKeepsBasic(s: State, step: Step)
    requires Basic(s)
    ensures Basic(Next(s, step))
  {
    hide Basic, Frame, AdmitStep, ExportStep, ReturnStep, ReadStep, RejectStep, PublishStep, DecideStep, FinishResultStep,
      StartReleaseStep, StartDropStep, PickStep, InvokeStep, FinishDrop, FinishRelease, ReportStep, EndStep, DrainStep,
      BeginCleanupStep, PassBarrierStep, JoinStep, FinishCleanupStep;
    match step
    case Admit(service, borrows) => AdmitKeeps(s, service, borrows);
    case Export(call) => ExportKeeps(s, call);
    case ReturnBorrows(call) => ReturnKeeps(s, call);
    case ReadProvisional(call, failed) => ReadKeeps(s, call, failed);
    case Reject(call) => RejectKeeps(s, call);
    case Publish(call) => PublishKeeps(s, call);
    case Decide(call, accept) => DecideKeeps(s, call, accept);
    case FinishResult(call) => FinishResultKeeps(s, call);
    case StartRelease(n, call) => StartReleaseKeeps(s, n, call);
    case StartDrop(n, id) => StartDropKeeps(s, n, id);
    case Pick(t, id) => PickKeeps(s, t, id);
    case Invoke(t) => InvokeKeeps(s, t);
    case FinishClose(t, ok) =>
      if t in s.threads && s.threads[t].Job().Closing? {
        if t.Drop? { FinishDropKeeps(s, t, ok); } else { FinishReleaseKeeps(s, t, ok); }
      }
    case Report(n) => ReportKeeps(s, n);
    case End(t) => EndKeeps(s, t);
    case Drain => DrainKeeps(s);
    case BeginCleanup(force) => BeginCleanupKeeps(s, force);
    case PassBarrier => CleanupAdvances(s, PassBarrierStep(s));
    case Join => CleanupAdvances(s, JoinStep(s));
    case FinishCleanup => FinishCleanupKeeps(s);
  }
}
