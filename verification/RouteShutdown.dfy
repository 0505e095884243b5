/** Shutdown of a RouteSet never gets stuck: from every reachable state the threads under way
    can finish, one after the other, until the set is closed. */
module RouteShutdown {
  import opened Options
  import opened RouteOwnership
  import opened RouteSafety

  // ----- no attempt is forgotten ------------------------------------------------------------------------

  ghost predicate Holds(s: State, a: Attempt) {
    a.tid in s.threads && !s.threads[a.tid].Job().NoJob? && s.threads[a.tid].job.attempt == a
  }

  ghost predicate Attended(s: State, id: Id) { id in s.closes && s.closes[id] !in s.done ==> Holds(s, s.closes[id]) }

  /** Whoever began an unfinished attempt is still at it. */
  ghost predicate Alive(s: State) { forall id :: Attended(s, id) }

  /** Still held, done, or no longer on record. */
  ghost predicate Kept(x: State, a: Attempt) {
    Holds(x, a) || a in x.done || forall id :: id in x.closes ==> x.closes[id] != a
  }

  lemma {:induction false} AliveKept(s: State, x: State, actor: Tid)
    requires Alive(s) && Frame(s, x, actor) && s.done <= x.done
    requires forall id :: id in x.closes && x.closes[id] !in x.done ==> (id in s.closes && s.closes[id] == x.closes[id]) || Holds(x, x.closes[id])
    requires actor in s.threads && !s.threads[actor].Job().NoJob? ==> Kept(x, s.threads[actor].job.attempt)
    ensures Alive(x)
  {
    forall id ensures Attended(x, id) { assert Attended(s, id); }
  }

  lemma {:induction false} CloseAlive(s: State, t: Tid, ok: bool)
    requires Alive(s) && Jobs(s)
    ensures Alive(FinishCloseStep(s, t, ok))
  {
    var x := FinishCloseStep(s, t, ok);
    if x != s {
      assert JobOk(s, t);
      AliveKept(s, x, t);
    }
  }

  lemma {:induction false} AttemptAlive(s: State, t: Tid, todo: set<Id>, id: Id)
    requires Alive(s) && id in s.resources && (t in s.threads ==> s.threads[t].Job().NoJob?)
    ensures Alive(BeginAttempt(s, t, todo, id))
  {
    AliveKept(s, BeginAttempt(s, t, todo, id), t);
  }

  lemma {:induction false} PickAlive(s: State, n: nat, t: Tid, id: Id)
    requires Alive(s)
    ensures Alive(StartDropStep(s, n, id)) && Alive(PickStep(s, t, id))
  {
    hide BeginAttempt, Alive;
    if StartDropStep(s, n, id) != s { AttemptAlive(s, Drop(n), {}, id); }
    if PickStep(s, t, id) != s {
      if id in s.resources { AttemptAlive(s, t, s.threads[t].todo, id); } else { AliveKept(s, PickStep(s, t, id), t); }
    }
  }

  lemma {:induction false} InvokeAlive(s: State, t: Tid)
    requires Alive(s) && Jobs(s)
    ensures Alive(InvokeStep(s, t))
  {
    if InvokeStep(s, t) != s {
      assert JobOk(s, t);
      AliveKept(s, InvokeStep(s, t), t);
    }
  }

  lemma {:induction false} EndAlive(s: State, t: Tid)
    requires Alive(s)
    ensures Alive(EndStep(s, t))
  {
    hide Alive;
    if EndStep(s, t) != s { AliveKept(s, EndStep(s, t), t); }
  }

  lemma {:induction false} ReportAlive(s: State, n: nat)
    requires Alive(s)
    ensures Alive(ReportStep(s, n)) && Alive(FinishCleanupStep(s))
  {
    hide Alive;
    if ReportStep(s, n) != s { AliveKept(s, ReportStep(s, n), Drop(n)); }
    if FinishCleanupStep(s) != s { AliveKept(s, FinishCleanupStep(s), Cleanup); }
  }

  lemma {:induction false} CallAlive(s: State, step: Step, actor: Tid)
    requires Alive(s) && Frame(s, Next(s, step), actor) && Next(s, step).closes == s.closes && Next(s, step).done == s.done
    requires actor in s.threads && Next(s, step) != s ==> s.threads[actor].Job().NoJob?
    ensures Alive(Next(s, step))
  {
    if Next(s, step) != s { AliveKept(s, Next(s, step), actor); }
  }

  lemma {:induction false} StepAlive(s: State, step: Step)
    requires Basic(s) && Alive(s)
    ensures Alive(Next(s, step))
  {
    hide Alive, Frame, AdmitStep, ExportStep, DrainStep, BeginCleanupStep, StartDropStep, PickStep, InvokeStep, FinishCloseStep,
      ReportStep, EndStep, FinishCleanupStep, Threads, Jobs, Entries, Covers;
    match step
    case Admit(service, borrows) => AdmitAlive(s, service, borrows);
    case Export(call) => ExportAlive(s, call);
    case StartDrop(n, id) => PickAlive(s, n, Cleanup, id);
    case Pick(t, id) => PickAlive(s, 0, t, id);
    case Invoke(t) => InvokeAlive(s, t);
    case FinishClose(t, ok) => CloseAlive(s, t, ok);
    case Report(n) => ReportAlive(s, n);
    case End(t) => EndAlive(s, t);
    case Drain => DrainAlive(s, false);
    case BeginCleanup(force) => DrainAlive(s, force);
    case FinishCleanup => ReportAlive(s, 0);
    case _ => hide Next; SectionAlive(s, step);
  }

  lemma {:induction false} SectionAlive(s: State, step: Step)
    requires Alive(s) && !step.Admit? && !step.Export? && !step.StartDrop? && !step.Pick? && !step.Invoke? && !step.FinishClose?
    requires !step.Report? && !step.End? && !step.Drain? && !step.BeginCleanup? && !step.FinishCleanup?
    ensures Alive(Next(s, step))
  {
    hide Alive, Frame, Counted, Forgotten, Listed;
    match step
    case ReturnBorrows(call) => CallAlive(s, step, Call(call));
    case ReadProvisional(call, failed) => CallAlive(s, step, Call(call));
    case Reject(call) => CallAlive(s, step, Call(call));
    case Publish(call) => CallAlive(s, step, Call(call));
    case Decide(call, accept) => CallAlive(s, step, Decision(call));
    case FinishResult(call) => CallAlive(s, step, Decision(call));
    case StartRelease(n, call) => CallAlive(s, step, Release(n));
    case PassBarrier => CallAlive(s, step, Cleanup);
    case Join => CallAlive(s, step, Cleanup);
  }

  lemma {:induction false} AdmitAlive(s: State, service: bool, borrows: set<Id>)
    requires Alive(s) && Threads(s)
    ensures Alive(AdmitStep(s, service, borrows))
  {
    hide Borrowable, CleanupOk, OwnerOk;
    var t, x := Call(s.lastCall + 1), AdmitStep(s, service, borrows);
    assert t in s.threads ==> ShapeOk(s, t);
    if x != s { AliveKept(s, x, t); }
  }

  lemma {:induction false} ExportAlive(s: State, call: nat)
    requires Alive(s)
    ensures Alive(ExportStep(s, call))
  {
    hide InCall;
    forall id ensures Attended(ExportStep(s, call), id) { assert Attended(s, id); }
  }

  lemma {:induction false} DrainAlive(s: State, force: bool)
    requires Alive(s) && Threads(s)
    ensures Alive(DrainStep(s)) && Alive(BeginCleanupStep(s, force))
  {
    hide AllListed, CleanupOk, OwnerOk;
    if Cleanup in s.threads { assert ShapeOk(s, Cleanup); }
    forall id ensures Attended(DrainStep(s), id) && Attended(BeginCleanupStep(s, force), id) { assert Attended(s, id); }
  }

  lemma {:induction false} RunAlive(s: State, steps: seq<Step>)
    requires Basic(s) && Alive(s)
    ensures Basic(Run(s, steps)) && Alive(Run(s, steps))
    decreases |steps|
  {
    hide Next, Basic, Alive;
    if steps != [] {
      StepKeepsBasic(s, steps[0]);
      StepAlive(s, steps[0]);
      RunAlive(Next(s, steps[0]), steps[1..]);
    }
  }

  // ----- what is left to do ---------------------------------------------------------------------------------

  datatype Standing = Calling | Back | HasRead | Judging | Between | AtGate | InClose | ToReport | AtBarrier | AtJoin

  function StandingOf(th: Thread): Standing {
    match th
    case Handler(_) => Calling
    case Returned => Back
    case Read(_) => HasRead
    case Deciding(_) => Judging
    case Ending => Between
    case Working(_, job) => (match job case NoJob => Between case Waiting(_, _, _) => AtGate case Closing(_, _) => InClose case Reporting(_) => ToReport)
    case Barrier(_) => AtBarrier
    case Joining(_, _) => AtJoin
  }

  ghost function In(s: State, k: Standing): set<Tid> { set t | t in s.threads && StandingOf(s.threads[t]) == k }

  ghost function Undecided(s: State): set<nat> { set n | n in s.owners && Decision(n) !in s.threads }

  ghost function ToDo(s: State): set<(Tid, Id)> { set t, id | t in s.threads && id in s.threads[t].Todo() :: (t, id) }

  /** A standing lost a thread, and those that come before it are as they were. */
  ghost predicate Less(x: State, s: State) {
    || In(x, Calling) < In(s, Calling)
    || (In(x, Calling) == In(s, Calling) && (In(x, Back) < In(s, Back) || (In(x, Back) == In(s, Back) && (
       In(x, HasRead) < In(s, HasRead) || (In(x, HasRead) == In(s, HasRead) && LessDecisions(x, s))))))
  }

  ghost predicate LessDecisions(x: State, s: State) {
    || Undecided(x) < Undecided(s)
    || (Undecided(x) == Undecided(s) && (In(x, Judging) < In(s, Judging) || (In(x, Judging) == In(s, Judging) && (
       In(x, AtBarrier) < In(s, AtBarrier) || (In(x, AtBarrier) == In(s, AtBarrier) && (
       In(x, AtJoin) < In(s, AtJoin) || (In(x, AtJoin) == In(s, AtJoin) && LessWork(x, s))))))))
  }

  ghost predicate LessWork(x: State, s: State) {
    || ToDo(x) < ToDo(s)
    || (ToDo(x) == ToDo(s) && (In(x, Between) < In(s, Between) || (In(x, Between) == In(s, Between) && (
       In(x, AtGate) < In(s, AtGate) || (In(x, AtGate) == In(s, AtGate) && (
       In(x, InClose) < In(s, InClose) || (In(x, InClose) == In(s, InClose) && In(x, ToReport) < In(s, ToReport))))))))
  }

  /** Only the actor can change its standing. */
  lemma {:induction false} StandingMoves(s: State, x: State, actor: Tid, k: Standing)
    requires Frame(s, x, actor)
    ensures In(x, k) - {actor} == In(s, k) - {actor}
    ensures actor in In(x, k) <==> actor in x.threads && StandingOf(x.threads[actor]) == k
    ensures actor in In(s, k) <==> actor in s.threads && StandingOf(s.threads[actor]) == k
  {
  }

  lemma {:induction false} OthersToDo(s: State, x: State, actor: Tid)
    requires Frame(s, x, actor)
    requires actor in x.threads ==> actor in s.threads && x.threads[actor].Todo() <= s.threads[actor].Todo()
    ensures ToDo(x) <= ToDo(s)
    ensures (actor in s.threads && s.threads[actor].Todo() != {} ==> actor in x.threads && x.threads[actor].Todo() == s.threads[actor].Todo()) ==> ToDo(x) == ToDo(s)
    ensures (exists id :: actor in s.threads && id in s.threads[actor].Todo() && (actor in x.threads ==> id !in x.threads[actor].Todo())) ==> ToDo(x) < ToDo(s)
  {
    hide Frame;
    forall t, id | (t, id) in ToDo(x) ensures (t, id) in ToDo(s) {
      if t != actor { assert t in s.threads && s.threads[t] == x.threads[t] by { Others(s, x, actor, t); } }
    }
    forall t, id | (t, id) in ToDo(s) && t != actor ensures (t, id) in ToDo(x) { Others(s, x, actor, t); }
    if id :| actor in s.threads && id in s.threads[actor].Todo() && (actor in x.threads ==> id !in x.threads[actor].Todo()) {
      assert (actor, id) in ToDo(s) && (actor, id) !in ToDo(x);
    }
  }

  lemma {:induction false} Others(s: State, x: State, actor: Tid, t: Tid)
    requires Frame(s, x, actor) && t != actor
    ensures t in s.threads <==> t in x.threads
    ensures t in s.threads ==> s.threads[t] == x.threads[t]
  {
  }

  ghost predicate Stands(s: State, t: Tid, k: Standing) { t in s.threads && StandingOf(s.threads[t]) == k }

  /** One thread changed its standing, is gone, or came. */
  lemma {:induction false} Moves(s: State, x: State, actor: Tid, k: Standing)
    requires Frame(s, x, actor)
    ensures (Stands(x, actor, k) <==> Stands(s, actor, k)) ==> In(x, k) == In(s, k)
    ensures Stands(s, actor, k) && !Stands(x, actor, k) ==> In(x, k) < In(s, k)
  {
    hide Frame;
    StandingMoves(s, x, actor, k);
    hide StandingOf, In;
    OneApart(In(x, k), In(s, k), actor);
  }

  lemma {:induction false} OneApart(a: set<Tid>, b: set<Tid>, t: Tid)
    requires a - {t} == b - {t}
    ensures (t in a <==> t in b) ==> a == b
    ensures t in b && t !in a ==> a < b
  {
    assert forall u :: u != t ==> (u in a <==> u in a - {t}) && (u in b <==> u in b - {t});
  }

  lemma {:induction false} SameUndecided(s: State, x: State, actor: Tid)
    requires Frame(s, x, actor) && x.owners == s.owners && (actor.Decision? ==> (actor in x.threads <==> actor in s.threads))
    ensures Undecided(x) == Undecided(s)
  {
  }

  // ----- each kind of progress -------------------------------------------------------------------------------

  lemma {:induction false} CallLess(s: State, n: nat)
    ensures Stands(s, Call(n), Calling) ==> Less(Next(s, ReturnBorrows(n)), s)
    ensures Stands(s, Call(n), Back) ==> Less(Next(s, ReadProvisional(n, true)), s)
    ensures Stands(s, Call(n), HasRead) ==> Less(Next(s, Reject(n)), s)
  {
    hide Listed, Forgotten, In, LessDecisions;
    var t := Call(n);
    Moves(s, ReturnStep(s, n), t, Calling);
    Moves(s, ReadStep(s, n, true), t, Calling);
    Moves(s, ReadStep(s, n, true), t, Back);
    Moves(s, RejectStep(s, n), t, Calling);
    Moves(s, RejectStep(s, n), t, Back);
    Moves(s, RejectStep(s, n), t, HasRead);
  }

  /** Nothing of a call that has yet to read its list has changed. */
  lemma {:induction false} CallsSame(s: State, x: State, t: Tid)
    requires Frame(s, x, t)
    requires forall k :: k == Calling || k == Back || k == HasRead ==> (Stands(x, t, k) <==> Stands(s, t, k))
    ensures In(x, Calling) == In(s, Calling) && In(x, Back) == In(s, Back) && In(x, HasRead) == In(s, HasRead)
    ensures LessDecisions(x, s) ==> Less(x, s)
  {
    hide In, LessDecisions, Frame, Stands;
    Moves(s, x, t, Calling);
    Moves(s, x, t, Back);
    Moves(s, x, t, HasRead);
  }

  lemma {:induction false} DecideLess(s: State, n: nat)
    requires n in Undecided(s)
    ensures Less(Next(s, Decide(n, false)), s)
  {
    var x := DecideStep(s, n, false);
    assert Undecided(x) == Undecided(s) - {n};
    hide Undecided;
    CallsSame(s, x, Decision(n));
  }

  lemma {:induction false} JudgeOnly(s: State, n: nat)
    requires Stands(s, Decision(n), Judging) && n in s.results
    ensures var t, x := Decision(n), FinishResultStep(s, n);
      Frame(s, x, t) && x.owners == s.owners && Stands(s, t, Judging) && Stands(x, t, Between)
  {
    hide Frame, Forgotten;
  }

  lemma {:induction false} JudgeLess(s: State, n: nat)
    requires Threads(s) && Stands(s, Decision(n), Judging)
    ensures Less(Next(s, FinishResult(n)), s)
  {
    hide Less, Frame, FinishResultStep, CleanupOk, In, Undecided;
    assert ShapeOk(s, Decision(n)) && OwnerOk(s, n);
    hide Threads;
    JudgeOnly(s, n);
    SameUndecided(s, FinishResultStep(s, n), Decision(n));
    Judged(s, FinishResultStep(s, n), Decision(n));
  }

  lemma {:induction false} Judged(s: State, x: State, t: Tid)
    requires Frame(s, x, t) && Undecided(x) == Undecided(s) && Stands(s, t, Judging) && Stands(x, t, Between)
    ensures Less(x, s)
  {
    hide Frame, In, Undecided, Less;
    CallsSame(s, x, t);
    Moves(s, x, t, Judging);
  }

  lemma {:induction false} CleanupLess(s: State, x: State)
    requires (x == PassBarrierStep(s) || x == JoinStep(s)) && x != s
    ensures Less(x, s)
  {
    hide Counted;
    SameUndecided(s, x, Cleanup);
    CallsSame(s, x, Cleanup);
    hide In, Undecided;
    Moves(s, x, Cleanup, Judging);
    Moves(s, x, Cleanup, AtBarrier);
    Moves(s, x, Cleanup, AtJoin);
  }

  /** Decisions and cleanup stand where they stood. */
  lemma {:induction false} DecisionsSame(s: State, x: State, t: Tid)
    requires Frame(s, x, t) && Undecided(x) == Undecided(s)
    requires forall k :: k != Between && k != AtGate && k != InClose && k != ToReport ==> (Stands(x, t, k) <==> Stands(s, t, k))
    ensures LessWork(x, s) ==> Less(x, s)
  {
    CallsSame(s, x, t);
    hide In, LessWork, Frame, Stands, Undecided;
    Moves(s, x, t, Judging);
    Moves(s, x, t, AtBarrier);
    Moves(s, x, t, AtJoin);
  }

  function Rank(k: Standing): nat { match k case Between => 0 case AtGate => 1 case InClose => 2 case ToReport => 3 case _ => 4 }

  /** The work of one thread went on: something was ticked off its list, or its job went a stage
      further, or it is gone. */
  ghost predicate WentOn(s: State, x: State, t: Tid) {
    && t in s.threads && Rank(StandingOf(s.threads[t])) < 4 && (t in x.threads ==> Rank(StandingOf(x.threads[t])) < 4)
    && if t !in x.threads then s.threads[t].Todo() == {}
       else
         || x.threads[t].Todo() < s.threads[t].Todo()
         || (x.threads[t].Todo() == s.threads[t].Todo() && Rank(StandingOf(s.threads[t])) < Rank(StandingOf(x.threads[t])))
  }

  lemma {:induction false} Ticked(a: set<Id>, b: set<Id>) returns (id: Id)
    requires a < b
    ensures id in b && id !in a
  {
    assert !(b <= a);
    id :| id in b && id !in a;
  }

  lemma {:induction false} WorkLess(s: State, x: State, t: Tid)
    requires Frame(s, x, t) && Undecided(x) == Undecided(s) && WentOn(s, x, t)
    ensures Less(x, s)
  {
    hide Frame, In, Undecided, ToDo, Less, LessDecisions;
    DecisionsSame(s, x, t);
    OthersToDo(s, x, t);
    if t in x.threads && x.threads[t].Todo() < s.threads[t].Todo() {
      var id := Ticked(x.threads[t].Todo(), s.threads[t].Todo());
    } else {
      Moves(s, x, t, Between);
      Moves(s, x, t, AtGate);
      Moves(s, x, t, InClose);
      Moves(s, x, t, ToReport);
    }
  }

  lemma {:induction false} PickLess(s: State, t: Tid, id: Id)
    requires Stands(s, t, Between) && s.threads[t].Working? && id in s.threads[t].todo && Free(s, id)
    ensures Less(Next(s, Pick(t, id)), s)
  {
    hide Frame, Less, Free;
    var x := PickStep(s, t, id);
    SameUndecided(s, x, t);
    WorkLess(s, x, t);
  }

  lemma {:induction false} GateIsOpen(s: State, t: Tid)
    requires Jobs(s) && Entries(s) && Stands(s, t, AtGate) && In(s, Calling) == {}
    ensures s.threads[t].job.id in s.resources && s.resources[s.threads[t].job.id].gate.None?
  {
    hide Ranges;
    var id := s.threads[t].job.id;
    assert JobOk(s, t) && EntryOk(s, id);
    forall n ensures !Borrowing(s, n, id) { assert Borrowing(s, n, id) ==> Call(n) in In(s, Calling); }
    hide Jobs, Borrowing;
    assert s.resources[id].borrowers == {};
  }

  /** What the step makes of its own thread, and that nobody else is touched. */
  ghost predicate Only(s: State, x: State, t: Tid, th: Thread) {
    Frame(s, x, t) && x.owners == s.owners && t in x.threads && x.threads[t] == th
  }

  lemma {:induction false} InvokeOnly(s: State, t: Tid)
    requires Stands(s, t, AtGate) && !StillBorrowed(s, s.threads[t].job.id, s.threads[t].job.gate)
    ensures var job := s.threads[t].job; Only(s, InvokeStep(s, t), t, Working(s.threads[t].todo, Closing(job.id, job.attempt)))
  {
    hide Frame, StillBorrowed;
  }

  lemma {:induction false} CloseOnly(s: State, t: Tid)
    requires Stands(s, t, InClose)
    ensures var job := s.threads[t].job;
      Only(s, FinishCloseStep(s, t, true), t, if t.Drop? then Working({}, Reporting(job.attempt)) else Working(s.threads[t].todo - {job.id}, NoJob))
  {
    hide Frame;
  }

  lemma {:induction false} OnlyLess(s: State, x: State, t: Tid, th: Thread)
    requires Stands(s, t, AtGate) || Stands(s, t, InClose)
    requires Only(s, x, t, th) && Rank(StandingOf(th)) < 4
    requires th.Todo() < s.threads[t].Todo() || (th.Todo() == s.threads[t].Todo() && Rank(StandingOf(s.threads[t])) < Rank(StandingOf(th)))
    ensures Less(x, s)
  {
    hide Frame, Less;
    SameUndecided(s, x, t);
    WorkLess(s, x, t);
  }

  lemma {:induction false} InvokeLess(s: State, t: Tid)
    requires Jobs(s) && Entries(s) && Stands(s, t, AtGate) && In(s, Calling) == {}
    ensures Less(Next(s, Invoke(t)), s)
  {
    hide Less, Jobs, Entries, In, Only, InvokeStep;
    GateIsOpen(s, t);
    InvokeOnly(s, t);
    OnlyLess(s, InvokeStep(s, t), t, Working(s.threads[t].todo, Closing(s.threads[t].job.id, s.threads[t].job.attempt)));
  }

  lemma {:induction false} CloseLess(s: State, t: Tid)
    requires Threads(s) && Jobs(s) && Stands(s, t, InClose)
    ensures Less(Next(s, FinishClose(t, true)), s)
  {
    hide Less, Only, FinishCloseStep, CleanupOk, OwnerOk, Ranges;
    assert ShapeOk(s, t) && JobOk(s, t);
    hide Threads, Jobs;
    CloseOnly(s, t);
    var job := s.threads[t].job;
    OnlyLess(s, FinishCloseStep(s, t, true), t, if t.Drop? then Working({}, Reporting(job.attempt)) else Working(s.threads[t].todo - {job.id}, NoJob));
  }

  lemma {:induction false} ReportOnly(s: State, t: Tid)
    requires t.Drop? && Stands(s, t, ToReport)
    ensures var x := ReportStep(s, t.n); Frame(s, x, t) && x.owners == s.owners && t !in x.threads
  {
    hide Frame;
  }

  lemma {:induction false} ReportLess(s: State, t: Tid)
    requires Threads(s) && Stands(s, t, ToReport)
    ensures t.Drop? && Less(Next(s, Report(t.n)), s)
  {
    hide Less, Frame, ReportStep, CleanupOk, OwnerOk;
    assert ShapeOk(s, t);
    hide Threads;
    ReportOnly(s, t);
    SameUndecided(s, ReportStep(s, t.n), t);
    WorkLess(s, ReportStep(s, t.n), t);
  }

  lemma {:induction false} EndLess(s: State, t: Tid)
    requires Stands(s, t, Between) && !t.Drop? && !t.Cleanup? && s.threads[t].Todo() == {}
    ensures Less(Next(s, End(t)), s)
  {
    hide Frame, Less;
    var x := EndStep(s, t);
    assert Undecided(x) == Undecided(s);
    WorkLess(s, x, t);
  }

  // ----- and there is always some -------------------------------------------------------------------------------

  ghost predicate Quiet(s: State) {
    && In(s, Calling) == {} && In(s, Back) == {} && In(s, HasRead) == {} && Undecided(s) == {} && In(s, Judging) == {}
    && In(s, AtGate) == {} && In(s, InClose) == {} && In(s, ToReport) == {}
  }

  /** In a quiet set every object is free. */
  lemma {:induction false} QuietIsFree(s: State, id: Id)
    requires Quiet(s) && Alive(s)
    ensures Free(s, id)
  {
    assert Attended(s, id);
    forall t | t in s.threads ensures s.threads[t].Job().NoJob? {
      InMeans(s, t, AtGate);
      InMeans(s, t, InClose);
      InMeans(s, t, ToReport);
    }
  }

  lemma {:induction false} InMeans(s: State, t: Tid, k: Standing)
    ensures t in In(s, k) <==> Stands(s, t, k)
  {
  }

  lemma {:induction false} CallAdvances(s: State) returns (step: Step)
    requires Threads(s) && !(In(s, Calling) == {} && In(s, Back) == {} && In(s, HasRead) == {})
    ensures Less(Next(s, step), s)
  {
    hide Less, Next, CleanupOk, OwnerOk;
    var t :| t in In(s, Calling) || t in In(s, Back) || t in In(s, HasRead);
    InMeans(s, t, Calling);
    InMeans(s, t, Back);
    InMeans(s, t, HasRead);
    assert ShapeOk(s, t);
    CallLess(s, t.n);
    step := if t in In(s, Calling) then ReturnBorrows(t.n) else if t in In(s, Back) then ReadProvisional(t.n, true) else Reject(t.n);
  }

  lemma {:induction false} DecisionAdvances(s: State) returns (step: Step)
    requires Threads(s) && !(Undecided(s) == {} && In(s, Judging) == {})
    ensures Less(Next(s, step), s)
  {
    hide Less, Next, CleanupOk, OwnerOk;
    if Undecided(s) != {} {
      var n :| n in Undecided(s);
      DecideLess(s, n);
      step := Decide(n, false);
    } else {
      var t :| t in In(s, Judging);
      assert ShapeOk(s, t);
      JudgeLess(s, t.n);
      step := FinishResult(t.n);
    }
  }

  lemma {:induction false} JobAdvances(s: State) returns (step: Step)
    requires Basic(s) && In(s, Calling) == {} && !(In(s, AtGate) == {} && In(s, InClose) == {} && In(s, ToReport) == {})
    ensures Less(Next(s, step), s)
  {
    hide Less, Next, Threads, Jobs, Entries, Covers;
    var t :| t in In(s, AtGate) || t in In(s, InClose) || t in In(s, ToReport);
    InMeans(s, t, AtGate);
    InMeans(s, t, InClose);
    InMeans(s, t, ToReport);
    if t in In(s, AtGate) {
      InvokeLess(s, t);
      step := Invoke(t);
    } else if t in In(s, InClose) {
      CloseLess(s, t);
      step := FinishClose(t, true);
    } else {
      ReportLess(s, t);
      step := Report(t.n);
    }
  }

  lemma {:induction false} QuietAdvances(s: State) returns (step: Step)
    requires Basic(s) && Alive(s) && s.phase.Cleaning? && Quiet(s)
    ensures Next(s, step).phase.Closed? || Less(Next(s, step), s)
  {
    hide Less, Next, Alive, Jobs, Entries, Covers, OwnerOk;
    var c := s.threads[Cleanup];
    assert ShapeOk(s, Cleanup);
    forall t | t in s.threads && t != Cleanup ensures t in In(s, Between) && !t.Drop? { QuietThread(s, t); }
    if t :| t in s.threads && t != Cleanup {
      step := BetweenAdvances(s, t);
    } else if c.Working? && c.todo != {} {
      assert Cleanup in In(s, StandingOf(c));
      step := BetweenAdvances(s, Cleanup);
    } else {
      assert Cleanup in In(s, StandingOf(c));
      step := CleanupGoesOn(s);
    }
  }

  lemma {:induction false} QuietThread(s: State, t: Tid)
    requires Threads(s) && Quiet(s) && t in s.threads && t != Cleanup
    ensures t in In(s, Between) && !t.Drop?
  {
    hide CleanupOk, OwnerOk;
    assert ShapeOk(s, t) && t in In(s, StandingOf(s.threads[t]));
  }

  lemma {:induction false} BetweenAdvances(s: State, t: Tid) returns (step: Step)
    requires Alive(s) && Quiet(s) && t in In(s, Between) && !t.Drop? && (t == Cleanup ==> s.threads[t].Todo() != {})
    ensures Less(Next(s, step), s)
  {
    hide Less, Next, Quiet, Alive;
    if s.threads[t].Todo() == {} {
      EndLess(s, t);
      step := End(t);
    } else {
      var id :| id in s.threads[t].todo;
      QuietIsFree(s, id);
      PickLess(s, t, id);
      step := Pick(t, id);
    }
  }

  lemma {:induction false} CleanupGoesOn(s: State) returns (step: Step)
    requires Threads(s) && s.phase.Cleaning? && Quiet(s) && Cleanup in s.threads && (forall t :: t in s.threads ==> t == Cleanup)
    requires s.threads[Cleanup].Working? ==> s.threads[Cleanup] == Working({}, NoJob)
    ensures Next(s, step).phase.Closed? || Less(Next(s, step), s)
  {
    hide Less, OwnerOk, PassBarrierStep, JoinStep, CleanupOk, In, Frame, FinishCleanupStep;
    assert ShapeOk(s, Cleanup);
    hide Threads;
    assert s.owners == {} by {
      forall n | n in s.owners ensures n in Undecided(s) {}
    }
    match s.threads[Cleanup]
    case Barrier(_) =>
      step := PassBarrier;
      BarrierPasses(s);
      CleanupLess(s, PassBarrierStep(s));
    case Joining(_, _) =>
      step := Join;
      JoinPasses(s);
      CleanupLess(s, JoinStep(s));
    case _ =>
      step := FinishCleanup;
      CleanupFinishes(s);
  }

  lemma {:induction false} CleanupFinishes(s: State)
    requires Cleanup in s.threads && s.threads[Cleanup] == Working({}, NoJob)
    ensures FinishCleanupStep(s).phase.Closed?
  {
  }

  lemma {:induction false} BarrierPasses(s: State)
    requires Cleanup in s.threads && s.threads[Cleanup].Barrier? && forall t :: t in s.threads ==> t == Cleanup
    ensures PassBarrierStep(s) != s
  {
  }

  lemma {:induction false} JoinPasses(s: State)
    requires Cleanup in s.threads && s.threads[Cleanup].Joining? && s.owners == {}
    ensures JoinStep(s) != s
  {
  }

  lemma {:induction false} Advances(s: State) returns (step: Step)
    requires Basic(s) && Alive(s) && s.phase.Cleaning?
    ensures Next(s, step).phase.Closed? || Less(Next(s, step), s)
  {
    hide Less, Next, Alive, In, Undecided;
    if !(In(s, Calling) == {} && In(s, Back) == {} && In(s, HasRead) == {}) {
      step := CallAdvances(s);
    } else if !(Undecided(s) == {} && In(s, Judging) == {}) {
      step := DecisionAdvances(s);
    } else if !(In(s, AtGate) == {} && In(s, InClose) == {} && In(s, ToReport) == {}) {
      step := JobAdvances(s);
    } else {
      step := QuietAdvances(s);
    }
  }

  lemma {:induction false} RunFirst(s: State, step: Step, steps: seq<Step>)
    ensures Run(s, [step] + steps) == Run(Next(s, step), steps)
  {
    hide Next;
    assert ([step] + steps)[1..] == steps;
  }

  lemma {:induction false} Finishes(s: State) returns (steps: seq<Step>)
    requires Basic(s) && Alive(s) && (s.phase.Cleaning? || s.phase.Closed?)
    ensures Run(s, steps).phase.Closed?
    decreases In(s, Calling), In(s, Back), In(s, HasRead), Undecided(s), In(s, Judging), In(s, AtBarrier), In(s, AtJoin), ToDo(s),
      In(s, Between), In(s, AtGate), In(s, InClose), In(s, ToReport), if s.phase.Closed? then 0 else 1
  {
    hide Next, Basic, Alive, In, Undecided, ToDo;
    steps := [];
    if s.phase.Cleaning? {
      var step := Advances(s);
      StepKeepsBasic(s, step);
      StepAlive(s, step);
      StaysCleaning(s, step);
      var others := [];
      if !Next(s, step).phase.Closed? { others := Finishes(Next(s, step)); }
      steps := [step] + others;
      RunFirst(s, step, others);
    }
  }

  lemma {:induction false} StaysCleaning(s: State, step: Step)
    requires s.phase.Cleaning?
    ensures Next(s, step).phase.Cleaning? || Next(s, step).phase.Closed?
  {
    hide Frame, AdmitStep, ExportStep, Borrowable;
    match step
    case Admit(service, borrows) => assert Frame(s, AdmitStep(s, service, borrows), Call(s.lastCall + 1)); PhaseKept(s, AdmitStep(s, service, borrows), Call(s.lastCall + 1));
    case Export(call) => PhaseKept(s, ExportStep(s, call), Call(call));
    case _ =>
  }

  lemma {:induction false} PhaseKept(s: State, x: State, actor: Tid)
    requires Frame(s, x, actor) && actor != Cleanup
    ensures x.phase == s.phase
  {
  }

  /** Whatever a route set has been through, cleanup can begin, everything under way can finish,
      and the set is closed. */
  lemma {:induction false} ShutdownIsPossible(steps: seq<Step>)
    ensures exists more: seq<Step> :: Run(Run(INITIAL, steps), more).phase.Closed?
  {
    hide Next;
    var s := Reached(steps);
    var begun := Next(s, BeginCleanup(true));
    if s.phase.Accepts() {
      StepKeepsBasic(s, BeginCleanup(true));
      StepAlive(s, BeginCleanup(true));
      Begins(s);
      var more := Finishes(begun);
      RunFirst(s, BeginCleanup(true), more);
    } else {
      var more := Finishes(s);
    }
  }

  lemma {:induction false} Begins(s: State)
    requires s.phase.Accepts()
    ensures Next(s, BeginCleanup(true)).phase.Cleaning?
  {
  }

  lemma {:induction false} Reached(steps: seq<Step>) returns (s: State)
    ensures s == Run(INITIAL, steps) && Basic(s) && Alive(s)
  {
    StartInvariant();
    assert Alive(INITIAL);
    hide Basic, Alive, Next;
    RunAlive(INITIAL, steps);
    s := Run(INITIAL, steps);
  }
}
