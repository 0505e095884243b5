/** The provisional result of a call and its single decision: `rpc/result.go`.

    `Core` holds the fields guarded by the result's lock and each function on it is
    one lock section; `Result` is the object itself.  `State` adds the goroutines and
    callers around it, so that a run is any interleaving of lock sections. */
module ResultDecision {

  type Error(==,0)
  type Caller = nat

  /** The `done` channel: nil, open, closed. */
  datatype Phase = Undecided | Running | Closed

  /** `errors` is the joined decision error; none means nil. */
  datatype Core = Core(
    done: Phase, accepted: bool, waiters: int, delivered: bool, abandoned: bool, cleaned: bool, errors: seq<Error>)

  datatype Outcome = Success | Failed(errors: seq<Error>) | Canceled | Conflict | Abandoned

  /** What entering leads to: waiting for the decision, or an immediate error. */
  datatype Entry = Waits | Rejected(outcome: Outcome)

  // ----- the lock sections ----------------------------------------------------------------

  function EnterCore(c: Core, accept: bool, canceled: bool): (Core, Entry) {
    if c.done.Undecided? then
      var d := c.(done := Running, accepted := accept && !canceled);
      if d.abandoned && accept then (d, Rejected(Abandoned)) else (d.(waiters := d.waiters + 1), Waits)
    else if c.accepted != accept then (c, Rejected(Conflict))
    else if c.abandoned && accept then (c, Rejected(Abandoned))
    else (c.(waiters := c.waiters + 1), Waits)
  }

  predicate Claimable(c: Core) {
    c.done.Closed? && c.accepted && c.abandoned && !c.cleaned && c.errors == []
  }

  function Claim(c: Core): Core {
    if Claimable(c) then c.(cleaned := true) else c
  }

  function LeaveCore(c: Core, canceled: bool): (Core, Outcome) {
    var d := c.(waiters := c.waiters - 1);
    if canceled then
      (Claim(if d.waiters == 0 && !d.delivered then d.(abandoned := true) else d), Canceled)
    else if d.errors == [] then (d.(delivered := true), Success)
    else (d, Failed(d.errors))
  }

  function CloseCore(c: Core, errors: seq<Error>): Core {
    Claim(c.(errors := errors, done := Closed))
  }

  function ReleasedCore(c: Core, errors: seq<Error>): Core { c.(errors := c.errors + errors) }

  function ShutdownCore(c: Core): Core {
    if c.done.Undecided? then c.(done := Running) else c
  }

  class Result {
    var done: Phase
    var accepted: bool
    var waiters: int
    var delivered: bool
    var abandoned: bool
    var cleaned: bool
    var errors: seq<Error>

    function View(): Core
      reads this
    {
      Core(done, accepted, waiters, delivered, abandoned, cleaned, errors)
    }

    constructor ()
      ensures View() == Core(Undecided, false, 0, false, false, false, [])
    {
      done, accepted, waiters := Undecided, false, 0;
      delivered, abandoned, cleaned, errors := false, false, false, [];
    }

    /** First half of Accept and Discard; `starts` asks for the deciding goroutine. */
    method Enter(accept: bool, canceled: bool) returns (entry: Entry, starts: bool)
      modifies this
      ensures (View(), entry) == EnterCore(old(View()), accept, canceled)
      ensures starts <==> old(done).Undecided?
    {
      starts := false;
      if done == Undecided {
        accepted := accept && !canceled;
        done := Running;
        starts := true;
      } else if accepted != accept {
        return Rejected(Conflict), starts;
      }
      if abandoned && accept {
        return Rejected(Abandoned), starts;
      }
      waiters := waiters + 1;
      entry := Waits;
    }

    /** Second half of Accept and Discard, after the wait. */
    method Leave(canceled: bool) returns (outcome: Outcome, claimed: bool)
      modifies this
      ensures (View(), outcome) == LeaveCore(old(View()), canceled)
      ensures claimed <==> cleaned && !old(cleaned)
    {
      waiters := waiters - 1;
      if canceled {
        if waiters == 0 && !delivered {
          abandoned := true;
        }
        claimed := ClaimRelease();
        return Canceled, claimed;
      }
      if errors == [] {
        delivered := true;
        return Success, false;
      }
      return Failed(errors), false;
    }

    method Close(callbackErrors: seq<Error>) returns (claimed: bool)
      modifies this
      ensures View() == CloseCore(old(View()), callbackErrors)
      ensures claimed <==> cleaned && !old(cleaned)
    {
      errors := callbackErrors;
      done := Closed;
      claimed := ClaimRelease();
    }

    method ClaimRelease() returns (claimed: bool)
      modifies this
      ensures View() == Claim(old(View()))
      ensures claimed <==> cleaned && !old(cleaned)
    {
      if !done.Closed? {
        return false;
      }
      if !accepted || !abandoned || cleaned || errors != [] {
        return false;
      }
      cleaned := true;
      claimed := true;
    }

    method Released(releaseErrors: seq<Error>)
      modifies this
      ensures View() == ReleasedCore(old(View()), releaseErrors)
    {
      errors := errors + releaseErrors;
    }

    method Shutdown() returns (starts: bool)
      modifies this
      ensures View() == ShutdownCore(old(View()))
      ensures starts <==> old(done).Undecided?
    {
      starts := done.Undecided?;
      if starts {
        done := Running;
      }
    }
  }

  // ----- every interleaving -----------------------------------------------------------------

  /** A deciding goroutine: about to run the callback, back from it, or finished. */
  datatype Finisher = Starting | Called(errors: seq<Error>) | Finished

  datatype Answer = Answer(accept: bool, outcome: Outcome)

  /** `calls` lists the decisions the callback was run with, `verdict` its errors,
      `claims` counts claimed releases and `releases` those still to report back. */
  datatype State = State(
    core: Core,
    finishers: seq<Finisher>,
    canceled: set<Caller>,
    waiting: map<Caller, bool>,
    replies: map<Caller, Answer>,
    calls: seq<bool>,
    verdict: seq<Error>,
    claims: nat,
    releases: nat,
    joins: seq<seq<Error>>,
    panicked: bool)

  const INITIAL := State(
    Core(Undecided, false, 0, false, false, false, []), [], {}, map[], map[], [], [], 0, 0, [], false)

  datatype Step =
    | Cancel(caller: Caller)
    | Enter(caller: Caller, accept: bool)
    | Callback(finisher: nat, errors: seq<Error>)
    | Close(finisher: nat)
    | Leave(caller: Caller)
    | ReportRelease(errors: seq<Error>)
    | StartShutdown
    | JoinShutdown

  function Spawn(s: State, core: Core): State {
    s.(core := core, finishers := if s.core.done.Undecided? then s.finishers + [Starting] else s.finishers)
  }

  /** Releases newly claimed by a lock section. */
  function Settle(s: State, core: Core): State {
    var taken := if core.cleaned && !s.core.cleaned then 1 else 0;
    s.(core := core, claims := s.claims + taken, releases := s.releases + taken)
  }

  function EnterStep(s: State, caller: Caller, accept: bool): State {
    if caller in s.waiting || caller in s.replies then s
    else
      var (core, entry) := EnterCore(s.core, accept, caller in s.canceled);
      var t := Spawn(s, core);
      match entry
      case Waits => t.(waiting := t.waiting[caller := accept])
      case Rejected(outcome) => t.(replies := t.replies[caller := Answer(accept, outcome)])
  }

  function CallbackStep(s: State, i: nat, errors: seq<Error>): State {
    if i < |s.finishers| && s.finishers[i].Starting?
    then s.(finishers := s.finishers[i := Called(errors)], calls := s.calls + [s.core.accepted], verdict := errors)
    else s
  }

  /** Closing a closed channel panics. */
  function CloseStep(s: State, i: nat): State {
    if i < |s.finishers| && s.finishers[i].Called? then
      Settle(s, CloseCore(s.core, s.finishers[i].errors)).(finishers := s.finishers[i := Finished], panicked := s.panicked || s.core.done.Closed?)
    else s
  }

  function LeaveStep(s: State, caller: Caller): State {
    if caller in s.waiting && (s.core.done.Closed? || caller in s.canceled) then
      var (core, outcome) := LeaveCore(s.core, caller in s.canceled);
      Settle(s, core).(waiting := s.waiting - {caller}, replies := s.replies[caller := Answer(s.waiting[caller], outcome)])
    else s
  }

  function Next(s: State, step: Step): State {
    match step
    case Cancel(caller) => s.(canceled := s.canceled + {caller})
    case Enter(caller, accept) => EnterStep(s, caller, accept)
    case Callback(i, errors) => CallbackStep(s, i, errors)
    case Close(i) => CloseStep(s, i)
    case Leave(caller) => LeaveStep(s, caller)
    case ReportRelease(errors) =>
      if s.releases == 0 then s else s.(core := ReleasedCore(s.core, errors), releases := s.releases - 1)
    case StartShutdown => Spawn(s, ShutdownCore(s.core))
    case JoinShutdown => if s.core.done.Closed? then s.(joins := s.joins + [s.core.errors]) else s
  }

  function Run(s: State, steps: seq<Step>): State
    decreases |steps|
  {
    if steps == [] then s else Run(Next(s, steps[0]), steps[1..])
  }

  // ----- the invariant ------------------------------------------------------------------------

  /** The single goroutine, the channel and the callback history move together. */
  ghost predicate OneDecision(s: State) {
    match s.core.done
    case Undecided => s.finishers == [] && s.calls == [] && s.verdict == [] && !s.core.accepted
    case Running =>
      (s.finishers == [Starting] && s.calls == [] && s.verdict == [])
      || (s.finishers == [Called(s.verdict)] && s.calls == [s.core.accepted])
    case Closed => s.finishers == [Finished] && s.calls == [s.core.accepted]
  }

  /** The error field: the callback's, joined with what an abandoned release reported. */
  ghost predicate Errors(s: State) {
    && (!s.core.done.Closed? ==> s.core.errors == [])
    && (s.core.done.Closed? ==> s.verdict <= s.core.errors)
    && (!s.core.cleaned && s.core.done.Closed? ==> s.core.errors == s.verdict)
  }

  ghost predicate Counted(s: State) {
    && s.core.waiters == |s.waiting|
    && (s.core.done.Undecided? ==> s.waiting == map[])
    && s.claims == (if s.core.cleaned then 1 else 0)
    && s.releases <= s.claims
    && (s.core.cleaned ==> s.core.accepted && s.core.abandoned && s.core.done.Closed? && s.verdict == [])
    && s.waiting.Keys !! s.replies.Keys
    && (forall caller :: caller in s.waiting ==> s.waiting[caller] == s.core.accepted || caller in s.canceled)
  }

  /** An accepted result has a waiting caller, a satisfied one, or is given up for
      good and then released as soon as the callback is back without error. */
  ghost predicate Owned(s: State) {
    && (s.core.done.Undecided? ==> !s.core.abandoned && !s.core.delivered)
    && (s.core.accepted ==>
      && !(s.core.abandoned && s.core.delivered)
      && (s.core.abandoned ==> s.waiting == map[])
      && (s.core.done.Closed? && s.core.abandoned && s.verdict == [] ==> s.core.cleaned)
      && (s.waiting != map[] || s.core.delivered || s.core.abandoned || (s.core.done.Closed? && s.verdict != [])))
  }

  ghost predicate Replied(s: State, caller: Caller)
    requires caller in s.replies
  {
    match s.replies[caller].outcome
    case Success => s.core.done.Closed? && s.replies[caller].accept == s.core.accepted && s.verdict == [] && s.core.delivered
    case Failed(errors) => s.core.done.Closed? && s.replies[caller].accept == s.core.accepted && errors == s.verdict != []
    case Canceled => caller in s.canceled
    case Conflict => s.replies[caller].accept != s.core.accepted && !s.core.done.Undecided?
    case Abandoned => s.core.abandoned && s.core.accepted && s.replies[caller].accept
  }

  ghost predicate Delivered(s: State) {
    s.core.delivered ==> exists caller :: caller in s.replies && s.replies[caller].outcome == Success
  }

  ghost predicate Sound(s: State) {
    OneDecision(s) && Errors(s) && Counted(s) && Owned(s) && !s.panicked
  }

  ghost predicate Invariant(s: State) {
    && Sound(s) && Delivered(s)
    && (forall caller :: caller in s.replies ==> Replied(s, caller))
  }

  // ----- every step keeps it ------------------------------------------------------------------

  lemma {:induction false} EnterKeepsDecision(s: State, caller: Caller, accept: bool)
    requires Sound(s)
    ensures OneDecision(EnterStep(s, caller, accept)) && !EnterStep(s, caller, accept).panicked
    ensures Errors(EnterStep(s, caller, accept))
  {
    hide Owned;
  }

  lemma {:induction false} EnterKeepsCount(s: State, caller: Caller, accept: bool)
    requires Sound(s)
    ensures Counted(EnterStep(s, caller, accept))
  {
    hide OneDecision, Errors;
  }

  lemma {:induction false} EnterKeepsOwner(s: State, caller: Caller, accept: bool)
    requires Sound(s)
    ensures Owned(EnterStep(s, caller, accept))
  {
    hide OneDecision, Errors;
    var t := EnterStep(s, caller, accept);
    assert t != s && EnterCore(s.core, accept, caller in s.canceled).1 == Waits ==> caller in t.waiting;
  }

  lemma {:induction false} OneFewer(m: map<Caller, bool>, caller: Caller)
    requires caller in m
    ensures |m - {caller}| == |m| - 1
    ensures |m| == 1 <==> m - {caller} == map[]
  {
    assert (m - {caller}).Keys == m.Keys - {caller};
    assert |m - {caller}| == 0 ==> m - {caller} == map[];
  }

  lemma {:induction false} LeaveKeepsDecision(s: State, caller: Caller)
    requires Sound(s)
    ensures OneDecision(LeaveStep(s, caller)) && !LeaveStep(s, caller).panicked
    ensures Errors(LeaveStep(s, caller))
  {
    hide Owned, Counted;
  }

  lemma {:induction false} LeaveKeepsCount(s: State, caller: Caller)
    requires Sound(s)
    ensures Counted(LeaveStep(s, caller))
  {
    hide OneDecision;
    if caller in s.waiting { OneFewer(s.waiting, caller); }
  }

  lemma {:induction false} LeaveKeepsOwner(s: State, caller: Caller)
    requires Sound(s)
    ensures Owned(LeaveStep(s, caller))
  {
    hide OneDecision;
    if caller in s.waiting { OneFewer(s.waiting, caller); }
  }

  lemma {:induction false} CloseKeeps(s: State, i: nat)
    requires Sound(s)
    ensures Sound(CloseStep(s, i))
  {
  }

  lemma {:induction false} CallbackKeeps(s: State, i: nat, errors: seq<Error>)
    requires Sound(s)
    ensures Sound(CallbackStep(s, i, errors))
  {
  }

  lemma {:induction false} OthersKeep(s: State, step: Step)
    requires Sound(s)
    requires step.Cancel? || step.ReportRelease? || step.StartShutdown? || step.JoinShutdown?
    ensures Sound(Next(s, step))
  {
    hide EnterStep, LeaveStep, CloseStep, CallbackStep;
  }

  lemma {:induction false} SoundStays(s: State, step: Step)
    requires Sound(s)
    ensures Sound(Next(s, step))
  {
    hide OneDecision, Errors, Counted, Owned, EnterStep, LeaveStep, CloseStep, CallbackStep;
    match step
    case Enter(caller, accept) =>
      EnterKeepsDecision(s, caller, accept);
      EnterKeepsCount(s, caller, accept);
      EnterKeepsOwner(s, caller, accept);
    case Leave(caller) =>
      LeaveKeepsDecision(s, caller);
      LeaveKeepsCount(s, caller);
      LeaveKeepsOwner(s, caller);
    case Close(i) => CloseKeeps(s, i);
    case Callback(i, errors) => CallbackKeeps(s, i, errors);
    case _ => OthersKeep(s, step);
  }

  lemma {:induction false} RepliedStays(s: State, step: Step, caller: Caller)
    requires Sound(s) && caller in s.replies && Replied(s, caller)
    ensures caller in Next(s, step).replies && Replied(Next(s, step), caller)
  {
    hide Next, Counted, Errors, Owned;
    ReplyKept(s, step, caller);
    CoreKept(s, step);
    HistoryKept(s, step);
  }

  lemma {:induction false} ReplyKept(s: State, step: Step, caller: Caller)
    requires Counted(s) && caller in s.replies
    ensures caller in Next(s, step).replies && Next(s, step).replies[caller] == s.replies[caller]
  {
    hide LeaveCore, CloseCore;
  }

  ghost predicate CoreGrows(c: Core, d: Core) {
    && (!c.done.Undecided? ==> d.accepted == c.accepted && !d.done.Undecided?)
    && (c.done.Closed? ==> d.done.Closed?)
    && (c.delivered ==> d.delivered)
    && (c.abandoned ==> d.abandoned)
    && (c.cleaned ==> d.cleaned)
  }

  lemma {:induction false} SectionsGrow(c: Core, accept: bool, canceled: bool, errors: seq<Error>)
    ensures CoreGrows(c, EnterCore(c, accept, canceled).0)
    ensures CoreGrows(c, LeaveCore(c, canceled).0)
    ensures CoreGrows(c, CloseCore(c, errors))
    ensures CoreGrows(c, ShutdownCore(c)) && CoreGrows(c, ReleasedCore(c, errors))
  {
  }

  lemma {:induction false} CoreKept(s: State, step: Step)
    ensures CoreGrows(s.core, Next(s, step).core)
  {
    hide CoreGrows, EnterCore, LeaveCore, CloseCore, ShutdownCore, ReleasedCore;
    assert CoreGrows(s.core, s.core) by { CoreGrowsReflexive(s.core); }
    match step
    case Enter(caller, accept) => SectionsGrow(s.core, accept, caller in s.canceled, []);
    case Leave(caller) => SectionsGrow(s.core, true, caller in s.canceled, []);
    case Close(i) => if i < |s.finishers| && s.finishers[i].Called? { SectionsGrow(s.core, true, true, s.finishers[i].errors); }
    case ReportRelease(errors) => SectionsGrow(s.core, true, true, errors);
    case _ => SectionsGrow(s.core, true, true, []);
  }

  lemma {:induction false} CoreGrowsReflexive(c: Core)
    ensures CoreGrows(c, c)
  {
  }

  /** The callback's history only grows, and its verdict is final once closed. */
  lemma {:induction false} HistoryKept(s: State, step: Step)
    requires OneDecision(s)
    ensures s.core.done.Closed? ==> Next(s, step).verdict == s.verdict
    ensures s.canceled <= Next(s, step).canceled
    ensures s.calls <= Next(s, step).calls
  {
    hide EnterCore, LeaveCore, CloseCore, ShutdownCore;
  }

  lemma {:induction false} NewReply(s: State, step: Step, caller: Caller)
    requires Sound(s) && caller !in s.replies && caller in Next(s, step).replies
    ensures Replied(Next(s, step), caller)
  {
    hide OneDecision;
    assert step == Leave(caller) || (step.Enter? && step.caller == caller);
  }

  lemma {:induction false} DeliveredStays(s: State, step: Step)
    requires Sound(s) && Delivered(s)
    ensures Delivered(Next(s, step))
  {
    hide OneDecision, Errors, Counted, Owned;
    var t := Next(s, step);
    if s.core.delivered {
      var caller :| caller in s.replies && s.replies[caller].outcome == Success;
      ReplyKept(s, step, caller);
    } else if t.core.delivered {
      assert step.Leave? && step.caller in t.replies && t.replies[step.caller].outcome == Success;
    }
  }

  lemma {:induction false} StepKeepsInvariant(s: State, step: Step)
    requires Invariant(s)
    ensures Invariant(Next(s, step))
  {
    hide Next, Sound, Replied, Delivered;
    SoundStays(s, step);
    DeliveredStays(s, step);
    var t := Next(s, step);
    forall caller | caller in t.replies ensures Replied(t, caller) {
      if caller in s.replies { RepliedStays(s, step, caller); } else { NewReply(s, step, caller); }
    }
  }

  lemma {:induction false} RunKeepsInvariant(s: State, steps: seq<Step>)
    requires Invariant(s)
    ensures Invariant(Run(s, steps))
    decreases |steps|
  {
    hide Next, Invariant;
    if steps != [] {
      StepKeepsInvariant(s, steps[0]);
      RunKeepsInvariant(Next(s, steps[0]), steps[1..]);
    }
  }

  // ----- what a run guarantees ------------------------------------------------------------------

  /** The callback runs at most once, with the adopted decision, and has run by the
      time the channel closes; the channel is never closed twice. */
  lemma {:induction false} CallbackOnce(steps: seq<Step>)
    ensures var s := Run(INITIAL, steps);
      && |s.calls| <= 1 && !s.panicked
      && (s.calls != [] ==> s.calls == [s.core.accepted])
      && (s.core.done.Closed? ==> |s.calls| == 1)
  {
    hide Next, Counted, Owned, Errors, Delivered, Replied;
    InitialInvariant();
    RunKeepsInvariant(INITIAL, steps);
  }

  /** The first decision stands whatever callers, cancellations and shutdown do later. */
  lemma {:induction false} DecisionIsFixed(s: State, steps: seq<Step>)
    requires Invariant(s) && !s.core.done.Undecided?
    ensures Run(s, steps).core.accepted == s.core.accepted
    ensures s.calls <= Run(s, steps).calls
    ensures s.core.done.Closed? ==> Run(s, steps).verdict == s.verdict
    decreases |steps|
  {
    hide Next, Counted, Owned, Errors, Delivered, Replied, OneDecision;
    if steps != [] {
      StepKeepsInvariant(s, steps[0]);
      CoreKept(s, steps[0]);
      HistoryKept(s, steps[0]);
      DecisionIsFixed(Next(s, steps[0]), steps[1..]);
    }
  }

  ghost predicate SomeSuccess(s: State) {
    exists caller :: caller in s.replies && s.replies[caller].outcome == Success
  }

  /** An accepted result whose callback succeeded and whose callers have all left was
      either received by one of them or had its release claimed exactly once. */
  lemma {:induction false} DeliveredOrReleased(steps: seq<Step>)
    ensures var s := Run(INITIAL, steps);
      && s.claims <= 1
      && (s.claims == 1 ==> s.core.accepted && s.verdict == [] && !SomeSuccess(s) && s.waiting == map[])
      && (s.core.done.Closed? && s.core.accepted && s.verdict == [] && s.waiting == map[] ==>
          (SomeSuccess(s) <==> s.claims == 0))
  {
    hide Next, OneDecision, Errors;
    InitialInvariant();
    RunKeepsInvariant(INITIAL, steps);
    var s := Run(INITIAL, steps);
    forall caller | caller in s.replies ensures Replied(s, caller) {}
    hide Run;
  }

  /** What a caller is told is true: success and failure come from its own decision,
      a conflict from the opposite one, and an abandoned result was given up. */
  lemma {:induction false} RepliesAreTrue(steps: seq<Step>, caller: Caller)
    requires caller in Run(INITIAL, steps).replies
    ensures Replied(Run(INITIAL, steps), caller)
  {
    hide Next, Sound, Delivered, Replied;
    InitialInvariant();
    RunKeepsInvariant(INITIAL, steps);
  }

  lemma {:induction false} InitialInvariant()
    ensures Invariant(INITIAL)
  {
  }

  // ----- what callers and shutdown get ------------------------------------------------------------

  /** The first caller fixes the decision, a canceled Accept as a discard, and starts the one
      goroutine; later callers wait with it or are told at once why not.  An Accept of a result
      that was given up is refused. */
  lemma {:induction false} EntersExactly(s: State, caller: Caller, accept: bool)
    requires Invariant(s) && caller !in s.waiting && caller !in s.replies
    ensures var t := Next(s, Enter(caller, accept));
      && !t.core.done.Undecided?
      && (s.core.done.Undecided? ==> t.finishers == [Starting] && t.core.accepted == (accept && caller !in s.canceled))
      && (!s.core.done.Undecided? ==> t.finishers == s.finishers && t.core.accepted == s.core.accepted)
      && if !s.core.done.Undecided? && s.core.accepted != accept then t.replies == s.replies[caller := Answer(accept, Conflict)]
         else if accept && s.core.abandoned then t.replies == s.replies[caller := Answer(accept, Abandoned)]
         else t.waiting == s.waiting[caller := accept] && t.replies == s.replies
  {
    hide Errors, Replied, Delivered;
  }

  /** A waiting caller goes as soon as it is canceled; otherwise it stays until the decision is
      made and is told its outcome. */
  lemma {:induction false} LeavesExactly(s: State, caller: Caller)
    requires caller in s.waiting
    ensures var t, accept := Next(s, Leave(caller)), s.waiting[caller];
      if caller in s.canceled then t.waiting == s.waiting - {caller} && t.replies == s.replies[caller := Answer(accept, Canceled)]
      else if !s.core.done.Closed? then t == s
      else
        && t.waiting == s.waiting - {caller} && t.core.delivered == (s.core.delivered || s.core.errors == [])
        && t.replies == s.replies[caller := Answer(accept, if s.core.errors == [] then Success else Failed(s.core.errors))]
    ensures Next(s, Cancel(caller)) == s.(canceled := s.canceled + {caller})
  {
  }

  /** Once begun, a decision can always be completed, with the adopted decision and the errors of
      its callback. */
  lemma {:induction false} DecisionCompletes(s: State, errors: seq<Error>)
    requires Invariant(s) && s.core.done.Running?
    ensures var t := Next(Next(s, Callback(0, errors)), Close(0));
      && t.core.done.Closed? && t.calls == [s.core.accepted] && t.core.accepted == s.core.accepted && t.waiting == s.waiting
      && t.verdict == (if s.calls == [] then errors else s.verdict) && t.core.errors == t.verdict
  {
    hide Counted, Owned, Replied, Delivered, CloseCore;
    var t := Next(s, Callback(0, errors));
    assert t.finishers == [Called(t.verdict)] && t.core == s.core && t.calls == [s.core.accepted] && t.waiting == s.waiting;
    ClosesOnce(t);
  }

  lemma {:induction false} ClosesOnce(s: State)
    requires s.finishers == [Called(s.verdict)]
    ensures var t := CloseStep(s, 0);
      && t.core.done.Closed? && t.calls == s.calls && t.core.accepted == s.core.accepted && t.waiting == s.waiting
      && t.verdict == s.verdict && t.core.errors == s.verdict
  {
  }

  /** Closing the channel again would panic, which never happens. */
  lemma {:induction false} SecondClosePanics(s: State, i: nat)
    requires i < |s.finishers| && s.finishers[i].Called? && s.core.done.Closed?
    ensures Next(s, Close(i)).panicked
  {
  }

  /** A claimed release reports once, and its errors join those of the decision. */
  lemma {:induction false} ReportsOnce(s: State, errors: seq<Error>)
    ensures var t := Next(s, ReportRelease(errors));
      if s.releases == 0 then t == s else t.releases == s.releases - 1 && t.core.errors == s.core.errors + errors && t.claims == s.claims
  {
  }

  /** A claimed release is run: each new claim leaves one more release to report. */
  lemma {:induction false} ClaimIsReleased(s: State, step: Step)
    requires Sound(s)
    ensures var t := Next(s, step);
      s.claims <= t.claims && (t.claims > s.claims ==> t.claims == s.claims + 1 && t.releases == s.releases + 1 && t.core.cleaned)
  {
    hide EnterCore, OneDecision, Errors, Owned;
  }

  /** Every join of a shutdown saw a decision that was made, with its errors as far as they
      were known. */
  ghost predicate Joined(s: State) {
    forall e :: e in s.joins ==> s.core.done.Closed? && s.verdict <= e && e <= s.core.errors
  }

  lemma {:induction false} StepKeepsJoined(s: State, step: Step)
    requires Sound(s) && Joined(s)
    ensures Joined(Next(s, step))
  {
    var t := Next(s, step);
    if s.core.done.Closed? {
      ErrorsGrow(s, step);
      hide Next;
      JoinsGrow(s, step);
    } else {
      JoinsGrow(s, step);
    }
  }

  lemma {:induction false} JoinsGrow(s: State, step: Step)
    ensures var t := Next(s, step);
      t.joins == if step.JoinShutdown? && s.core.done.Closed? then s.joins + [s.core.errors] else s.joins
  {
    hide EnterCore, LeaveCore, CloseCore, ShutdownCore;
  }

  lemma {:induction false} ErrorsGrow(s: State, step: Step)
    requires OneDecision(s) && s.core.done.Closed?
    ensures var t := Next(s, step); t.core.done.Closed? && t.verdict == s.verdict && s.core.errors <= t.core.errors
  {
    HistoryKept(s, step);
    CoreKept(s, step);
    hide EnterCore, LeaveCore, ShutdownCore, CloseCore;
    match step
    case Enter(caller, accept) => SectionErrors(s.core, accept, caller in s.canceled);
    case Leave(caller) => SectionErrors(s.core, true, caller in s.canceled);
    case _ => SectionErrors(s.core, true, true);
  }

  lemma {:induction false} SectionErrors(c: Core, accept: bool, canceled: bool)
    ensures EnterCore(c, accept, canceled).0.errors == LeaveCore(c, canceled).0.errors == ShutdownCore(c).errors == c.errors
  {
  }

  lemma {:induction false} RunKeepsJoined(s: State, steps: seq<Step>)
    requires Invariant(s) && Joined(s)
    ensures Joined(Run(s, steps))
    decreases |steps|
  {
    hide Next, Joined, OneDecision, Errors, Counted, Owned, Replied, Delivered;
    if steps != [] {
      StepKeepsJoined(s, steps[0]);
      StepKeepsInvariant(s, steps[0]);
      RunKeepsJoined(Next(s, steps[0]), steps[1..]);
    }
  }

  /** What shutdown joins is the errors of the decision, once it has been made. */
  lemma {:induction false} JoinsAreTrue(steps: seq<Step>)
    ensures var s := Run(INITIAL, steps);
      && Joined(s)
      && Next(s, JoinShutdown).joins == s.joins + (if s.core.done.Closed? then [s.core.errors] else [])
  {
    InitialInvariant();
    RunKeepsJoined(INITIAL, steps);
    hide Run;
    var s := Run(INITIAL, steps);
    assert s.joins + [] == s.joins;
  }
}
