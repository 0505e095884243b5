/** Pending FFI calls of the VM: `pendingFFICall` and its completion relay in
    `runtime/ffi_call.go`, with the budgets of `runtime/limits.go`.

    One step is one lock section or one atomic update, so the VM, the host and
    cancellation interleave freely.  A host may complete a call any number of times, at
    any time, with a result of any size. */
module FfiSettlement {
  import opened Options

  /** `MaxPendingEvents` (zero means unlimited) and `MaxBoundaryBytes`. */
  datatype Limits = Limits(events: nat, bytes: nat)

  datatype Phase = Reserving | Refused | Waiting | Ready | Settling | EventReturned | Released | Final

  /** `bytes` is the request and then also the response; `attached` says that the relay
      still leads to the call; `result` is the successful completion it holds. */
  datatype Call = Call(phase: Phase, bytes: nat, attached: bool, result: Option<nat>, consumed: bool)
  {
    predicate Settled() { phase.Settling? || phase.EventReturned? || phase.Released? || phase.Final? }
  }

  datatype Fate = Unread | Routed | Held | Done

  /** One completion by the host, and how often its result was delivered or discarded. */
  datatype Completion = Completion(call: nat, size: nat, failed: bool, fate: Fate, delivered: nat, discarded: nat)

  datatype State = State(limits: Limits, events: int, bytes: int, calls: seq<Call>, completions: seq<Completion>)

  function Initial(limits: Limits): State { State(limits, 0, 0, [], []) }

  datatype Step =
    | ReserveEvent(size: nat)
    | ReserveRequest(call: nat)
    | Arrive(call: nat, size: nat, failed: bool)
    | Route(completion: nat)
    | Complete(completion: nat)
    | Settle(call: nat, consume: bool)
    | Detach(call: nat)
    | ReturnEvent(call: nat)
    | ReturnBytes(call: nat)
    | Finish(call: nat, allocationFails: bool)

  // ----- the sections ---------------------------------------------------------------------------

  function SetCall(s: State, i: nat, c: Call): State
    requires i < |s.calls|
  {
    s.(calls := s.calls[i := c])
  }

  function SetCompletion(s: State, k: nat, c: Completion): State
    requires k < |s.completions|
  {
    s.(completions := s.completions[k := c])
  }

  function Discarded(c: Completion): Completion { c.(fate := Done, discarded := c.discarded + 1) }

  predicate At(s: State, i: nat, phase: Phase) { i < |s.calls| && s.calls[i].phase == phase }

  predicate Fits(s: State, size: nat) { size == 0 || s.bytes <= s.limits.bytes - size }

  function ReserveEventStep(s: State, size: nat): State {
    if size > s.limits.bytes || (s.limits.events > 0 && s.events >= s.limits.events) then s
    else s.(events := s.events + 1, calls := s.calls + [Call(Reserving, size, false, None, false)])
  }

  function ReserveRequestStep(s: State, i: nat): State {
    if !At(s, i, Reserving) then s
    else if Fits(s, s.calls[i].bytes)
    then SetCall(s, i, s.calls[i].(phase := Waiting, attached := true)).(bytes := s.bytes + s.calls[i].bytes)
    else SetCall(s, i, s.calls[i].(phase := Refused)).(events := s.events - 1)
  }

  function ArriveStep(s: State, i: nat, size: nat, failed: bool): State {
    if i >= |s.calls| || s.calls[i].phase.Reserving? || s.calls[i].phase.Refused? then s
    else s.(completions := s.completions + [Completion(i, size, failed, Unread, 0, 0)])
  }

  /** The relay looks up the call; a detached relay discards. */
  function RouteStep(s: State, k: nat): State {
    if k >= |s.completions| || !s.completions[k].fate.Unread? || s.completions[k].call >= |s.calls| then s
    else if s.calls[s.completions[k].call].attached then SetCompletion(s, k, s.completions[k].(fate := Routed))
    else SetCompletion(s, k, Discarded(s.completions[k]))
  }

  /** Only the first completion of a waiting call counts, and only within the budget. */
  function CompleteStep(s: State, k: nat): State {
    if k >= |s.completions| || !s.completions[k].fate.Routed? || s.completions[k].call >= |s.calls| then s
    else
      var c := s.completions[k];
      var call := s.calls[c.call];
      if !call.phase.Waiting? then SetCompletion(s, k, Discarded(c))
      else if c.failed || c.size > s.limits.bytes || !Fits(s, c.size)
      then SetCall(SetCompletion(s, k, Discarded(c)), c.call, call.(phase := Ready))
      else
        SetCall(SetCompletion(s, k, c.(fate := Held)), c.call, call.(phase := Ready, result := Some(k), bytes := call.bytes + c.size))
        .(bytes := s.bytes + c.size)
  }

  function SettleStep(s: State, i: nat, consume: bool): State {
    if At(s, i, Ready) || (At(s, i, Waiting) && !consume)
    then SetCall(s, i, s.calls[i].(phase := Settling, consumed := consume))
    else s
  }

  function DetachStep(s: State, i: nat): State {
    if At(s, i, Settling) then SetCall(s, i, s.calls[i].(attached := false)) else s
  }

  /** `releasePendingEvent` updates its two counters one after the other. */
  function ReturnEventStep(s: State, i: nat): State {
    if At(s, i, Settling) && !s.calls[i].attached
    then SetCall(s, i, s.calls[i].(phase := EventReturned)).(events := s.events - 1)
    else s
  }

  function ReturnBytesStep(s: State, i: nat): State {
    if At(s, i, EventReturned)
    then SetCall(s, i, s.calls[i].(phase := Released)).(bytes := s.bytes - s.calls[i].bytes)
    else s
  }

  /** The end of `take` or `stop`: a consumed result is delivered unless the guest has no
      room for it, a canceled one is discarded. */
  function FinishStep(s: State, i: nat, allocationFails: bool): State {
    if !At(s, i, Released) then s
    else
      var call := s.calls[i];
      var t := SetCall(s, i, call.(phase := Final, result := None));
      if call.result.None? || call.result.value >= |s.completions| then t
      else
        var c := s.completions[call.result.value];
        SetCompletion(t, call.result.value,
          if call.consumed && !allocationFails then c.(fate := Done, delivered := c.delivered + 1) else Discarded(c))
  }

  function Next(s: State, step: Step): State {
    match step
    case ReserveEvent(size) => ReserveEventStep(s, size)
    case ReserveRequest(i) => ReserveRequestStep(s, i)
    case Arrive(i, size, failed) => ArriveStep(s, i, size, failed)
    case Route(k) => RouteStep(s, k)
    case Complete(k) => CompleteStep(s, k)
    case Settle(i, consume) => SettleStep(s, i, consume)
    case Detach(i) => DetachStep(s, i)
    case ReturnEvent(i) => ReturnEventStep(s, i)
    case ReturnBytes(i) => ReturnBytesStep(s, i)
    case Finish(i, allocationFails) => FinishStep(s, i, allocationFails)
  }

  function Run(s: State, steps: seq<Step>): State
    decreases |steps|
  {
    if steps == [] then s else Run(Next(s, steps[0]), steps[1..])
  }

  // ----- budgets ------------------------------------------------------------------------------------

  /** A call owns its event and its bytes until they are released. */
  function EventsOf(c: Call): nat {
    if c.phase.Reserving? || c.phase.Waiting? || c.phase.Ready? || c.phase.Settling? then 1 else 0
  }

  function BytesOf(c: Call): nat {
    if c.phase.Waiting? || c.phase.Ready? || c.phase.Settling? || c.phase.EventReturned? then c.bytes else 0
  }

  /** The call owns nothing any more. */
  predicate Returned(c: Call) { EventsOf(c) == 0 && BytesOf(c) == 0 }

  function AllEvents(calls: seq<Call>): nat {
    if calls == [] then 0 else AllEvents(calls[..|calls| - 1]) + EventsOf(calls[|calls| - 1])
  }

  function AllBytes(calls: seq<Call>): nat {
    if calls == [] then 0 else AllBytes(calls[..|calls| - 1]) + BytesOf(calls[|calls| - 1])
  }

  lemma {:induction false} SumsUpdate(calls: seq<Call>, i: nat, c: Call)
    requires i < |calls|
    ensures AllEvents(calls[i := c]) == AllEvents(calls) - EventsOf(calls[i]) + EventsOf(c)
    ensures AllBytes(calls[i := c]) == AllBytes(calls) - BytesOf(calls[i]) + BytesOf(c)
    decreases |calls|
  {
    hide EventsOf, BytesOf;
    var n := |calls| - 1;
    if i < n {
      SumsUpdate(calls[..n], i, c);
      assert calls[i := c][..n] == calls[..n][i := c];
    } else {
      assert calls[i := c][..n] == calls[..n];
    }
  }

  lemma {:induction false} SumsAppend(calls: seq<Call>, c: Call)
    ensures AllEvents(calls + [c]) == AllEvents(calls) + EventsOf(c)
    ensures AllBytes(calls + [c]) == AllBytes(calls) + BytesOf(c)
  {
    assert (calls + [c])[..|calls|] == calls;
  }

  /** The counters are exactly what unreleased calls own, and within the limits. */
  ghost predicate Budgets(s: State) {
    && s.events == AllEvents(s.calls) && s.bytes == AllBytes(s.calls)
    && s.bytes <= s.limits.bytes && (s.limits.events > 0 ==> s.events <= s.limits.events)
  }

  lemma {:induction false} BudgetsKept(s: State, step: Step)
    requires Budgets(s)
    ensures Budgets(Next(s, step))
  {
    hide AllEvents, AllBytes;
    match step
    case ReserveEvent(size) => SumsAppend(s.calls, Call(Reserving, size, false, None, false));
    case Complete(k) => CompleteKeepsBudgets(s, k);
    case Arrive(_, _, _) =>
    case Route(_) =>
    case _ => CallKeepsBudgets(s, step);
  }

  lemma {:induction false} CompleteKeepsBudgets(s: State, k: nat)
    requires Budgets(s)
    ensures Budgets(CompleteStep(s, k))
  {
    hide AllEvents, AllBytes;
    if k < |s.completions| && s.completions[k].call < |s.calls| {
      var i := s.completions[k].call;
      SumsUpdate(s.calls, i, CompleteStep(s, k).calls[i]);
    }
  }

  /** Steps of one call, apart from completions. */
  lemma {:induction false} CallKeepsBudgets(s: State, step: Step)
    requires Budgets(s) && !step.ReserveEvent? && !step.Arrive? && !step.Route? && !step.Complete?
    ensures Budgets(Next(s, step))
  {
    hide AllEvents, AllBytes, CompleteStep;
    var i := step.call;
    if i < |s.calls| { SumsUpdate(s.calls, i, Next(s, step).calls[i]); }
  }

  // ----- results -------------------------------------------------------------------------------------

  ghost predicate Settlements(c: Completion) {
    && c.delivered + c.discarded == (if c.fate.Done? then 1 else 0)
    && (c.failed ==> c.delivered == 0 && !c.fate.Held?)
  }

  /** A held result and the call that holds it know each other. */
  ghost predicate Holding(s: State, k: nat)
    requires k < |s.completions|
  {
    var c := s.completions[k];
    c.call < |s.calls| && Settlements(c) && (c.fate.Held? ==> s.calls[c.call].result == Some(k))
  }

  ghost predicate Holder(s: State, i: nat)
    requires i < |s.calls|
  {
    var call := s.calls[i];
    && (call.result.Some? ==>
        call.result.value < |s.completions| && s.completions[call.result.value].call == i
        && s.completions[call.result.value].fate.Held? && (call.phase.Ready? || (call.Settled() && !call.phase.Final?)))
    && (call.attached ==> call.phase.Waiting? || call.phase.Ready? || call.phase.Settling?)
  }

  ghost predicate Results(s: State) {
    && (forall k :: 0 <= k < |s.completions| ==> Holding(s, k))
    && (forall i :: 0 <= i < |s.calls| ==> Holder(s, i))
  }

  lemma {:induction false} ResultsKept(s: State, step: Step)
    requires Results(s)
    ensures Results(Next(s, step))
  {
    var t := Next(s, step);
    forall k | 0 <= k < |t.completions| ensures Holding(t, k) { HoldingKept(s, step, k); }
    forall i | 0 <= i < |t.calls| ensures Holder(t, i) { HolderKept(s, step, i); }
  }

  lemma {:induction false} HoldingKept(s: State, step: Step, k: nat)
    requires Results(s) && k < |Next(s, step).completions|
    ensures Holding(Next(s, step), k)
  {
    hide Fits;
    if k < |s.completions| {
      assert Holding(s, k);
      assert Holder(s, s.completions[k].call);
    }
    if step.Finish? && step.call < |s.calls| { assert Holder(s, step.call); }
  }

  lemma {:induction false} HolderKept(s: State, step: Step, i: nat)
    requires Results(s) && i < |Next(s, step).calls|
    ensures Holder(Next(s, step), i)
  {
    hide Fits, Settlements;
    if i < |s.calls| { assert Holder(s, i); }
    if (step.Route? || step.Complete?) && step.completion < |s.completions| { assert Holding(s, step.completion); }
    if step.Finish? && step.call < |s.calls| { assert Holder(s, step.call); }
  }

  // ----- every run -------------------------------------------------------------------------------------

  lemma {:induction false} RunKeeps(s: State, steps: seq<Step>)
    requires Budgets(s) && Results(s)
    ensures Budgets(Run(s, steps)) && Results(Run(s, steps))
    decreases |steps|
  {
    hide Next, Budgets, Results;
    if steps != [] {
      BudgetsKept(s, steps[0]);
      ResultsKept(s, steps[0]);
      RunKeeps(Next(s, steps[0]), steps[1..]);
    }
  }

  /** The counters always equal what the unreleased calls own and respect the limits;
      when no call is left unreleased they are zero. */
  lemma {:induction false} BudgetsHold(limits: Limits, steps: seq<Step>)
    ensures var s := Run(Initial(limits), steps);
      Budgets(s) && ((forall i :: 0 <= i < |s.calls| ==> Returned(s.calls[i])) ==> s.events == 0 && s.bytes == 0)
  {
    hide Next, Results;
    assert Results(Initial(limits)) by { InitialResults(limits); }
    RunKeeps(Initial(limits), steps);
    var s := Run(Initial(limits), steps);
    if forall i :: 0 <= i < |s.calls| ==> Returned(s.calls[i]) { NothingOwned(s.calls); }
  }

  lemma {:induction false} InitialResults(limits: Limits)
    ensures Results(Initial(limits))
  {
  }

  lemma {:induction false} NothingOwned(calls: seq<Call>)
    requires forall i :: 0 <= i < |calls| ==> Returned(calls[i])
    ensures AllEvents(calls) == 0 && AllBytes(calls) == 0
  {
    if calls != [] {
      var n := |calls| - 1;
      NothingOwned(calls[..n]);
      assert Returned(calls[n]);
    }
  }

  /** No result is both delivered and discarded, nor either twice; a failed one is never
      delivered; and once its call is over every completion the call has seen was
      delivered or discarded exactly once. */
  lemma {:induction false} SettledOnce(limits: Limits, steps: seq<Step>, k: nat)
    requires k < |Run(Initial(limits), steps).completions|
    ensures var s := Run(Initial(limits), steps);
      var c := s.completions[k];
      && c.call < |s.calls|
      && c.delivered + c.discarded <= 1
      && (c.failed ==> c.delivered == 0)
      && (s.calls[c.call].phase.Final? && !c.fate.Unread? && !c.fate.Routed? ==> c.delivered + c.discarded == 1)
  {
    hide Next, Budgets;
    assert Budgets(Initial(limits)) by { InitialBudgets(limits); }
    RunKeeps(Initial(limits), steps);
    var s := Run(Initial(limits), steps);
    hide Run;
    assert Holding(s, k);
    assert Holder(s, s.completions[k].call);
  }

  lemma {:induction false} InitialBudgets(limits: Limits)
    ensures Budgets(Initial(limits))
  {
  }

  /** A completion that comes after the call was settled is discarded at its next step. */
  lemma {:induction false} LateIsDiscarded(s: State, k: nat)
    requires Results(s) && k < |s.completions| && s.completions[k].call < |s.calls|
    requires s.calls[s.completions[k].call].Settled()
    requires s.completions[k].fate.Routed? || (s.completions[k].fate.Unread? && !s.calls[s.completions[k].call].attached)
    ensures var t := Next(s, if s.completions[k].fate.Routed? then Complete(k) else Route(k));
      t.completions[k].discarded == 1 && t.completions[k].delivered == 0
      && t.events == s.events && t.bytes == s.bytes && t.calls == s.calls
  {
    assert Holding(s, k);
  }

  // ----- the life of a call ---------------------------------------------------------------------------

  ghost predicate EventRoom(s: State) { s.limits.events == 0 || AllEvents(s.calls) < s.limits.events }

  ghost predicate BytesRoom(s: State, size: nat) { AllBytes(s.calls) + size <= s.limits.bytes }

  /** A call starts exactly if its request could ever fit and another event is allowed, and it
      waits for the host exactly if its request fits beside what other calls own; refused, it
      gives its event back. */
  lemma {:induction false} StartsExactly(s: State, size: nat)
    requires Budgets(s)
    ensures var t := Next(s, ReserveEvent(size));
      t.calls == s.calls + (if size <= s.limits.bytes && EventRoom(s) then [Call(Reserving, size, false, None, false)] else [])
    ensures forall i :: 0 <= i < |s.calls| && s.calls[i].phase.Reserving? ==>
      var t, call := Next(s, ReserveRequest(i)), s.calls[i];
      if BytesRoom(s, call.bytes) then t.calls[i] == call.(phase := Waiting, attached := true) && t.events == s.events
      else t.calls[i].phase.Refused? && t.events == s.events - 1 && t.bytes == s.bytes
  {
    hide AllEvents, AllBytes;
    assert s.calls + [] == s.calls;
  }

  /** The first answer to a waiting call is held for it exactly if it is no failure and fits;
      otherwise it is discarded, and either way the call is ready.  Any later answer is
      discarded and changes nothing else. */
  lemma {:induction false} AnswerExactly(s: State, k: nat)
    requires Budgets(s) && k < |s.completions| && s.completions[k].fate.Routed? && s.completions[k].call < |s.calls|
    ensures var t, c := Next(s, Complete(k)), s.completions[k];
      var was, now := s.calls[c.call], t.calls[c.call];
      if !was.phase.Waiting? then t.calls == s.calls && t.bytes == s.bytes && t.completions[k] == Discarded(c)
      else
        && now.phase.Ready?
        && if !c.failed && BytesRoom(s, c.size)
           then now.result == Some(k) && t.completions[k] == c.(fate := Held) && t.bytes == s.bytes + c.size && now.bytes == was.bytes + c.size
           else now.result == was.result && t.completions[k] == Discarded(c) && t.bytes == s.bytes && now.bytes == was.bytes
  {
    hide AllEvents, AllBytes;
  }

  /** An answer reaches the call as long as the call is attached. */
  lemma {:induction false} AnswersArrive(s: State, i: nat, size: nat, failed: bool)
    requires i < |s.calls| && !s.calls[i].phase.Reserving? && !s.calls[i].phase.Refused?
    ensures var t, n := Next(Next(s, Arrive(i, size, failed)), Route(|s.completions|)), |s.completions|;
      && t.calls == s.calls && |t.completions| == n + 1 && t.completions[..n] == s.completions
      && t.completions[n] ==
         (if s.calls[i].attached then Completion(i, size, failed, Routed, 0, 0) else Discarded(Completion(i, size, failed, Unread, 0, 0)))
  {
  }

  ghost function Closing(s: State, i: nat, consume: bool, allocationFails: bool): State {
    Next(Next(Next(Next(Next(s, Settle(i, consume)), Detach(i)), ReturnEvent(i)), ReturnBytes(i)), Finish(i, allocationFails))
  }

  /** A call may be consumed when it is ready and canceled any time before; either way it
      gives back its event and all its bytes, and what it held is delivered exactly if it was
      consumed and the guest had room for it. */
  lemma {:induction false} ClosesExactly(s: State, i: nat, consume: bool, allocationFails: bool)
    requires Results(s) && i < |s.calls| && (s.calls[i].phase.Ready? || (s.calls[i].phase.Waiting? && !consume))
    ensures var t, was := Closing(s, i, consume, allocationFails), s.calls[i];
      && t.calls[i].phase.Final? && t.events == s.events - 1 && t.bytes == s.bytes - was.bytes
      && (was.result.Some? ==>
           was.result.value < |s.completions|
           && var c, d := s.completions[was.result.value], t.completions[was.result.value];
           d.fate.Done? && if consume && !allocationFails then d.delivered == c.delivered + 1 && d.discarded == c.discarded
                           else d.discarded == c.discarded + 1 && d.delivered == c.delivered)
  {
    hide CompleteStep, ReserveRequestStep, RouteStep;
    assert Holder(s, i);
    var a := Next(s, Settle(i, consume));
    var b := Next(a, Detach(i));
    assert b == SetCall(s, i, s.calls[i].(phase := Settling, consumed := consume, attached := false));
    var d := Next(Next(b, ReturnEvent(i)), ReturnBytes(i));
    assert d.calls[i] == s.calls[i].(phase := Released, consumed := consume, attached := false) && d.completions == s.completions;
  }

  /** A call that waits cannot be consumed. */
  lemma {:induction false} WaitsForAnswer(s: State, i: nat)
    requires i < |s.calls| && !s.calls[i].phase.Ready?
    ensures Next(s, Settle(i, true)) == s
  {
  }
}
