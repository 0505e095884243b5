/** What an FFI session owns: leases, providers and pending results of
    `rpc/ffi_session.go`, `rpc/ffi_session_lifecycle.go` and `rpc/ffi_result.go`.

    Bindings and results are listed in order of creation with their present standing; a
    step is one lock section, and a wait group is passed when nobody it counts is left. */
module FfiSession {

  /** `MaxBindings`, `MaxPendingResults` and `MaxInFlightBytes`. */
  datatype Limits = Limits(bindings: nat, results: nat, bytes: nat)

  datatype Standing = Reserved | Lease | Provider | Retiring | Gone
  {
    predicate Live() { Lease? || Provider? }
  }

  /** `constructing` while its constructor is counted by the `constructors` wait group. */
  datatype Binding = Binding(standing: Standing, constructing: bool)

  /** Undecided in the table, being decided by a worker or by the cleanup of its lease,
      or done; `claims` counts how often it was taken for decision. */
  datatype Progress = Pending | ByWorker | ByCleanup | Decided
  datatype Result = Result(lease: nat, bytes: nat, progress: Progress, claims: nat)
  {
    predicate Deciding() { progress.ByWorker? || progress.ByCleanup? }
  }

  datatype Stage = Open | Closing(todo: set<nat>) | Constructors | Workers | Cleanups | Done

  datatype State = State(
    limits: Limits, stage: Stage, bindings: seq<Binding>, results: seq<Result>,
    // counters of the session
    reservations: int, decidingResults: int, resultBytes: int)

  function Initial(limits: Limits): State { State(limits, Open, [], [], 0, 0, 0) }

  datatype Step =
    | Reserve
    | Abandon(binding: nat)
    | Commit(binding: nat, provider: bool)
    | ConstructorDone(binding: nat)
    | AddResult(binding: nat, bytes: nat)
    | Decide(result: nat, lease: nat)
    | FinishDecision(result: nat)
    | BeginClose(binding: nat, provider: bool)
    | DiscardPending(result: nat)
    | FinishClose(binding: nat)
    | Shutdown
    | ShutdownClose(binding: nat)
    | Wait

  // ----- counting ---------------------------------------------------------------------------------

  function One(b: bool): nat { if b then 1 else 0 }

  function Count(bindings: seq<Binding>, f: Binding -> bool): nat {
    if bindings == [] then 0 else Count(bindings[..|bindings| - 1], f) + One(f(bindings[|bindings| - 1]))
  }

  function Sum(results: seq<Result>, f: Result -> nat): nat {
    if results == [] then 0 else Sum(results[..|results| - 1], f) + f(results[|results| - 1])
  }

  const IS_RESERVED := (b: Binding) => b.standing.Reserved?
  const IS_HELD := (b: Binding) => b.standing.Lease? || b.standing.Provider? || b.standing.Retiring?
  const IS_PENDING := (r: Result) => One(r.progress.Pending?)
  const IS_DECIDING := (r: Result) => One(r.Deciding())
  const BYTES_OF := (r: Result) => if r.progress.Decided? then 0 else r.bytes

  function PendingOf(lease: nat): Result -> nat { (r: Result) => One(r.progress.Pending? && r.lease == lease) }

  lemma {:induction false} CountUpdate(bindings: seq<Binding>, f: Binding -> bool, i: nat, b: Binding)
    requires i < |bindings|
    ensures Count(bindings[i := b], f) == Count(bindings, f) - One(f(bindings[i])) + One(f(b))
    decreases |bindings|
  {
    var n := |bindings| - 1;
    if i < n {
      CountUpdate(bindings[..n], f, i, b);
      assert bindings[i := b][..n] == bindings[..n][i := b];
    } else {
      assert bindings[i := b][..n] == bindings[..n];
    }
  }

  lemma {:induction false} SumUpdate(results: seq<Result>, f: Result -> nat, i: nat, r: Result)
    requires i < |results|
    ensures Sum(results[i := r], f) == Sum(results, f) - f(results[i]) + f(r)
    decreases |results|
  {
    var n := |results| - 1;
    if i < n {
      SumUpdate(results[..n], f, i, r);
      assert results[i := r][..n] == results[..n][i := r];
    } else {
      assert results[i := r][..n] == results[..n];
    }
  }

  lemma {:induction false} CountAppend(bindings: seq<Binding>, f: Binding -> bool, b: Binding)
    ensures Count(bindings + [b], f) == Count(bindings, f) + One(f(b))
  {
    assert (bindings + [b])[..|bindings|] == bindings;
  }

  lemma {:induction false} SumAppend(results: seq<Result>, f: Result -> nat, r: Result)
    ensures Sum(results + [r], f) == Sum(results, f) + f(r)
  {
    assert (results + [r])[..|results|] == results;
  }

  // ----- lock sections ------------------------------------------------------------------------------

  predicate Is(s: State, i: nat, standing: Standing) { i < |s.bindings| && s.bindings[i].standing == standing }

  predicate At(s: State, k: nat, progress: Progress) { k < |s.results| && s.results[k].progress == progress }

  function Set(s: State, i: nat, standing: Standing): State
    requires i < |s.bindings|
  {
    s.(bindings := s.bindings[i := s.bindings[i].(standing := standing)])
  }

  function ReserveStep(s: State): State {
    if !s.stage.Open? || Count(s.bindings, IS_HELD) + s.reservations >= s.limits.bindings then s
    else s.(bindings := s.bindings + [Binding(Reserved, true)], reservations := s.reservations + 1)
  }

  function AbandonStep(s: State, i: nat): State {
    if Is(s, i, Reserved) then Set(s, i, Gone).(reservations := s.reservations - 1) else s
  }

  function CommitStep(s: State, i: nat, provider: bool): State {
    if !Is(s, i, Reserved) then s
    else
      Set(s, i, if !s.stage.Open? then Gone else if provider then Provider else Lease)
      .(reservations := s.reservations - 1)
  }

  function ConstructorDoneStep(s: State, i: nat): State {
    if i < |s.bindings| && !s.bindings[i].standing.Reserved?
    then s.(bindings := s.bindings[i := s.bindings[i].(constructing := false)])
    else s
  }

  function AddResultStep(s: State, i: nat, bytes: nat): State {
    if !s.stage.Open? || !Is(s, i, Lease) || Sum(s.results, IS_PENDING) + s.decidingResults >= s.limits.results
       || bytes > s.limits.bytes || s.resultBytes > s.limits.bytes - bytes
    then s
    else s.(results := s.results + [Result(i, bytes, Pending, 0)], resultBytes := s.resultBytes + bytes)
  }

  function Taken(r: Result, who: Progress): Result { r.(progress := who, claims := r.claims + 1) }

  function DecideStep(s: State, k: nat, lease: nat): State {
    if !s.stage.Open? || !At(s, k, Pending) || s.results[k].lease != lease then s
    else s.(results := s.results[k := Taken(s.results[k], ByWorker)], decidingResults := s.decidingResults + 1)
  }

  function DoneStep(s: State, k: nat, who: Progress): State {
    if !At(s, k, who) || who.Pending? || who.Decided? then s
    else
      s.(results := s.results[k := s.results[k].(progress := Decided)],
         decidingResults := s.decidingResults - 1, resultBytes := s.resultBytes - s.results[k].bytes)
  }

  /** The undecided results of a lease, taken by its cleanup. */
  function Claim(results: seq<Result>, lease: nat): (claimed: seq<Result>)
    ensures |claimed| == |results|
  {
    seq(|results|, i requires 0 <= i < |results| =>
      if results[i].progress.Pending? && results[i].lease == lease then Taken(results[i], ByCleanup) else results[i])
  }

  function Close(s: State, i: nat): State
    requires i < |s.bindings|
  {
    Set(s, i, Retiring).(results := Claim(s.results, i), decidingResults := s.decidingResults + Sum(s.results, PendingOf(i)))
  }

  function BeginCloseStep(s: State, i: nat, provider: bool): State {
    if Is(s, i, if provider then Provider else Lease) then Close(s, i) else s
  }

  /** The cleanup goes through its results before it gives up the binding. */
  function FinishCloseStep(s: State, i: nat): State {
    if !Is(s, i, Retiring) || exists k :: 0 <= k < |s.results| && At(s, k, ByCleanup) && s.results[k].lease == i then s
    else Set(s, i, Gone)
  }

  function ShutdownStep(s: State): State {
    if !s.stage.Open? then s
    else s.(stage := Closing(set i | 0 <= i < |s.bindings| && s.bindings[i].standing.Live()))
  }

  function ShutdownCloseStep(s: State, i: nat): State {
    if !s.stage.Closing? || i !in s.stage.todo then s
    else
      (if i < |s.bindings| && s.bindings[i].standing.Live() then Close(s, i) else s).(stage := Closing(s.stage.todo - {i}))
  }

  function WaitStep(s: State): State {
    match s.stage
    case Closing(todo) => if todo == {} then s.(stage := Constructors) else s
    case Constructors => if exists i :: 0 <= i < |s.bindings| && s.bindings[i].constructing then s else s.(stage := Workers)
    case Workers => if exists k :: 0 <= k < |s.results| && At(s, k, ByWorker) then s else s.(stage := Cleanups)
    case Cleanups => if exists i :: 0 <= i < |s.bindings| && Is(s, i, Retiring) then s else s.(stage := Done)
    case _ => s
  }

  function Next(s: State, step: Step): State {
    match step
    case Reserve => ReserveStep(s)
    case Abandon(i) => AbandonStep(s, i)
    case Commit(i, provider) => CommitStep(s, i, provider)
    case ConstructorDone(i) => ConstructorDoneStep(s, i)
    case AddResult(i, bytes) => AddResultStep(s, i, bytes)
    case Decide(k, lease) => DecideStep(s, k, lease)
    case FinishDecision(k) => DoneStep(s, k, ByWorker)
    case BeginClose(i, provider) => BeginCloseStep(s, i, provider)
    case DiscardPending(k) => DoneStep(s, k, ByCleanup)
    case FinishClose(i) => FinishCloseStep(s, i)
    case Shutdown => ShutdownStep(s)
    case ShutdownClose(i) => ShutdownCloseStep(s, i)
    case Wait => WaitStep(s)
  }

  function Run(s: State, steps: seq<Step>): State
    decreases |steps|
  {
    if steps == [] then s else Run(Next(s, steps[0]), steps[1..])
  }

  /** The loop of `beginBindingClose` over the session's results. */
  method ClaimPending(results: seq<Result>, lease: nat) returns (claimed: seq<Result>, count: nat)
    ensures claimed == Claim(results, lease) && count == Sum(results, PendingOf(lease))
  {
    claimed, count := results, 0;
    for i := 0 to |results|
      invariant |claimed| == |results|
      invariant forall j :: i <= j < |results| ==> claimed[j] == results[j]
      invariant forall j :: 0 <= j < i ==> claimed[j] == Claim(results, lease)[j]
      invariant count == Sum(results[..i], PendingOf(lease))
    {
      assert results[..i + 1] == results[..i] + [results[i]];
      SumAppend(results[..i], PendingOf(lease), results[i]);
      if results[i].progress.Pending? && results[i].lease == lease {
        claimed := claimed[i := Taken(results[i], ByCleanup)];
        count := count + 1;
      }
    }
    assert results[..|results|] == results;
  }

  lemma {:induction false} ClaimSums(results: seq<Result>, lease: nat)
    ensures Sum(Claim(results, lease), IS_PENDING) == Sum(results, IS_PENDING) - Sum(results, PendingOf(lease))
    ensures Sum(Claim(results, lease), IS_DECIDING) == Sum(results, IS_DECIDING) + Sum(results, PendingOf(lease))
    ensures Sum(Claim(results, lease), BYTES_OF) == Sum(results, BYTES_OF)
    decreases |results|
  {
    if results != [] {
      var n := |results| - 1;
      ClaimSums(results[..n], lease);
      assert Claim(results, lease)[..n] == Claim(results[..n], lease);
    }
  }

  // ----- conservation ---------------------------------------------------------------------------------

  /** The counters say what the tables hold, and the tables stay within their limits. */
  ghost predicate Conserved(s: State) {
    && s.reservations == Count(s.bindings, IS_RESERVED)
    && Count(s.bindings, IS_HELD) + s.reservations <= s.limits.bindings
    && s.decidingResults == Sum(s.results, IS_DECIDING)
    && Sum(s.results, IS_PENDING) + s.decidingResults <= s.limits.results
    && s.resultBytes == Sum(s.results, BYTES_OF) && s.resultBytes <= s.limits.bytes
  }

  lemma {:induction false} StandingSums(s: State, i: nat, standing: Standing)
    requires i < |s.bindings|
    ensures var t := Set(s, i, standing).bindings;
      && Count(t, IS_RESERVED) == Count(s.bindings, IS_RESERVED) - One(s.bindings[i].standing.Reserved?) + One(standing.Reserved?)
      && Count(t, IS_HELD) == Count(s.bindings, IS_HELD) - One(IS_HELD(s.bindings[i])) + One(IS_HELD(Binding(standing, true)))
  {
    CountUpdate(s.bindings, IS_RESERVED, i, s.bindings[i].(standing := standing));
    CountUpdate(s.bindings, IS_HELD, i, s.bindings[i].(standing := standing));
  }

  lemma {:induction false} ResultSums(results: seq<Result>, k: nat, r: Result)
    requires k < |results|
    ensures Sum(results[k := r], IS_PENDING) == Sum(results, IS_PENDING) - IS_PENDING(results[k]) + IS_PENDING(r)
    ensures Sum(results[k := r], IS_DECIDING) == Sum(results, IS_DECIDING) - IS_DECIDING(results[k]) + IS_DECIDING(r)
    ensures Sum(results[k := r], BYTES_OF) == Sum(results, BYTES_OF) - BYTES_OF(results[k]) + BYTES_OF(r)
  {
    SumUpdate(results, IS_PENDING, k, r);
    SumUpdate(results, IS_DECIDING, k, r);
    SumUpdate(results, BYTES_OF, k, r);
  }

  lemma {:induction false} BindingStepConserves(s: State, step: Step)
    requires Conserved(s) && (step.Reserve? || step.Abandon? || step.Commit? || step.ConstructorDone? || step.FinishClose?)
    ensures Conserved(Next(s, step))
  {
    hide Count, Sum;
    if step.Reserve? {
      CountAppend(s.bindings, IS_RESERVED, Binding(Reserved, true));
      CountAppend(s.bindings, IS_HELD, Binding(Reserved, true));
    } else if step.binding < |s.bindings| {
      var i := step.binding;
      StandingSums(s, i, Gone);
      StandingSums(s, i, Provider);
      StandingSums(s, i, Lease);
      CountUpdate(s.bindings, IS_RESERVED, i, s.bindings[i].(constructing := false));
      CountUpdate(s.bindings, IS_HELD, i, s.bindings[i].(constructing := false));
    }
  }

  lemma {:induction false} ResultStepConserves(s: State, step: Step)
    requires Conserved(s) && (step.AddResult? || step.Decide? || step.FinishDecision? || step.DiscardPending?)
    ensures Conserved(Next(s, step))
  {
    hide Count, Sum;
    if step.AddResult? {
      var r := Result(step.binding, step.bytes, Pending, 0);
      SumAppend(s.results, IS_PENDING, r);
      SumAppend(s.results, IS_DECIDING, r);
      SumAppend(s.results, BYTES_OF, r);
    } else if step.result < |s.results| {
      var k := step.result;
      ResultSums(s.results, k, Taken(s.results[k], ByWorker));
      ResultSums(s.results, k, s.results[k].(progress := Decided));
    }
  }

  lemma {:induction false} CloseConserves(s: State, i: nat)
    requires Conserved(s) && i < |s.bindings| && s.bindings[i].standing.Live()
    ensures Conserved(Close(s, i))
  {
    hide Count, Sum, Claim;
    StandingSums(s, i, Retiring);
    ClaimSums(s.results, i);
  }

  lemma {:induction false} StepConserves(s: State, step: Step)
    requires Conserved(s)
    ensures Conserved(Next(s, step))
  {
    match step
    case BeginClose(i, provider) => if i < |s.bindings| && s.bindings[i].standing.Live() { CloseConserves(s, i); }
    case ShutdownClose(i) => if i < |s.bindings| && s.bindings[i].standing.Live() { CloseConserves(s, i); }
    case Shutdown =>
    case Wait =>
    case _ =>
      hide Conserved, Next;
      if step.AddResult? || step.Decide? || step.FinishDecision? || step.DiscardPending? {
        ResultStepConserves(s, step);
      } else {
        BindingStepConserves(s, step);
      }
  }

  // ----- ownership ---------------------------------------------------------------------------------------

  /** An undecided result has an open lease; one a cleanup took has a retiring lease. */
  ghost predicate ResultOk(s: State, k: nat)
    requires k < |s.results|
  {
    var r := s.results[k];
    && r.lease < |s.bindings|
    && (r.progress.Pending? ==> s.bindings[r.lease].standing.Lease?)
    && (r.progress.ByCleanup? ==> s.bindings[r.lease].standing.Retiring?)
    && r.claims == One(!r.progress.Pending?)
  }

  /** What shutdown has ruled out by now. */
  ghost predicate BindingOk(s: State, i: nat)
    requires i < |s.bindings|
  {
    var b := s.bindings[i];
    && (b.standing.Reserved? ==> b.constructing)
    && (b.standing.Live() ==> s.stage.Open? || (s.stage.Closing? && i in s.stage.todo))
    && (b.constructing ==> s.stage.Open? || s.stage.Closing? || s.stage.Constructors?)
    && (b.standing.Retiring? ==> !s.stage.Done?)
  }

  ghost predicate WorkerOk(s: State, k: nat)
    requires k < |s.results|
  {
    s.results[k].progress.ByWorker? ==> !s.stage.Cleanups? && !s.stage.Done?
  }

  ghost predicate Owned(s: State) {
    && (forall k :: 0 <= k < |s.results| ==> ResultOk(s, k))
    && (forall k :: 0 <= k < |s.results| ==> WorkerOk(s, k))
    && (forall i :: 0 <= i < |s.bindings| ==> BindingOk(s, i))
  }

  lemma {:induction false} CloseOwned(s: State, i: nat)
    requires Owned(s) && i < |s.bindings| && s.bindings[i].standing.Live()
    ensures var t := Close(s, i); forall k :: 0 <= k < |t.results| ==> ResultOk(t, k) && WorkerOk(t, k)
    ensures var t := Close(s, i); forall j :: 0 <= j < |t.bindings| ==> BindingOk(t, j)
  {
    hide Sum;
    var t := Close(s, i);
    forall k | 0 <= k < |t.results| ensures ResultOk(t, k) && WorkerOk(t, k) { assert ResultOk(s, k) && WorkerOk(s, k); }
    forall j | 0 <= j < |t.bindings| ensures BindingOk(t, j) { assert BindingOk(s, j) && BindingOk(s, i); }
  }

  lemma {:induction false} ResultStays(s: State, step: Step, k: nat)
    requires Owned(s) && k < |Next(s, step).results| && !step.BeginClose? && !step.ShutdownClose?
    ensures ResultOk(Next(s, step), k)
  {
    hide Sum, Count, BindingOk, WorkerOk, Close;
    if k < |s.results| { assert ResultOk(s, k); }
  }

  lemma {:induction false} WorkerStays(s: State, step: Step, k: nat)
    requires Owned(s) && k < |Next(s, step).results| && !step.BeginClose? && !step.ShutdownClose?
    ensures WorkerOk(Next(s, step), k)
  {
    hide Sum, Count, BindingOk, ResultOk, Close;
    if k < |s.results| { assert WorkerOk(s, k) && (At(s, k, ByWorker) <==> s.results[k].progress.ByWorker?); }
  }

  lemma {:induction false} BindingStays(s: State, step: Step, i: nat)
    requires Owned(s) && i < |Next(s, step).bindings| && !step.BeginClose? && !step.ShutdownClose?
    ensures BindingOk(Next(s, step), i)
  {
    hide Sum, Count, ResultOk, WorkerOk, Close;
    if i < |s.bindings| { assert BindingOk(s, i) && (Is(s, i, Retiring) <==> s.bindings[i].standing.Retiring?); }
  }

  lemma {:induction false} StepKeepsOwned(s: State, step: Step)
    requires Owned(s)
    ensures Owned(Next(s, step))
  {
    var t := Next(s, step);
    if step.BeginClose? || step.ShutdownClose? {
      hide Sum, Count;
      var i := step.binding;
      if i < |s.bindings| && s.bindings[i].standing.Live() && t != s {
        CloseOwned(s, i);
        hide Claim;
        forall k | 0 <= k < |t.results| ensures ResultOk(t, k) && WorkerOk(t, k) {
          assert ResultOk(Close(s, i), k) && WorkerOk(Close(s, i), k);
        }
        forall j | 0 <= j < |t.bindings| ensures BindingOk(t, j) { assert BindingOk(Close(s, i), j); }
      } else {
        forall k | 0 <= k < |t.results| ensures ResultOk(t, k) && WorkerOk(t, k) { assert ResultOk(s, k) && WorkerOk(s, k); }
        forall j | 0 <= j < |t.bindings| ensures BindingOk(t, j) { assert BindingOk(s, j); }
      }
    } else {
      hide Next, ResultOk, WorkerOk, BindingOk;
      forall k | 0 <= k < |t.results| ensures ResultOk(t, k) && WorkerOk(t, k) {
        ResultStays(s, step, k);
        WorkerStays(s, step, k);
      }
      forall i | 0 <= i < |t.bindings| ensures BindingOk(t, i) { BindingStays(s, step, i); }
    }
  }

  // ----- every run ----------------------------------------------------------------------------------------

  lemma {:induction false} RunKeeps(s: State, steps: seq<Step>)
    requires Conserved(s) && Owned(s)
    ensures Conserved(Run(s, steps)) && Owned(Run(s, steps))
    decreases |steps|
  {
    hide Next, Conserved, Owned;
    if steps != [] {
      StepConserves(s, steps[0]);
      StepKeepsOwned(s, steps[0]);
      RunKeeps(Next(s, steps[0]), steps[1..]);
    }
  }

  /** Bindings and reservations stay within the binding limit, undecided and deciding
      results within the result limit, and the byte counter is exactly what they hold. */
  lemma {:induction false} SessionConserves(limits: Limits, steps: seq<Step>)
    ensures Conserved(Run(Initial(limits), steps))
  {
    hide Next;
    RunKeeps(Initial(limits), steps);
  }

  /** No result is taken for decision twice. */
  lemma {:induction false} ClaimedOnce(limits: Limits, steps: seq<Step>, k: nat)
    requires k < |Run(Initial(limits), steps).results|
    ensures var r := Run(Initial(limits), steps).results[k]; r.claims == One(!r.progress.Pending?)
  {
    hide Next;
    RunKeeps(Initial(limits), steps);
    assert ResultOk(Run(Initial(limits), steps), k);
  }

  lemma {:induction false} NoneLeft(bindings: seq<Binding>, results: seq<Result>)
    requires forall i :: 0 <= i < |bindings| ==> bindings[i].standing.Gone?
    requires forall k :: 0 <= k < |results| ==> results[k].progress.Decided?
    ensures Count(bindings, IS_RESERVED) == 0 && Sum(results, IS_DECIDING) == 0 && Sum(results, BYTES_OF) == 0
    decreases |bindings| + |results|
  {
    if bindings != [] {
      NoneLeft(bindings[..|bindings| - 1], results);
    } else if results != [] {
      NoneLeft(bindings, results[..|results| - 1]);
    }
  }

  /** When shutdown completes, every binding is gone, every result decided once, and all
      counters are zero. */
  lemma {:induction false} ShutdownLeavesNothing(limits: Limits, steps: seq<Step>)
    requires Run(Initial(limits), steps).stage.Done?
    ensures var s := Run(Initial(limits), steps);
      && (forall i :: 0 <= i < |s.bindings| ==> s.bindings[i].standing.Gone?)
      && (forall k :: 0 <= k < |s.results| ==> s.results[k].progress.Decided? && s.results[k].claims == 1)
      && s.reservations == 0 && s.decidingResults == 0 && s.resultBytes == 0
  {
    hide Next;
    RunKeeps(Initial(limits), steps);
    var s := Run(Initial(limits), steps);
    hide Run;
    forall i | 0 <= i < |s.bindings| ensures s.bindings[i].standing.Gone? { assert BindingOk(s, i); }
    forall k | 0 <= k < |s.results| ensures s.results[k].progress.Decided? && s.results[k].claims == 1 {
      assert ResultOk(s, k) && WorkerOk(s, k);
    }
    NoneLeft(s.bindings, s.results);
  }

  // ----- what is admitted ---------------------------------------------------------------------------------

  /** Room by the tables themselves. */
  ghost predicate BindingRoom(s: State) { s.stage.Open? && Count(s.bindings, IS_HELD) + Count(s.bindings, IS_RESERVED) < s.limits.bindings }

  ghost predicate ResultRoom(s: State, bytes: nat) {
    && s.stage.Open? && Sum(s.results, IS_PENDING) + Sum(s.results, IS_DECIDING) < s.limits.results
    && Sum(s.results, BYTES_OF) + bytes <= s.limits.bytes
  }

  /** A session refuses a binding or a result only when it is closed, there is no open lease, or
      one more would break a limit; whatever else it admits. */
  lemma {:induction false} AdmitsExactly(s: State, i: nat, bytes: nat)
    requires Conserved(s)
    ensures Next(s, Reserve).bindings == s.bindings + (if BindingRoom(s) then [Binding(Reserved, true)] else [])
    ensures Next(s, AddResult(i, bytes)).results ==
      s.results + (if ResultRoom(s, bytes) && i < |s.bindings| && s.bindings[i].standing.Lease? then [Result(i, bytes, Pending, 0)] else [])
  {
    hide Count, Sum;
    assert s.bindings + [] == s.bindings && s.results + [] == s.results;
  }

  /** A finished constructor publishes its binding as the kind it built, unless the session has
      closed meanwhile; giving up leaves nothing. */
  lemma {:induction false} PublishesKind(s: State, i: nat, provider: bool)
    requires i < |s.bindings| && s.bindings[i].standing.Reserved?
    ensures var b := Next(s, Commit(i, provider)).bindings[i].standing;
      (b.Lease? <==> s.stage.Open? && !provider) && (b.Provider? <==> s.stage.Open? && provider) && (b.Gone? <==> !s.stage.Open?)
    ensures Next(s, Abandon(i)).bindings[i].standing.Gone?
  {
  }

  /** A worker takes exactly an undecided result of the lease it was asked for. */
  lemma {:induction false} TakesExactly(s: State, k: nat, lease: nat)
    requires k < |s.results|
    ensures var r := Next(s, Decide(k, lease)).results[k];
      if s.stage.Open? && s.results[k].progress.Pending? && s.results[k].lease == lease then r.progress.ByWorker? && r.claims == s.results[k].claims + 1
      else r == s.results[k]
  {
  }

  /** Closing retires a binding of the kind that was asked for, and takes exactly its undecided
      results. */
  lemma {:induction false} ClosesKind(s: State, i: nat, provider: bool, k: nat)
    requires i < |s.bindings| && k < |s.results|
    ensures var t, kind := Next(s, BeginClose(i, provider)), if provider then Provider else Lease;
      if s.bindings[i].standing != kind then t == s
      else
        && t.bindings[i].standing.Retiring?
        && (t.results[k].progress.ByCleanup? <==> s.results[k].progress.ByCleanup? || (s.results[k].progress.Pending? && s.results[k].lease == i))
        && t.results[k].bytes == s.results[k].bytes && t.results[k].lease == s.results[k].lease
  {
  }

  // ----- shutdown always completes ---------------------------------------------------------------------------

  ghost function StageLeft(s: State): nat {
    match s.stage
    case Open => 5 case Closing(_) => 4 case Constructors => 3 case Workers => 2 case Cleanups => 1 case Done => 0
  }

  ghost function ToClose(s: State): set<nat> { if s.stage.Closing? then s.stage.todo else {} }

  ghost function Having(s: State, standing: Standing): set<nat> { set i | 0 <= i < |s.bindings| && Is(s, i, standing) }

  ghost function Building(s: State): set<nat> { set i | 0 <= i < |s.bindings| && s.bindings[i].constructing }

  ghost function TakenBy(s: State, who: Progress): set<nat> { set k | 0 <= k < |s.results| && At(s, k, who) }

  lemma {:induction false} RunFirst(s: State, step: Step, steps: seq<Step>)
    ensures Run(s, [step] + steps) == Run(Next(s, step), steps)
  {
    hide Next;
    assert ([step] + steps)[1..] == steps;
  }

  /** From wherever a session is, its constructors, workers and cleanups can finish, and then
      shutdown is done. */
  lemma {:induction false} ShutdownCompletes(s: State) returns (steps: seq<Step>)
    ensures Run(s, steps).stage.Done?
    decreases StageLeft(s), ToClose(s), Work(s)
  {
    if s.stage.Done? {
      steps := [];
    } else {
      var step := NextToFinish(s);
      FinishAdvances(s, step);
      hide Next;
      var others := ShutdownCompletes(Next(s, step));
      steps := [step] + others;
      RunFirst(s, step, others);
    }
  }

  /** What shutdown is waiting for. */
  ghost predicate Pressing(s: State, step: Step) {
    match s.stage
    case Open => step == Shutdown
    case Closing(todo) => if todo == {} then step == Wait else step.ShutdownClose? && step.binding in todo
    case Constructors =>
      if Building(s) == {} then step == Wait
      else
        || (step.Abandon? && Is(s, step.binding, Reserved))
        || (step.ConstructorDone? && step.binding in Building(s) && !Is(s, step.binding, Reserved))
    case Workers => if TakenBy(s, ByWorker) == {} then step == Wait else step.FinishDecision? && step.result in TakenBy(s, ByWorker)
    case Cleanups =>
      if Having(s, Retiring) == {} then step == Wait
      else
        || (step.DiscardPending? && step.result in TakenBy(s, ByCleanup))
        || (step.FinishClose? && step.binding in Having(s, Retiring)
            && forall k :: k in TakenBy(s, ByCleanup) ==> s.results[k].lease != step.binding)
    case Done => false
  }

  lemma {:induction false} NextToFinish(s: State) returns (step: Step)
    requires !s.stage.Done?
    ensures Pressing(s, step)
  {
    match s.stage
    case Open => step := Shutdown;
    case Closing(todo) =>
      step := Wait;
      if todo != {} { var i :| i in todo; step := ShutdownClose(i); }
    case Constructors =>
      step := Wait;
      if Building(s) != {} {
        var i :| i in Building(s);
        step := if Is(s, i, Reserved) then Abandon(i) else ConstructorDone(i);
      }
    case Workers =>
      step := Wait;
      if TakenBy(s, ByWorker) != {} { var k :| k in TakenBy(s, ByWorker); step := FinishDecision(k); }
    case Cleanups =>
      step := Wait;
      if Having(s, Retiring) != {} {
        var i :| i in Having(s, Retiring);
        step := FinishClose(i);
        if k :| k in TakenBy(s, ByCleanup) && s.results[k].lease == i { step := DiscardPending(k); }
      }
  }

  /** Constructors, workers and cleanups still under way. */
  ghost function Work(s: State): nat {
    |Having(s, Reserved)| + |Building(s)| + |TakenBy(s, ByWorker)| + |TakenBy(s, ByCleanup)| + |Having(s, Retiring)|
  }

  ghost predicate Nearer(t: State, s: State) {
    || StageLeft(t) < StageLeft(s)
    || (StageLeft(t) == StageLeft(s) && (ToClose(t) < ToClose(s) || (ToClose(t) == ToClose(s) && Work(t) < Work(s))))
  }

  /** Every pressing step brings the end nearer. */
  lemma {:induction false} FinishAdvances(s: State, step: Step)
    requires Pressing(s, step)
    ensures Nearer(Next(s, step), s)
  {
    hide Count, Sum;
    match step
    case Wait => WaitAdvances(s);
    case ShutdownClose(i) => assert i in ToClose(s) && i !in ToClose(Next(s, step));
    case Shutdown =>
    case _ => WorkAdvances(s, step);
  }

  lemma {:induction false} WaitAdvances(s: State)
    requires Pressing(s, Wait)
    ensures StageLeft(WaitStep(s)) < StageLeft(s)
  {
    assert forall i :: 0 <= i < |s.bindings| ==> (i in Building(s) <==> s.bindings[i].constructing);
    assert forall i :: 0 <= i < |s.bindings| ==> (i in Having(s, Retiring) <==> Is(s, i, Retiring));
    assert forall k :: 0 <= k < |s.results| ==> (k in TakenBy(s, ByWorker) <==> At(s, k, ByWorker));
  }

  lemma {:induction false} WorkAdvances(s: State, step: Step)
    requires Pressing(s, step) && (step.Abandon? || step.ConstructorDone? || step.FinishDecision? || step.DiscardPending? || step.FinishClose?)
    ensures var t := Next(s, step); t.stage == s.stage && Work(t) < Work(s)
  {
    match step
    case FinishDecision(k) => ResultDone(s, k, ByWorker);
    case DiscardPending(k) => ResultDone(s, k, ByCleanup);
    case ConstructorDone(i) => BuildingDone(s, i);
    case Abandon(i) => StandingGone(s, Next(s, step), i, Reserved);
    case FinishClose(i) =>
      assert forall k :: 0 <= k < |s.results| ==> (k in TakenBy(s, ByCleanup) <==> At(s, k, ByCleanup));
      StandingGone(s, Next(s, step), i, Retiring);
  }

  lemma {:induction false} ResultDone(s: State, k: nat, who: Progress)
    requires k in TakenBy(s, who) && (who == ByWorker || who == ByCleanup)
    ensures Work(DoneStep(s, k, who)) < Work(s)
  {
    var t, other := DoneStep(s, k, who), if who == ByWorker then ByCleanup else ByWorker;
    assert TakenBy(t, who) == TakenBy(s, who) - {k} && TakenBy(t, other) == TakenBy(s, other);
    SameBindings(s, t);
  }

  lemma {:induction false} SameBindings(s: State, t: State)
    requires t.bindings == s.bindings
    ensures Having(t, Reserved) == Having(s, Reserved) && Having(t, Retiring) == Having(s, Retiring) && Building(t) == Building(s)
  {
  }

  lemma {:induction false} BuildingDone(s: State, i: nat)
    requires i in Building(s) && !Is(s, i, Reserved)
    ensures Work(ConstructorDoneStep(s, i)) < Work(s)
  {
    var t := ConstructorDoneStep(s, i);
    assert Building(t) == Building(s) - {i};
    assert Having(t, Reserved) == Having(s, Reserved) && Having(t, Retiring) == Having(s, Retiring);
    assert TakenBy(t, ByWorker) == TakenBy(s, ByWorker) && TakenBy(t, ByCleanup) == TakenBy(s, ByCleanup);
  }

  lemma {:induction false} StandingGone(s: State, t: State, i: nat, was: Standing)
    requires i in Having(s, was) && (was == Reserved || was == Retiring)
    requires t.bindings == s.bindings[i := s.bindings[i].(standing := Gone)] && t.results == s.results
    ensures Work(t) < Work(s)
  {
    var other := if was == Reserved then Retiring else Reserved;
    assert Having(t, was) == Having(s, was) - {i} && Having(t, other) == Having(s, other) && Building(t) == Building(s);
    assert TakenBy(t, ByWorker) == TakenBy(s, ByWorker) && TakenBy(t, ByCleanup) == TakenBy(s, ByCleanup);
  }

  /** Whatever a session has been through, it can be shut down completely, and nothing is left. */
  lemma {:induction false} ShutdownIsPossible(limits: Limits, steps: seq<Step>)
    ensures exists more: seq<Step> :: Run(Run(Initial(limits), steps), more).stage.Done?
  {
    hide Next;
    var more := ShutdownCompletes(Run(Initial(limits), steps));
  }
}
