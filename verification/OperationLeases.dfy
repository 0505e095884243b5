/** Leases on operations and on the results they offer, between the two endpoints of a
    connection: `rpc/endpoint_transport.go`, `rpc/endpoint_dispatch.go` and
    `rpc/endpoint_lease.go`.

    One step is one lock section.  Binding leases come and go as they like; what they do to
    operations and results is modelled. */
module OperationLeases {
  import opened LeaseTables
  import LeaseSafety

  type Renewal = LeaseSafety.Renewal
  type RequestId = LeaseSafety.RequestId

  /** A request on the wire: when its last fragment was written, and for which binding. */
  datatype Sent = Sent(at: Time, binding: Id)

  /** `inboundLease` and every binding it ever held, `inboundOperations`, `active` and
      `results`, with the operations received so far and those that are over. */
  datatype Granter = Granter(
    bindings: Leases, ever: set<Id>, running: Leases, active: Active, results: Results, received: set<Id>, ended: set<Id>)

  /** `outboundOperations`, with the requests, decisions and renewals sent so far. */
  datatype Holder = Holder(sent: map<Id, Sent>, written: set<Id>, held: Leases, decided: set<Id>, renewals: map<RequestId, Renewal>)

  datatype State = State(now: Time, ttl: Time, failed: bool, g: Granter, h: Holder)

  function Initial(ttl: Time): State {
    State(0, ttl, false, Granter(map[], {}, map[], map[], map[], {}, {}), Holder(map[], {}, map[], {}, map[]))
  }

  datatype GranterStep =
    | Grant(binding: Id)
    | RenewLeases(targets: set<Id>)
    | CloseBinding(binding: Id)
    | Receive(op: Id)
    | Refuse(op: Id)
    | Offer(op: Id)
    | Finish(op: Id)
    | StartDecision(op: Id)
    | CancelDecision(op: Id)
    | FinishDecision(op: Id)
    | Expire(sampled: Time)
    | RetireDone(op: Id)

  datatype HolderStep =
    | Send(op: Id, binding: Id)
    | Written(op: Id)
    | SendDecision(op: Id)
    | SendRenewal(request: RequestId, targets: set<Id>)
    | ReceiveAck(request: RequestId)
    | ExpireHeld(sampled: Time)
    | Forget(op: Id)

  datatype Step =
    | Tick(later: Time)
    | AtGranter(granter: GranterStep)
    | AtHolder(holder: HolderStep)
    | ServeRenewal(request: RequestId, later: Time)
    | Fail

  // ----- the granter's lock sections ------------------------------------------------------------------

  function GrantStep(s: State, b: Id): Granter {
    if b in s.g.ever then s.g else s.g.(ever := s.g.ever + {b}, bindings := s.g.bindings[b := s.now + s.ttl])
  }

  function RenewLeasesStep(s: State, targets: set<Id>): Granter {
    s.g.(bindings := Renewed(s.g.bindings, LiveAmong(s.g.bindings, targets, s.now), s.now + s.ttl))
  }

  /** The close of a binding ends its lease and the leases of the results it offers. */
  function CloseBindingStep(s: State, b: Id): Granter {
    s.g.(
      bindings := s.g.bindings - {b},
      running := map op | op in s.g.running && !(op in s.g.results && s.g.results[op].binding == b) :: s.g.running[op],
      results := map op | op in s.g.results ::
        if s.g.results[op].binding == b then s.g.results[op].(retiring := true) else s.g.results[op])
  }

  /** The read loop admits the operation with a full lease. */
  function ReceiveStep(s: State, op: Id): Granter {
    if op !in s.h.sent || op in s.g.received then s.g
    else s.g.(
      received := s.g.received + {op}, running := s.g.running[op := s.now + s.ttl],
      active := s.g.active[op := s.h.sent[op].binding])
  }

  /** A request over the limits is answered at once. */
  function RefuseStep(s: State, op: Id): Granter {
    if op !in s.h.sent || op in s.g.received then s.g
    else s.g.(received := s.g.received + {op}, ended := s.g.ended + {op})
  }

  /** The call is over and its result takes on the lease of the operation. */
  function OfferStep(s: State, op: Id): Granter {
    if op !in s.g.active || !LiveAt(s.g.running, op, s.now) || s.g.active[op] !in s.g.ever then s.g
    else s.g.(results := s.g.results[op := Offered(s.g.active[op], s.g.running[op], false, false)])
  }

  /** `finish`: without a result on offer the operation is over. */
  function FinishStep(s: State, op: Id): Granter {
    if op !in s.g.active then s.g
    else if op in s.g.results then s.g.(active := s.g.active - {op})
    else s.g.(active := s.g.active - {op}, running := s.g.running - {op}, ended := s.g.ended + {op})
  }

  function StartDecisionStep(s: State, op: Id): Granter {
    if op in s.h.decided && OfferedAt(s.g.results, op, s.now)
    then s.g.(results := s.g.results[op := s.g.results[op].(deciding := true)]) else s.g
  }

  function CancelDecisionStep(s: State, op: Id): Granter {
    if op in s.g.results && s.g.results[op].deciding
    then s.g.(results := s.g.results[op := s.g.results[op].(retiring := true)]) else s.g
  }

  function FinishDecisionStep(s: State, op: Id): Granter {
    if op in s.g.results && s.g.results[op].deciding
    then s.g.(results := s.g.results - {op}, running := s.g.running - {op}) else s.g
  }

  /** `expireLeases`: operations go with their own or their binding's lease, results retire. */
  function ExpireStep(s: State, sampled: Time): Granter {
    if sampled > s.now then s.g
    else
      var live := Running(s.g.bindings, sampled);
      s.g.(
        bindings := live, results := AfterRetiring(s.g.results, live, sampled),
        running := map op | op in s.g.running && sampled < s.g.running[op] && !Lapses(s.g, op, sampled) :: s.g.running[op])
  }

  predicate Lapses(g: Granter, op: Id, sampled: Time) {
    op in g.active && g.active[op] in g.bindings && g.bindings[g.active[op]] <= sampled
  }

  function RetireDoneStep(s: State, op: Id): Granter {
    if op in s.g.results && s.g.results[op].retiring
    then s.g.(results := s.g.results - {op}, running := s.g.running - {op}) else s.g
  }

  function GranterNext(s: State, step: GranterStep): Granter {
    match step
    case Grant(b) => GrantStep(s, b)
    case RenewLeases(targets) => RenewLeasesStep(s, targets)
    case CloseBinding(b) => CloseBindingStep(s, b)
    case Receive(op) => ReceiveStep(s, op)
    case Refuse(op) => RefuseStep(s, op)
    case Offer(op) => OfferStep(s, op)
    case Finish(op) => FinishStep(s, op)
    case StartDecision(op) => StartDecisionStep(s, op)
    case CancelDecision(op) => CancelDecisionStep(s, op)
    case FinishDecision(op) => FinishDecisionStep(s, op)
    case Expire(sampled) => ExpireStep(s, sampled)
    case RetireDone(op) => RetireDoneStep(s, op)
  }

  // ----- the holder's lock sections -------------------------------------------------------------------

  function SendStep(s: State, op: Id, b: Id): Holder {
    if op in s.h.sent then s.h else s.h.(sent := s.h.sent[op := Sent(s.now, b)])
  }

  /** `completeWrite`: the lease counts from before the last fragment was written. */
  function WrittenStep(s: State, op: Id): Holder {
    if op !in s.h.sent || op in s.h.written then s.h
    else s.h.(written := s.h.written + {op}, held := s.h.held[op := s.h.sent[op].at + s.ttl])
  }

  function SendRenewalStep(s: State, request: RequestId, targets: set<Id>): Holder {
    if request in s.h.renewals || !(targets <= s.h.held.Keys) then s.h
    else s.h.(renewals := s.h.renewals[request := LeaseSafety.Renewal(s.now, targets, false, {})])
  }

  function ReceiveAckStep(s: State, request: RequestId): Holder {
    if request !in s.h.renewals || !s.h.renewals[request].answered then s.h
    else
      var r := s.h.renewals[request];
      s.h.(held := Advanced(s.h.held, r.acked, s.now, r.sentAt + s.ttl), renewals := s.h.renewals - {request})
  }

  function HolderNext(s: State, step: HolderStep): Holder {
    match step
    case Send(op, b) => SendStep(s, op, b)
    case Written(op) => WrittenStep(s, op)
    case SendDecision(op) => s.h.(decided := s.h.decided + {op})
    case SendRenewal(request, targets) => SendRenewalStep(s, request, targets)
    case ReceiveAck(request) => ReceiveAckStep(s, request)
    case ExpireHeld(sampled) => if sampled > s.now then s.h else s.h.(held := Running(s.h.held, sampled))
    case Forget(op) => s.h.(held := s.h.held - {op})
  }

  // ----- runs -----------------------------------------------------------------------------------------

  predicate Serves(s: State, request: RequestId, later: Time) {
    request in s.h.renewals && !s.h.renewals[request].answered && s.now <= later
  }

  /** An operation is extended and acknowledged while it runs or while its result is on offer;
      the expiry is computed from the first clock reading, liveness from a later one. */
  function ServeRenewalStep(s: State, request: RequestId, later: Time): State {
    if !Serves(s, request, later) then s
    else
      var r := s.h.renewals[request];
      var live, offered := LiveAmong(s.g.running, r.targets, later), OfferedAmong(s.g.results, r.targets, later);
      s.(now := later,
         g := s.g.(running := Renewed(s.g.running, live, s.now + s.ttl), results := RenewedResults(s.g.results, offered, s.now + s.ttl)),
         h := s.h.(renewals := s.h.renewals[request := r.(answered := true, acked := live + offered)]))
  }

  /** After a failure of either endpoint nothing more happens. */
  function Next(s: State, step: Step): State {
    if s.failed then s
    else
      match step
      case Tick(later) => if later < s.now then s else s.(now := later)
      case AtGranter(g) => s.(g := GranterNext(s, g))
      case AtHolder(h) => s.(h := HolderNext(s, h))
      case ServeRenewal(request, later) => ServeRenewalStep(s, request, later)
      case Fail => s.(failed := true)
  }

  function Run(s: State, steps: seq<Step>): State
    decreases |steps|
  {
    if steps == [] then s else Run(Next(s, steps[0]), steps[1..])
  }

  // ----- safety -------------------------------------------------------------------------------------

  /** The lease of the binding the operation was sent for has ended. */
  ghost predicate Orphan(s: State, op: Id) {
    op in s.h.sent && s.h.sent[op].binding in s.g.ever && s.h.sent[op].binding !in s.g.bindings
  }

  /** One side has ended the operation, the connection failed, or its binding is gone. */
  ghost predicate Over(s: State, op: Id) {
    op in s.g.ended || op in s.h.decided || s.failed || Orphan(s, op)
  }

  /** A promise to `op` until `until` that the granter covers, will cover, or that is over. */
  ghost predicate Backed(s: State, op: Id, until: Time) {
    || s.now >= until || Over(s, op)
    || (op in s.g.running && until <= s.g.running[op])
    || (op !in s.g.received && op in s.h.sent && until <= s.h.sent[op].at + s.ttl)
  }

  /** A result on offer and its operation have one lease. */
  ghost predicate ResultOk(s: State, op: Id)
    requires op in s.g.results
  {
    var result := s.g.results[op];
    && op in s.h.sent && op in s.g.received && result.binding == s.h.sent[op].binding && result.binding in s.g.ever
    && (result.deciding ==> op in s.h.decided)
    && (Over(s, op) || if op in s.g.running then !result.retiring && result.expires == s.g.running[op] else result.retiring)
  }

  ghost predicate OperationOk(s: State, op: Id) {
    && (op in s.g.running ==>
        s.g.running[op] <= s.now + s.ttl && op in s.g.received && (op in s.g.active || op in s.g.results))
    && (op in s.g.active ==> op in s.g.received && op in s.h.sent && s.g.active[op] == s.h.sent[op].binding)
  }

  ghost predicate Tables(s: State) {
    && s.g.bindings.Keys <= s.g.ever && s.h.held.Keys <= s.h.sent.Keys && s.g.received <= s.h.sent.Keys
    && (forall op :: op in s.h.sent ==> s.h.sent[op].at <= s.now)
  }

  /** What a step needs to know about one operation. */
  ghost predicate Known(s: State, op: Id) {
    Tables(s) && OperationOk(s, op) && (op in s.g.results ==> ResultOk(s, op))
  }

  ghost predicate RenewalOk(s: State, request: RequestId)
    requires request in s.h.renewals
  {
    var r := s.h.renewals[request];
    && r.sentAt <= s.now && r.acked <= r.targets && r.targets <= s.h.sent.Keys
    && forall op :: op in r.acked ==> Backed(s, op, r.sentAt + s.ttl)
  }

  ghost predicate Invariant(s: State) {
    && (forall op :: Known(s, op))
    && (forall op :: op in s.h.held ==> Backed(s, op, s.h.held[op]))
    && (forall op :: op in s.h.sent ==> Backed(s, op, s.h.sent[op].at + s.ttl))
    && (forall request :: request in s.h.renewals ==> RenewalOk(s, request))
  }

  /** While the holder counts on the operation, the granter keeps it at least as long: running
      or with its result on offer, under the same lease. */
  ghost predicate Covered(s: State, op: Id) {
    op in s.h.held && s.now < s.h.held[op] && op in s.g.received && !Over(s, op)
    ==> && op in s.g.running && s.h.held[op] <= s.g.running[op] && (op in s.g.active || op in s.g.results)
        && (op in s.g.results ==> !s.g.results[op].retiring && s.g.results[op].expires == s.g.running[op])
  }

  lemma {:induction false} InvariantIsSafe(s: State, op: Id)
    requires Invariant(s)
    ensures Covered(s, op)
  {
    assert Known(s, op);
  }

  // ----- one operation through one step -------------------------------------------------------------------

  /** Time and history only grow, and a binding never gets its lease back. */
  ghost predicate Grows(s: State, t: State) {
    && t.ttl == s.ttl && s.now <= t.now && (s.failed ==> t.failed)
    && s.g.received <= t.g.received && s.g.ended <= t.g.ended && s.h.decided <= t.h.decided && s.g.ever <= t.g.ever
    && (forall b :: b in s.g.ever && b in t.g.bindings ==> b in s.g.bindings)
    && (forall op :: op in s.h.sent ==> op in t.h.sent && t.h.sent[op] == s.h.sent[op])
  }

  lemma {:induction false} OverStays(s: State, t: State, op: Id)
    requires Grows(s, t) && Over(s, op)
    ensures Over(t, op)
  {
  }

  /** What becomes of a lease: it runs at least as long, is already up, or is over. */
  ghost predicate Carried(s: State, t: State, op: Id) {
    && (op in s.g.running ==> (op in t.g.running && s.g.running[op] <= t.g.running[op]) || s.g.running[op] <= t.now || Over(t, op))
    && (op in s.h.sent && op !in s.g.received ==>
        op !in t.g.received || Over(t, op) || (op in t.g.running && s.h.sent[op].at + s.ttl <= t.g.running[op]))
  }

  lemma {:induction false} BackedStays(s: State, t: State, op: Id, until: Time)
    requires Grows(s, t) && Carried(s, t, op) && Backed(s, op, until)
    ensures Backed(t, op, until)
  {
    if Over(s, op) { OverStays(s, t, op); }
  }

  /** All that one step owes to one operation. */
  ghost predicate Keeps(s: State, t: State, op: Id) {
    Grows(s, t) && Carried(s, t, op) && Known(t, op)
  }

  /** The granter with another table. */
  function With(s: State, g: Granter): State { s.(g := g) }

  lemma {:induction false} LeaseSteps(s: State, b: Id, targets: set<Id>, op: Id)
    requires Known(s, op)
    ensures Keeps(s, With(s, GrantStep(s, b)), op) && Keeps(s, With(s, RenewLeasesStep(s, targets)), op)
  {
    hide LiveAmong;
  }

  lemma {:induction false} CloseStep(s: State, b: Id, op: Id)
    requires Known(s, op)
    ensures Keeps(s, With(s, CloseBindingStep(s, b)), op)
  {
  }

  lemma {:induction false} AdmitStep(s: State, other: Id, op: Id)
    requires Known(s, op)
    ensures Keeps(s, With(s, ReceiveStep(s, other)), op) && Keeps(s, With(s, RefuseStep(s, other)), op)
  {
  }

  lemma {:induction false} OfferKeeps(s: State, other: Id, op: Id)
    requires Known(s, op)
    ensures Keeps(s, With(s, OfferStep(s, other)), op)
  {
  }

  lemma {:induction false} FinishKeeps(s: State, other: Id, op: Id)
    requires Known(s, op)
    ensures Keeps(s, With(s, FinishStep(s, other)), op)
  {
  }

  lemma {:induction false} DecisionKeeps(s: State, other: Id, op: Id)
    requires Known(s, op)
    ensures Keeps(s, With(s, StartDecisionStep(s, other)), op) && Keeps(s, With(s, CancelDecisionStep(s, other)), op)
  {
  }

  lemma {:induction false} RemovalKeeps(s: State, other: Id, op: Id)
    requires Known(s, op)
    ensures Keeps(s, With(s, FinishDecisionStep(s, other)), op) && Keeps(s, With(s, RetireDoneStep(s, other)), op)
  {
  }

  lemma {:induction false} ExpireKeeps(s: State, sampled: Time, op: Id)
    requires Known(s, op)
    ensures Keeps(s, With(s, ExpireStep(s, sampled)), op)
  {
  }

  lemma {:induction false} GranterKeeps(s: State, step: GranterStep, op: Id)
    requires Known(s, op)
    ensures Keeps(s, With(s, GranterNext(s, step)), op)
  {
    hide Known, Keeps, GrantStep, RenewLeasesStep, CloseBindingStep, ReceiveStep, RefuseStep, OfferStep, FinishStep,
      StartDecisionStep, CancelDecisionStep, FinishDecisionStep, ExpireStep, RetireDoneStep;
    match step
    case Grant(b) => LeaseSteps(s, b, {}, op);
    case RenewLeases(targets) => LeaseSteps(s, 0, targets, op);
    case CloseBinding(b) => CloseStep(s, b, op);
    case Receive(other) => AdmitStep(s, other, op);
    case Refuse(other) => AdmitStep(s, other, op);
    case Offer(other) => OfferKeeps(s, other, op);
    case Finish(other) => FinishKeeps(s, other, op);
    case StartDecision(other) => DecisionKeeps(s, other, op);
    case CancelDecision(other) => DecisionKeeps(s, other, op);
    case FinishDecision(other) => RemovalKeeps(s, other, op);
    case Expire(sampled) => ExpireKeeps(s, sampled, op);
    case RetireDone(other) => RemovalKeeps(s, other, op);
  }

  lemma {:induction false} HolderKeeps(s: State, step: HolderStep, op: Id)
    requires Known(s, op)
    ensures Keeps(s, s.(h := HolderNext(s, step)), op)
  {
  }

  lemma {:induction false} ServeKeeps(s: State, request: RequestId, later: Time, op: Id)
    requires Known(s, op)
    ensures Keeps(s, ServeRenewalStep(s, request, later), op)
  {
  }

  lemma {:induction false} StepKeeps(s: State, step: Step, op: Id)
    requires Known(s, op)
    ensures Keeps(s, Next(s, step), op)
  {
    hide GranterNext, HolderNext, ServeRenewalStep;
    match step
    case AtGranter(g) => GranterKeeps(s, g, op);
    case AtHolder(h) => HolderKeeps(s, h, op);
    case ServeRenewal(request, later) => ServeKeeps(s, request, later, op);
    case _ =>
  }

  // ----- promises through one step ------------------------------------------------------------------------

  lemma {:induction false} PromiseStays(s: State, step: Step, op: Id, until: Time)
    requires Known(s, op) && Backed(s, op, until)
    ensures Backed(Next(s, step), op, until)
  {
    hide Known, Grows, Carried, Backed, Next;
    StepKeeps(s, step, op);
    BackedStays(s, Next(s, step), op, until);
  }

  /** Where a lease of the holder comes from. */
  lemma {:induction false} HeldOrigin(s: State, step: HolderStep, op: Id)
    requires op in HolderNext(s, step).held
    ensures var until := HolderNext(s, step).held[op];
      || (op in s.h.held && until == s.h.held[op])
      || (op in s.h.sent && until == s.h.sent[op].at + s.ttl)
      || (step.ReceiveAck? && step.request in s.h.renewals && op in s.h.renewals[step.request].acked
          && until == s.h.renewals[step.request].sentAt + s.ttl)
  {
  }

  lemma {:induction false} HeldStays(s: State, step: Step, op: Id)
    requires Invariant(s) && op in Next(s, step).h.held
    ensures Backed(Next(s, step), op, Next(s, step).h.held[op])
  {
    hide Known, Backed, HolderNext, GranterNext;
    if step.AtHolder? && !s.failed {
      HeldOrigin(s, step.holder, op);
      if step.holder.ReceiveAck? && step.holder.request in s.h.renewals { assert RenewalOk(s, step.holder.request); }
    }
    PromiseStays(s, step, op, Next(s, step).h.held[op]);
  }

  lemma {:induction false} SentStays(s: State, step: Step, op: Id)
    requires Invariant(s) && op in Next(s, step).h.sent
    ensures Backed(Next(s, step), op, Next(s, step).h.sent[op].at + Next(s, step).ttl)
  {
    hide RenewalOk, GranterNext;
    if op in s.h.sent {
      StepKeeps(s, step, op);
      hide Backed, Known, Carried, Next;
      PromiseStays(s, step, op, s.h.sent[op].at + s.ttl);
    } else {
      assert Known(s, op);
    }
  }

  /** The renewal just served is covered: what it extends runs from a clock reading no earlier
      than the time it was sent. */
  lemma {:induction false} ServedCovers(s: State, request: RequestId, later: Time, op: Id)
    requires Known(s, op) && Serves(s, request, later) && s.h.renewals[request].sentAt <= s.now
    requires op in ServeRenewalStep(s, request, later).h.renewals[request].acked
    ensures Backed(ServeRenewalStep(s, request, later), op, s.h.renewals[request].sentAt + s.ttl)
  {
    if Over(s, op) {
      ServeKeeps(s, request, later, op);
      OverStays(s, ServeRenewalStep(s, request, later), op);
    }
  }

  lemma {:induction false} RenewalServed(s: State, request: RequestId, later: Time)
    requires Invariant(s) && Serves(s, request, later)
    ensures RenewalOk(ServeRenewalStep(s, request, later), request)
  {
    hide Known, Backed, Renewed, RenewedResults;
    var t := ServeRenewalStep(s, request, later);
    assert RenewalOk(s, request);
    forall op | op in t.h.renewals[request].acked ensures Backed(t, op, s.h.renewals[request].sentAt + s.ttl) {
      ServedCovers(s, request, later, op);
    }
  }

  lemma {:induction false} RenewalOrigin(s: State, step: Step, request: RequestId)
    requires request in Next(s, step).h.renewals && !(step.ServeRenewal? && step.request == request && Serves(s, request, step.later))
    ensures var r := Next(s, step).h.renewals[request];
      if request in s.h.renewals then r == s.h.renewals[request] else r.sentAt == s.now && r.targets <= s.h.held.Keys && r.acked == {}
  {
    hide GranterNext, LiveAmong, OfferedAmong, RenewedResults, Renewed, Advanced, Running;
  }

  lemma {:induction false} RenewalStays(s: State, step: Step, request: RequestId)
    requires Invariant(s) && request in Next(s, step).h.renewals
    ensures RenewalOk(Next(s, step), request)
  {
    if !s.failed && step.ServeRenewal? && step.request == request && Serves(s, request, step.later) {
      hide Invariant, RenewalOk, ServeRenewalStep;
      RenewalServed(s, request, step.later);
    } else {
      RenewalOtherwise(s, step, request);
    }
  }

  lemma {:induction false} RenewalOtherwise(s: State, step: Step, request: RequestId)
    requires Invariant(s) && request in Next(s, step).h.renewals
    requires s.failed || !(step.ServeRenewal? && step.request == request && Serves(s, request, step.later))
    ensures RenewalOk(Next(s, step), request)
  {
    if s.failed {
      assert RenewalOk(s, request);
    } else {
      hide Backed, Next, OperationOk, ResultOk, Carried;
      RenewalOrigin(s, step, request);
      StepKeeps(s, step, 0);
      assert Known(s, 0);
      if request in s.h.renewals {
        assert RenewalOk(s, request);
        forall op | op in s.h.renewals[request].acked ensures Backed(Next(s, step), op, s.h.renewals[request].sentAt + s.ttl) {
          PromiseStays(s, step, op, s.h.renewals[request].sentAt + s.ttl);
        }
      }
    }
  }

  lemma {:induction false} StepKeepsInvariant(s: State, step: Step)
    requires Invariant(s)
    ensures Invariant(Next(s, step))
  {
    var t := Next(s, step);
    hide Known, Backed, RenewalOk, Next, Grows, Carried;
    forall op ensures Known(t, op) { StepKeeps(s, step, op); }
    forall op | op in t.h.held ensures Backed(t, op, t.h.held[op]) { HeldStays(s, step, op); }
    forall op | op in t.h.sent ensures Backed(t, op, t.h.sent[op].at + t.ttl) { SentStays(s, step, op); }
    forall request | request in t.h.renewals ensures RenewalOk(t, request) { RenewalStays(s, step, request); }
  }

  // ----- every run ----------------------------------------------------------------------------------------

  lemma {:induction false} RunKeepsInvariant(s: State, steps: seq<Step>)
    requires Invariant(s)
    ensures Invariant(Run(s, steps))
    decreases |steps|
  {
    hide Next, Invariant;
    if steps != [] {
      StepKeepsInvariant(s, steps[0]);
      RunKeepsInvariant(Next(s, steps[0]), steps[1..]);
    }
  }

  /** For an operation the peer has received: while the holder's lease runs, neither side has
      ended it, the connection stands and its binding is leased, the granter still runs it or
      offers its result, under one lease that lasts at least as long. */
  lemma {:induction false} OperationSafety(ttl: Time, steps: seq<Step>, op: Id)
    ensures Covered(Run(Initial(ttl), steps), op)
  {
    hide Covered;
    RunKeepsInvariant(Initial(ttl), steps);
    InvariantIsSafe(Run(Initial(ttl), steps), op);
  }

  // ----- a binding that is gone ----------------------------------------------------------------------------

  /** In every run a renewal acknowledges an undecided operation whose result has retired exactly
      if its binding's lease has ended and the operation's own still runs. */
  lemma {:induction false} RetiredIsRenewedExactly(ttl: Time, steps: seq<Step>, request: RequestId, later: Time, op: Id)
    requires var s := Run(Initial(ttl), steps);
      && !s.failed && Serves(s, request, later) && op in s.h.renewals[request].targets
      && op in s.g.results && s.g.results[op].retiring && op !in s.h.decided && op !in s.g.ended
    ensures var s := Run(Initial(ttl), steps);
      op in ServeRenewalStep(s, request, later).h.renewals[request].acked <==> Orphan(s, op) && LiveAt(s.g.running, op, later)
  {
    var s := Run(Initial(ttl), steps);
    RunKeepsInvariant(Initial(ttl), steps);
    assert Known(s, op);
    hide Run, Renewed, RenewedResults;
  }

  const OFFER_RESULT := [
    AtGranter(Grant(1)), Tick(5), AtHolder(Send(7, 1)), AtGranter(Receive(7)), AtHolder(Written(7)),
    AtGranter(Offer(7)), AtGranter(Finish(7))]

  const LAPSE := [Tick(10), AtGranter(Expire(10))]

  const RENEW := [AtHolder(SendRenewal(1, {7})), ServeRenewal(1, 10), AtHolder(ReceiveAck(1)), AtGranter(RetireDone(7))]

  ghost predicate Offers(s: State) {
    && s.now == 5 && s.ttl == 10 && !s.failed
    && s.g == Granter(map[1 := 10], {1}, map[7 := 15], map[], map[7 := Offered(1, 15, false, false)], {7}, {})
    && s.h == Holder(map[7 := Sent(5, 1)], {7}, map[7 := 15], {}, map[])
  }

  lemma {:induction false} ResultIsOffered()
    ensures Offers(Run(Initial(10), OFFER_RESULT))
  {
  }

  ghost predicate Lapsed(s: State) {
    && s.now == 10 && s.ttl == 10 && !s.failed
    && s.g == Granter(map[], {1}, map[7 := 15], map[], map[7 := Offered(1, 15, true, false)], {7}, {})
    && s.h == Holder(map[7 := Sent(5, 1)], {7}, map[7 := 15], {}, map[])
  }

  lemma {:induction false} BindingLapses(s: State)
    requires Offers(s)
    ensures Lapsed(Run(s, LAPSE))
  {
    var ticked := Next(s, Tick(10));
    var expired := Next(ticked, AtGranter(Expire(10)));
    assert expired.g.bindings == map[] && expired.g.running == map[7 := 15];
    assert expired.g.results == map[7 := Offered(1, 15, true, false)];
    assert LAPSE[1..] == [AtGranter(Expire(10))];
  }

  ghost predicate Acknowledged(s: State) {
    && s.now == 10 && s.ttl == 10 && !s.failed && s.g.received == {7} && s.g.ended == {} && s.h.decided == {}
    && 7 in s.g.results && s.g.results[7].retiring && s.h.held == map[7 := 15]
    && s.h.renewals == map[1 := LeaseSafety.Renewal(10, {7}, true, {7})]
  }

  lemma {:induction false} OperationIsRenewed(s: State)
    requires Lapsed(s)
    ensures Acknowledged(Next(Next(s, RENEW[0]), RENEW[1]))
  {
    var t := Next(s, RENEW[0]);
    assert t.h.renewals == map[1 := LeaseSafety.Renewal(10, {7}, false, {})];
    assert LiveAmong(t.g.running, {7}, 10) == {7} && OfferedAmong(t.g.results, {7}, 10) == {};
    assert {7} + {} == {7};
  }

  lemma {:induction false} RetiredAfterAck(s: State)
    requires Acknowledged(s)
    ensures var t := Next(Next(s, RENEW[2]), RENEW[3]);
      && 7 in t.h.held && t.now == 10 && t.h.held[7] == 20 && 7 in t.g.received && !t.failed
      && 7 !in t.g.ended && 7 !in t.h.decided && 7 !in t.g.running && 7 !in t.g.results
  {
  }

  lemma {:induction false} RunFirst(s: State, first: Step, others: seq<Step>)
    ensures Run(s, [first] + others) == Run(Next(s, first), others)
  {
    assert ([first] + others)[1..] == others;
  }

  lemma {:induction false} RunFour(s: State, steps: seq<Step>)
    requires |steps| == 4
    ensures Run(s, steps) == Next(Next(Next(Next(s, steps[0]), steps[1]), steps[2]), steps[3])
  {
    hide Next, Run;
    var (a, b, c, d) := (steps[0], steps[1], steps[2], steps[3]);
    assert steps == [a] + ([b] + ([c] + ([d] + [])));
    RunFirst(s, a, [b] + ([c] + ([d] + [])));
    RunFirst(Next(s, a), b, [c] + ([d] + []));
    RunFirst(Next(Next(s, a), b), c, [d] + []);
    RunFirst(Next(Next(Next(s, a), b), c), d, []);
    RunNone(Next(Next(Next(Next(s, a), b), c), d));
  }

  lemma {:induction false} RunNone(s: State)
    ensures Run(s, []) == s
  {
  }

  /** The lease of the binding runs out, its result retires, and the operation is renewed all
      the same: the holder counts on it while the granter has nothing left of it. */
  lemma {:induction false} OrphanIsRenewed()
    ensures var s := Run(Run(Run(Initial(10), OFFER_RESULT), LAPSE), RENEW);
      && 7 in s.h.held && s.now == 10 && s.h.held[7] == 20 && 7 in s.g.received && !s.failed
      && 7 !in s.g.ended && 7 !in s.h.decided && 7 !in s.g.running && 7 !in s.g.results
  {
    hide Run, Next, Offers, Lapsed, Acknowledged;
    ResultIsOffered();
    var offered := Run(Initial(10), OFFER_RESULT);
    BindingLapses(offered);
    var lapsed := Run(offered, LAPSE);
    OperationIsRenewed(lapsed);
    var acked := Next(Next(lapsed, RENEW[0]), RENEW[1]);
    RetiredAfterAck(acked);
    RunFour(lapsed, RENEW);
  }
}
