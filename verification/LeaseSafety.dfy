/** Lease granting and renewal between the two endpoints of a connection, as steps
    over a shared clock: `rpc/endpoint.go`, `rpc/endpoint_lease.go` and the granter
    side of `rpc/endpoint_dispatch.go`.

    One step is one lock section.  The network loses, delays and reorders answers
    freely; what it cannot do is deliver a renewal before it was sent. */
module LeaseSafety {
  import opened LeaseTables

  type BindingId = Id
  type RequestId = nat

  /** A renewal the holder has sent: when, and for which bindings.  `acked` is the
      granter's answer once it has processed the request. */
  datatype Renewal = Renewal(sentAt: Time, targets: set<BindingId>, answered: bool, acked: set<BindingId>)

  datatype State = State(
    now: Time,
    ttl: Time,
    // granter: inbound, inboundLease, nextBind
    bindings: set<BindingId>,
    granted: map<BindingId, Time>,
    lastBinding: nat,
    granterFailed: bool,
    // holder: outboundLease, the bindings returned by Bind, and those it has closed
    held: map<BindingId, Time>,
    returned: set<BindingId>,
    closed: set<BindingId>,
    holderFailed: bool,
    // in transit, and the confirmations Bind has seen
    offers: set<BindingId>,
    renewals: map<RequestId, Renewal>,
    confirmed: map<BindingId, Time>)

  function Initial(ttl: Time): State {
    State(0, ttl, {}, map[], 0, false, map[], {}, {}, false, {}, map[], map[])
  }

  datatype Step =
    | Tick(later: Time)
    | Grant
    | Publish(id: BindingId)
    | SendRenewal(request: RequestId, targets: set<BindingId>)
    | ServeRenewal(request: RequestId, later: Time)
    | ReceiveAck(request: RequestId)
    | ReceiveConfirmation(request: RequestId, id: BindingId)
    | FinishBind(id: BindingId)
    | ExpireGranted(sampled: Time)
    | DropBinding(id: BindingId)
    | ExpireHeld(sampled: Time)
    | SendClose(id: BindingId)
    | ServeClose(id: BindingId)
    | Invalidate(id: BindingId)
    | FailHolder
    | FailGranter

  // ----- the lock sections --------------------------------------------------------------

  /** Bind dispatch: a fresh identity with a full lease. */
  function GrantStep(s: State): State {
    if s.granterFailed then s
    else
      var id := s.lastBinding + 1;
      s.(lastBinding := id, bindings := s.bindings + {id}, granted := s.granted[id := s.now + s.ttl],
         offers := s.offers + {id})
  }

  /** The holder publishes the binding, provisionally leased from arrival time. */
  function PublishStep(s: State, id: BindingId): State {
    if s.holderFailed || id !in s.offers then s
    else s.(offers := s.offers - {id}, held := s.held[id := s.now + s.ttl])
  }

  function SendRenewalStep(s: State, request: RequestId, targets: set<BindingId>): State {
    if s.holderFailed || request in s.renewals || !(targets <= s.held.Keys) then s
    else s.(renewals := s.renewals[request := Renewal(s.now, targets, false, {})])
  }

  /** The granter extends what is still leased and acknowledges exactly that.  The
      expiry is computed from the first clock reading, liveness from a later one. */
  function ServeRenewalStep(s: State, request: RequestId, later: Time): State {
    if s.granterFailed || request !in s.renewals || s.renewals[request].answered || later < s.now then s
    else
      var r := s.renewals[request];
      var acked := LiveAmong(s.granted, r.targets, later);
      s.(now := later,
         granted := Renewed(s.granted, acked, s.now + s.ttl),
         renewals := s.renewals[request := r.(answered := true, acked := acked)])
  }

  predicate Answered(s: State, request: RequestId) {
    !s.holderFailed && request in s.renewals && s.renewals[request].answered
  }

  function ReceiveAckStep(s: State, request: RequestId): State {
    if !Answered(s, request) then s
    else
      var r := s.renewals[request];
      s.(held := Advanced(s.held, r.acked, s.now, r.sentAt + s.ttl), renewals := s.renewals - {request})
  }

  /** The confirming renewal inside Bind: the answer must name the binding. */
  function ReceiveConfirmationStep(s: State, request: RequestId, id: BindingId): State {
    if !Answered(s, request) then s
    else
      var r := s.renewals[request];
      if id in r.acked then ReceiveAckStep(s, request).(confirmed := s.confirmed[id := r.sentAt])
      else s.(held := s.held - {id}, renewals := s.renewals - {request})
  }

  /** Bind returns the binding if both its lease and the confirmation still run. */
  function FinishBindStep(s: State, id: BindingId): State {
    if s.holderFailed || id !in s.confirmed then s
    else if id in s.held && s.now < s.held[id] && s.now < s.confirmed[id] + s.ttl
    then s.(returned := s.returned + {id}, confirmed := s.confirmed - {id})
    else s.(held := s.held - {id}, confirmed := s.confirmed - {id})
  }

  /** `expireLeases` samples the clock before it takes the lock. */
  function ExpireGrantedStep(s: State, sampled: Time): State {
    if s.granterFailed || sampled > s.now then s
    else s.(granted := Running(s.granted, sampled))
  }

  function ExpireHeldStep(s: State, sampled: Time): State {
    if s.holderFailed || sampled > s.now then s
    else s.(held := Running(s.held, sampled))
  }

  /** Shutdown of an expired or closed binding removes it afterwards. */
  function DropBindingStep(s: State, id: BindingId): State {
    if id in s.granted then s else s.(bindings := s.bindings - {id})
  }

  function Next(s: State, step: Step): State {
    match step
    case Tick(later) => if later < s.now then s else s.(now := later)
    case Grant => GrantStep(s)
    case Publish(id) => PublishStep(s, id)
    case SendRenewal(request, targets) => SendRenewalStep(s, request, targets)
    case ServeRenewal(request, later) => ServeRenewalStep(s, request, later)
    case ReceiveAck(request) => ReceiveAckStep(s, request)
    case ReceiveConfirmation(request, id) => ReceiveConfirmationStep(s, request, id)
    case FinishBind(id) => FinishBindStep(s, id)
    case ExpireGranted(sampled) => ExpireGrantedStep(s, sampled)
    case DropBinding(id) => DropBindingStep(s, id)
    case ExpireHeld(sampled) => ExpireHeldStep(s, sampled)
    case SendClose(id) => if s.holderFailed then s else s.(closed := s.closed + {id})
    case ServeClose(id) => if id in s.closed then s.(granted := s.granted - {id}) else s
    case Invalidate(id) => s.(held := s.held - {id})
    case FailHolder => s.(holderFailed := true, held := map[], confirmed := map[])
    case FailGranter => s.(granterFailed := true, granted := map[])
  }

  function Run(s: State, steps: seq<Step>): State
    decreases |steps|
  {
    if steps == [] then s else Run(Next(s, steps[0]), steps[1..])
  }

  // ----- safety ---------------------------------------------------------------------------

  /** A promise to `id` until `until` that the granter covers, or that is over. */
  ghost predicate Backed(s: State, id: BindingId, until: Time) {
    s.now >= until || id in s.closed || s.granterFailed || (id in s.granted && until <= s.granted[id])
  }

  /** Each renewal still under way would move the lease of `id` to at least its
      current value. */
  ghost predicate Overtaken(s: State, id: BindingId) {
    id in s.held && forall request :: request in s.renewals && id in s.renewals[request].targets ==>
      s.held[id] <= s.renewals[request].sentAt + s.ttl
  }

  /** What holds of one binding on the holder's side. */
  ghost predicate HeldOk(s: State, id: BindingId) {
    id in s.held ==>
      Backed(s, id, s.held[id]) || (Overtaken(s, id) && id !in s.returned && id !in s.confirmed)
  }

  ghost predicate RenewalOk(s: State, request: RequestId)
    requires request in s.renewals
  {
    var r := s.renewals[request];
    && r.sentAt <= s.now && r.acked <= r.targets
    && (forall id :: id in r.targets ==> 0 < id <= s.lastBinding && id !in s.offers)
    && (forall id :: id in r.acked ==> Backed(s, id, r.sentAt + s.ttl))
  }

  /** Granted leases are at most one lease time away. */
  ghost predicate GranterTables(s: State) {
    && s.granted.Keys <= s.bindings
    && (forall id :: id in s.granted ==> s.granted[id] <= s.now + s.ttl)
  }

  /** So are held ones, and the holder knows no binding still on offer. */
  ghost predicate HolderTables(s: State) {
    && (forall id :: id in s.held ==> s.held[id] <= s.now + s.ttl && 0 < id <= s.lastBinding)
    && (forall id :: id in s.offers ==> 0 < id <= s.lastBinding && id !in s.held && id !in s.returned && id !in s.confirmed)
    && (forall id :: id in s.confirmed || id in s.returned ==> 0 < id <= s.lastBinding)
  }

  ghost predicate Invariant(s: State) {
    && GranterTables(s) && HolderTables(s)
    && (forall id :: id in s.held ==> HeldOk(s, id))
    && (forall request :: request in s.renewals ==> RenewalOk(s, request))
  }

  /** A returned binding whose lease the holder still counts on is still there. */
  ghost predicate Covered(s: State, id: BindingId) {
    id in s.returned && id in s.held && s.now < s.held[id] && id !in s.closed && !s.granterFailed && !s.holderFailed
    ==> (id in s.bindings && id in s.granted && s.held[id] <= s.granted[id])
  }

  ghost predicate Safe(s: State) {
    forall id :: Covered(s, id)
  }

  lemma {:induction false} InvariantIsSafe(s: State)
    requires Invariant(s)
    ensures Safe(s)
  {
    forall id ensures Covered(s, id) {
      if id in s.held { assert HeldOk(s, id); }
    }
  }

  // ----- every step keeps the invariant -----------------------------------------------------

  /** A covered promise stays covered whatever happens next. */
  lemma {:induction false} BackedStays(s: State, step: Step, id: BindingId, until: Time)
    requires Invariant(s) && Backed(s, id, until)
    ensures Backed(Next(s, step), id, until)
  {
    hide HeldOk, RenewalOk;
  }

  lemma {:induction false} GranterTablesStay(s: State, step: Step)
    requires Invariant(s)
    ensures GranterTables(Next(s, step))
  {
    hide Backed, Overtaken, HeldOk, RenewalOk, HolderTables;
  }

  lemma {:induction false} HolderTablesStay(s: State, step: Step)
    requires Invariant(s)
    ensures HolderTables(Next(s, step))
  {
    hide HeldOk, RenewalOk, GranterTables, HolderTables;
    match step
    case ReceiveConfirmation(request, id) => AckTables(s, request, id);
    case ReceiveAck(request) => AckTables(s, request, 0);
    case FinishBind(id) => BindTables(s, id);
    case Publish(id) => BindTables(s, id);
    case _ => OtherTables(s, step);
  }

  lemma {:induction false} OtherTables(s: State, step: Step)
    requires HolderTables(s)
    requires !step.Publish? && !step.ReceiveAck? && !step.ReceiveConfirmation? && !step.FinishBind?
    ensures HolderTables(Next(s, step))
  {
    hide Advanced, LiveAmong;
    if step.Grant? || step.ExpireHeld? {
    } else {
      HeldShrinks(s, step);
      IdsStay(s, step);
    }
  }

  lemma {:induction false} HeldShrinks(s: State, step: Step)
    requires !(step.Grant? || step.ExpireHeld? || step.Publish? || step.ReceiveAck? || step.ReceiveConfirmation? || step.FinishBind?)
    ensures forall id :: id in Next(s, step).held ==> id in s.held && Next(s, step).held[id] == s.held[id]
    ensures Next(s, step).offers == s.offers && Next(s, step).returned == s.returned
    ensures Next(s, step).confirmed.Keys <= s.confirmed.Keys
  {
    hide Advanced, LiveAmong;
  }

  lemma {:induction false} BindTables(s: State, id: BindingId)
    requires HolderTables(s)
    ensures HolderTables(PublishStep(s, id)) && HolderTables(FinishBindStep(s, id))
  {
  }

  lemma {:induction false} AckTables(s: State, request: RequestId, id: BindingId)
    requires Invariant(s)
    ensures HolderTables(ReceiveAckStep(s, request)) && HolderTables(ReceiveConfirmationStep(s, request, id))
  {
    hide Backed, Overtaken, HeldOk, GranterTables;
    if request in s.renewals { assert RenewalOk(s, request); }
  }

  lemma {:induction false} RenewalStays(s: State, step: Step, request: RequestId)
    requires Invariant(s) && request in s.renewals && request in Next(s, step).renewals
    ensures RenewalOk(Next(s, step), request)
  {
    if step.ServeRenewal? && step.request == request {
      ServedRenewal(s, request, step.later);
    } else {
      hide Overtaken, HeldOk, GranterTables, HolderTables, Next;
      assert RenewalOk(s, request);
      var r := s.renewals[request];
      forall id | id in r.acked ensures Backed(Next(s, step), id, r.sentAt + s.ttl) {
        BackedStays(s, step, id, r.sentAt + s.ttl);
      }
      hide Backed;
      IdsStay(s, step);
      OffersAreNew(s, step);
      OtherRenewal(s, step, request);
    }
  }

  lemma {:induction false} OtherRenewal(s: State, step: Step, request: RequestId)
    requires request in s.renewals && request in Next(s, step).renewals
    requires !(step.ServeRenewal? && step.request == request)
    ensures Next(s, step).renewals[request] == s.renewals[request]
  {
    hide Advanced;
  }

  /** The renewal just served is covered: its new expiry counts from a clock reading
      no earlier than the time it was sent. */
  lemma {:induction false} ServedRenewal(s: State, request: RequestId, later: Time)
    requires Invariant(s) && request in s.renewals
    ensures RenewalOk(ServeRenewalStep(s, request, later), request)
  {
    hide Overtaken, HeldOk;
    assert RenewalOk(s, request);
    var t := ServeRenewalStep(s, request, later);
    var r := s.renewals[request];
    if t != s {
      forall id | id in t.renewals[request].acked ensures Backed(t, id, r.sentAt + s.ttl) {
        assert t.granted[id] == s.now + s.ttl;
      }
    }
  }

  /** A lease neither moved nor confirmed keeps its standing. */
  lemma {:induction false} HeldStays(s: State, step: Step, id: BindingId)
    requires Invariant(s) && id in s.held && id in Next(s, step).held && Next(s, step).held[id] == s.held[id]
    requires id in Next(s, step).returned ==> id in s.returned
    requires id in Next(s, step).confirmed ==> id in s.confirmed
    ensures HeldOk(Next(s, step), id)
  {
    hide RenewalOk, GranterTables;
    assert HeldOk(s, id);
    if Backed(s, id, s.held[id]) {
      BackedStays(s, step, id, s.held[id]);
    } else {
      hide Backed;
      OvertakenStays(s, step, id);
    }
  }

  lemma {:induction false} IdsStay(s: State, step: Step)
    ensures s.lastBinding <= Next(s, step).lastBinding
    ensures Next(s, step).ttl == s.ttl && s.now <= Next(s, step).now
  {
    hide Advanced, LiveAmong;
  }

  lemma {:induction false} OffersAreNew(s: State, step: Step)
    ensures forall id :: id in Next(s, step).offers && id <= s.lastBinding ==> id in s.offers
  {
    hide Advanced, LiveAmong;
  }

  /** A renewal sent now would move the lease past its present end. */
  lemma {:induction false} OvertakenStays(s: State, step: Step, id: BindingId)
    requires Overtaken(s, id) && HolderTables(s)
    requires id in Next(s, step).held && Next(s, step).held[id] == s.held[id]
    ensures Overtaken(Next(s, step), id)
  {
    hide Advanced;
    var t := Next(s, step);
    forall request | request in t.renewals && id in t.renewals[request].targets
      ensures t.held[id] <= t.renewals[request].sentAt + t.ttl
    {
      RenewalOrigin(s, step, request);
      IdsStay(s, step);
    }
  }

  lemma {:induction false} RenewalOrigin(s: State, step: Step, request: RequestId)
    requires request in Next(s, step).renewals
    ensures var r := Next(s, step).renewals[request];
      if request in s.renewals
      then r.sentAt == s.renewals[request].sentAt && r.targets == s.renewals[request].targets
      else r.sentAt == s.now && r.targets <= s.held.Keys && r.acked == {}
  {
    hide Advanced;
  }

  /** The acknowledgement moves a lease only to what the granter covers, and leaves no
      acknowledged lease uncovered: a provisional one was due to be overtaken. */
  lemma {:induction false} AckCovers(s: State, request: RequestId, id: BindingId)
    requires Invariant(s) && Answered(s, request) && id in s.held && id in s.renewals[request].acked
    ensures id in ReceiveAckStep(s, request).held
    ensures Backed(ReceiveAckStep(s, request), id, ReceiveAckStep(s, request).held[id])
    ensures var until := s.renewals[request].sentAt + s.ttl;
      s.now < until && s.now < s.held[id] ==> ReceiveAckStep(s, request).held[id] >= until
  {
    hide GranterTables, HolderTables;
    assert HeldOk(s, id) && RenewalOk(s, request);
    var expires := s.renewals[request].sentAt + s.ttl;
    assert Backed(s, id, expires);
  }

  lemma {:induction false} HeldAfterAck(s: State, request: RequestId, id: BindingId)
    requires Invariant(s) && id in ReceiveAckStep(s, request).held
    ensures HeldOk(ReceiveAckStep(s, request), id)
  {
    hide GranterTables, HolderTables, RenewalOk;
    assert HeldOk(s, id);
    if Answered(s, request) && id in s.renewals[request].acked {
      AckCovers(s, request, id);
    } else {
      HeldStays(s, ReceiveAck(request), id);
    }
  }

  lemma {:induction false} HeldAfterConfirmation(s: State, request: RequestId, confirmed: BindingId, id: BindingId)
    requires Invariant(s) && id in ReceiveConfirmationStep(s, request, confirmed).held
    ensures HeldOk(ReceiveConfirmationStep(s, request, confirmed), id)
  {
    hide GranterTables, HolderTables, RenewalOk;
    if Answered(s, request) && confirmed in s.renewals[request].acked {
      HeldAfterAck(s, request, id);
      if id == confirmed { AckCovers(s, request, id); }
    } else {
      HeldStays(s, ReceiveConfirmation(request, confirmed), id);
    }
  }

  lemma {:induction false} HeldAfterPublish(s: State, offer: BindingId, id: BindingId)
    requires Invariant(s) && id in PublishStep(s, offer).held
    ensures HeldOk(PublishStep(s, offer), id)
  {
    if id == offer && offer in s.offers && !s.holderFailed {
      hide HeldOk, Backed, GranterTables;
      var t := PublishStep(s, offer);
      forall request | request in t.renewals ensures id !in t.renewals[request].targets {
        assert RenewalOk(s, request);
      }
      assert Overtaken(t, id);
      ProvisionalOk(t, id);
    } else {
      HeldStays(s, Publish(offer), id);
    }
  }

  lemma {:induction false} ProvisionalOk(s: State, id: BindingId)
    requires Overtaken(s, id) && id !in s.returned && id !in s.confirmed
    ensures HeldOk(s, id)
  {
  }

  lemma {:induction false} HeldAfterFinish(s: State, finished: BindingId, id: BindingId)
    requires Invariant(s) && id in FinishBindStep(s, finished).held
    ensures HeldOk(FinishBindStep(s, finished), id)
  {
    hide GranterTables, HolderTables, RenewalOk;
    if id == finished && id in s.confirmed {
      assert HeldOk(s, id);
    } else {
      HeldStays(s, FinishBind(finished), id);
    }
  }

  lemma {:induction false} HeldAfter(s: State, step: Step, id: BindingId)
    requires Invariant(s) && id in Next(s, step).held
    ensures HeldOk(Next(s, step), id)
  {
    hide HeldOk, RenewalOk, GranterTables, HolderTables, Invariant;
    match step
    case Publish(offer) => HeldAfterPublish(s, offer, id);
    case ReceiveAck(request) => HeldAfterAck(s, request, id);
    case ReceiveConfirmation(request, confirmed) => HeldAfterConfirmation(s, request, confirmed, id);
    case FinishBind(finished) => HeldAfterFinish(s, finished, id);
    case _ => HeldOtherwise(s, step, id);
  }

  lemma {:induction false} HeldOtherwise(s: State, step: Step, id: BindingId)
    requires Invariant(s) && id in Next(s, step).held
    requires !step.Publish? && !step.ReceiveAck? && !step.ReceiveConfirmation? && !step.FinishBind?
    ensures HeldOk(Next(s, step), id)
  {
    hide HeldOk, Invariant, Advanced;
    HeldStays(s, step, id);
  }

  lemma {:induction false} RenewalAfter(s: State, step: Step, request: RequestId)
    requires Invariant(s) && request in Next(s, step).renewals
    ensures RenewalOk(Next(s, step), request)
  {
    if request in s.renewals {
      RenewalStays(s, step, request);
    } else {
      hide GranterTables;
      RenewalOrigin(s, step, request);
      assert step.SendRenewal? && Next(s, step).offers == s.offers && Next(s, step).lastBinding == s.lastBinding;
    }
  }

  lemma {:induction false} StepKeepsInvariant(s: State, step: Step)
    requires Invariant(s)
    ensures Invariant(Next(s, step))
  {
    hide HeldOk, RenewalOk, GranterTables, HolderTables, Next;
    GranterTablesStay(s, step);
    HolderTablesStay(s, step);
    var t := Next(s, step);
    forall id | id in t.held ensures HeldOk(t, id) { HeldAfter(s, step, id); }
    forall request | request in t.renewals ensures RenewalOk(t, request) { RenewalAfter(s, step, request); }
  }

  // ----- lease safety over every run --------------------------------------------------------

  lemma {:induction false} RunKeepsInvariant(s: State, steps: seq<Step>)
    requires Invariant(s)
    ensures Invariant(Run(s, steps))
    decreases |steps|
  {
    hide Next, Invariant;
    if steps != [] {
      StepKeepsInvariant(s, steps[0]);
      RunKeepsInvariant(Next(s, steps[0]), steps[1..]);
    }
  }

  /** For a binding returned by Bind: while the holder's lease runs, it has sent no
      close and neither endpoint failed, the granter still holds the binding, with an
      expiry at least as late. */
  lemma {:induction false} LeaseSafety(ttl: Time, steps: seq<Step>)
    ensures Safe(Run(Initial(ttl), steps))
  {
    hide Safe;
    RunKeepsInvariant(Initial(ttl), steps);
    InvariantIsSafe(Run(Initial(ttl), steps));
  }

  // ----- a lease that is kept up is kept ------------------------------------------------------

  /** A renewal moves exactly the acknowledged leases that still run, to the sending time plus
      the lease time, and never back. */
  lemma {:induction false} AckRenews(s: State, request: RequestId)
    requires Answered(s, request)
    ensures var t, until := ReceiveAckStep(s, request), s.renewals[request].sentAt + s.ttl;
      && t.held.Keys == s.held.Keys
      && forall id :: id in s.held ==>
           if id in s.renewals[request].acked && s.now < until && s.now < s.held[id] && s.held[id] < until
           then t.held[id] == until else t.held[id] == s.held[id]
  {
  }

  /** What an acknowledgement received in this step promises the holder. */
  ghost predicate Acknowledges(s: State, step: Step, id: BindingId) {
    (step.ReceiveAck? || (step.ReceiveConfirmation? && Answered(s, step.request) && step.id in s.renewals[step.request].acked))
    && Answered(s, step.request) && id in s.renewals[step.request].acked && s.now < s.renewals[step.request].sentAt + s.ttl
  }

  ghost function PromisedAfter(s: State, step: Step, id: BindingId, until: Time): Time {
    if Acknowledges(s, step, id) && s.now < until && until < s.renewals[step.request].sentAt + s.ttl
    then s.renewals[step.request].sentAt + s.ttl else until
  }

  /** Steps that take the binding away from a holder, whatever its lease. */
  ghost predicate GivesUp(step: Step, id: BindingId) {
    || step.FailHolder? || step == Invalidate(id) || step == FinishBind(id)
    || (step.ReceiveConfirmation? && step.id == id)
  }

  /** No step gives the binding up, and the holder never sweeps later than what the
      acknowledgements received so far have promised. */
  ghost predicate KeptUp(s: State, steps: seq<Step>, id: BindingId, until: Time)
    decreases |steps|
  {
    steps == [] || (
      && !GivesUp(steps[0], id)
      && (steps[0].ExpireHeld? && steps[0].sampled <= s.now ==> steps[0].sampled < until)
      && KeptUp(Next(s, steps[0]), steps[1..], id, PromisedAfter(s, steps[0], id, until)))
  }

  lemma {:induction false} StepKeepsLease(s: State, step: Step, id: BindingId, until: Time)
    requires id in s.held && s.held[id] >= until && !GivesUp(step, id)
    requires step.ExpireHeld? && step.sampled <= s.now ==> step.sampled < until
    requires HolderTables(s) && !s.holderFailed
    ensures var t := Next(s, step); id in t.held && t.held[id] >= PromisedAfter(s, step, id, until) && !t.holderFailed
  {
    match step
    case ReceiveAck(request) => AckKeepsLease(s, request, id, until);
    case ReceiveConfirmation(request, other) => AckKeepsLease(s, request, id, until);
    case _ => OtherKeepsLease(s, step, id, until);
  }

  lemma {:induction false} AckKeepsLease(s: State, request: RequestId, id: BindingId, until: Time)
    requires id in s.held && s.held[id] >= until && !s.holderFailed
    ensures var t := ReceiveAckStep(s, request);
      id in t.held && t.held[id] >= PromisedAfter(s, ReceiveAck(request), id, until) && t.held[id] >= until && !t.holderFailed
  {
    if Answered(s, request) { AckRenews(s, request); }
  }

  lemma {:induction false} OtherKeepsLease(s: State, step: Step, id: BindingId, until: Time)
    requires id in s.held && s.held[id] >= until && !GivesUp(step, id) && !step.ReceiveAck? && !step.ReceiveConfirmation?
    requires step.ExpireHeld? && step.sampled <= s.now ==> step.sampled < until
    requires HolderTables(s) && !s.holderFailed
    ensures var t := Next(s, step); id in t.held && t.held[id] >= until && !t.holderFailed
  {
    hide LiveAmong, Renewed, Advanced;
  }

  /** A binding whose renewals are acknowledged before the lease they extend is up is never
      dropped, and its lease is at least what they promised. */
  lemma {:induction false} KeptUpIsKept(s: State, steps: seq<Step>, id: BindingId, until: Time)
    requires Invariant(s) && !s.holderFailed && id in s.held && s.held[id] >= until && KeptUp(s, steps, id, until)
    ensures id in Run(s, steps).held
    decreases |steps|
  {
    hide Next, Invariant, PromisedAfter, GivesUp, HolderTables;
    if steps != [] {
      var next := PromisedAfter(s, steps[0], id, until);
      InvariantTables(s);
      StepKeepsLease(s, steps[0], id, until);
      StepKeepsInvariant(s, steps[0]);
      KeptUpIsKept(Next(s, steps[0]), steps[1..], id, next);
    }
  }

  lemma {:induction false} InvariantTables(s: State)
    requires Invariant(s)
    ensures HolderTables(s)
  {
  }

  lemma {:induction false} InitialInvariant(ttl: Time)
    ensures Invariant(Initial(ttl))
  {
  }

  /** From the start: a binding the holder has, kept up from then on, is still held. */
  lemma {:induction false} HealthyBindingStays(ttl: Time, before: seq<Step>, steps: seq<Step>, id: BindingId)
    requires var s := Run(Initial(ttl), before);
      !s.holderFailed && id in s.held && KeptUp(s, steps, id, s.held[id])
    ensures id in Run(Run(Initial(ttl), before), steps).held
  {
    InitialInvariant(ttl);
    hide Next, Invariant, KeptUp;
    RunKeepsInvariant(Initial(ttl), before);
    var s := Run(Initial(ttl), before);
    KeptUpIsKept(s, steps, id, s.held[id]);
  }
}
