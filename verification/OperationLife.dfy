/** The life of an operation and its result under their leases, step by step. */
module OperationLife {
  import opened LeaseTables
  import LeaseSafety
  import opened OperationLeases

  // ----- the granter ---------------------------------------------------------------------------------

  /** A request the peer has sent is taken once: run with a full lease, or refused and over. */
  lemma {:induction false} TakesOnce(s: State, op: Id)
    requires !s.failed && op in s.h.sent
    ensures var t, u := Next(s, AtGranter(Receive(op))), Next(s, AtGranter(Refuse(op)));
      if op in s.g.received then t == s && u == s
      else
        && t.g == s.g.(received := s.g.received + {op}, running := s.g.running[op := s.now + s.ttl],
                       active := s.g.active[op := s.h.sent[op].binding])
        && u.g == s.g.(received := s.g.received + {op}, ended := s.g.ended + {op})
  {
  }

  /** A call that ends in time leaves a result under the lease of the operation, which goes on;
      without a result the operation is over. */
  lemma {:induction false} OffersOrEnds(s: State, op: Id)
    requires !s.failed && op in s.g.active && op !in s.g.results
    ensures var offered := Next(s, AtGranter(Offer(op)));
      (op in offered.g.results <==> op in s.g.running && s.now < s.g.running[op] && s.g.active[op] in s.g.ever)
      && (op in offered.g.results ==> offered.g.results[op] == Offered(s.g.active[op], s.g.running[op], false, false))
      && var t := Next(offered, AtGranter(Finish(op)));
      op !in t.g.active && t.g.results == offered.g.results
      && if op in offered.g.results then t.g.running == s.g.running && t.g.ended == s.g.ended
         else t.g.running == s.g.running - {op} && t.g.ended == s.g.ended + {op}
  {
  }

  /** The holder's decision on a result on offer takes it up, and its end removes result and
      operation; a decision too late takes nothing up, and a canceled one retires its result. */
  lemma {:induction false} DecidesOnOffer(s: State, op: Id)
    requires !s.failed && op in s.g.results && !s.g.results[op].deciding
    ensures var started := Next(Next(s, AtHolder(SendDecision(op))), AtGranter(StartDecision(op)));
      && op in started.h.decided && started.g.results.Keys == s.g.results.Keys
      && (started.g.results[op].deciding <==> !s.g.results[op].retiring && s.now < s.g.results[op].expires)
      && (started.g.results[op].deciding ==>
            var t, u := Next(started, AtGranter(FinishDecision(op))), Next(started, AtGranter(CancelDecision(op)));
            t.g.results == s.g.results - {op} && t.g.running == s.g.running - {op} && u.g.results[op].retiring)
  {
    var sent := Next(s, AtHolder(SendDecision(op)));
    var started := Next(sent, AtGranter(StartDecision(op)));
    assert sent.g == s.g;
    if started.g.results[op].deciding {
      assert started.g.results - {op} == s.g.results - {op};
    }
  }

  /** The operation executes on a binding whose lease is up. */
  ghost predicate OnLapsed(s: State, op: Id, sampled: Time) {
    op in s.g.active && s.g.active[op] in s.g.bindings && !(sampled < s.g.bindings[s.g.active[op]])
  }

  /** A sweep leaves an operation exactly if its own lease and, while it executes, the lease of
      its binding still run; and retires a result exactly if its lease or its binding's is up. */
  lemma {:induction false} SweepsExactly(s: State, sampled: Time, op: Id)
    requires !s.failed && sampled <= s.now
    ensures var t := Next(s, AtGranter(Expire(sampled)));
      && (op in t.g.running <==> op in s.g.running && sampled < s.g.running[op] && !OnLapsed(s, op, sampled))
      && (forall b :: b in t.g.bindings <==> b in s.g.bindings && sampled < s.g.bindings[b])
      && (op in s.g.results ==> op in t.g.results && (t.g.results[op].retiring <==>
           s.g.results[op].retiring || s.g.results[op].expires <= sampled || s.g.results[op].binding !in t.g.bindings))
  {
  }

  /** Closing a binding ends its lease, retires the results it offers and takes their leases;
      everything else stays. */
  lemma {:induction false} ClosesExactly(s: State, b: Id, op: Id)
    requires !s.failed
    ensures var t := Next(s, AtGranter(CloseBinding(b)));
      && b !in t.g.bindings && t.g.active == s.g.active && t.g.ended == s.g.ended
      && (op in s.g.results && s.g.results[op].binding == b ==> t.g.results[op].retiring && op !in t.g.running)
      && (!(op in s.g.results && s.g.results[op].binding == b) ==>
           && (op in t.g.running <==> op in s.g.running) && (op in s.g.running ==> t.g.running[op] == s.g.running[op])
           && (op in t.g.results <==> op in s.g.results) && (op in s.g.results ==> t.g.results[op] == s.g.results[op]))
  {
  }

  /** A retired result goes, and its operation with it; no other does. */
  lemma {:induction false} RetiredGoes(s: State, op: Id)
    requires !s.failed && op in s.g.results
    ensures var t := Next(s, AtGranter(RetireDone(op)));
      if s.g.results[op].retiring then t.g.results == s.g.results - {op} && t.g.running == s.g.running - {op} else t == s
  {
  }

  /** A new binding is leased, and a renewal moves exactly the leases of bindings that still run. */
  lemma {:induction false} BindingLeases(s: State, b: Id, targets: set<Id>)
    requires !s.failed
    ensures b !in s.g.ever ==> var t := Next(s, AtGranter(Grant(b))); b in t.g.ever && t.g.bindings == s.g.bindings[b := s.now + s.ttl]
    ensures var t := Next(s, AtGranter(RenewLeases(targets)));
      t.g.bindings.Keys == s.g.bindings.Keys
      && (b in s.g.bindings ==> t.g.bindings[b] == if b in targets && s.now < s.g.bindings[b] then s.now + s.ttl else s.g.bindings[b])
  {
  }

  /** A renewal names exactly the operations that run or whose result is on offer, and extends
      each in the tables that still lease it. */
  lemma {:induction false} ServesExactly(s: State, request: RequestId, later: Time, op: Id)
    requires !s.failed && request in s.h.renewals && !s.h.renewals[request].answered && s.now <= later
    ensures var t, asked := Next(s, ServeRenewal(request, later)), op in s.h.renewals[request].targets;
      var runs, offers := op in s.g.running && later < s.g.running[op], op in s.g.results && !s.g.results[op].retiring && later < s.g.results[op].expires;
      && t.now == later && t.h.renewals[request].answered && t.h.held == s.h.held
      && (op in t.h.renewals[request].acked <==> asked && (runs || offers))
      && (op in s.g.running ==> op in t.g.running && t.g.running[op] == if asked && runs then s.now + s.ttl else s.g.running[op])
      && (op in s.g.results ==> op in t.g.results && t.g.results[op].expires == if asked && offers then s.now + s.ttl else s.g.results[op].expires)
  {
  }

  // ----- the holder ----------------------------------------------------------------------------------

  /** A request is sent once and leased from the time its last fragment was written. */
  lemma {:induction false} SendsOnce(s: State, op: Id, b: Id)
    requires !s.failed && op !in s.h.sent && op !in s.h.written
    ensures var t := Next(s, AtHolder(Send(op, b)));
      t.h.sent == s.h.sent[op := Sent(s.now, b)] && Next(t, AtHolder(Written(op))).h.held == s.h.held[op := s.now + s.ttl]
  {
  }

  /** An acknowledgement is used once and moves exactly the acknowledged leases that still run,
      forward, to the sending time plus the lease time. */
  lemma {:induction false} AckRenews(s: State, request: RequestId, op: Id)
    requires !s.failed && request in s.h.renewals && s.h.renewals[request].answered
    ensures var t, until := Next(s, AtHolder(ReceiveAck(request))), s.h.renewals[request].sentAt + s.ttl;
      && request !in t.h.renewals && t.h.held.Keys == s.h.held.Keys
      && (op in s.h.held && op in s.h.renewals[request].acked && s.now < until && s.now < s.h.held[op] && s.h.held[op] < until
          ==> t.h.held[op] == until)
      && (op in s.h.held && !(op in s.h.renewals[request].acked && s.now < until && s.now < s.h.held[op] && s.h.held[op] < until)
          ==> t.h.held[op] == s.h.held[op])
  {
  }

  /** A sweep of the holder removes exactly the leases that are up, a forgotten operation is not
      held, and after a failure nothing moves. */
  lemma {:induction false} LetsGo(s: State, sampled: Time, op: Id, step: Step)
    requires !s.failed
    ensures sampled <= s.now ==> (op in Next(s, AtHolder(ExpireHeld(sampled))).h.held <==> op in s.h.held && sampled < s.h.held[op])
    ensures Next(s, AtHolder(Forget(op))).h == s.h.(held := s.h.held - {op})
    ensures sampled >= s.now ==> Next(s, Tick(sampled)) == s.(now := sampled)
    ensures Next(s, Fail).failed && Next(Next(s, Fail), step) == Next(s, Fail)
  {
  }

  // ----- kept up, it is kept ----------------------------------------------------------------------------

  ghost function PromisedAfter(s: State, step: Step, op: Id, until: Time): Time {
    if step.AtHolder? && step.holder.ReceiveAck? && step.holder.request in s.h.renewals && s.h.renewals[step.holder.request].answered
       && op in s.h.renewals[step.holder.request].acked && s.now < s.h.renewals[step.holder.request].sentAt + s.ttl
       && s.now < until && until < s.h.renewals[step.holder.request].sentAt + s.ttl
    then s.h.renewals[step.holder.request].sentAt + s.ttl else until
  }

  /** Nobody forgets the operation, and the holder never sweeps later than what the
      acknowledgements received so far have promised. */
  ghost predicate KeptUp(s: State, steps: seq<Step>, op: Id, until: Time)
    decreases |steps|
  {
    steps == [] || (
      && steps[0] != AtHolder(Forget(op)) && steps[0] != AtHolder(Written(op))
      && (steps[0].AtHolder? && steps[0].holder.ExpireHeld? && steps[0].holder.sampled <= s.now ==> steps[0].holder.sampled < until)
      && KeptUp(Next(s, steps[0]), steps[1..], op, PromisedAfter(s, steps[0], op, until)))
  }

  lemma {:induction false} StepKeepsLease(s: State, step: Step, op: Id, until: Time)
    requires op in s.h.held && s.h.held[op] >= until && step != AtHolder(Forget(op)) && step != AtHolder(Written(op))
    requires step.AtHolder? && step.holder.ExpireHeld? && step.holder.sampled <= s.now ==> step.holder.sampled < until
    ensures var t := Next(s, step); op in t.h.held && t.h.held[op] >= if s.failed then until else PromisedAfter(s, step, op, until)
  {
    hide GranterNext, LiveAmong, OfferedAmong, Renewed, RenewedResults;
  }

  /** An operation whose renewals are acknowledged before the lease they extend is up is never
      dropped by its holder. */
  lemma {:induction false} KeptUpIsKept(s: State, steps: seq<Step>, op: Id, until: Time)
    requires op in s.h.held && s.h.held[op] >= until && KeptUp(s, steps, op, until)
    ensures op in Run(s, steps).h.held
    decreases |steps|
  {
    if s.failed {
      FailedStays(s, steps);
    } else if steps != [] {
      StepKeepsLease(s, steps[0], op, until);
      hide Next, PromisedAfter;
      KeptUpIsKept(Next(s, steps[0]), steps[1..], op, PromisedAfter(s, steps[0], op, until));
    }
  }

  lemma {:induction false} FailedStays(s: State, steps: seq<Step>)
    requires s.failed
    ensures Run(s, steps) == s
    decreases |steps|
  {
    if steps != [] { FailedStays(Next(s, steps[0]), steps[1..]); }
  }
}
