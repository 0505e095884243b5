/** What leases are for: a healthy bind succeeds, renewals extend what they acknowledge, and
    whatever is no longer renewed comes back to its granter. */
module LeaseHandshake {
  import opened LeaseTables
  import opened LeaseSafety

  ghost predicate Healthy(s: State) { !s.granterFailed && !s.holderFailed && s.ttl > 0 }

  /** A connection starts healthy. */
  lemma {:induction false} StartsHealthy(ttl: Time)
    requires ttl > 0
    ensures Healthy(Initial(ttl)) && Initial(ttl).now == 0 && Initial(ttl).renewals == map[]
  {
  }

  ghost function BindSteps(id: BindingId, request: RequestId, now: Time): seq<Step> {
    [Grant, Publish(id), SendRenewal(request, {id}), ServeRenewal(request, now), ReceiveConfirmation(request, id), FinishBind(id)]
  }

  lemma {:induction false} RunFirst(s: State, steps: seq<Step>)
    requires steps != []
    ensures Run(s, steps) == Run(Next(s, steps[0]), steps[1..])
  {
    hide Next;
  }

  /** The three messages of a bind, with the binding still leased when each arrives. */
  ghost predicate Granted(s: State, t: State, id: BindingId) {
    && Healthy(t) && t.now == s.now && t.ttl == s.ttl && t.renewals == s.renewals && id in t.bindings
    && id in t.granted && t.granted[id] == s.now + s.ttl && id in t.held && t.held[id] == s.now + s.ttl
    && t.returned == s.returned && t.confirmed == s.confirmed
  }

  lemma {:induction false} GrantPublishes(s: State)
    requires Healthy(s)
    ensures Granted(s, Next(Next(s, Grant), Publish(s.lastBinding + 1)), s.lastBinding + 1)
  {
  }

  lemma {:induction false} RenewalConfirms(s: State, t: State, id: BindingId, request: RequestId)
    requires Granted(s, t, id) && request !in t.renewals
    ensures var u := Next(Next(Next(t, SendRenewal(request, {id})), ServeRenewal(request, s.now)), ReceiveConfirmation(request, id));
      Healthy(u) && u.now == s.now && u.ttl == s.ttl && id in u.held && u.held[id] == s.now + s.ttl && id in u.confirmed && u.confirmed[id] == s.now
      && id in u.granted && u.granted[id] == s.now + s.ttl && id in u.bindings && u.renewals == t.renewals
  {
    var sent := Next(t, SendRenewal(request, {id}));
    var served := Next(sent, ServeRenewal(request, s.now));
    assert LiveAmong(sent.granted, {id}, s.now) == {id};
    assert served.renewals[request].acked == {id};
    assert served.renewals - {request} == t.renewals;
  }

  /** On a healthy connection a bind that no one disturbs returns its binding, leased on both
      sides for the whole lease time, and leaves nothing in transit. */
  lemma {:induction false} BindSucceeds(s: State, request: RequestId)
    requires Healthy(s) && request !in s.renewals
    ensures var id, t := s.lastBinding + 1, Run(s, BindSteps(s.lastBinding + 1, request, s.now));
      && id in t.returned && id in t.bindings && id !in t.confirmed && t.renewals == s.renewals
      && id in t.held && t.held[id] == s.now + s.ttl && id in t.granted && t.granted[id] == s.now + s.ttl
  {
    hide Next, Run;
    var id, steps := s.lastBinding + 1, BindSteps(s.lastBinding + 1, request, s.now);
    var published := Next(Next(s, Grant), Publish(id));
    GrantPublishes(s);
    RenewalConfirms(s, published, id, request);
    var confirmed := Next(Next(Next(published, steps[2]), steps[3]), steps[4]);
    FinishExactly(confirmed, id);
    RunSix(s, steps);
  }

  lemma {:induction false} RunSix(s: State, steps: seq<Step>)
    requires |steps| == 6
    ensures Run(s, steps) == Next(Next(Next(Next(Next(Next(s, steps[0]), steps[1]), steps[2]), steps[3]), steps[4]), steps[5])
  {
    hide Next, Run;
    RunFirst(s, steps);
    var a := Next(s, steps[0]);
    RunFirst(a, steps[1..]);
    var b := Next(a, steps[1]);
    assert steps[1..][1..] == steps[2..] && steps[2..][1..] == steps[3..] && steps[3..][1..] == steps[4..] && steps[4..][1..] == steps[5..];
    RunFirst(b, steps[2..]);
    RunFirst(Next(b, steps[2]), steps[3..]);
    RunFirst(Next(Next(b, steps[2]), steps[3]), steps[4..]);
    RunFirst(Next(Next(Next(b, steps[2]), steps[3]), steps[4]), steps[5..]);
    RunNone(Next(Next(Next(Next(b, steps[2]), steps[3]), steps[4]), steps[5]));
    assert steps[5..][1..] == [];
  }

  lemma {:induction false} RunNone(s: State)
    ensures Run(s, []) == s
  {
  }

  /** Bind returns a confirmed binding exactly if its lease and its confirmation still run, and
      otherwise lets go of it; either way the confirmation is used up. */
  lemma {:induction false} FinishExactly(s: State, id: BindingId)
    requires !s.holderFailed && id in s.confirmed
    ensures var t, runs := Next(s, FinishBind(id)), id in s.held && s.now < s.held[id] && s.now < s.confirmed[id] + s.ttl;
      && id !in t.confirmed && t.renewals == s.renewals && t.granted == s.granted && t.bindings == s.bindings
      && (if runs then t.returned == s.returned + {id} && t.held == s.held else t.returned == s.returned && t.held == s.held - {id})
  {
  }

  /** An answer that does not name the binding loses it; one that does confirms it from the time
      the renewal was sent.  An answer is used once. */
  lemma {:induction false} ConfirmsExactly(s: State, request: RequestId, id: BindingId)
    requires !s.holderFailed && request in s.renewals && s.renewals[request].answered
    ensures var t, r := Next(s, ReceiveConfirmation(request, id)), s.renewals[request];
      && request !in t.renewals && request !in Next(s, ReceiveAck(request)).renewals
      && if id in r.acked then id in t.confirmed && t.confirmed[id] == r.sentAt else id !in t.held && t.confirmed == s.confirmed
  {
  }

  /** The granter answers a renewal once, naming exactly the bindings it still leases, which it
      extends by the lease time. */
  lemma {:induction false} ServesExactly(s: State, request: RequestId, later: Time, id: BindingId)
    requires !s.granterFailed && request in s.renewals && !s.renewals[request].answered && s.now <= later
    ensures var t, asked := Next(s, ServeRenewal(request, later)), s.renewals[request].targets;
      && t.now == later && t.renewals[request].answered && t.renewals[request].sentAt == s.renewals[request].sentAt
      && (id in t.renewals[request].acked <==> id in asked && id in s.granted && later < s.granted[id])
      && (id in t.granted <==> id in s.granted)
      && (id in s.granted ==> t.granted[id] == if id in asked && later < s.granted[id] then s.now + s.ttl else s.granted[id])
  {
  }

  /** A renewal may name any of the bindings held, all of them included. */
  lemma {:induction false} SendsExactly(s: State, request: RequestId, targets: set<BindingId>)
    requires !s.holderFailed && request !in s.renewals && targets <= s.held.Keys
    ensures Next(s, SendRenewal(request, targets)).renewals == s.renewals[request := Renewal(s.now, targets, false, {})]
  {
  }

  // ----- what is given up comes back -----------------------------------------------------------------

  ghost function Later(s: State, time: Time): Time { if s.now < time then time else s.now }

  /** A sweep at a time already reached removes exactly the leases that are up, at either end. */
  lemma {:induction false} SweepsExactly(s: State, sampled: Time, id: BindingId)
    requires sampled <= s.now
    ensures !s.granterFailed ==> (id in Next(s, ExpireGranted(sampled)).granted <==> id in s.granted && sampled < s.granted[id])
    ensures !s.holderFailed ==> (id in Next(s, ExpireHeld(sampled)).held <==> id in s.held && sampled < s.held[id])
  {
  }

  /** A binding nobody renews is the granter's again once its lease is up and a sweep has seen it. */
  lemma {:induction false} UnrenewedComesBack(s: State, id: BindingId)
    requires !s.granterFailed && id in s.granted
    ensures var end := Later(s, s.granted[id]);
      var t := Next(Next(Next(s, Tick(end)), ExpireGranted(end)), DropBinding(id)); id !in t.granted && id !in t.bindings && t.now == end
  {
    var end := Later(s, s.granted[id]);
    var ticked := Next(s, Tick(end));
    assert ticked.now == end && !ticked.granterFailed && ticked.granted == s.granted;
    var swept := Next(ticked, ExpireGranted(end));
    assert id !in swept.granted && swept.now == end by { SweepsExactly(ticked, end, id); }
  }

  /** So is one its holder has closed, at once. */
  lemma {:induction false} ClosedComesBack(s: State, id: BindingId)
    requires !s.holderFailed
    ensures var t := Next(Next(Next(s, SendClose(id)), ServeClose(id)), DropBinding(id));
      id !in t.granted && id !in t.bindings && id in t.closed && t.held == s.held
  {
  }

  /** A failed side holds no lease any more, and an invalidated binding is let go of. */
  lemma {:induction false} FailureLetsGo(s: State, id: BindingId)
    ensures var t := Next(s, FailHolder); t.holderFailed && t.held == map[] && t.confirmed == map[] && t.granted == s.granted
    ensures var t := Next(s, FailGranter); t.granterFailed && t.granted == map[] && t.held == s.held
    ensures id !in Next(s, Invalidate(id)).held
  {
  }
}
