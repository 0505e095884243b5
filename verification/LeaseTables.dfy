/** The lease tables of an endpoint and the loops that renew and expire them:
    `rpc/endpoint_lease.go`.  Identities may repeat in a request, and tables are visited in
    any order. */
module LeaseTables {

  type Time = nat
  type Id = nat
  type Leases = map<Id, Time>

  /** A provisional result offered to the peer. */
  datatype Offered = Offered(binding: Id, expires: Time, retiring: bool, deciding: bool)

  type Results = map<Id, Offered>

  predicate LiveAt(leases: Leases, id: Id, now: Time) { id in leases && now < leases[id] }

  predicate OfferedAt(results: Results, id: Id, now: Time) {
    id in results && !results[id].retiring && now < results[id].expires
  }

  function Renewed(leases: Leases, acked: set<Id>, expires: Time): Leases {
    map id | id in leases :: if id in acked then expires else leases[id]
  }

  /** Leases only move forward, and only while they run. */
  function Advanced(leases: Leases, acked: set<Id>, now: Time, expires: Time): Leases {
    map id | id in leases ::
      if now < expires && id in acked && now < leases[id] && expires > leases[id] then expires else leases[id]
  }

  function Members(ids: seq<Id>): set<Id> { set id | id in ids }

  lemma {:induction false} MembersMore(ids: seq<Id>, i: nat)
    requires i < |ids|
    ensures Members(ids[..i + 1]) == Members(ids[..i]) + {ids[i]}
  {
    assert ids[..i + 1] == ids[..i] + [ids[i]];
  }

  // ----- renewal ------------------------------------------------------------------------------------

  function LiveAmong(leases: Leases, ids: set<Id>, now: Time): set<Id> { set id | id in ids && LiveAt(leases, id, now) }

  /** The binding loop of `renewInboundTargets`. */
  method RenewBindings(bindings: Leases, targets: seq<Id>, expires: Time, now: Time) returns (renewed: Leases, acked: set<Id>)
    ensures acked == LiveAmong(bindings, Members(targets), now)
    ensures renewed == Renewed(bindings, acked, expires)
  {
    renewed, acked := bindings, {};
    for i := 0 to |targets|
      invariant acked == LiveAmong(bindings, Members(targets[..i]), now)
      invariant renewed == Renewed(bindings, acked, expires)
    {
      MembersMore(targets, i);
      hide Members;
      var id := targets[i];
      if id in renewed && now < renewed[id] {
        acked := acked + {id};
        renewed := renewed[id := expires];
      }
    }
    assert targets[..|targets|] == targets;
  }

  function OfferedAmong(results: Results, ids: set<Id>, now: Time): set<Id> { set id | id in ids && OfferedAt(results, id, now) }

  function RenewedResults(results: Results, acked: set<Id>, expires: Time): Results {
    map id | id in results :: if id in acked then results[id].(expires := expires) else results[id]
  }

  lemma {:induction false} RenewOne(leases: Leases, ids: set<Id>, id: Id, expires: Time, now: Time)
    ensures var acked := LiveAmong(leases, ids, now);
      var r, renews := Renewed(leases, acked, expires), id in Renewed(leases, acked, expires) && now < Renewed(leases, acked, expires)[id];
      && LiveAmong(leases, ids + {id}, now) == (if renews then acked + {id} else acked)
      && Renewed(leases, LiveAmong(leases, ids + {id}, now), expires) == (if renews then r[id := expires] else r)
  {
  }

  lemma {:induction false} OfferOne(results: Results, ids: set<Id>, id: Id, expires: Time, now: Time)
    ensures var acked := OfferedAmong(results, ids, now);
      var r := RenewedResults(results, acked, expires);
      var renews := id in r && !r[id].retiring && now < r[id].expires;
      && OfferedAmong(results, ids + {id}, now) == (if renews then acked + {id} else acked)
      && RenewedResults(results, OfferedAmong(results, ids + {id}, now), expires)
         == (if renews then r[id := r[id].(expires := expires)] else r)
  {
  }

  /** The operation loop of `renewInboundTargets`: an operation is acknowledged while it runs
      or while its result is on offer. */
  method RenewOperations(operations: Leases, results: Results, targets: seq<Id>, expires: Time, now: Time)
    returns (renewed: Leases, offered: Results, acked: set<Id>)
    ensures acked == LiveAmong(operations, Members(targets), now) + OfferedAmong(results, Members(targets), now)
    ensures renewed == Renewed(operations, LiveAmong(operations, Members(targets), now), expires)
    ensures offered == RenewedResults(results, OfferedAmong(results, Members(targets), now), expires)
  {
    renewed, offered, acked := operations, results, {};
    for i := 0 to |targets|
      invariant acked == LiveAmong(operations, Members(targets[..i]), now) + OfferedAmong(results, Members(targets[..i]), now)
      invariant renewed == Renewed(operations, LiveAmong(operations, Members(targets[..i]), now), expires)
      invariant offered == RenewedResults(results, OfferedAmong(results, Members(targets[..i]), now), expires)
    {
      MembersMore(targets, i);
      RenewOne(operations, Members(targets[..i]), targets[i], expires, now);
      OfferOne(results, Members(targets[..i]), targets[i], expires, now);
      hide Members, LiveAmong, OfferedAmong, Renewed, RenewedResults;
      var id := targets[i];
      if id in renewed && now < renewed[id] {
        renewed := renewed[id := expires];
        acked := acked + {id};
      }
      if id in offered && !offered[id].retiring && now < offered[id].expires {
        offered := offered[id := offered[id].(expires := expires)];
        acked := acked + {id};
      }
    }
    assert targets[..|targets|] == targets;
  }

  /** One of the two loops of `renewOutboundTargets`, on bindings or on operations. */
  method AdvanceLeases(leases: Leases, acked: seq<Id>, now: Time, expires: Time) returns (after: Leases)
    ensures after == Advanced(leases, Members(acked), now, expires)
  {
    after := leases;
    if now < expires {
      for i := 0 to |acked|
        invariant after == Advanced(leases, Members(acked[..i]), now, expires)
      {
        MembersMore(acked, i);
        hide Members;
        var id := acked[i];
        if id in after && now < after[id] && expires > after[id] {
          after := after[id := expires];
        }
      }
      assert acked[..|acked|] == acked;
    }
  }

  // ----- expiry ---------------------------------------------------------------------------------------

  function Running(leases: Leases, sampled: Time): Leases { map id | id in leases && sampled < leases[id] :: leases[id] }

  method ExpireTable(leases: Leases, sampled: Time) returns (live: Leases, expired: set<Id>)
    ensures live == Running(leases, sampled) && expired == leases.Keys - live.Keys
  {
    live, expired := leases, {};
    var pending := leases.Keys;
    while pending != {}
      invariant pending <= leases.Keys
      invariant live == map id | id in leases && (id in pending || sampled < leases[id]) :: leases[id]
      invariant expired == leases.Keys - live.Keys
      decreases pending
    {
      var id :| id in pending;
      pending := pending - {id};
      if leases[id] <= sampled {
        live := live - {id};
        expired := expired + {id};
      }
    }
  }

  /** The result retires: its binding is no longer leased, or its own lease has run out. */
  predicate Retires(results: Results, bindings: Leases, id: Id, sampled: Time) {
    id in results && !results[id].retiring && (results[id].binding !in bindings || results[id].expires <= sampled)
  }

  function AfterRetiring(results: Results, bindings: Leases, sampled: Time): Results {
    map id | id in results :: if Retires(results, bindings, id, sampled) then results[id].(retiring := true) else results[id]
  }

  /** The result loop of `expireLeases`; `settle` are the results nobody is deciding. */
  method RetireResults(results: Results, bindings: Leases, sampled: Time) returns (after: Results, settle: set<Id>)
    ensures after == AfterRetiring(results, bindings, sampled)
    ensures settle == set id | id in results && Retires(results, bindings, id, sampled) && !results[id].deciding
  {
    after, settle := results, {};
    var pending := results.Keys;
    while pending != {}
      invariant pending <= results.Keys && after.Keys == results.Keys
      invariant forall id :: id in results ==> after[id] == if id in pending then results[id] else AfterRetiring(results, bindings, sampled)[id]
      invariant settle == set id | id in results && id !in pending && Retires(results, bindings, id, sampled) && !results[id].deciding
      decreases pending
    {
      var id :| id in pending;
      pending := pending - {id};
      if !after[id].retiring && (after[id].binding !in bindings || after[id].expires <= sampled) {
        after := after[id := after[id].(retiring := true)];
        if !after[id].deciding {
          settle := settle + {id};
        }
      }
    }
  }

  /** Calls under way: operation to the binding it runs on. */
  type Active = map<Id, Id>

  /** The inbound half of `expireLeases`: an operation goes with its own lease or with the
      lease of its binding, and exactly the calls that lose theirs are cancelled. */
  method ExpireInbound(bindings: Leases, operations: Leases, active: Active, sampled: Time)
    returns (liveBindings: Leases, liveOperations: Leases, canceled: set<Id>)
    ensures liveBindings == Running(bindings, sampled)
    ensures canceled == set op | op in active
      && ((op in operations && operations[op] <= sampled) || (active[op] in bindings && bindings[active[op]] <= sampled))
    ensures liveOperations == map op | op in operations && sampled < operations[op]
      && !(op in active && active[op] in bindings && bindings[active[op]] <= sampled) :: operations[op]
  {
    var expiredOperations, expiredBindings;
    liveOperations, expiredOperations := ExpireTable(operations, sampled);
    liveBindings, expiredBindings := ExpireTable(bindings, sampled);
    canceled := set op | op in active && op in expiredOperations;
    var pending := active.Keys;
    while pending != {}
      invariant pending <= active.Keys
      invariant canceled == set op | op in active && (op in expiredOperations || (op !in pending && active[op] in expiredBindings))
      invariant liveOperations == map op | op in operations && sampled < operations[op]
        && !(op in active && op !in pending && active[op] in expiredBindings) :: operations[op]
      decreases pending
    {
      var op :| op in pending;
      pending := pending - {op};
      if active[op] in expiredBindings {
        canceled := canceled + {op};
        liveOperations := liveOperations - {op};
      }
    }
  }
}
