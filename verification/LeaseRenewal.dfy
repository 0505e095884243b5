/** Renewal batches of `rpc/endpoint_lease.go`: the wire form of a target list and
    the rotation that renews more targets than fit one control frame. */
module LeaseRenewal {
  import opened Options
  import opened WireCodec

  datatype Kind = Binding | Operation

  datatype Target = Target(kind: Kind, id: U64)

  datatype Targets = Targets(bindings: seq<U64>, operations: seq<U64>)

  // ----- wire form ----------------------------------------------------------------

  function KindByte(k: Kind): Byte {
    match k case Binding => 1 case Operation => 2
  }

  function EncodeTargets(ts: seq<Target>): Bytes {
    if ts == [] then [] else [KindByte(ts[0].kind)] + (Uvarint(ts[0].id) + EncodeTargets(ts[1..]))
  }

  function EncodeTargetList(ts: seq<Target>): Bytes {
    Uvarint(|ts|) + EncodeTargets(ts)
  }

  function Split(ts: seq<Target>): Targets {
    if ts == [] then Targets([], [])
    else
      var rest := Split(ts[1..]);
      match ts[0].kind
      case Binding => rest.(bindings := [ts[0].id] + rest.bindings)
      case Operation => rest.(operations := [ts[0].id] + rest.operations)
  }

  /** One target per round: known kind, non-zero identity, not seen before. */
  function DecodeTargets(count: nat, buf: Bytes, seen: set<Target>): Option<(seq<Target>, Bytes)> {
    if count == 0 then Some(([], buf))
    else if buf == [] || (buf[0] != 1 && buf[0] != 2) then None
    else
      var (id, rest) :- DecodeUint(buf[1..]);
      var target := Target(if buf[0] == 1 then Binding else Operation, id);
      if id == 0 || target in seen then None
      else
        var (targets, tail) :- DecodeTargets(count - 1, rest, seen + {target});
        Some(([target] + targets, tail))
  }

  function DecodeTargetList(payload: Bytes, maxControls: nat): Option<Targets> {
    var (count, body) :- DecodeUint(payload);
    if count > maxControls then None
    else
      var (targets, rest) :- DecodeTargets(count, body, {});
      if rest == [] then Some(Split(targets)) else None
  }

  ghost predicate Distinct(ts: seq<Target>) {
    forall i, j :: 0 <= i < j < |ts| ==> ts[i] != ts[j]
  }

  ghost predicate Fresh(ts: seq<Target>, seen: set<Target>) {
    Distinct(ts) && forall t :: t in ts ==> t.id != 0 && t !in seen
  }

  lemma FreshStep(ts: seq<Target>, seen: set<Target>)
    requires ts != []
    ensures Fresh(ts, seen) <==> ts[0].id != 0 && ts[0] !in seen && Fresh(ts[1..], seen + {ts[0]})
  {
    var rest := ts[1..];
    assert ts == [ts[0]] + rest;
    if Fresh(rest, seen + {ts[0]}) {
      forall i, j | 0 <= i < j < |ts| ensures ts[i] != ts[j] {
        assert ts[j] == rest[j - 1] && rest[j - 1] in rest;
        if i > 0 { assert ts[i] == rest[i - 1]; }
      }
    }
  }

  lemma {:induction false} BytesAfterFirst(first: Byte, a: Bytes, b: Bytes, rest: Bytes)
    ensures var buf := [first] + (a + b) + rest; buf[0] == first && buf[1..] == a + (b + rest)
  {
  }

  lemma {:induction false} FirstTarget(ts: seq<Target>, rest: Bytes)
    requires ts != []
    ensures var buf, tail := EncodeTargets(ts) + rest, EncodeTargets(ts[1..]) + rest;
      buf != [] && buf[0] == KindByte(ts[0].kind) && DecodeUint(buf[1..]) == Some((ts[0].id, tail))
  {
    hide Uvarint, DecodeUint, KindByte;
    var kind, id, others := KindByte(ts[0].kind), Uvarint(ts[0].id), EncodeTargets(ts[1..]);
    assert EncodeTargets(ts) == [kind] + (id + others);
    BytesAfterFirst(kind, id, others, rest);
    UintRoundTrip(ts[0].id, id + (others + rest), others + rest);
  }

  lemma {:induction false} TargetsRoundTrip(ts: seq<Target>, seen: set<Target>, rest: Bytes)
    ensures DecodeTargets(|ts|, EncodeTargets(ts) + rest, seen) == if Fresh(ts, seen) then Some((ts, rest)) else None
  {
    hide Fresh, DecodeUint;
    if ts == [] {
      assert [] + rest == rest;
      assert Fresh(ts, seen) by { FreshEmpty(seen); }
    } else {
      FreshStep(ts, seen);
      FirstTarget(ts, rest);
      hide EncodeTargets;
      TargetsRoundTrip(ts[1..], seen + {ts[0]}, rest);
      assert ts == [ts[0]] + ts[1..];
    }
  }

  lemma FreshEmpty(seen: set<Target>)
    ensures Fresh([], seen)
  {
  }

  /** A list survives the wire exactly when it is short enough, has no zero identity
      and no duplicate; it then arrives split by kind, in order. */
  lemma TargetListRoundTrip(ts: seq<Target>, maxControls: nat)
    requires |ts| < U64_LIMIT
    ensures DecodeTargetList(EncodeTargetList(ts), maxControls) ==
      if |ts| <= maxControls && Fresh(ts, {}) then Some(Split(ts)) else None
  {
    hide Fresh, Uvarint, DecodeUint, EncodeTargets, DecodeTargets;
    UintRoundTrip(|ts|, EncodeTargetList(ts), EncodeTargets(ts));
    TargetsRoundTrip(ts, {}, []);
    assert EncodeTargets(ts) + [] == EncodeTargets(ts);
  }

  // ----- rotation -----------------------------------------------------------------

  /** `*offset % len(targets)`, with negative remainders raised to zero. */
  function Start(offset: int, n: nat): nat
    requires n > 0
  {
    if offset < 0 then 0 else offset % n
  }

  /** The batch sent from `start`: `limit` targets, wrapping at the end. */
  function Window<T>(targets: seq<T>, limit: nat, start: nat): seq<T>
    requires start < |targets| && 0 < limit < |targets|
  {
    var end := if start + limit <= |targets| then start + limit else |targets|;
    targets[start..end] + targets[..limit - (end - start)]
  }

  function Advance(start: nat, limit: nat, n: nat): nat
    requires n > 0
  {
    (start + limit) % n
  }

  /** Position `i` counted from `start`, going around. */
  function Distance(start: nat, i: nat, n: nat): nat
    requires start < n && i < n
  {
    if i >= start then i - start else i + n - start
  }

  lemma WindowMembers<T>(targets: seq<T>, limit: nat, start: nat)
    requires start < |targets| && 0 < limit < |targets|
    ensures |Window(targets, limit, start)| == limit
    ensures forall i :: 0 <= i < |targets| && Distance(start, i, |targets|) < limit ==>
      Window(targets, limit, start)[Distance(start, i, |targets|)] == targets[i]
  {
  }

  lemma WindowDistinct(targets: seq<Target>, limit: nat, start: nat)
    requires start < |targets| && 0 < limit < |targets| && Distinct(targets)
    ensures Distinct(Window(targets, limit, start))
    ensures forall t :: t in Window(targets, limit, start) ==> t in targets
  {
    var end := if start + limit <= |targets| then start + limit else |targets|;
    var w := Window(targets, limit, start);
    forall k | 0 <= k < limit
      ensures w[k] == targets[if start + k < |targets| then start + k else start + k - |targets|]
    {
    }
  }

  lemma AdvanceSmall(start: nat, limit: nat, n: nat)
    requires start < n && limit < n
    ensures Advance(start, limit, n) == if start + limit < n then start + limit else start + limit - n
  {
  }

  /** One maintenance tick over an unchanged list in which every batch is
      acknowledged: the batches sent, and where the next tick starts. */
  method RenewalRound(targets: seq<Target>, limit: nat, offset: int) returns (batches: seq<seq<Target>>, next: int)
    requires limit > 0 && Distinct(targets)
    ensures forall b <- batches :: |b| <= limit && Distinct(b) && forall t <- b :: t in targets
    ensures |targets| > limit ==> forall b <- batches :: |b| == limit
    ensures |batches| == if |targets| <= limit then 1 else (|targets| + limit - 1) / limit
    ensures forall t <- targets :: exists b <- batches :: t in b
    ensures next == offset || 0 <= next < |targets|
  {
    if |targets| <= limit {
      return [targets], offset;
    }
    hide Window, Start, Advance, Rotating, Distinct;
    var rounds := (|targets| + limit - 1) / limit;
    batches, next := [], offset;
    StartInRange(offset, |targets|);
    ghost var first := Start(offset, |targets|);
    RotatingNone(targets, limit, first);
    while |batches| < rounds
      invariant |batches| <= rounds
      invariant forall b <- batches :: |b| == limit && Distinct(b) && forall t <- b :: t in targets
      invariant Rotating(targets, limit, first, Start(next, |targets|), batches)
      invariant next == offset || 0 <= next < |targets|
    {
      StartInRange(next, |targets|);
      var begin := Start(next, |targets|);
      var batch := Window(targets, limit, begin);
      WindowDistinct(targets, limit, begin);
      WindowMembers(targets, limit, begin);
      RotatingStep(targets, limit, first, begin, batches);
      batches := batches + [batch];
      next := Advance(begin, limit, |targets|);
      AdvanceInRange(begin, limit, |targets|);
    }
    RotationCovers(targets, limit, first, Start(next, |targets|), batches);
  }

  lemma StartInRange(offset: int, n: nat)
    requires n > 0
    ensures Start(offset, n) < n
  {
  }

  lemma RotatingNone(targets: seq<Target>, limit: nat, first: nat)
    requires 0 < limit < |targets| && first < |targets|
    ensures Rotating(targets, limit, first, first, [])
  {
  }

  /** `batches` is the run of consecutive windows from `first`, ending before `start`. */
  ghost predicate Rotating(targets: seq<Target>, limit: nat, first: nat, start: nat, batches: seq<seq<Target>>)
    requires 0 < limit < |targets|
    decreases |batches|
  {
    && first < |targets| && start < |targets|
    && (batches == [] ==> first == start)
    && (batches != [] ==> batches[0] == Window(targets, limit, first))
    && (batches != [] ==> Rotating(targets, limit, Advance(first, limit, |targets|), start, batches[1..]))
  }

  lemma {:induction false} RotatingStep(targets: seq<Target>, limit: nat, first: nat, start: nat, batches: seq<seq<Target>>)
    requires 0 < limit < |targets| && Rotating(targets, limit, first, start, batches)
    ensures Rotating(targets, limit, first, Advance(start, limit, |targets|), batches + [Window(targets, limit, start)])
    decreases |batches|
  {
    hide Window, Advance;
    AdvanceInRange(start, limit, |targets|);
    var longer := batches + [Window(targets, limit, start)];
    if batches == [] {
      assert longer[1..] == [];
    } else {
      RotatingStep(targets, limit, Advance(first, limit, |targets|), start, batches[1..]);
      assert longer[1..] == batches[1..] + [Window(targets, limit, start)];
    }
  }

  lemma AdvanceInRange(start: nat, limit: nat, n: nat)
    requires n > 0
    ensures Advance(start, limit, n) < n && Start(Advance(start, limit, n), n) == Advance(start, limit, n)
  {
  }

  /** A target at distance `d` is in the window whose number is `d` divided by the limit. */
  lemma {:induction false} ReachedInRotation(targets: seq<Target>, limit: nat, first: nat, start: nat, batches: seq<seq<Target>>, i: nat, number: nat)
    requires 0 < limit < |targets| && i < |targets| && Rotating(targets, limit, first, start, batches)
    requires number < |batches| && number * limit <= Distance(first, i, |targets|) < number * limit + limit
    ensures targets[i] in batches[number]
    decreases number
  {
    hide Window;
    var d := Distance(first, i, |targets|);
    if number == 0 {
      WindowMembers(targets, limit, first);
      assert batches[0][d] == targets[i];
    } else {
      assert number * limit == (number - 1) * limit + limit;
      assert (number - 1) * limit >= 0;
      AdvanceSmall(first, limit, |targets|);
      var next := Advance(first, limit, |targets|);
      assert Distance(next, i, |targets|) == d - limit;
      ReachedInRotation(targets, limit, next, start, batches[1..], i, number - 1);
    }
  }

  /** The window number exists: there are enough windows for every distance. */
  lemma {:induction false} WindowNumber(d: nat, limit: nat, count: nat) returns (number: nat)
    requires 0 < limit && d < count * limit
    ensures number < count && number * limit <= d < number * limit + limit
    decreases count
  {
    if (count - 1) * limit <= d {
      number := count - 1;
      assert count * limit == (count - 1) * limit + limit;
    } else {
      number := WindowNumber(d, limit, count - 1);
    }
  }

  /** Any `ceil(n / limit)` consecutive windows cover every target. */
  lemma RotationCovers(targets: seq<Target>, limit: nat, first: nat, start: nat, batches: seq<seq<Target>>)
    requires 0 < limit < |targets| && Rotating(targets, limit, first, start, batches)
    requires |batches| == (|targets| + limit - 1) / limit
    ensures forall t <- targets :: exists b <- batches :: t in b
  {
    hide Rotating;
    CeilingCovers(|targets|, limit);
    forall t | t in targets ensures exists b <- batches :: t in b {
      var i :| 0 <= i < |targets| && targets[i] == t;
      assert first < |targets| by { RotatingRange(targets, limit, first, start, batches); }
      var number := WindowNumber(Distance(first, i, |targets|), limit, |batches|);
      ReachedInRotation(targets, limit, first, start, batches, i, number);
      assert t in batches[number];
    }
  }

  lemma RotatingRange(targets: seq<Target>, limit: nat, first: nat, start: nat, batches: seq<seq<Target>>)
    requires 0 < limit < |targets| && Rotating(targets, limit, first, start, batches)
    ensures first < |targets| && start < |targets|
  {
  }

  lemma CeilingCovers(n: nat, limit: nat)
    requires limit > 0
    ensures (n + limit - 1) / limit * limit >= n
  {
    var q := (n + limit - 1) / limit;
    assert n + limit - 1 == q * limit + (n + limit - 1) % limit;
  }

  // ----- kinds apart ----------------------------------------------------------------------------------

  /** One more target goes to the end of the list of its kind. */
  lemma {:induction false} SplitMore(ts: seq<Target>, t: Target)
    ensures var before, after := Split(ts), Split(ts + [t]);
      after == if t.kind.Binding? then Targets(before.bindings + [t.id], before.operations) else Targets(before.bindings, before.operations + [t.id])
  {
    if ts == [] {
      assert ts + [t] == [t] && [t][1..] == [];
    } else {
      assert (ts + [t])[1..] == ts[1..] + [t];
      SplitMore(ts[1..], t);
    }
  }
}
