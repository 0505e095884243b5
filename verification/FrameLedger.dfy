/** The byte accounts of idle frames: `newFrame`, `recycle` and `logicalBytes` of
    `runtime/frame.go`.  An idle frame may lose its buffers; a ledger of their capacities
    then stands in for them. */
module FrameLedger {

  datatype Capacity = Capacity(locals: nat, upvalues: nat, stack: nat, popped: nat, returned: nat, defers: nat)
  {
    function Slots(): nat { locals + upvalues + stack + popped + returned + defers }
  }

  const NOTHING := Capacity(0, 0, 0, 0, 0, 0)

  const NODE_BYTES := 128
  const SLOT_BYTES := 16
  const MAX_IDLE_FRAMES := 8
  const MAX_IDLE_BYTES := 0x80_0000
  const MAX_PHYSICAL_BYTES := 0x80_0000

  /** `buffers` are the capacities of the buffers the frame has, `ledger` those it had;
      `physical` is what its idle buffers count for in the physical cache. */
  datatype Frame = Frame(resident: bool, buffers: Capacity, ledger: Capacity, physical: nat)

  function Bytes(c: Capacity): nat { NODE_BYTES + c.Slots() * SLOT_BYTES }

  function LogicalBytes(f: Frame): nat {
    if f.ledger != NOTHING then Bytes(f.ledger) else Bytes(f.buffers)
  }

  function Evict(f: Frame): Frame { Frame(false, NOTHING, f.buffers, 0) }

  function Restore(f: Frame): Frame { if f.resident then f.(physical := 0) else Frame(true, f.ledger, NOTHING, 0) }

  /** Either the buffers or the ledger, and only buffers take physical space. */
  predicate Sound(f: Frame) {
    if f.resident then f.ledger == NOTHING else f.buffers == NOTHING && f.physical == 0
  }

  /** Losing and regaining the buffers is invisible in every account. */
  lemma {:induction false} EvictRestore(f: Frame)
    requires Sound(f) && f.resident
    ensures Sound(Evict(f)) && LogicalBytes(Evict(f)) == LogicalBytes(f)
    ensures Sound(Restore(Evict(f))) && LogicalBytes(Restore(Evict(f))) == LogicalBytes(f)
    ensures Restore(Evict(f)) == f.(physical := 0)
  {
    hide Bytes;
  }

  // ----- sums over the pools ------------------------------------------------------------------------

  type Pools = map<string, seq<Frame>>

  const LOGICAL := (f: Frame) => LogicalBytes(f)
  const PHYSICAL := (f: Frame) => f.physical

  function Sum(frames: seq<Frame>, f: Frame -> nat): nat {
    if frames == [] then 0 else Sum(frames[..|frames| - 1], f) + f(frames[|frames| - 1])
  }

  ghost function Total(pools: Pools, f: Frame -> nat): nat {
    if pools == map[] then 0
    else
      var name :| name in pools;
      Sum(pools[name], f) + Total(pools - {name}, f)
  }

  function PoolOf(pools: Pools, name: string): seq<Frame> { if name in pools then pools[name] else [] }

  lemma {:induction false} TotalAt(pools: Pools, f: Frame -> nat, name: string)
    ensures Total(pools, f) == Sum(PoolOf(pools, name), f) + Total(pools - {name}, f)
    decreases |pools|
  {
    if name !in pools {
      assert pools - {name} == pools;
    } else {
      var first :| first in pools && Total(pools, f) == Sum(pools[first], f) + Total(pools - {first}, f);
      if first != name {
        TotalAt(pools - {first}, f, name);
        TotalAt(pools - {name}, f, first);
        assert pools - {first} - {name} == pools - {name} - {first};
      }
    }
  }

  lemma {:induction false} TotalUpdate(pools: Pools, f: Frame -> nat, name: string, frames: seq<Frame>)
    ensures Total(pools[name := frames], f) == Total(pools, f) - Sum(PoolOf(pools, name), f) + Sum(frames, f)
  {
    TotalAt(pools, f, name);
    TotalAt(pools[name := frames], f, name);
    assert pools[name := frames] - {name} == pools - {name};
  }

  lemma {:induction false} SumMore(frames: seq<Frame>, f: Frame -> nat, frame: Frame)
    ensures Sum(frames + [frame], f) == Sum(frames, f) + f(frame)
  {
    assert (frames + [frame])[..|frames|] == frames;
  }

  // ----- a module's pools -------------------------------------------------------------------------------

  /** The pools of one module and their two sums. */
  datatype Module = Module(pools: Pools, poolBytes: int, physicalBytes: int)

  const EMPTY_MODULE := Module(map[], 0, 0)

  /** The sums are exact, and every pool is within its limits. */
  ghost predicate Balanced(m: Module) {
    && m.poolBytes == Total(m.pools, LOGICAL) && m.poolBytes <= MAX_IDLE_BYTES
    && m.physicalBytes == Total(m.pools, PHYSICAL)
    && (forall name :: name in m.pools ==> |m.pools[name]| <= MAX_IDLE_FRAMES)
    && (forall name, i :: name in m.pools && 0 <= i < |m.pools[name]| ==> Sound(m.pools[name][i]))
  }

  function LastIdle(m: Module, name: string): Frame
    requires PoolOf(m.pools, name) != []
  {
    var pool := PoolOf(m.pools, name);
    pool[|pool| - 1]
  }

  /** The frame part of `newFrame`, when the function has an idle frame. */
  function TakeIdle(m: Module, name: string): Module
    requires PoolOf(m.pools, name) != []
  {
    var pool := PoolOf(m.pools, name);
    var last := pool[|pool| - 1];
    Module(m.pools[name := pool[..|pool| - 1]], m.poolBytes - LogicalBytes(last), m.physicalBytes - last.physical)
  }

  predicate MayPool(m: Module, name: string, frame: Frame) {
    |PoolOf(m.pools, name)| < MAX_IDLE_FRAMES && m.poolBytes <= MAX_IDLE_BYTES - LogicalBytes(frame)
  }

  /** Buffers of physical size `size` are kept only for the current revision and while the
      VM-wide cache, which holds `idleBytes`, has room. */
  predicate MayKeep(size: nat, idleBytes: int, current: bool) { current && size <= MAX_PHYSICAL_BYTES - idleBytes }

  function AddIdle(m: Module, name: string, frame: Frame, size: nat, keep: bool): Module {
    var idle := if keep then frame.(physical := size) else Evict(frame);
    Module(m.pools[name := PoolOf(m.pools, name) + [idle]], m.poolBytes + LogicalBytes(frame),
           m.physicalBytes + if keep then size else 0)
  }

  /** `releasePayloadLocked` on one module. */
  function DropPools(m: Module): Module { if m.physicalBytes != 0 then EMPTY_MODULE else m }

  lemma {:induction false} TakeIdleBalances(m: Module, name: string)
    requires Balanced(m) && PoolOf(m.pools, name) != []
    ensures Balanced(TakeIdle(m, name)) && Sound(LastIdle(m, name))
    ensures TakeIdle(m, name).physicalBytes == m.physicalBytes - LastIdle(m, name).physical
  {
    hide Total, Bytes;
    var pool := PoolOf(m.pools, name);
    var last := |pool| - 1;
    assert Sound(m.pools[name][last]);
    TotalUpdate(m.pools, LOGICAL, name, pool[..last]);
    TotalUpdate(m.pools, PHYSICAL, name, pool[..last]);
  }

  lemma {:induction false} AddIdleBalances(m: Module, name: string, frame: Frame, size: nat, keep: bool)
    requires Balanced(m) && Sound(frame) && frame.resident && MayPool(m, name, frame)
    ensures Balanced(AddIdle(m, name, frame, size, keep))
  {
    hide Total, Bytes;
    EvictRestore(frame);
    var pool, idle := PoolOf(m.pools, name), if keep then frame.(physical := size) else Evict(frame);
    TotalUpdate(m.pools, LOGICAL, name, pool + [idle]);
    TotalUpdate(m.pools, PHYSICAL, name, pool + [idle]);
    SumMore(pool, LOGICAL, idle);
    SumMore(pool, PHYSICAL, idle);
  }

  lemma {:induction false} RestoreKeeps(f: Frame)
    requires Sound(f)
    ensures Sound(Restore(f)) && LogicalBytes(Restore(f)) == LogicalBytes(f)
  {
    hide Bytes;
  }

  class ModuleFrames {
    var pools: Pools
    var poolBytes: int
    var physicalBytes: int

    function View(): Module
      reads this
    {
      Module(pools, poolBytes, physicalBytes)
    }

    constructor ()
      ensures View() == EMPTY_MODULE
    {
      pools, poolBytes, physicalBytes := map[], 0, 0;
    }

    /** The frame part of `newFrame`: an idle frame of the function, or a new one with the
        declared capacities; `idleBytes` is the VM-wide counter. */
    method Take(name: string, declared: Capacity, idleBytes: int) returns (frame: Frame, isNew: bool, idleAfter: int)
      requires Balanced(View())
      modifies this
      ensures Balanced(View()) && isNew == (PoolOf(old(pools), name) == [])
      ensures frame.resident && Sound(frame) && frame.physical == 0
      ensures isNew ==> frame.buffers == declared && View() == old(View()) && idleAfter == idleBytes
      ensures !isNew ==>
        && View() == TakeIdle(old(View()), name) && frame == Restore(LastIdle(old(View()), name))
        && LogicalBytes(frame) == LogicalBytes(LastIdle(old(View()), name))
        && idleAfter == idleBytes - LastIdle(old(View()), name).physical
    {
      hide Balanced, Bytes;
      var pool := PoolOf(pools, name);
      isNew, idleAfter := true, idleBytes;
      frame := Frame(false, NOTHING, declared, 0);
      if |pool| != 0 {
        TakeIdleBalances(View(), name);
        var last := |pool| - 1;
        frame := pool[last];
        RestoreKeeps(frame);
        pools := pools[name := pool[..last]];
        poolBytes := poolBytes - LogicalBytes(frame);
        physicalBytes := physicalBytes - frame.physical;
        idleAfter := idleBytes - frame.physical;
        isNew := false;
      }
      frame := Restore(frame);
    }

    /** The pooling part of `recycle`; `size` is the physical size of the frame's buffers. */
    method Recycle(name: string, frame: Frame, size: nat, idleBytes: int, current: bool) returns (idleAfter: int)
      requires Balanced(View()) && Sound(frame) && frame.resident
      modifies this
      ensures Balanced(View())
      ensures var keep := MayPool(old(View()), name, frame) && MayKeep(size, idleBytes, current);
        && View() == (if MayPool(old(View()), name, frame) then AddIdle(old(View()), name, frame, size, keep) else old(View()))
        && idleAfter == idleBytes + if keep then size else 0
    {
      hide Balanced, Bytes;
      idleAfter := idleBytes;
      var pool := PoolOf(pools, name);
      var logical := LogicalBytes(frame);
      if |pool| < MAX_IDLE_FRAMES && poolBytes <= MAX_IDLE_BYTES - logical {
        AddIdleBalances(View(), name, frame, size, MayKeep(size, idleBytes, current));
        var idle := frame;
        if current && size <= MAX_PHYSICAL_BYTES - idleBytes {
          idle := frame.(physical := size);
          physicalBytes := physicalBytes + size;
          idleAfter := idleBytes + size;
        } else {
          idle := Evict(frame);
        }
        pools := pools[name := pool + [idle]];
        poolBytes := poolBytes + logical;
      }
    }
  }

  // ----- the VM-wide counter ------------------------------------------------------------------------------

  /** The modules of all revisions and the counter they share. */
  datatype Vm = Vm(modules: seq<Module>, idleBytes: int)

  datatype Step =
    | AddModule
    | TakeFrame(index: nat, name: string)
    | RecycleFrame(index: nat, name: string, frame: Frame, size: nat, current: bool)
    | ReleasePayload(index: nat)

  function Next(v: Vm, step: Step): Vm {
    match step
    case AddModule => v.(modules := v.modules + [EMPTY_MODULE])
    case TakeFrame(k, name) =>
      if k < |v.modules| && PoolOf(v.modules[k].pools, name) != []
      then Vm(v.modules[k := TakeIdle(v.modules[k], name)], v.idleBytes - LastIdle(v.modules[k], name).physical)
      else v
    case RecycleFrame(k, name, frame, size, current) =>
      if k < |v.modules| && Sound(frame) && frame.resident && MayPool(v.modules[k], name, frame) then
        var keep := MayKeep(size, v.idleBytes, current);
        Vm(v.modules[k := AddIdle(v.modules[k], name, frame, size, keep)], v.idleBytes + if keep then size else 0)
      else v
    case ReleasePayload(k) =>
      if k < |v.modules| then Vm(v.modules[k := DropPools(v.modules[k])], v.idleBytes - v.modules[k].physicalBytes) else v
  }

  function Run(v: Vm, steps: seq<Step>): Vm
    decreases |steps|
  {
    if steps == [] then v else Run(Next(v, steps[0]), steps[1..])
  }

  function PhysicalSum(modules: seq<Module>): int {
    if modules == [] then 0 else PhysicalSum(modules[..|modules| - 1]) + modules[|modules| - 1].physicalBytes
  }

  ghost predicate Accounted(v: Vm) {
    && (forall k :: 0 <= k < |v.modules| ==> Balanced(v.modules[k]))
    && v.idleBytes == PhysicalSum(v.modules) && v.idleBytes <= MAX_PHYSICAL_BYTES
  }

  lemma {:induction false} PhysicalUpdate(modules: seq<Module>, k: nat, m: Module)
    requires k < |modules|
    ensures PhysicalSum(modules[k := m]) == PhysicalSum(modules) - modules[k].physicalBytes + m.physicalBytes
    decreases |modules|
  {
    var n := |modules| - 1;
    if k < n {
      PhysicalUpdate(modules[..n], k, m);
      assert modules[k := m][..n] == modules[..n][k := m];
    } else {
      assert modules[k := m][..n] == modules[..n];
    }
  }

  lemma {:induction false} EmptyBalances()
    ensures Balanced(EMPTY_MODULE)
  {
  }

  lemma {:induction false} StepAccounts(v: Vm, step: Step)
    requires Accounted(v)
    ensures Accounted(Next(v, step))
  {
    hide Total, Bytes;
    EmptyBalances();
    match step
    case AddModule => assert (v.modules + [EMPTY_MODULE])[..|v.modules|] == v.modules;
    case TakeFrame(k, name) =>
      if k < |v.modules| && PoolOf(v.modules[k].pools, name) != [] {
        TakeIdleBalances(v.modules[k], name);
        PhysicalUpdate(v.modules, k, TakeIdle(v.modules[k], name));
      }
    case RecycleFrame(k, name, frame, size, current) =>
      if k < |v.modules| && Sound(frame) && frame.resident && MayPool(v.modules[k], name, frame) {
        var keep := MayKeep(size, v.idleBytes, current);
        AddIdleBalances(v.modules[k], name, frame, size, keep);
        PhysicalUpdate(v.modules, k, AddIdle(v.modules[k], name, frame, size, keep));
      }
    case ReleasePayload(k) =>
      if k < |v.modules| { PhysicalUpdate(v.modules, k, DropPools(v.modules[k])); }
  }

  /** Over any run of any number of modules, releases of payloads included: every module's
      sums are exact and within their limits, the VM-wide counter is the sum of the
      modules' physical bytes, and it stays within its limit. */
  lemma {:induction false} CounterIsExact(v: Vm, steps: seq<Step>)
    requires Accounted(v)
    ensures Accounted(Run(v, steps))
    decreases |steps|
  {
    hide Next, Accounted;
    if steps != [] {
      StepAccounts(v, steps[0]);
      CounterIsExact(Next(v, steps[0]), steps[1..]);
    }
  }

  lemma {:induction false} EveryRunIsAccounted(steps: seq<Step>)
    ensures Accounted(Run(Vm([], 0), steps))
  {
    hide Next;
    CounterIsExact(Vm([], 0), steps);
  }

  /** A frame counts for its node and a slot for each place it has, or had before it lost them. */
  lemma {:induction false} CountsItsSlots(f: Frame)
    requires Sound(f)
    ensures var c := if f.resident then f.buffers else f.ledger;
      LogicalBytes(f) == 128 + 16 * (c.locals + c.upvalues + c.stack + c.popped + c.returned + c.defers)
  {
  }

  /** A new module has nothing in its pools and changes no count. */
  lemma {:induction false} ModuleJoins(v: Vm)
    ensures Next(v, AddModule) == Vm(v.modules + [EMPTY_MODULE], v.idleBytes) && EMPTY_MODULE.physicalBytes == 0
  {
  }
}
