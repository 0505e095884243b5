/** Frames taken from a pool against frames allocated anew: `newFrame`, `recycle` and
    `capture` of `runtime/frame.go`, the local-variable cases of
    `runtime/instruction.go`, and the escape marking of `runtime/loader.go`.

    A slot is named by its address: a place in some frame's local storage, or on the heap.
    Guest code sees slots only through its locals and through what it captured. */
module FrameReuse {
  import opened Options

  type Value(==,0,!new)
  datatype Content = Uninitialized | Holds(value: Value)

  datatype Address = Storage(frame: nat, index: nat) | Heap(number: nat)

  // ----- escape marking ---------------------------------------------------------------------------

  /** The instructions that can take hold of a local slot. */
  datatype Instruction = AddressOf(local: nat) | MakeClosure(captures: seq<nat>) | Other

  predicate Captures(inst: Instruction, i: nat) {
    (inst.AddressOf? && inst.local == i) || (inst.MakeClosure? && i in inst.captures)
  }

  predicate Captured(code: seq<Instruction>, i: nat) { exists k :: 0 <= k < |code| && Captures(code[k], i) }

  /** A local is marked exactly if some instruction of the function can capture it. */
  function Marks(code: seq<Instruction>, locals: nat): (marks: seq<bool>)
    ensures |marks| == locals && forall i :: 0 <= i < locals ==> (marks[i] <==> Captured(code, i))
  {
    seq(locals, i requires 0 <= i < locals => Captured(code, i))
  }

  /** The marking loop of `loadValidated`; references to unknown locals mark nothing. */
  method MarkEscapes(code: seq<Instruction>, locals: nat) returns (escapes: seq<bool>)
    ensures escapes == Marks(code, locals)
  {
    escapes := seq(locals, _ => false);
    for k := 0 to |code|
      invariant |escapes| == locals
      invariant forall i :: 0 <= i < locals ==> (escapes[i] <==> Captured(code[..k], i))
    {
      assert code[..k + 1] == code[..k] + [code[k]];
      ghost var before := escapes;
      match code[k]
      case AddressOf(local) =>
        if local < locals { escapes := escapes[local := true]; }
      case MakeClosure(captures) =>
        for j := 0 to |captures|
          invariant |escapes| == locals
          invariant forall i :: 0 <= i < locals ==> (escapes[i] <==> before[i] || i in captures[..j])
        {
          assert captures[..j + 1] == captures[..j] + [captures[j]];
          if captures[j] < locals { escapes := escapes[captures[j] := true]; }
        }
        assert captures[..|captures|] == captures;
      case Other =>
      forall i | 0 <= i < locals ensures escapes[i] <==> Captured(code[..k + 1], i) { CapturedMore(code[..k], code[k], i); }
    }
    assert code[..|code|] == code;
  }

  lemma {:induction false} CapturedMore(code: seq<Instruction>, inst: Instruction, i: nat)
    ensures Captured(code + [inst], i) <==> Captured(code, i) || Captures(inst, i)
  {
    var more := code + [inst];
    assert more[|code|] == inst;
    forall k | 0 <= k < |code| ensures more[k] == code[k] {}
  }

  // ----- machines ------------------------------------------------------------------------------------

  /** A function as written: its instructions and how many locals it has. */
  datatype Function = Function(code: seq<Instruction>, locals: nat)

  /** A running call: its code, the escape marks it was loaded with, the frame it uses and
      the slots of its locals. */
  datatype Call = Call(code: seq<Instruction>, escapes: seq<bool>, frame: nat, cells: seq<Address>)

  /** `idle` are the pooled frames that kept their storage; a pooled frame that lost it, and
      a new frame, get storage nobody has used.  `captured` are the slots held by closures
      and pointers, `seen` the values the guest has loaded. */
  datatype Machine = Machine(
    calls: seq<Option<Call>>, memory: map<Address, Content>, buffers: map<nat, Buffers>, captured: seq<Address>, idle: set<nat>,
    nextFrame: nat, nextSlot: nat, seen: seq<Content>)

  const START := Machine([], map[], map[], [], {}, 0, 0, [])

  /** What a frame holds besides its slots: operand stack, popped values, return values,
      deferred calls and map iterators. */
  datatype Buffers = Buffers(
    stack: seq<Value>, popped: seq<Value>, returned: seq<Value>, defers: seq<Value>, iterators: map<Value, Value>)

  const EMPTY := Buffers([], [], [], [], map[])

  function BuffersOf(m: Machine, frame: nat): Buffers { if frame in m.buffers then m.buffers[frame] else EMPTY }

  /** Any instruction on the frame's buffers: what they become and what the guest sees. */
  type Work = Buffers -> (Buffers, seq<Content>)

  /** How the guest reaches a slot. */
  datatype Ref = Local(call: nat, index: nat) | Handle(number: nat)

  predicate Known(m: Machine, r: Ref) {
    match r
    case Local(c, i) => c < |m.calls| && m.calls[c].Some? && i < |m.calls[c].value.cells|
    case Handle(j) => j < |m.captured|
  }

  function Slot(m: Machine, r: Ref): Address
    requires Known(m, r)
  {
    match r
    case Local(c, i) => m.calls[c].value.cells[i]
    case Handle(j) => m.captured[j]
  }

  function Read(m: Machine, a: Address): Content { if a in m.memory then m.memory[a] else Uninitialized }

  datatype Step =
    | Enter(function_: Function, arguments: seq<Value>)
    | Leave(call: nat)
    | Load(ref: Ref)
    | Store(ref: Ref, value: Value)
    | Rebind(call: nat, index: nat, value: Value)
    | Capture(call: nat, pc: nat, index: nat)
    | Recapture(handle: nat)
    | Operate(call: nat, work: Work)

  /** What the pool does: hand out an idle frame, and keep a returned one or not. */
  datatype Choice = Choice(take: Option<nat>, keep: bool)

  function Locals(frame: nat, count: nat): (cells: seq<Address>)
    ensures |cells| == count && forall i :: 0 <= i < count ==> cells[i] == Storage(frame, i)
  {
    seq(count, i requires 0 <= i < count => Storage(frame, i))
  }

  /** Arguments are stored into the first slots; others keep what the frame holds. */
  function Arguments(memory: map<Address, Content>, frame: nat, arguments: seq<Value>, count: nat): map<Address, Content>
    requires count <= |arguments|
  {
    if count == 0 then memory
    else Arguments(memory, frame, arguments, count - 1)[Storage(frame, count - 1) := Holds(arguments[count - 1])]
  }

  function Passed(arguments: seq<Value>, locals: nat): nat { if |arguments| < locals then |arguments| else locals }

  /** `newFrame` empties only the operand stack and the deferred calls. */
  function EnterStep(m: Machine, code: seq<Instruction>, escapes: seq<bool>, arguments: seq<Value>, take: Option<nat>): Machine {
    var reuse := take.Some? && take.value in m.idle;
    var frame := if reuse then take.value else m.nextFrame;
    m.(calls := m.calls + [Some(Call(code, escapes, frame, Locals(frame, |escapes|)))],
       memory := Arguments(m.memory, frame, arguments, Passed(arguments, |escapes|)),
       buffers := m.buffers[frame := BuffersOf(m, frame).(stack := [], defers := [])],
       idle := m.idle - {frame}, nextFrame := if reuse then m.nextFrame else m.nextFrame + 1)
  }

  /** `recycle` clears the frame's own storage and buffers before the frame can be pooled. */
  function LeaveStep(m: Machine, c: nat, keep: bool): Machine {
    if c >= |m.calls| || m.calls[c].None? then m
    else
      var frame := m.calls[c].value.frame;
      m.(calls := m.calls[c := None],
         memory := map a | a in m.memory && !(a.Storage? && a.frame == frame) :: m.memory[a],
         buffers := m.buffers[frame := EMPTY],
         idle := if keep then m.idle + {frame} else m.idle)
  }

  function OperateStep(m: Machine, c: nat, work: Work): Machine {
    if c >= |m.calls| || m.calls[c].None? then m
    else
      var frame := m.calls[c].value.frame;
      var (after, shown) := work(BuffersOf(m, frame));
      m.(buffers := m.buffers[frame := after], seen := m.seen + shown)
  }

  function StoreStep(m: Machine, r: Ref, value: Value): Machine {
    if Known(m, r) then m.(memory := m.memory[Slot(m, r) := Holds(value)]) else m
  }

  function SetCell(m: Machine, c: nat, i: nat, a: Address): Machine
    requires Known(m, Local(c, i))
  {
    var call := m.calls[c].value;
    m.(calls := m.calls[c := Some(call.(cells := call.cells[i := a]))])
  }

  predicate Escapes(m: Machine, c: nat, i: nat)
    requires Known(m, Local(c, i))
  {
    i < |m.calls[c].value.escapes| && m.calls[c].value.escapes[i]
  }

  /** A declaration executed again: a detached slot is replaced, any other overwritten. */
  function RebindStep(m: Machine, c: nat, i: nat, value: Value): Machine {
    if !Known(m, Local(c, i)) then m
    else if Escapes(m, c, i) && !Slot(m, Local(c, i)).Storage? then
      var a := Heap(m.nextSlot);
      SetCell(m, c, i, a).(memory := m.memory[a := Holds(value)], nextSlot := m.nextSlot + 1)
    else StoreStep(m, Local(c, i), value)
  }

  /** `capture`: a marked slot is moved out of the frame first, any other is handed out
      as it is. */
  function CaptureStep(m: Machine, c: nat, i: nat): Machine {
    if !Known(m, Local(c, i)) then m
    else if Escapes(m, c, i) && Slot(m, Local(c, i)).Storage? then
      var a := Heap(m.nextSlot);
      SetCell(m, c, i, a).(
        memory := m.memory[a := Read(m, Slot(m, Local(c, i)))], nextSlot := m.nextSlot + 1, captured := m.captured + [a])
    else m.(captured := m.captured + [Slot(m, Local(c, i))])
  }

  /** A call captures only by executing an instruction of its own code. */
  predicate Executes(m: Machine, c: nat, pc: nat, i: nat) {
    c < |m.calls| && m.calls[c].Some? && pc < |m.calls[c].value.code| && Captures(m.calls[c].value.code[pc], i)
  }

  /** Entering a function uses the marks its loader computed from its code. */
  function Next(m: Machine, step: Step, choice: Choice): Machine {
    match step
    case Enter(f, arguments) => EnterStep(m, f.code, Marks(f.code, f.locals), arguments, choice.take)
    case Leave(c) => LeaveStep(m, c, choice.keep)
    case Load(r) => if Known(m, r) then m.(seen := m.seen + [Read(m, Slot(m, r))]) else m
    case Store(r, value) => StoreStep(m, r, value)
    case Rebind(c, i, value) => RebindStep(m, c, i, value)
    case Capture(c, pc, i) => if Executes(m, c, pc, i) then CaptureStep(m, c, i) else m
    case Recapture(j) => if j < |m.captured| then m.(captured := m.captured + [m.captured[j]]) else m
    case Operate(c, work) => OperateStep(m, c, work)
  }

  const NO_POOL := Choice(None, false)

  function Run(m: Machine, steps: seq<Step>, choices: seq<Choice>): Machine
    requires |choices| == |steps|
    decreases |steps|
  {
    if steps == [] then m else Run(Next(m, steps[0], choices[0]), steps[1..], choices[1..])
  }

  // ----- what every machine keeps ------------------------------------------------------------------

  ghost predicate CallOk(m: Machine, c: nat)
    requires c < |m.calls| && m.calls[c].Some?
  {
    var call := m.calls[c].value;
    && call.frame < m.nextFrame && call.frame !in m.idle && call.escapes == Marks(call.code, |call.cells|)
    && (forall i :: 0 <= i < |call.cells| ==>
          call.cells[i] == Storage(call.frame, i) || (call.escapes[i] && call.cells[i].Heap? && call.cells[i].number < m.nextSlot))
    && (forall d :: 0 <= d < |m.calls| && d != c && m.calls[d].Some? ==> m.calls[d].value.frame != call.frame)
  }

  /** Frames belong to one call or lie idle with nothing in their storage and buffers, and no
      captured slot is part of a frame. */
  ghost predicate Ok(m: Machine) {
    && (forall c :: 0 <= c < |m.calls| && m.calls[c].Some? ==> CallOk(m, c))
    && (forall f :: f in m.idle ==> f < m.nextFrame)
    && (forall f :: f in m.idle || f >= m.nextFrame ==> BuffersOf(m, f) == EMPTY)
    && (forall j :: 0 <= j < |m.captured| ==> m.captured[j].Heap? && m.captured[j].number < m.nextSlot)
    && (forall a :: a in m.memory ==>
          if a.Storage? then a.frame < m.nextFrame && a.frame !in m.idle else a.number < m.nextSlot)
  }

  lemma {:induction false} ArgumentsAt(memory: map<Address, Content>, frame: nat, arguments: seq<Value>, count: nat, a: Address)
    requires count <= |arguments|
    ensures var after := Arguments(memory, frame, arguments, count);
      if a.Storage? && a.frame == frame && a.index < count then a in after && after[a] == Holds(arguments[a.index])
      else (a in after <==> a in memory) && (a in memory ==> after[a] == memory[a])
  {
    if count > 0 { ArgumentsAt(memory, frame, arguments, count - 1, a); }
  }

  function FrameTaken(m: Machine, take: Option<nat>): nat { if take.Some? && take.value in m.idle then take.value else m.nextFrame }

  lemma {:induction false} EnterKeepsOk(m: Machine, f: Function, arguments: seq<Value>, take: Option<nat>)
    requires Ok(m)
    ensures Ok(EnterStep(m, f.code, Marks(f.code, f.locals), arguments, take))
  {
    var escapes := Marks(f.code, f.locals);
    var n := EnterStep(m, f.code, escapes, arguments, take);
    var frame := FrameTaken(m, take);
    hide Arguments, Marks;
    forall a | a in n.memory ensures if a.Storage? then a.frame < n.nextFrame && a.frame !in n.idle else a.number < n.nextSlot {
      ArgumentsAt(m.memory, frame, arguments, Passed(arguments, |escapes|), a);
    }
    forall c | 0 <= c < |n.calls| && n.calls[c].Some? ensures CallOk(n, c) {
      if c < |m.calls| { assert CallOk(m, c); }
      forall d | 0 <= d < |m.calls| && m.calls[d].Some? ensures m.calls[d].value.frame != frame { assert CallOk(m, d); }
    }
    forall g | g in n.idle || g >= n.nextFrame ensures BuffersOf(n, g) == EMPTY { assert BuffersOf(m, g) == EMPTY; }
  }

  lemma {:induction false} LeaveKeepsOk(m: Machine, c: nat, keep: bool)
    requires Ok(m)
    ensures Ok(LeaveStep(m, c, keep))
  {
    var n := LeaveStep(m, c, keep);
    if n != m {
      assert CallOk(m, c);
      forall d | 0 <= d < |n.calls| && n.calls[d].Some? ensures CallOk(n, d) { assert CallOk(m, d); }
      forall g | g in n.idle || g >= n.nextFrame ensures BuffersOf(n, g) == EMPTY {
        if g != m.calls[c].value.frame { assert BuffersOf(m, g) == EMPTY; }
      }
    }
  }

  lemma {:induction false} OperateKeepsOk(m: Machine, c: nat, work: Work)
    requires Ok(m)
    ensures Ok(OperateStep(m, c, work))
  {
    var n := OperateStep(m, c, work);
    if n != m {
      assert CallOk(m, c);
      forall d | 0 <= d < |n.calls| && n.calls[d].Some? ensures CallOk(n, d) { assert CallOk(m, d); }
      forall g | g in n.idle || g >= n.nextFrame ensures BuffersOf(n, g) == EMPTY {
        if g != m.calls[c].value.frame { assert BuffersOf(m, g) == EMPTY; }
      }
    }
  }

  lemma {:induction false} StoreKeepsOk(m: Machine, r: Ref, value: Value)
    requires Ok(m)
    ensures Ok(StoreStep(m, r, value))
  {
    var n := StoreStep(m, r, value);
    if Known(m, r) {
      if r.Local? { assert CallOk(m, r.call); }
      forall c | 0 <= c < |n.calls| && n.calls[c].Some? ensures CallOk(n, c) { assert CallOk(m, c); }
      assert forall f :: BuffersOf(n, f) == BuffersOf(m, f);
    }
  }

  /** A fresh heap slot takes the place of a marked local. */
  function Moved(m: Machine, c: nat, i: nat, content: Content): Machine
    requires Known(m, Local(c, i))
  {
    SetCell(m, c, i, Heap(m.nextSlot)).(memory := m.memory[Heap(m.nextSlot) := content], nextSlot := m.nextSlot + 1)
  }

  lemma {:induction false} MovedKeepsOk(m: Machine, c: nat, i: nat, content: Content)
    requires Ok(m) && Known(m, Local(c, i)) && Escapes(m, c, i)
    ensures Ok(Moved(m, c, i, content))
  {
    var n := Moved(m, c, i, content);
    assert CallOk(m, c);
    forall d | 0 <= d < |n.calls| && n.calls[d].Some? ensures CallOk(n, d) { assert CallOk(m, d); }
    assert forall f :: BuffersOf(n, f) == BuffersOf(m, f);
  }

  lemma {:induction false} StepKeepsOk(m: Machine, step: Step, choice: Choice)
    requires Ok(m)
    ensures Ok(Next(m, step, choice))
  {
    match step
    case Enter(f, arguments) => hide Ok; EnterKeepsOk(m, f, arguments, choice.take);
    case Leave(c) => hide Ok; LeaveKeepsOk(m, c, choice.keep);
    case Store(r, value) => hide Ok; StoreKeepsOk(m, r, value);
    case Rebind(c, i, value) =>
      hide Ok;
      StoreKeepsOk(m, Local(c, i), value);
      if Known(m, Local(c, i)) && Escapes(m, c, i) { MovedKeepsOk(m, c, i, Holds(value)); }
    case Capture(c, pc, i) => if Executes(m, c, pc, i) { CaptureKeepsOk(m, c, pc, i); }
    case Operate(c, work) => hide Ok; OperateKeepsOk(m, c, work);
    case _ => SeenKeepsOk(m, Next(m, step, choice));
  }

  lemma {:induction false} SeenKeepsOk(m: Machine, n: Machine)
    requires Ok(m) && n == m.(seen := n.seen, captured := n.captured)
    requires forall j :: 0 <= j < |n.captured| ==> n.captured[j].Heap? && n.captured[j].number < m.nextSlot
    ensures Ok(n)
  {
    forall d | 0 <= d < |n.calls| && n.calls[d].Some? ensures CallOk(n, d) { assert CallOk(m, d); }
    assert forall f :: BuffersOf(n, f) == BuffersOf(m, f);
  }

  /** An instruction of the code captures the local, so the loader has marked it. */
  lemma {:induction false} ExecutedIsMarked(m: Machine, c: nat, pc: nat, i: nat)
    requires Ok(m) && Executes(m, c, pc, i) && Known(m, Local(c, i))
    ensures Escapes(m, c, i)
  {
    assert CallOk(m, c);
    assert Captured(m.calls[c].value.code, i);
  }

  lemma {:induction false} CaptureKeepsOk(m: Machine, c: nat, pc: nat, i: nat)
    requires Ok(m) && Executes(m, c, pc, i)
    ensures Ok(CaptureStep(m, c, i))
  {
    if Known(m, Local(c, i)) {
      ExecutedIsMarked(m, c, pc, i);
      assert CallOk(m, c);
      if Slot(m, Local(c, i)).Storage? {
        var n := Moved(m, c, i, Read(m, Slot(m, Local(c, i))));
        MovedKeepsOk(m, c, i, Read(m, Slot(m, Local(c, i))));
        SeenKeepsOk(n, CaptureStep(m, c, i));
      } else {
        SeenKeepsOk(m, CaptureStep(m, c, i));
      }
    }
  }

  // ----- the machine without frames -------------------------------------------------------------------

  /** What a guest is entitled to: every local is a cell of its own, a declaration executed again
      makes a new one, and a capture holds on to the present one.  There are no frames, no pool
      and no marks. */
  datatype Activation = Activation(code: seq<Instruction>, cells: seq<nat>, buffers: Buffers)

  datatype Reference = Reference(
    calls: seq<Option<Activation>>, heap: map<nat, Content>, captured: seq<nat>, nextCell: nat, seen: seq<Content>)

  const START_REFERENCE := Reference([], map[], [], 0, [])

  predicate Names(q: Reference, r: Ref) {
    match r
    case Local(c, i) => c < |q.calls| && q.calls[c].Some? && i < |q.calls[c].value.cells|
    case Handle(j) => j < |q.captured|
  }

  function Cell(q: Reference, r: Ref): nat
    requires Names(q, r)
  {
    match r
    case Local(c, i) => q.calls[c].value.cells[i]
    case Handle(j) => q.captured[j]
  }

  function ReadCell(q: Reference, cell: nat): Content { if cell in q.heap then q.heap[cell] else Uninitialized }

  function NewCells(q: Reference, count: nat): (cells: seq<nat>)
    ensures |cells| == count && forall i :: 0 <= i < count ==> cells[i] == q.nextCell + i
  {
    if count == 0 then [] else NewCells(q, count - 1) + [q.nextCell + (count - 1)]
  }

  function RefEnter(q: Reference, f: Function, arguments: seq<Value>): Reference {
    q.(calls := q.calls + [Some(Activation(f.code, NewCells(q, f.locals), EMPTY))],
       heap := q.heap + map a | a in NewCells(q, Passed(arguments, f.locals)) :: Holds(arguments[a - q.nextCell]),
       nextCell := q.nextCell + f.locals)
  }

  function RefLeave(q: Reference, c: nat): Reference {
    if c < |q.calls| then q.(calls := q.calls[c := None]) else q
  }

  function RefStore(q: Reference, r: Ref, value: Value): Reference {
    if Names(q, r) then q.(heap := q.heap[Cell(q, r) := Holds(value)]) else q
  }

  function RefRebind(q: Reference, c: nat, i: nat, value: Value): Reference {
    if !Names(q, Local(c, i)) then q
    else
      var call := q.calls[c].value;
      q.(calls := q.calls[c := Some(call.(cells := call.cells[i := q.nextCell]))],
         heap := q.heap[q.nextCell := Holds(value)], nextCell := q.nextCell + 1)
  }

  function RefHeld(q: Reference, r: Ref): Reference {
    if Names(q, r) then q.(captured := q.captured + [Cell(q, r)]) else q
  }

  predicate RefExecutes(q: Reference, c: nat, pc: nat, i: nat) {
    c < |q.calls| && q.calls[c].Some? && pc < |q.calls[c].value.code| && Captures(q.calls[c].value.code[pc], i)
  }

  function RefOperate(q: Reference, c: nat, work: Work): Reference {
    if c >= |q.calls| || q.calls[c].None? then q
    else
      var (after, shown) := work(q.calls[c].value.buffers);
      q.(calls := q.calls[c := Some(q.calls[c].value.(buffers := after))], seen := q.seen + shown)
  }

  function RefNext(q: Reference, step: Step): Reference {
    match step
    case Enter(f, arguments) => RefEnter(q, f, arguments)
    case Leave(c) => RefLeave(q, c)
    case Load(r) => if Names(q, r) then q.(seen := q.seen + [ReadCell(q, Cell(q, r))]) else q
    case Store(r, value) => RefStore(q, r, value)
    case Rebind(c, i, value) => RefRebind(q, c, i, value)
    case Capture(c, pc, i) => if RefExecutes(q, c, pc, i) then RefHeld(q, Local(c, i)) else q
    case Recapture(j) => RefHeld(q, Handle(j))
    case Operate(c, work) => RefOperate(q, c, work)
  }

  function RefRun(q: Reference, steps: seq<Step>): Reference
    decreases |steps|
  {
    if steps == [] then q else RefRun(RefNext(q, steps[0]), steps[1..])
  }

  /** Cells in use are no newer than the next one. */
  ghost predicate RefOk(q: Reference) {
    && (forall r :: Names(q, r) ==> Cell(q, r) < q.nextCell)
    && (forall a :: a in q.heap ==> a < q.nextCell)
  }

  // ----- what the guest can tell apart --------------------------------------------------------------

  ghost predicate RefAlike(p: Machine, q: Reference, r: Ref) {
    && (Known(p, r) <==> Names(q, r))
    && (Known(p, r) && Names(q, r) ==> Read(p, Slot(p, r)) == ReadCell(q, Cell(q, r)))
  }

  ghost predicate PairAlike(p: Machine, q: Reference, r: Ref, s: Ref) {
    Known(p, r) && Names(q, r) && Known(p, s) && Names(q, s) ==> (Slot(p, r) == Slot(p, s) <==> Cell(q, r) == Cell(q, s))
  }

  predicate Active(m: Machine, c: nat) { c < |m.calls| && m.calls[c].Some? }

  ghost predicate SameCall(p: Machine, q: Reference, c: nat) {
    (c < |p.calls| <==> c < |q.calls|) && (Active(p, c) <==> c < |q.calls| && q.calls[c].Some?)
    && (Active(p, c) ==>
         p.calls[c].value.code == q.calls[c].value.code && BuffersOf(p, p.calls[c].value.frame) == q.calls[c].value.buffers)
  }

  /** The same calls and captures, whose references hold the same values and share cells in the
      same way, whatever frames are used. */
  ghost predicate Alike(p: Machine, q: Reference) {
    && |p.calls| == |q.calls| && |p.captured| == |q.captured| && p.seen == q.seen
    && (forall c :: SameCall(p, q, c)) && (forall r :: RefAlike(p, q, r)) && (forall r, s :: PairAlike(p, q, r, s))
  }

  lemma {:induction false} SlotPlace(m: Machine, r: Ref)
    requires Ok(m) && Known(m, r)
    ensures Slot(m, r).Heap? ==> Slot(m, r).number < m.nextSlot
    ensures Slot(m, r).Storage? ==>
      r.Local? && Slot(m, r) == Storage(m.calls[r.call].value.frame, r.index)
      && Slot(m, r).frame < m.nextFrame && Slot(m, r).frame !in m.idle
  {
    if r.Local? { assert CallOk(m, r.call); }
  }

  /** Nothing else refers to a slot that is still in its frame. */
  lemma {:induction false} StorageAlone(m: Machine, at: Ref, r: Ref)
    requires Ok(m) && Known(m, at) && Known(m, r) && Slot(m, at).Storage? && Slot(m, r) == Slot(m, at)
    ensures r == at
  {
    SlotPlace(m, at);
    SlotPlace(m, r);
    assert CallOk(m, at.call) && CallOk(m, r.call);
  }

  // ----- entering a call: a recycled frame is as good as new cells -------------------------------------

  function Initial(arguments: seq<Value>, locals: nat, i: nat): Content {
    if i < Passed(arguments, locals) then Holds(arguments[i]) else Uninitialized
  }

  ghost predicate IsNew(m: Machine, escapes: seq<bool>, r: Ref) { r.Local? && r.call == |m.calls| && r.index < |escapes| }

  lemma {:induction false} EnterEffect(m: Machine, code: seq<Instruction>, escapes: seq<bool>, arguments: seq<Value>, take: Option<nat>, r: Ref)
    requires Ok(m)
    ensures var n, frame := EnterStep(m, code, escapes, arguments, take), FrameTaken(m, take);
      && (Known(n, r) <==> Known(m, r) || IsNew(m, escapes, r))
      && (Known(m, r) ==> Slot(n, r) == Slot(m, r) && Read(n, Slot(n, r)) == Read(m, Slot(m, r))
                          && !(Slot(m, r).Storage? && Slot(m, r).frame == frame))
      && (IsNew(m, escapes, r) ==> Slot(n, r) == Storage(frame, r.index)
                                   && Read(n, Slot(n, r)) == Initial(arguments, |escapes|, r.index))
  {
    hide Arguments;
    var frame := FrameTaken(m, take);
    var count := Passed(arguments, |escapes|);
    if Known(m, r) {
      SlotPlace(m, r);
      ArgumentsAt(m.memory, frame, arguments, count, Slot(m, r));
    } else if IsNew(m, escapes, r) {
      ArgumentsAt(m.memory, frame, arguments, count, Storage(frame, r.index));
      assert Storage(frame, r.index) !in m.memory;
    }
  }

  lemma {:induction false} RefEnterEffect(q: Reference, f: Function, arguments: seq<Value>, r: Ref)
    requires RefOk(q)
    ensures var n := RefEnter(q, f, arguments);
      && (Names(n, r) <==> Names(q, r) || (r.Local? && r.call == |q.calls| && r.index < f.locals))
      && (Names(q, r) ==> Cell(n, r) == Cell(q, r) < q.nextCell && ReadCell(n, Cell(n, r)) == ReadCell(q, Cell(q, r)))
      && (Names(n, r) && !Names(q, r) ==>
           Cell(n, r) == q.nextCell + r.index && ReadCell(n, Cell(n, r)) == Initial(arguments, f.locals, r.index))
  {
    var passed := NewCells(q, Passed(arguments, f.locals));
    if r.Local? && r.call == |q.calls| && r.index < |passed| { assert passed[r.index] in passed; }
  }

  lemma {:induction false} EnterAlike(p: Machine, q: Reference, f: Function, arguments: seq<Value>, take: Option<nat>)
    requires Ok(p) && RefOk(q) && Alike(p, q)
    ensures Alike(EnterStep(p, f.code, Marks(f.code, f.locals), arguments, take), RefEnter(q, f, arguments))
    ensures RefOk(RefEnter(q, f, arguments))
  {
    var escapes := Marks(f.code, f.locals);
    var x, y := EnterStep(p, f.code, escapes, arguments, take), RefEnter(q, f, arguments);
    forall c ensures SameCall(x, y, c) {
      assert SameCall(p, q, c);
      if Active(p, c) { assert CallOk(p, c); }
    }
    hide Marks;
    forall r ensures RefAlike(x, y, r) && (Names(y, r) ==> Cell(y, r) < y.nextCell) {
      assert RefAlike(p, q, r);
      EnterEffect(p, f.code, escapes, arguments, take, r);
      RefEnterEffect(q, f, arguments, r);
      hide EnterStep, RefEnter, Slot, Known, Read, Names, Cell, ReadCell;
    }
    forall r, s ensures PairAlike(x, y, r, s) {
      assert PairAlike(p, q, r, s) && RefAlike(p, q, r) && RefAlike(p, q, s);
      EnterEffect(p, f.code, escapes, arguments, take, r);
      EnterEffect(p, f.code, escapes, arguments, take, s);
      RefEnterEffect(q, f, arguments, r);
      RefEnterEffect(q, f, arguments, s);
      hide EnterStep, RefEnter, Slot, Known, Read, Names, Cell, ReadCell;
    }
  }

  // ----- leaving ----------------------------------------------------------------------------------------

  lemma {:induction false} LeaveEffect(m: Machine, c: nat, keep: bool, r: Ref)
    requires Ok(m) && c < |m.calls| && m.calls[c].Some?
    ensures var n := LeaveStep(m, c, keep);
      && (Known(n, r) <==> Known(m, r) && !(r.Local? && r.call == c))
      && (Known(n, r) ==> Slot(n, r) == Slot(m, r) && Read(n, Slot(n, r)) == Read(m, Slot(m, r)))
  {
    if Known(m, r) && !(r.Local? && r.call == c) {
      SlotPlace(m, r);
      assert CallOk(m, c);
    }
  }

  lemma {:induction false} RefLeaveEffect(q: Reference, c: nat, r: Ref)
    requires c < |q.calls|
    ensures var n := RefLeave(q, c);
      && (Names(n, r) <==> Names(q, r) && !(r.Local? && r.call == c))
      && (Names(n, r) ==> Cell(n, r) == Cell(q, r))
  {
  }

  lemma {:induction false} LeaveAlike(p: Machine, q: Reference, c: nat, keep: bool)
    requires Ok(p) && RefOk(q) && Alike(p, q)
    ensures Alike(LeaveStep(p, c, keep), RefLeave(q, c)) && RefOk(RefLeave(q, c))
  {
    var x, y := LeaveStep(p, c, keep), RefLeave(q, c);
    assert SameCall(p, q, c);
    if Active(p, c) {
      forall d ensures SameCall(x, y, d) {
        assert SameCall(p, q, d) && CallOk(p, c);
        if Active(p, d) { assert CallOk(p, d); }
      }
      forall r ensures RefAlike(x, y, r) && (Names(y, r) ==> Cell(y, r) < y.nextCell) {
        assert RefAlike(p, q, r);
        LeaveEffect(p, c, keep, r);
        RefLeaveEffect(q, c, r);
        hide LeaveStep, Slot, Known, Read, Names, Cell;
      }
      forall r, s ensures PairAlike(x, y, r, s) {
        assert PairAlike(p, q, r, s) && RefAlike(p, q, r) && RefAlike(p, q, s);
        LeaveEffect(p, c, keep, r);
        LeaveEffect(p, c, keep, s);
        RefLeaveEffect(q, c, r);
        RefLeaveEffect(q, c, s);
        hide LeaveStep, RefLeave, Slot, Known, Read, Names, Cell;
      }
    } else {
      assert c < |q.calls| ==> q.calls[c := None] == q.calls;
    }
  }

  // ----- storing ---------------------------------------------------------------------------------------

  lemma {:induction false} StoreAlike(p: Machine, q: Reference, at: Ref, value: Value)
    requires RefOk(q) && Alike(p, q)
    ensures Alike(StoreStep(p, at, value), RefStore(q, at, value)) && RefOk(RefStore(q, at, value))
  {
    var x, y := StoreStep(p, at, value), RefStore(q, at, value);
    assert RefAlike(p, q, at);
    if Known(p, at) {
      forall c ensures SameCall(x, y, c) { assert SameCall(p, q, c); }
      forall r ensures RefAlike(x, y, r) && (Names(y, r) ==> Cell(y, r) < y.nextCell) {
        assert RefAlike(p, q, r) && PairAlike(p, q, at, r);
        assert (Known(x, r) <==> Known(p, r)) && (Names(y, r) <==> Names(q, r));
      }
      forall r, s ensures PairAlike(x, y, r, s) {
        assert PairAlike(p, q, r, s);
        assert (Known(x, r) <==> Known(p, r)) && (Names(y, r) <==> Names(q, r));
        assert (Known(x, s) <==> Known(p, s)) && (Names(y, s) <==> Names(q, s));
      }
    }
  }

  // ----- moving a slot to the heap ------------------------------------------------------------------------

  lemma {:induction false} MovedEffect(m: Machine, c: nat, i: nat, content: Content, r: Ref)
    requires Ok(m) && Known(m, Local(c, i))
    ensures var n := Moved(m, c, i, content);
      && (Known(n, r) <==> Known(m, r))
      && (Known(m, r) && r != Local(c, i) ==>
          Slot(n, r) == Slot(m, r) && Read(n, Slot(n, r)) == Read(m, Slot(m, r)) && Slot(m, r) != Heap(m.nextSlot))
      && (r == Local(c, i) ==> Slot(n, r) == Heap(m.nextSlot) && Read(n, Slot(n, r)) == content)
  {
    if Known(m, r) && r != Local(c, i) { SlotPlace(m, r); }
  }

  lemma {:induction false} RebindEffect(q: Reference, c: nat, i: nat, value: Value, r: Ref)
    requires RefOk(q) && Names(q, Local(c, i))
    ensures var n := RefRebind(q, c, i, value);
      && (Names(n, r) <==> Names(q, r)) && n.nextCell == q.nextCell + 1
      && (Names(q, r) && r != Local(c, i) ==> Cell(n, r) == Cell(q, r) < q.nextCell && ReadCell(n, Cell(n, r)) == ReadCell(q, Cell(q, r)))
      && (r == Local(c, i) ==> Cell(n, r) == q.nextCell && ReadCell(n, Cell(n, r)) == Holds(value))
  {
  }

  /** A slot that nothing else refers to may move without a trace. */
  lemma {:induction false} MovedAlike(p: Machine, q: Reference, c: nat, i: nat)
    requires Ok(p) && Alike(p, q) && Known(p, Local(c, i)) && Slot(p, Local(c, i)).Storage?
    ensures Alike(Moved(p, c, i, Read(p, Slot(p, Local(c, i)))), q)
  {
    var content := Read(p, Slot(p, Local(c, i)));
    var x := Moved(p, c, i, content);
    forall d ensures SameCall(x, q, d) { assert SameCall(p, q, d); }
    forall r ensures RefAlike(x, q, r) {
      assert RefAlike(p, q, r);
      MovedEffect(p, c, i, content, r);
      hide Moved, Slot, Known, Read, Names, Cell;
    }
    forall r, s ensures PairAlike(x, q, r, s) {
      assert PairAlike(p, q, r, s) && RefAlike(p, q, r) && RefAlike(p, q, s);
      MovedEffect(p, c, i, content, r);
      MovedEffect(p, c, i, content, s);
      if Known(p, r) && Slot(p, r) == Slot(p, Local(c, i)) { StorageAlone(p, Local(c, i), r); }
      if Known(p, s) && Slot(p, s) == Slot(p, Local(c, i)) { StorageAlone(p, Local(c, i), s); }
      hide Moved, Slot, Known, Read, Names, Cell;
    }
  }

  /** A new slot for a declaration executed again. */
  lemma {:induction false} ReplacedAlike(p: Machine, q: Reference, c: nat, i: nat, value: Value)
    requires Ok(p) && RefOk(q) && Alike(p, q) && Known(p, Local(c, i)) && Names(q, Local(c, i))
    ensures Alike(Moved(p, c, i, Holds(value)), RefRebind(q, c, i, value))
  {
    var x, y := Moved(p, c, i, Holds(value)), RefRebind(q, c, i, value);
    forall d ensures SameCall(x, y, d) { assert SameCall(p, q, d); }
    forall r ensures RefAlike(x, y, r) {
      assert RefAlike(p, q, r);
      MovedEffect(p, c, i, Holds(value), r);
      RebindEffect(q, c, i, value, r);
      hide Moved, RefRebind, Slot, Known, Read, Names, Cell, ReadCell;
    }
    forall r, s ensures PairAlike(x, y, r, s) {
      assert PairAlike(p, q, r, s) && RefAlike(p, q, r) && RefAlike(p, q, s);
      MovedEffect(p, c, i, Holds(value), r);
      MovedEffect(p, c, i, Holds(value), s);
      RebindEffect(q, c, i, value, r);
      RebindEffect(q, c, i, value, s);
      hide Moved, RefRebind, Slot, Known, Read, Names, Cell, ReadCell;
    }
  }

  lemma {:induction false} StoreEffect(m: Machine, at: Ref, value: Value, r: Ref)
    requires Ok(m) && Known(m, at) && Slot(m, at).Storage?
    ensures var n := StoreStep(m, at, value);
      && (Known(n, r) <==> Known(m, r))
      && (Known(m, r) ==> Slot(n, r) == Slot(m, r))
      && (Known(m, r) ==> Read(n, Slot(n, r)) == if r == at then Holds(value) else Read(m, Slot(m, r)))
  {
    if Known(m, r) && Slot(m, r) == Slot(m, at) { StorageAlone(m, at, r); }
  }

  /** Overwriting a slot that nothing else refers to is as good as a new one. */
  lemma {:induction false} OverwrittenAlike(p: Machine, q: Reference, c: nat, i: nat, value: Value)
    requires Ok(p) && RefOk(q) && Alike(p, q) && Known(p, Local(c, i)) && Names(q, Local(c, i)) && Slot(p, Local(c, i)).Storage?
    ensures Alike(StoreStep(p, Local(c, i), value), RefRebind(q, c, i, value))
  {
    var x, y, at := StoreStep(p, Local(c, i), value), RefRebind(q, c, i, value), Local(c, i);
    forall d ensures SameCall(x, y, d) { assert SameCall(p, q, d); }
    forall r ensures RefAlike(x, y, r) {
      assert RefAlike(p, q, r);
      StoreEffect(p, at, value, r);
      RebindEffect(q, c, i, value, r);
      hide StoreStep, RefRebind, Slot, Known, Read, Names, Cell, ReadCell;
    }
    forall r, s ensures PairAlike(x, y, r, s) {
      assert PairAlike(p, q, r, s) && RefAlike(p, q, r) && RefAlike(p, q, s);
      StoreEffect(p, at, value, r);
      StoreEffect(p, at, value, s);
      RebindEffect(q, c, i, value, r);
      RebindEffect(q, c, i, value, s);
      if Known(p, r) && Slot(p, r) == Slot(p, at) { StorageAlone(p, at, r); }
      if Known(p, s) && Slot(p, s) == Slot(p, at) { StorageAlone(p, at, s); }
      hide StoreStep, RefRebind, Slot, Known, Read, Names, Cell, ReadCell;
    }
  }

  lemma {:induction false} RebindAlike(p: Machine, q: Reference, c: nat, i: nat, value: Value)
    requires Ok(p) && RefOk(q) && Alike(p, q)
    ensures Alike(RebindStep(p, c, i, value), RefRebind(q, c, i, value)) && RefOk(RefRebind(q, c, i, value))
  {
    var at := Local(c, i);
    assert RefAlike(p, q, at);
    if Known(p, at) {
      assert CallOk(p, c);
      forall r ensures Names(RefRebind(q, c, i, value), r) ==> Cell(RefRebind(q, c, i, value), r) < q.nextCell + 1 {
        RebindEffect(q, c, i, value, r);
        hide RefRebind;
      }
      if Escapes(p, c, i) && !Slot(p, at).Storage? {
        hide Alike, RefRebind;
        ReplacedAlike(p, q, c, i, value);
      } else {
        hide Alike, RefRebind;
        OverwrittenAlike(p, q, c, i, value);
      }
    }
  }

  /** A new capture of something already reachable. */
  function Held(m: Machine, r: Ref): Machine
    requires Known(m, r)
  {
    m.(captured := m.captured + [Slot(m, r)])
  }

  /** Which earlier reference a reference stands for once `r` has been captured again. */
  function Origin(m: Machine, r: Ref, x: Ref): Ref { if x == Handle(|m.captured|) then r else x }

  lemma {:induction false} HeldEffect(m: Machine, r: Ref, x: Ref)
    requires Known(m, r)
    ensures Known(Held(m, r), x) <==> Known(m, Origin(m, r, x))
    ensures Known(Held(m, r), x) ==> Slot(Held(m, r), x) == Slot(m, Origin(m, r, x))
    ensures Held(m, r).memory == m.memory
  {
  }

  lemma {:induction false} RefHeldEffect(q: Reference, r: Ref, x: Ref)
    requires Names(q, r)
    ensures var origin := if x == Handle(|q.captured|) then r else x;
      && (Names(RefHeld(q, r), x) <==> Names(q, origin))
      && (Names(q, origin) ==> Cell(RefHeld(q, r), x) == Cell(q, origin))
  {
  }

  lemma {:induction false} HeldAlike(p: Machine, q: Reference, at: Ref)
    requires RefOk(q) && Alike(p, q) && Known(p, at) && Names(q, at)
    ensures Alike(Held(p, at), RefHeld(q, at)) && RefOk(RefHeld(q, at))
  {
    var x, y := Held(p, at), RefHeld(q, at);
    forall c ensures SameCall(x, y, c) { assert SameCall(p, q, c); }
    forall r ensures RefAlike(x, y, r) && (Names(y, r) ==> Cell(y, r) < y.nextCell) {
      assert RefAlike(p, q, Origin(p, at, r));
      HeldEffect(p, at, r);
      RefHeldEffect(q, at, r);
      hide Slot, Known, Names, Cell;
    }
    forall r, s ensures PairAlike(x, y, r, s) {
      assert PairAlike(p, q, Origin(p, at, r), Origin(p, at, s));
      HeldEffect(p, at, r);
      HeldEffect(p, at, s);
      RefHeldEffect(q, at, r);
      RefHeldEffect(q, at, s);
      hide Slot, Known, Held, Names, Cell, RefHeld;
    }
  }

  lemma {:induction false} CaptureAlike(p: Machine, q: Reference, c: nat, i: nat)
    requires Ok(p) && RefOk(q) && Alike(p, q)
    ensures Alike(CaptureStep(p, c, i), RefHeld(q, Local(c, i))) && RefOk(RefHeld(q, Local(c, i)))
  {
    var at := Local(c, i);
    assert RefAlike(p, q, at);
    if Known(p, at) {
      if Escapes(p, c, i) && Slot(p, at).Storage? {
        var content := Read(p, Slot(p, at));
        MovedAlike(p, q, c, i);
        CaptureMoves(p, c, i);
        hide Alike, Moved, CaptureStep;
        HeldAlike(Moved(p, c, i, content), q, at);
      } else {
        HeldAlike(p, q, at);
        hide Alike;
      }
    }
  }

  lemma {:induction false} CaptureMoves(m: Machine, c: nat, i: nat)
    requires Ok(m) && Known(m, Local(c, i)) && Escapes(m, c, i) && Slot(m, Local(c, i)).Storage?
    ensures var n := Moved(m, c, i, Read(m, Slot(m, Local(c, i))));
      Known(n, Local(c, i)) && CaptureStep(m, c, i) == Held(n, Local(c, i))
  {
    hide Ok;
  }

  lemma {:induction false} LoadAlike(p: Machine, q: Reference, at: Ref)
    requires RefOk(q) && Alike(p, q)
    ensures Alike(Next(p, Load(at), NO_POOL), RefNext(q, Load(at))) && RefOk(RefNext(q, Load(at)))
  {
    assert RefAlike(p, q, at);
    if Known(p, at) {
      var x, y := p.(seen := p.seen + [Read(p, Slot(p, at))]), q.(seen := q.seen + [ReadCell(q, Cell(q, at))]);
      assert x.seen == y.seen;
      SeenAlike(p, q, x, y);
    }
  }

  /** What has been seen does not matter to what can be seen. */
  lemma {:induction false} SeenAlike(p: Machine, q: Reference, x: Machine, y: Reference)
    requires RefOk(q) && Alike(p, q) && x == p.(seen := x.seen) && y == q.(seen := y.seen) && x.seen == y.seen
    ensures Alike(x, y) && RefOk(y)
  {
    forall c ensures SameCall(x, y, c) { assert SameCall(p, q, c); }
    forall r ensures RefAlike(x, y, r) && (Names(y, r) ==> Cell(y, r) < y.nextCell) { assert RefAlike(p, q, r) && (Names(y, r) <==> Names(q, r)); }
    forall r, s ensures PairAlike(x, y, r, s) { assert PairAlike(p, q, r, s); }
  }

  lemma {:induction false} OperateAlike(p: Machine, q: Reference, c: nat, work: Work)
    requires Ok(p) && RefOk(q) && Alike(p, q)
    ensures Alike(OperateStep(p, c, work), RefOperate(q, c, work)) && RefOk(RefOperate(q, c, work))
  {
    var x, y := OperateStep(p, c, work), RefOperate(q, c, work);
    assert SameCall(p, q, c);
    if Active(p, c) {
      forall d ensures SameCall(x, y, d) {
        assert SameCall(p, q, d) && CallOk(p, c);
        if Active(p, d) { assert CallOk(p, d); }
      }
      OperateReaches(p, q, c, work);
      hide OperateStep, RefOperate;
      forall r ensures RefAlike(x, y, r) && (Names(y, r) ==> Cell(y, r) < y.nextCell) { assert RefAlike(p, q, r); }
      forall r, s ensures PairAlike(x, y, r, s) { assert PairAlike(p, q, r, s); }
    }
  }

  lemma {:induction false} OperateReaches(p: Machine, q: Reference, c: nat, work: Work)
    ensures var x, y := OperateStep(p, c, work), RefOperate(q, c, work);
      && (forall r :: (Known(x, r) <==> Known(p, r)) && (Names(y, r) <==> Names(q, r)))
      && (forall r :: Known(p, r) ==> Slot(x, r) == Slot(p, r))
      && (forall r :: Names(q, r) ==> Cell(y, r) == Cell(q, r))
      && x.memory == p.memory && y.heap == q.heap && y.nextCell == q.nextCell
  {
  }

  lemma {:induction false} StepAlike(p: Machine, q: Reference, step: Step, choice: Choice)
    requires Ok(p) && RefOk(q) && Alike(p, q)
    ensures Alike(Next(p, step, choice), RefNext(q, step)) && RefOk(RefNext(q, step))
  {
    match step
    case Enter(f, arguments) => hide Alike, EnterStep; EnterAlike(p, q, f, arguments, choice.take);
    case Leave(c) => hide Alike, LeaveStep; LeaveAlike(p, q, c, choice.keep);
    case Load(r) => hide Alike; LoadAlike(p, q, r);
    case Store(r, value) => hide Alike, StoreStep; StoreAlike(p, q, r, value);
    case Rebind(c, i, value) => hide Alike, RebindStep; RebindAlike(p, q, c, i, value);
    case Capture(c, pc, i) =>
      assert SameCall(p, q, c);
      assert Executes(p, c, pc, i) <==> RefExecutes(q, c, pc, i);
      hide Alike, CaptureStep;
      if Executes(p, c, pc, i) { CaptureAlike(p, q, c, i); }
    case Recapture(j) =>
      assert RefAlike(p, q, Handle(j));
      if j < |p.captured| { HeldAlike(p, q, Handle(j)); }
      hide Alike;
    case Operate(c, work) => hide Alike, OperateStep; OperateAlike(p, q, c, work);
  }

  lemma {:induction false} RunsAlike(p: Machine, q: Reference, steps: seq<Step>, choices: seq<Choice>)
    requires Ok(p) && RefOk(q) && Alike(p, q) && |choices| == |steps|
    ensures Ok(Run(p, steps, choices)) && Alike(Run(p, steps, choices), RefRun(q, steps))
    decreases |steps|
  {
    hide Ok, RefOk, Alike, Next, RefNext;
    if steps != [] {
      StepAlike(p, q, steps[0], choices[0]);
      StepKeepsOk(p, steps[0], choices[0]);
      RunsAlike(Next(p, steps[0], choices[0]), RefNext(q, steps[0]), steps[1..], choices[1..]);
    }
  }

  lemma {:induction false} StartAlike()
    ensures Ok(START) && RefOk(START_REFERENCE) && Alike(START, START_REFERENCE)
  {
  }

  /** Whatever the pool hands out, keeps or drops, and whatever the loader has marked, the guest
      sees exactly what it would see with every local a cell of its own. */
  lemma {:induction false} FramesAreInvisible(steps: seq<Step>, choices: seq<Choice>)
    requires |choices| == |steps|
    ensures Run(START, steps, choices).seen == RefRun(START_REFERENCE, steps).seen
  {
    StartAlike();
    hide Ok, RefOk, Next, RefNext;
    RunsAlike(START, START_REFERENCE, steps, choices);
  }

  /** In particular, it sees the same as on a machine that allocates every frame anew. */
  lemma {:induction false} PoolingIsInvisible(steps: seq<Step>, choices: seq<Choice>)
    requires |choices| == |steps|
    ensures Run(START, steps, choices).seen == Run(START, steps, seq(|steps|, _ => NO_POOL)).seen
  {
    hide Run;
    FramesAreInvisible(steps, choices);
    FramesAreInvisible(steps, seq(|steps|, _ => NO_POOL));
  }

  /** No captured slot ever lies in a frame, idle or in use, and idle frames are empty. */
  lemma {:induction false} CapturesStayOutside(steps: seq<Step>, choices: seq<Choice>)
    requires |choices| == |steps|
    ensures var m := Run(START, steps, choices);
      && (forall j :: 0 <= j < |m.captured| ==> m.captured[j].Heap?)
      && (forall f, i :: f in m.idle ==> Read(m, Storage(f, i)) == Uninitialized)
      && (forall f :: f in m.idle ==> BuffersOf(m, f) == EMPTY)
  {
    StartAlike();
    hide Alike, Next, RefNext, RefOk;
    RunsAlike(START, START_REFERENCE, steps, choices);
  }

  // ----- why the marks matter --------------------------------------------------------------------------

  /** The same call with and without a pool, loaded with marks that miss its capture: the
      captured slot is part of the frame, and the next call to get that frame writes it. */
  function AfterMissedCapture(value: Value, keep: bool): Machine {
    var code := [AddressOf(0)];
    var captured := CaptureStep(EnterStep(START, code, [false], [], None), 0, 0);
    EnterStep(LeaveStep(captured, 0, keep), code, [false], [value], Some(0))
  }

  lemma {:induction false} MissedMarkIsVisible(value: Value)
    ensures var pooled, unpooled := AfterMissedCapture(value, true), AfterMissedCapture(value, false);
      && Known(pooled, Handle(0)) && Read(pooled, Slot(pooled, Handle(0))) == Holds(value)
      && Known(unpooled, Handle(0)) && Read(unpooled, Slot(unpooled, Handle(0))) == Uninitialized
  {
    var captured := CaptureStep(EnterStep(START, [AddressOf(0)], [false], [], None), 0, 0);
    assert captured.captured == [Storage(0, 0)] && captured.nextFrame == 1;
    MissedIn(captured, value, true);
    MissedIn(captured, value, false);
  }

  lemma {:induction false} MissedIn(m: Machine, value: Value, keep: bool)
    requires m.captured == [Storage(0, 0)] && m.idle == {} && m.nextFrame == 1
    requires |m.calls| == 1 && m.calls[0].Some? && m.calls[0].value.frame == 0
    ensures var n := EnterStep(LeaveStep(m, 0, keep), [AddressOf(0)], [false], [value], Some(0));
      Known(n, Handle(0)) && Read(n, Slot(n, Handle(0))) == if keep then Holds(value) else Uninitialized
  {
    hide Arguments;
    var left := LeaveStep(m, 0, keep);
    ArgumentsAt(left.memory, if keep then 0 else 1, [value], 1, Storage(0, 0));
  }
}
