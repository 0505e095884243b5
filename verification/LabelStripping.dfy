/** Label removal when a function is loaded: `instructionLayout` and the instruction loop
    of `loadValidated` in `runtime/loader.go`, against the labelled code they start from.

    What instructions other than labels and jumps do is a parameter. */
module LabelStripping {

  type Op(!new)
  type Data(!new)

  datatype Instruction = Label(name: string) | Jump(name: string) | JumpIf(name: string) | Plain(op: Op)
  {
    predicate IsJump() { Jump? || JumpIf? }
  }

  /** Jump targets are positions in the stripped list. */
  datatype Prepared = PreparedJump(pc: nat) | PreparedJumpIf(pc: nat) | PreparedPlain(op: Op)

  type Code = seq<Instruction>

  // ----- names -----------------------------------------------------------------------------------

  /** White space as `strings.TrimSpace` knows it. */
  predicate Space(c: char) {
    var n := c as int;
    9 <= n <= 13 || n == 32 || n == 0x85 || n == 0xA0 || n == 0x1680 || 0x2000 <= n <= 0x200A
    || n == 0x2028 || n == 0x2029 || n == 0x202F || n == 0x205F || n == 0x3000
  }

  function TrimLeft(s: string): string { if s != [] && Space(s[0]) then TrimLeft(s[1..]) else s }

  function Trim(s: string): string
    decreases |s|
  {
    var t := TrimLeft(s);
    TrimRight(t)
  }

  function TrimRight(s: string): string {
    if s != [] && Space(s[|s| - 1]) then TrimRight(s[..|s| - 1]) else s
  }

  /** The validator compares trimmed names: labels are distinct and every jump has one. */
  ghost predicate Validated(code: Code) {
    && (forall i, j :: 0 <= i < j < |code| && code[i].Label? && code[j].Label? ==> Trim(code[i].name) != Trim(code[j].name))
    && (forall i :: 0 <= i < |code| && code[i].IsJump() ==> exists j :: Names(code, j, code[i].name))
  }

  ghost predicate Names(code: Code, j: nat, name: string) {
    j < |code| && code[j].Label? && Trim(code[j].name) == Trim(name)
  }

  /** Where a jump leads in the labelled code. */
  ghost function Target(code: Code, name: string): (j: nat)
    requires Validated(code) && exists j :: Names(code, j, name)
    ensures Names(code, j, name)
  {
    var j :| Names(code, j, name);
    j
  }

  lemma {:induction false} TargetUnique(code: Code, name: string, j: nat)
    requires Validated(code) && Names(code, j, name)
    ensures Target(code, name) == j
  {
    var t := Target(code, name);
    assert Trim(code[t].name) == Trim(code[j].name);
  }

  // ----- the loader ----------------------------------------------------------------------------------

  /** Execution position of instruction `n`: the labels before it do not count. */
  function ExecPc(code: Code, n: nat): (pc: nat)
    requires n <= |code|
    ensures pc <= n
  {
    if n == 0 then 0 else ExecPc(code, n - 1) + if code[n - 1].Label? then 0 else 1
  }

  function LabelPcs(code: Code, n: nat): map<string, nat>
    requires n <= |code|
  {
    if n == 0 then map[]
    else
      var before := LabelPcs(code, n - 1);
      if code[n - 1].Label? then before[code[n - 1].name := ExecPc(code, n - 1)] else before
  }

  /** An unknown name reads as position zero. */
  function Resolve(labels: map<string, nat>, name: string): nat { if name in labels then labels[name] else 0 }

  function Prepare(labels: map<string, nat>, inst: Instruction): Prepared
    requires !inst.Label?
  {
    match inst
    case Jump(name) => PreparedJump(Resolve(labels, name))
    case JumpIf(name) => PreparedJumpIf(Resolve(labels, name))
    case Plain(op) => PreparedPlain(op)
  }

  function Stripped(code: Code, labels: map<string, nat>, n: nat): (list: seq<Prepared>)
    requires n <= |code|
    ensures |list| == ExecPc(code, n)
  {
    if n == 0 then []
    else Stripped(code, labels, n - 1) + if code[n - 1].Label? then [] else [Prepare(labels, code[n - 1])]
  }

  function Strip(code: Code): seq<Prepared> { Stripped(code, LabelPcs(code, |code|), |code|) }

  method InstructionLayout(code: Code) returns (labels: map<string, nat>, pcs: seq<nat>)
    ensures labels == LabelPcs(code, |code|)
    ensures |pcs| == |code| && forall i :: 0 <= i < |code| ==> pcs[i] == ExecPc(code, i)
  {
    labels, pcs := map[], [];
    var pc := 0;
    for i := 0 to |code|
      invariant pc == ExecPc(code, i) && labels == LabelPcs(code, i)
      invariant |pcs| == i && forall k :: 0 <= k < i ==> pcs[k] == ExecPc(code, k)
    {
      pcs := pcs + [pc];
      if code[i].Label? {
        labels := labels[code[i].name := pc];
      } else {
        pc := pc + 1;
      }
    }
  }

  method LoadInstructions(code: Code) returns (list: seq<Prepared>)
    ensures list == Strip(code)
  {
    var labels, _ := InstructionLayout(code);
    list := [];
    for i := 0 to |code|
      invariant list == Stripped(code, labels, i)
    {
      if !code[i].Label? {
        list := list + [Prepare(labels, code[i])];
      }
    }
  }

  // ----- running -----------------------------------------------------------------------------------

  datatype Result = Go(data: Data) | Stop(data: Data)
  datatype Test = Branch(taken: bool, data: Data) | Failure(data: Data)

  /** What the other instructions and the condition of a jump do to the rest of the state. */
  datatype Semantics = Semantics(apply: (Op, Data) -> Result, test: Data -> Test)

  /** Running off the end completes the call. */
  datatype Config = Running(pc: nat, data: Data) | Stopped(data: Data) | Completed(data: Data)

  function AfterPlain(sem: Semantics, op: Op, pc: nat, data: Data): Config {
    match sem.apply(op, data)
    case Go(d) => Running(pc + 1, d)
    case Stop(d) => Stopped(d)
  }

  function AfterTest(sem: Semantics, goal: nat, pc: nat, data: Data): Config {
    match sem.test(data)
    case Branch(taken, d) => Running(if taken then goal else pc + 1, d)
    case Failure(d) => Stopped(d)
  }

  ghost function LabelledStep(code: Code, sem: Semantics, c: Config): Config
    requires Validated(code)
  {
    if !c.Running? then c
    else if c.pc >= |code| then Completed(c.data)
    else
      match code[c.pc]
      case Label(_) => Running(c.pc + 1, c.data)
      case Jump(name) => Running(Target(code, name), c.data)
      case JumpIf(name) => AfterTest(sem, Target(code, name), c.pc, c.data)
      case Plain(op) => AfterPlain(sem, op, c.pc, c.data)
  }

  function PreparedStep(list: seq<Prepared>, sem: Semantics, c: Config): Config {
    if !c.Running? then c
    else if c.pc >= |list| then Completed(c.data)
    else
      match list[c.pc]
      case PreparedJump(pc) => Running(pc, c.data)
      case PreparedJumpIf(pc) => AfterTest(sem, pc, c.pc, c.data)
      case PreparedPlain(op) => AfterPlain(sem, op, c.pc, c.data)
  }

  ghost function LabelledRun(code: Code, sem: Semantics, c: Config, n: nat): Config
    requires Validated(code)
    decreases n
  {
    if n == 0 then c else LabelledRun(code, sem, LabelledStep(code, sem, c), n - 1)
  }

  function PreparedRun(list: seq<Prepared>, sem: Semantics, c: Config, n: nat): Config
    decreases n
  {
    if n == 0 then c else PreparedRun(list, sem, PreparedStep(list, sem, c), n - 1)
  }

  // ----- when a jump lands right ---------------------------------------------------------------------

  /** The jump spells its label as the label itself does. */
  ghost predicate Exact(code: Code, name: string) {
    exists j :: 0 <= j < |code| && code[j] == Label(name)
  }

  lemma {:induction false} LabelPcsOf(code: Code, n: nat, name: string)
    requires n <= |code|
    ensures name in LabelPcs(code, n) <==> exists j :: 0 <= j < n && code[j] == Label(name)
    ensures name in LabelPcs(code, n) ==>
      exists j :: 0 <= j < n && code[j] == Label(name) && LabelPcs(code, n)[name] == ExecPc(code, j)
  {
    if n > 0 {
      LabelPcsOf(code, n - 1, name);
      if code[n - 1] == Label(name) { assert LabelPcs(code, n)[name] == ExecPc(code, n - 1); }
    }
  }

  /** The loader finds the right position exactly for a jump spelled like its label, or
      one whose label comes before every instruction. */
  lemma {:induction false} ResolvesRight(code: Code, i: nat)
    requires Validated(code) && i < |code| && code[i].IsJump()
    ensures Resolve(LabelPcs(code, |code|), code[i].name) == ExecPc(code, Target(code, code[i].name))
       <==> Exact(code, code[i].name) || ExecPc(code, Target(code, code[i].name)) == 0
  {
    var name := code[i].name;
    LabelPcsOf(code, |code|, name);
    if Exact(code, name) {
      var j :| 0 <= j < |code| && code[j] == Label(name) && LabelPcs(code, |code|)[name] == ExecPc(code, j);
      TargetUnique(code, name, j);
    }
  }

  // ----- simulation -------------------------------------------------------------------------------------

  /** All jumps land right. */
  ghost predicate Resolved(code: Code) {
    Validated(code) && forall i :: 0 <= i < |code| && code[i].IsJump() ==>
      Exact(code, code[i].name) || ExecPc(code, Target(code, code[i].name)) == 0
  }

  /** Same state, at corresponding positions. */
  ghost predicate Matches(code: Code, c: Config, d: Config) {
    if c.Running? then c.pc <= |code| && d == Running(ExecPc(code, c.pc), c.data) else c == d
  }

  lemma {:induction false} StrippedAt(code: Code, labels: map<string, nat>, i: nat, n: nat)
    requires i < n <= |code| && !code[i].Label?
    ensures ExecPc(code, i) < |Stripped(code, labels, n)|
    ensures Stripped(code, labels, n)[ExecPc(code, i)] == Prepare(labels, code[i])
  {
    if i < n - 1 { StrippedAt(code, labels, i, n - 1); }
  }

  lemma {:induction false} LabelStutters(code: Code, sem: Semantics, c: Config, d: Config)
    requires Validated(code) && Matches(code, c, d) && c.Running? && c.pc < |code| && code[c.pc].Label?
    ensures Matches(code, LabelledStep(code, sem, c), d)
  {
  }

  lemma {:induction false} StepMatches(code: Code, sem: Semantics, c: Config, d: Config)
    requires Resolved(code) && Matches(code, c, d) && !(c.Running? && c.pc < |code| && code[c.pc].Label?)
    ensures Matches(code, LabelledStep(code, sem, c), PreparedStep(Strip(code), sem, d))
  {
    if c.Running? && c.pc < |code| {
      var labels := LabelPcs(code, |code|);
      StrippedAt(code, labels, c.pc, |code|);
      assert Strip(code)[d.pc] == Prepare(labels, code[c.pc]);
      assert ExecPc(code, c.pc + 1) == d.pc + 1;
      if code[c.pc].IsJump() { ResolvesRight(code, c.pc); }
    }
  }

  /** How many of the first `n` labelled steps are not over labels. */
  ghost function Visible(code: Code, sem: Semantics, c: Config, n: nat): (m: nat)
    requires Validated(code)
    ensures m <= n
    decreases n
  {
    if n == 0 then 0
    else
      Visible(code, sem, LabelledStep(code, sem, c), n - 1)
      + if c.Running? && c.pc < |code| && code[c.pc].Label? then 0 else 1
  }

  /** Each labelled run is followed step by step, with pauses at labels. */
  lemma {:induction false} Forward(code: Code, sem: Semantics, c: Config, d: Config, n: nat)
    requires Resolved(code) && Matches(code, c, d)
    ensures Matches(code, LabelledRun(code, sem, c, n), PreparedRun(Strip(code), sem, d, Visible(code, sem, c, n)))
    decreases n
  {
    hide Strip, Matches, LabelledStep, PreparedStep;
    if n > 0 {
      if c.Running? && c.pc < |code| && code[c.pc].Label? {
        LabelStutters(code, sem, c, d);
        Forward(code, sem, LabelledStep(code, sem, c), d, n - 1);
      } else {
        StepMatches(code, sem, c, d);
        Forward(code, sem, LabelledStep(code, sem, c), PreparedStep(Strip(code), sem, d), n - 1);
      }
    }
  }

  /** After the labels at hand, the labelled machine does something visible. */
  ghost function Pause(code: Code, c: Config): (k: nat)
    decreases if c.Running? then |code| - c.pc else 0
  {
    if c.Running? && c.pc < |code| && code[c.pc].Label? then 1 + Pause(code, Running(c.pc + 1, c.data)) else 0
  }

  lemma {:induction false} PauseMatches(code: Code, sem: Semantics, c: Config, d: Config)
    requires Resolved(code) && Matches(code, c, d)
    ensures Matches(code, LabelledRun(code, sem, c, Pause(code, c) + 1), PreparedStep(Strip(code), sem, d))
    decreases Pause(code, c)
  {
    hide Strip, Matches, PreparedStep;
    var next := LabelledStep(code, sem, c);
    if c.Running? && c.pc < |code| && code[c.pc].Label? {
      LabelStutters(code, sem, c, d);
      PauseMatches(code, sem, next, d);
    } else {
      StepMatches(code, sem, c, d);
      assert LabelledRun(code, sem, c, 1) == LabelledRun(code, sem, next, 0);
    }
  }

  lemma {:induction false} RunAdds(code: Code, sem: Semantics, c: Config, a: nat, b: nat)
    requires Validated(code)
    ensures LabelledRun(code, sem, c, a + b) == LabelledRun(code, sem, LabelledRun(code, sem, c, a), b)
    decreases a
  {
    hide LabelledStep;
    if a > 0 { RunAdds(code, sem, LabelledStep(code, sem, c), a - 1, b); }
  }

  /** Each stripped run is one of the labelled code. */
  lemma {:induction false} Backward(code: Code, sem: Semantics, c: Config, d: Config, m: nat)
    requires Resolved(code) && Matches(code, c, d)
    ensures exists n :: n >= m && Matches(code, LabelledRun(code, sem, c, n), PreparedRun(Strip(code), sem, d, m))
    decreases m
  {
    hide Strip, Matches, LabelledStep, PreparedStep;
    if m == 0 {
      assert LabelledRun(code, sem, c, 0) == c;
    } else {
      var k := Pause(code, c) + 1;
      PauseMatches(code, sem, c, d);
      Backward(code, sem, LabelledRun(code, sem, c, k), PreparedStep(Strip(code), sem, d), m - 1);
      var n :| n >= m - 1 && Matches(code, LabelledRun(code, sem, LabelledRun(code, sem, c, k), n),
                                     PreparedRun(Strip(code), sem, PreparedStep(Strip(code), sem, d), m - 1));
      RunAdds(code, sem, c, k, n);
    }
  }

  ghost predicate LabelledEnds(code: Code, sem: Semantics, data: Data, end: Config)
    requires Validated(code)
  {
    exists n: nat :: LabelledRun(code, sem, Running(0, data), n) == end
  }

  ghost predicate PreparedEnds(list: seq<Prepared>, sem: Semantics, data: Data, end: Config) {
    exists n: nat :: PreparedRun(list, sem, Running(0, data), n) == end
  }

  /** Stripping labels changes no outcome: whatever the other instructions do, a call
      ends in a state on one side exactly if it does on the other. */
  lemma {:induction false} StrippingPreservesMeaning(code: Code, sem: Semantics, data: Data, end: Config)
    requires Resolved(code) && !end.Running?
    ensures LabelledEnds(code, sem, data, end) <==> PreparedEnds(Strip(code), sem, data, end)
  {
    hide Strip, LabelledRun, PreparedRun;
    var start := Running(0, data);
    if LabelledEnds(code, sem, data, end) {
      var n: nat :| LabelledRun(code, sem, start, n) == end;
      Forward(code, sem, start, start, n);
      assert PreparedRun(Strip(code), sem, start, Visible(code, sem, start, n)) == end;
    }
    if PreparedEnds(Strip(code), sem, data, end) {
      var m: nat :| PreparedRun(Strip(code), sem, start, m) == end;
      Backward(code, sem, start, start, m);
      var n :| n >= m && Matches(code, LabelledRun(code, sem, start, n), PreparedRun(Strip(code), sem, start, m));
      assert LabelledRun(code, sem, start, n) == end;
    }
  }

  // ----- a jump that lands wrong ------------------------------------------------------------------------

  /** The validator accepts a jump with a stray blank; the loader sends it to the start. */
  lemma {:induction false} BlankMisleads(op: Op)
    ensures var code := [Plain(op), Label("a"), Jump(" a")];
      && Validated(code) && Names(code, 1, " a") && Target(code, " a") == 1 && ExecPc(code, 1) == 1
      && Strip(code) == [PreparedPlain(op), PreparedJump(0)]
  {
    var code := [Plain(op), Label("a"), Jump(" a")];
    TrimBlank();
    assert Names(code, 1, " a");
    TargetUnique(code, " a", 1);
    LabelPcsOf(code, 3, " a");
    StrippedAt(code, LabelPcs(code, 3), 0, 3);
    StrippedAt(code, LabelPcs(code, 3), 2, 3);
    assert ExecPc(code, 1) == 1 && ExecPc(code, 2) == 1;
  }

  lemma {:induction false} TrimBlank()
    ensures Trim(" a") == "a" == Trim("a")
  {
    assert " a"[1..] == "a";
    assert TrimLeft("a") == "a" && TrimRight("a") == "a";
    assert TrimLeft(" a") == TrimLeft("a");
  }

  // ----- what steps and blanks are ------------------------------------------------------------------

  /** Control goes on to the next place, to the target of a jump that is taken, or stops. */
  lemma {:induction false} GoesOn(sem: Semantics, op: Op, goal: nat, pc: nat, data: Data, after: Data)
    ensures sem.apply(op, data) == Go(after) ==> AfterPlain(sem, op, pc, data) == Running(pc + 1, after)
    ensures sem.apply(op, data) == Stop(after) ==> AfterPlain(sem, op, pc, data) == Stopped(after)
    ensures sem.test(data) == Branch(true, after) ==> AfterTest(sem, goal, pc, data) == Running(goal, after)
    ensures sem.test(data) == Branch(false, after) ==> AfterTest(sem, goal, pc, data) == Running(pc + 1, after)
    ensures sem.test(data) == Failure(after) ==> AfterTest(sem, goal, pc, data) == Stopped(after)
  {
  }

  const WHITE_SPACE: set<int> := {
    9, 10, 11, 12, 13, 32, 0x85, 0xA0, 0x1680, 0x2000, 0x2001, 0x2002, 0x2003, 0x2004, 0x2005, 0x2006, 0x2007, 0x2008, 0x2009, 0x200A,
    0x2028, 0x2029, 0x202F, 0x205F, 0x3000}

  /** The characters with the Unicode property White_Space. */
  lemma {:induction false} SpaceMeans(c: char)
    ensures Space(c) <==> c as int in WHITE_SPACE
  {
  }
}
