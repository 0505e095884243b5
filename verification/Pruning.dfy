/** Cross-package reference checking and pruning: `compiler/linker_validation.go`
    and the second half of `retainReachableCode`.  References that validate before
    pruning validate on what pruning leaves. */
module Pruning {
  import opened Options
  import opened LinkerReachability
  import opened LinkerWorklist

  /** `validateLinkedReferences` on one instruction of a function of `own`. */
  predicate ReferenceOk(artifacts: map<string, Artifact>, own: string, i: Instruction) {
    match i
    case Call(m, target) => target == "" || FunctionExists(artifacts, FnRef(TargetModule(m, own), target))
    case MakeClosure(m, target) => target == "" || FunctionExists(artifacts, FnRef(TargetModule(m, own), target))
    case LoadExport(m, name) => m in artifacts && FindExport(artifacts[m].exports, name).Some?
    case AddressExport(m, name) =>
      m != "" ==>
        m in artifacts && FindExport(artifacts[m].exports, name).Some?
        && FindExport(artifacts[m].exports, name).value.kind == GlobalExport
    case _ => true
  }

  predicate FunctionExists(artifacts: map<string, Artifact>, f: FnRef) {
    f.modulePath in artifacts && f.id in artifacts[f.modulePath].functions
  }

  predicate RequirementOk(artifacts: map<string, Artifact>, r: Requirement) {
    r.modulePath in artifacts &&
    forall name <- r.exports ::
      || FindExport(artifacts[r.modulePath].exports, name).Some?
      || NamedOf(artifacts[r.modulePath].table, Key(r.modulePath, name)).Some?
  }

  ghost predicate Validates(artifacts: map<string, Artifact>) {
    forall own :: own in artifacts ==>
      && (forall r <- artifacts[own].requirements :: RequirementOk(artifacts, r))
      && (forall id :: id in artifacts[own].functions ==>
            forall i <- artifacts[own].functions[id].code :: ReferenceOk(artifacts, own, i))
  }

  // ----- pruning ------------------------------------------------------------------

  predicate KeepsExport(keep: set<FnRef>, own: string, e: Export) {
    e.kind == FunctionExport ==> FnRef(own, e.id) in keep
  }

  function PruneExports(keep: set<FnRef>, own: string, exports: seq<Export>): seq<Export> {
    if exports == [] then []
    else
      var last := exports[|exports| - 1];
      PruneExports(keep, own, exports[..|exports| - 1]) + if KeepsExport(keep, own, last) then [last] else []
  }

  /** The first function export of that name decides; other names stay. */
  predicate KeepsName(keep: set<FnRef>, dependency: string, exports: seq<Export>, name: string) {
    exports == [] ||
    if exports[0].name == name && exports[0].kind == FunctionExport
    then FnRef(dependency, exports[0].id) in keep
    else KeepsName(keep, dependency, exports[1..], name)
  }

  function PruneNames(keep: set<FnRef>, dependency: string, exports: seq<Export>, names: seq<string>): (pruned: seq<string>)
    ensures forall name :: name in pruned <==> name in names && KeepsName(keep, dependency, exports, name)
  {
    if names == [] then []
    else
      (if KeepsName(keep, dependency, exports, names[0]) then [names[0]] else [])
      + PruneNames(keep, dependency, exports, names[1..])
  }

  function PruneRequirement(p: Program, keep: set<FnRef>, r: Requirement): Requirement {
    if r.modulePath in p.artifacts
    then r.(exports := PruneNames(keep, r.modulePath, p.artifacts[r.modulePath].exports, r.exports))
    else r
  }

  function PruneMethod(keep: set<FnRef>, own: string, m: Method): Method {
    if m.functionId == "" || FnRef(TargetModule(m.modulePath, own), m.functionId) in keep then m else m.(functionId := "")
  }

  function PruneMethods(keep: set<FnRef>, own: string, methods: seq<Method>): seq<Method> {
    seq(|methods|, i requires 0 <= i < |methods| => PruneMethod(keep, own, methods[i]))
  }

  function PruneTable(keep: set<FnRef>, own: string, t: Table): Table {
    t.(nodes := map id | id in t.nodes ::
      if t.nodes[id].kind == Named then t.nodes[id].(methods := PruneMethods(keep, own, t.nodes[id].methods)) else t.nodes[id])
  }

  function PruneArtifact(p: Program, keep: set<FnRef>, own: string, a: Artifact): Artifact {
    a.(functions := map id | id in a.functions && FnRef(own, id) in keep :: a.functions[id],
       exports := PruneExports(keep, own, a.exports),
       table := PruneTable(keep, own, a.table),
       methods := PruneMethods(keep, own, a.methods),
       requirements := seq(|a.requirements|, i requires 0 <= i < |a.requirements| => PruneRequirement(p, keep, a.requirements[i])))
  }

  function Prune(p: Program, keep: set<FnRef>): map<string, Artifact> {
    map own | own in p.artifacts :: PruneArtifact(p, keep, own, p.artifacts[own])
  }

  // ----- preservation -------------------------------------------------------------

  /** An export stays findable when its last declaration is kept. */
  lemma {:induction false} FoundAfterPrune(keep: set<FnRef>, own: string, exports: seq<Export>, name: string)
    ensures var found, pruned := FindExport(exports, name), FindExport(PruneExports(keep, own, exports), name);
      && (found.Some? && KeepsExport(keep, own, found.value) ==> pruned == found)
      && (forall e <- exports :: e.name == name && KeepsExport(keep, own, e) ==> pruned.Some?)
  {
    if exports != [] {
      var last, rest := exports[|exports| - 1], exports[..|exports| - 1];
      var pruned := PruneExports(keep, own, rest);
      FoundAfterPrune(keep, own, rest, name);
      assert (pruned + [last])[..|pruned|] == pruned;
      assert pruned + [] == pruned;
      assert exports == rest + [last];
    }
  }

  lemma {:induction false} FoundAmong(exports: seq<Export>, name: string)
    ensures FindExport(exports, name).Some? ==> FindExport(exports, name).value in exports && FindExport(exports, name).value.name == name
  {
    if exports != [] {
      FoundAmong(exports[..|exports| - 1], name);
    }
  }

  /** A name kept in a requirement still has an export, or never was a function. */
  lemma {:induction false} KeptNameHasExport(keep: set<FnRef>, dependency: string, exports: seq<Export>, name: string)
    requires KeepsName(keep, dependency, exports, name)
    ensures forall e <- exports :: e.name == name ==> exists d <- exports :: d.name == name && KeepsExport(keep, dependency, d)
  {
    if exports != [] {
      if exports[0].name == name && exports[0].kind == FunctionExport {
        assert KeepsExport(keep, dependency, exports[0]);
      } else {
        KeptNameHasExport(keep, dependency, exports[1..], name);
        forall e | e in exports && e.name == name
          ensures exists d <- exports :: d.name == name && KeepsExport(keep, dependency, d)
        {
          if e == exports[0] {
            assert KeepsExport(keep, dependency, e);
          } else {
            assert e in exports[1..];
            var d :| d in exports[1..] && d.name == name && KeepsExport(keep, dependency, d);
            assert d in exports;
          }
        }
      }
    }
  }

  lemma RequirementAfterPrune(p: Program, keep: set<FnRef>, r: Requirement)
    requires RequirementOk(p.artifacts, r)
    ensures RequirementOk(Prune(p, keep), PruneRequirement(p, keep, r))
  {
    var a, a' := p.artifacts[r.modulePath], Prune(p, keep)[r.modulePath];
    forall name | name in PruneRequirement(p, keep, r).exports
      ensures FindExport(a'.exports, name).Some? || NamedOf(a'.table, Key(r.modulePath, name)).Some?
    {
      if FindExport(a.exports, name).Some? {
        FoundAmong(a.exports, name);
        KeptNameHasExport(keep, r.modulePath, a.exports, name);
        FoundAfterPrune(keep, r.modulePath, a.exports, name);
      }
    }
  }

  lemma ReferenceAfterPrune(p: Program, keep: set<FnRef>, own: string, i: Instruction)
    requires own in p.artifacts && ReferenceOk(p.artifacts, own, i) && !InstructionFails(p, i)
    requires forall f :: Live(f) in InstructionMarks(p, own, i) ==> f in keep
    ensures ReferenceOk(Prune(p, keep), own, i)
  {
    match i
    case Call(m, target) => assert Live(FnRef(TargetModule(m, own), target)) in InstructionMarks(p, own, i);
    case MakeClosure(m, target) => assert Live(FnRef(TargetModule(m, own), target)) in InstructionMarks(p, own, i);
    case LoadExport(m, name) => FoundAfterPrune(keep, m, p.artifacts[m].exports, name);
    case AddressExport(m, name) => if m != "" { FoundAfterPrune(keep, m, p.artifacts[m].exports, name); }
    case _ =>
  }

  lemma RequirementsAfterPrune(p: Program, keep: set<FnRef>, own: string)
    requires own in p.artifacts && forall r <- p.artifacts[own].requirements :: RequirementOk(p.artifacts, r)
    ensures forall r <- Prune(p, keep)[own].requirements :: RequirementOk(Prune(p, keep), r)
  {
    var requirements := p.artifacts[own].requirements;
    forall r | r in Prune(p, keep)[own].requirements ensures RequirementOk(Prune(p, keep), r) {
      var k :| 0 <= k < |requirements| && r == PruneRequirement(p, keep, requirements[k]);
      RequirementAfterPrune(p, keep, requirements[k]);
    }
  }

  lemma FunctionAfterPrune(p: Program, keep: set<FnRef>, f: FnRef, i: Instruction)
    requires forall g :: Derivable(p, Live(g)) ==> g in keep
    requires Derivable(p, Live(f)) && !Broken(p, f)
    requires i in FunctionOf(p, f).code && ReferenceOk(p.artifacts, f.modulePath, i)
    ensures ReferenceOk(Prune(p, keep), f.modulePath, i)
  {
    forall g | Live(g) in InstructionMarks(p, f.modulePath, i) ensures g in keep {
      assert InstructionImplies(p, f.modulePath, i, Live(g));
      assert Implies(p, f, Live(g));
      DerivableClosed(p);
    }
    ReferenceAfterPrune(p, keep, f.modulePath, i);
  }

  /** Pruning to the set the linker keeps preserves every cross-package reference. */
  lemma PruningPreservesLinks(p: Program, keep: set<FnRef>)
    requires Validates(p.artifacts)
    requires forall f :: f in keep <==> Derivable(p, Live(f))
    requires forall f :: f in keep ==> !Broken(p, f)
    ensures Validates(Prune(p, keep))
  {
    var pruned := Prune(p, keep);
    forall own | own in pruned
      ensures forall r <- pruned[own].requirements :: RequirementOk(pruned, r)
    {
      RequirementsAfterPrune(p, keep, own);
    }
    forall own, id, i | own in pruned && id in pruned[own].functions && i in pruned[own].functions[id].code
      ensures ReferenceOk(pruned, own, i)
    {
      var f := FnRef(own, id);
      assert f in keep && pruned[own].functions[id] == FunctionOf(p, f);
      FunctionAfterPrune(p, keep, f, i);
    }
  }

  /** `retainReachableCode` as a whole: what it returns links. */
  method RetainReachableCode(p: Program) returns (pruned: Option<map<string, Artifact>>)
    requires Validates(p.artifacts)
    ensures pruned.Some? <==> forall f :: Derivable(p, Live(f)) ==> !Broken(p, f)
    ensures pruned.Some? ==> Validates(pruned.value) && pruned.value.Keys == p.artifacts.Keys
    ensures pruned.Some? ==> forall f :: FunctionExists(pruned.value, f) <==> Derivable(p, Live(f))
  {
    var outcome := RetainReachable(p);
    match outcome
    case Failed(_) => pruned := None;
    case Kept(keep) =>
      PruningPreservesLinks(p, keep);
      pruned := Some(Prune(p, keep));
      forall f ensures FunctionExists(pruned.value, f) <==> Derivable(p, Live(f)) {
        assert f in keep ==> HasFunction(p, f) by {
          if f in keep { assert !Broken(p, f); }
        }
      }
  }

  // ----- what pruning leaves -------------------------------------------------------------------

  ghost predicate Exported(artifacts: map<string, Artifact>, m: string, name: string, e: Export) {
    m in artifacts && FindExport(artifacts[m].exports, name) == Some(e)
  }

  /** A call or a closure needs its target, if it has one, a load its export, and an address of
      another module a variable. */
  lemma {:induction false} ReferenceMeans(artifacts: map<string, Artifact>, own: string, i: Instruction)
    ensures i.Call? || i.MakeClosure? ==>
      (ReferenceOk(artifacts, own, i) <==>
        (i.target != "" ==> var m := if i.modulePath == "" then own else i.modulePath;
          m in artifacts && i.target in artifacts[m].functions))
    ensures i.LoadExport? ==> (ReferenceOk(artifacts, own, i) <==> exists e :: Exported(artifacts, i.modulePath, i.name, e))
    ensures i.AddressExport? ==>
      (ReferenceOk(artifacts, own, i) <==>
        (i.modulePath != "" ==> exists e :: Exported(artifacts, i.modulePath, i.name, e) && e.kind == GlobalExport))
    ensures !i.Call? && !i.MakeClosure? && !i.LoadExport? && !i.AddressExport? ==> ReferenceOk(artifacts, own, i)
  {
    if (i.LoadExport? || i.AddressExport?) && i.modulePath in artifacts && FindExport(artifacts[i.modulePath].exports, i.name).Some? {
      assert Exported(artifacts, i.modulePath, i.name, FindExport(artifacts[i.modulePath].exports, i.name).value);
    }
  }

  lemma {:induction false} PrunedExports(keep: set<FnRef>, own: string, exports: seq<Export>, e: Export)
    ensures e in PruneExports(keep, own, exports) <==> e in exports && (e.kind == FunctionExport ==> FnRef(own, e.id) in keep)
  {
    if exports != [] {
      var n := |exports| - 1;
      PrunedExports(keep, own, exports[..n], e);
      assert exports == exports[..n] + [exports[n]];
    }
  }

  /** The implementation of a method is forgotten exactly if it was dropped. */
  ghost predicate MethodPruned(keep: set<FnRef>, own: string, before: Method, after: Method) {
    var owner := if before.modulePath == "" then own else before.modulePath;
    if before.functionId != "" && FnRef(owner, before.functionId) !in keep then after == before.(functionId := "") else after == before
  }

  ghost predicate MethodsPruned(keep: set<FnRef>, own: string, before: seq<Method>, after: seq<Method>) {
    |after| == |before| && forall i :: 0 <= i < |before| ==> MethodPruned(keep, own, before[i], after[i])
  }

  /** Exactly the kept functions stay, and the exports of dropped ones go; methods stay with what is
      left of their implementations, on types and in the index; everything else is as it was. */
  lemma {:induction false} PrunedExactly(p: Program, keep: set<FnRef>, own: string)
    requires own in p.artifacts
    ensures var a, b := p.artifacts[own], Prune(p, keep)[own];
      && (forall id :: id in b.functions <==> id in a.functions && FnRef(own, id) in keep)
      && (forall id :: id in b.functions ==> b.functions[id] == a.functions[id])
      && (forall e :: e in b.exports <==> e in a.exports && (e.kind == FunctionExport ==> FnRef(own, e.id) in keep))
      && MethodsPruned(keep, own, a.methods, b.methods)
      && b.constants == a.constants && b.globals == a.globals && b.table.names == a.table.names
      && b.table.nodes.Keys == a.table.nodes.Keys && |b.requirements| == |a.requirements|
    ensures var a, b := p.artifacts[own], Prune(p, keep)[own];
      forall id :: id in a.table.nodes ==>
        var was, now := a.table.nodes[id], b.table.nodes[id];
        now == was.(methods := now.methods) && (was.kind != Named ==> now == was) && (was.kind == Named ==> MethodsPruned(keep, own, was.methods, now.methods))
  {
    hide PruneExports, KeepsName;
    var a := p.artifacts[own];
    forall e ensures e in PruneExports(keep, own, a.exports) <==> e in a.exports && (e.kind == FunctionExport ==> FnRef(own, e.id) in keep) {
      PrunedExports(keep, own, a.exports, e);
    }
  }
}
