/** The linker's rules stated flatly over the program, one clause to each case of
    `compiler/linker_reachability.go`, and the proof that the least set obeying them is
    the set the worklist computes. */
module LinkerRules {
  import opened Options
  import opened LinkerReachability

  /** What a linker may hold on to.  `shapes` and `calls` are the types, with the module whose
      table they belong to, that the two type walks have come to. */
  datatype Retained = Retained(
    functions: iset<FnRef>, shapes: iset<(string, TypeRef)>, calls: iset<(string, TypeRef)>,
    receivers: iset<Key>, required: iset<(string, string)>, reflection: bool)

  // ----- types ------------------------------------------------------------------------------------

  ghost predicate PartOf(c: TypeRef, n: Node) {
    || c == n.underlying || c == n.aliasTarget || c == n.elem || c == n.key || c == n.constraint || c == n.base
    || (n.signature.Some? && (c in n.signature.value.params || c in n.signature.value.results))
    || c in n.tuple || c in n.fields || c in n.terms || c in n.typeArgs
  }

  /** The node a type refers to; a named type without one is looked up by name. */
  ghost predicate IsNode(t: Table, r: TypeRef, n: Node) {
    if r.node != "" && r.node in t.nodes then n == t.nodes[r.node]
    else r.kind == Named && r.named in t.names && t.names[r.named] != "" && t.names[r.named] in t.nodes && n == t.nodes[t.names[r.named]]
  }

  ghost predicate MethodPart(c: TypeRef, m: Method) { c in m.signature.params || c in m.signature.results }

  ghost predicate HasMethod(t: Table, r: TypeRef, m: Method) {
    InterfaceMethods(t, r).Some? && m in InterfaceMethods(t, r).value
  }

  ghost predicate IsErrorPrimitive(r: TypeRef) { r.kind == Primitive && r.primitive == "Error" }

  /** An interface of one method `Error() string`. */
  ghost predicate IsErrorInterface(p: Program, t: Table, r: TypeRef, m: Method) {
    && InterfaceMethods(t, r) == Some([m]) && m.name == "Error" && m.signature.params == []
    && exists s: TypeRef :: m.signature.results == [s] && p.text.isString(t, s)
  }

  ghost predicate Requires(p: Program, k: Retained, t: Table, name: string, signature: Signature) {
    (name, p.text.format(t, signature)) in k.required
  }

  ghost predicate PlainError(p: Program, k: Retained, t: Table, r: TypeRef) {
    IsErrorPrimitive(r) ==> Requires(p, k, t, "Error", Signature([], [TypeRef(Primitive, "String", NO_KEY, "")]))
  }

  /** A type that code can hold a value of. */
  ghost predicate ShapeRule(p: Program, k: Retained, own: string, r: TypeRef)
    requires own in p.artifacts
  {
    var t := p.artifacts[own].table;
    && (forall n, c :: IsNode(t, r, n) && PartOf(c, n) && c.Valid() ==> (own, c) in k.shapes)
    && (forall key :: NamedReceiver(t, r, {}) == Some(key) ==> key in k.receivers)
    && (forall m :: IsErrorInterface(p, t, r, m) ==> Requires(p, k, t, "Error", m.signature))
    && PlainError(p, k, t, r)
  }

  /** A type that an interface call may pass through. */
  ghost predicate CallRule(p: Program, k: Retained, own: string, r: TypeRef)
    requires own in p.artifacts
  {
    var t := p.artifacts[own].table;
    && (forall m :: HasMethod(t, r, m) ==> Requires(p, k, t, m.name, m.signature))
    && (forall m, c :: HasMethod(t, r, m) && MethodPart(c, m) && c.Valid() ==> (own, c) in k.calls)
    && (forall c :: NodeOf(t, UnderlyingOf(t, r)).Some? && PartOf(c, NodeOf(t, UnderlyingOf(t, r)).value) && c.Valid() ==> (own, c) in k.calls)
    && PlainError(p, k, t, r)
  }

  // ----- code -------------------------------------------------------------------------------------

  ghost predicate Holds(k: Retained, own: string, r: TypeRef) { r.Valid() ==> (own, r) in k.shapes }

  ghost predicate Keeps(k: Retained, own: string, modulePath: string, id: string) {
    FnRef(if modulePath == "" then own else modulePath, id) in k.functions
  }

  /** Calls through which reflection finds methods by name or number. */
  ghost predicate FindsMethods(modulePath: string, id: string) {
    modulePath == "reflect"
    && (id == "method.Value.NumMethod" || id == "method.Value.Method" || id == "method.Value.MethodByName" || id == "method.Value.Methods")
  }

  ghost predicate FindsTypeMethods(t: Table, typ: TypeRef, member: string) {
    NamedReceiver(t, typ, {}) == Some(Key("reflect", "Type"))
    && (member == "NumMethod" || member == "Method" || member == "MethodByName" || member == "Methods")
  }

  ghost predicate InstructionRule(p: Program, k: Retained, own: string, i: Instruction)
    requires own in p.artifacts
  {
    match i
    case Plain => true
    case TypeUse(typ) => Holds(k, own, typ)
    case Call(m, id) => Keeps(k, own, m, id) && (own != "reflect" && FindsMethods(m, id) ==> k.reflection)
    case MakeClosure(m, id) => Keeps(k, own, m, id)
    case LoadExport(m, name) =>
      forall e :: ExportOf(p, m, name) == Some(e) ==> Holds(k, m, e.typ) && (e.kind == FunctionExport ==> FnRef(m, e.id) in k.functions)
    case AddressExport(m, name) => forall e :: ExportOf(p, m, name) == Some(e) ==> Holds(k, m, e.typ)
    case CallInterface(typ, member) =>
      && Holds(k, own, typ) && (typ.Valid() ==> (own, typ) in k.calls)
      && (own != "reflect" && FindsTypeMethods(p.artifacts[own].table, typ, member) ==> k.reflection)
    case Const(id) => id in p.artifacts[own].constants ==> Holds(k, own, p.artifacts[own].constants[id])
    case LoadGlobal(id) => id in p.artifacts[own].globals ==> Holds(k, own, p.artifacts[own].globals[id])
    case AddressGlobal(id) => id in p.artifacts[own].globals ==> Holds(k, own, p.artifacts[own].globals[id])
    case Intrinsic(id) => forall m, r :: DynamicResult(p, id, m, r) ==> Holds(k, m, r)
  }

  /** The type an intrinsic may return without naming it. */
  ghost predicate DynamicResult(p: Program, id: string, m: string, r: TypeRef) {
    && id in p.dynamicResults && m == p.dynamicResults[id].modulePath && m in p.artifacts
    && var t, key := p.artifacts[m].table, p.dynamicResults[id];
    key in t.names && t.names[key] != "" && t.names[key] in t.nodes && r == TypeRef(Named, "", t.nodes[t.names[key]].identity, t.names[key])
  }

  ghost predicate FunctionRule(p: Program, k: Retained, f: FnRef)
    requires HasFunction(p, f)
  {
    var body := FunctionOf(p, f);
    && (forall r :: r in body.params || r in body.results || r in body.locals || r in body.upvalues ==> Holds(k, f.modulePath, r))
    && (forall i :: i in body.code ==> InstructionRule(p, k, f.modulePath, i))
  }

  /** A method stays if values of its receiver may exist and something may ask for it. */
  ghost predicate MethodRule(p: Program, k: Retained, own: string, m: Method)
    requires own in p.artifacts
  {
    var t := p.artifacts[own].table;
    m in p.artifacts[own].methods && m.functionId != "" ==>
      forall key :: (
        NamedReceiver(t, m.receiver, {}) == Some(key) && key in k.receivers && (Requires(p, k, t, m.name, m.signature) || k.reflection)
        ==> Keeps(k, own, m.modulePath, m.functionId))
  }

  ghost predicate Obeys(p: Program, k: Retained) {
    && (forall f :: f in p.entries ==> f in k.functions)
    && (forall own :: own in p.artifacts && "fn.init" in p.artifacts[own].functions ==> FnRef(own, "fn.init") in k.functions)
    && (forall f :: f in k.functions && HasFunction(p, f) ==> FunctionRule(p, k, f))
    && (forall own, r :: own in p.artifacts && (own, r) in k.shapes ==> ShapeRule(p, k, own, r))
    && (forall own, r :: own in p.artifacts && (own, r) in k.calls ==> CallRule(p, k, own, r))
    && (forall own, m :: own in p.artifacts ==> MethodRule(p, k, own, m))
  }

  ghost predicate Has(k: Retained, fact: Fact) {
    match fact
    case Live(f) => f in k.functions
    case Receiver(key) => key in k.receivers
    case Required(n, s) => (n, s) in k.required
    case Reflection => k.reflection
  }

  ghost function FactsOf(k: Retained): iset<Fact> { iset fact | Has(k, fact) }

  // ----- whatever obeys the rules is closed -----------------------------------------------------------

  ghost function Came(k: Retained, w: Walk): iset<(string, TypeRef)> { if w.Shapes? then k.shapes else k.calls }

  lemma {:induction false} MethodRefsMeans(methods: seq<Method>, c: TypeRef)
    ensures c in MethodRefs(methods) <==> exists m :: m in methods && MethodPart(c, m)
  {
    if methods != [] {
      MethodRefsMeans(methods[1..], c);
      assert forall m :: m in methods <==> m == methods[0] || m in methods[1..];
      assert MethodPart(c, methods[0]) <==> c in methods[0].signature.params + methods[0].signature.results;
    }
  }

  lemma {:induction false} ChildrenMeans(n: Node, c: TypeRef)
    ensures c in Children(n) <==> PartOf(c, n)
  {
    var six := [n.underlying, n.aliasTarget, n.elem, n.key, n.constraint, n.base];
    assert c in six <==> c == six[0] || c == six[1] || c == six[2] || c == six[3] || c == six[4] || c == six[5];
  }

  /** The parts the two walks go on to. */
  ghost predicate Follows(w: Walk, t: Table, r: TypeRef, c: TypeRef) {
    match w
    case Shapes => exists n :: IsNode(t, r, n) && PartOf(c, n)
    case Calls =>
      || (exists m :: HasMethod(t, r, m) && MethodPart(c, m))
      || (NodeOf(t, UnderlyingOf(t, r)).Some? && PartOf(c, NodeOf(t, UnderlyingOf(t, r)).value))
  }

  lemma {:induction false} SuccessorsMeans(w: Walk, t: Table, r: TypeRef, c: TypeRef)
    ensures c in Successors(w, t, r) <==> Follows(w, t, r, c)
  {
    hide Children, PartOf, InterfaceMethods, UnderlyingOf, MethodRefs;
    match w
    case Shapes =>
      var node := if NodeOf(t, r).None? && r.kind == Named then NamedOf(t, r.named) else NodeOf(t, r);
      if node.Some? { ChildrenMeans(node.value, c); assert IsNode(t, r, node.value); }
    case Calls =>
      var methods, node := InterfaceMethods(t, r), NodeOf(t, UnderlyingOf(t, r));
      if methods.Some? {
        MethodRefsMeans(methods.value, c);
        assert forall m :: m in methods.value <==> HasMethod(t, r, m);
      }
      if node.Some? { ChildrenMeans(node.value, c); }
  }

  lemma {:induction false} WalkInside(p: Program, k: Retained, w: Walk, own: string, start: TypeRef, r: TypeRef)
    requires Obeys(p, k) && own in p.artifacts && (start.Valid() ==> (own, start) in Came(k, w))
    requires Walked(w, p.artifacts[own].table, start, r)
    ensures (own, r) in Came(k, w)
  {
    hide Successors, PartOf, IsNode, InstructionRule, InterfaceMethods, UnderlyingOf;
    var t, s := p.artifacts[own].table, iset x | (own, x) in Came(k, w);
    forall x, c | x in s && c in Successors(w, t, x) && c.Valid() ensures c in s {
      SuccessorsMeans(w, t, x, c);
      if w.Shapes? { assert ShapeRule(p, k, own, x); } else { assert CallRule(p, k, own, x); }
    }
    assert WalkClosed(w, t, start, s);
  }

  lemma {:induction false} VisitInside(p: Program, k: Retained, w: Walk, own: string, r: TypeRef, fact: Fact)
    requires own in p.artifacts && (if w.Shapes? then ShapeRule(p, k, own, r) else CallRule(p, k, own, r))
    requires fact in VisitFacts(p, w, p.artifacts[own].table, r)
    ensures fact in FactsOf(k)
  {
    hide InterfaceMethods, NamedReceiver, PartOf, IsNode;
    var t := p.artifacts[own].table;
    var methods := InterfaceMethods(t, r);
    if w.Shapes? && methods.Some? && |methods.value| == 1 {
      var m := methods.value[0];
      assert methods.value == [m];
      if |m.signature.results| == 1 { assert m.signature.results == [m.signature.results[0]]; }
    }
    if w.Calls? && methods.Some? { assert forall m :: m in methods.value ==> HasMethod(t, r, m); }
  }

  lemma {:induction false} UseInside(p: Program, k: Retained, u: Use, fact: Fact)
    requires Obeys(p, k) && UseFact(p, u, fact) && (u.typ.Valid() ==> (u.modulePath, u.typ) in Came(k, u.walk))
    ensures fact in FactsOf(k)
  {
    hide VisitFacts, Walked, ShapeRule, CallRule, FunctionRule, MethodRule, FactsOf;
    var r :| Walked(u.walk, p.artifacts[u.modulePath].table, u.typ, r) && fact in VisitFacts(p, u.walk, p.artifacts[u.modulePath].table, r);
    WalkInside(p, k, u.walk, u.modulePath, u.typ, r);
    VisitInside(p, k, u.walk, u.modulePath, r, fact);
  }

  lemma {:induction false} InstructionInside(p: Program, k: Retained, own: string, i: Instruction, fact: Fact)
    requires Obeys(p, k) && own in p.artifacts && InstructionRule(p, k, own, i) && InstructionImplies(p, own, i, fact)
    ensures fact in FactsOf(k)
  {
    hide Obeys, UseFact, NamedReceiver;
    if u :| u in InstructionUses(p, own, i) && UseFact(p, u, fact) {
      UsesInside(p, k, own, i, u);
      hide InstructionUses, InstructionRule, FactsOf;
      UseInside(p, k, u, fact);
    } else {
      MarksInside(p, k, own, i, fact);
    }
  }

  lemma {:induction false} UsesInside(p: Program, k: Retained, own: string, i: Instruction, u: Use)
    requires own in p.artifacts && InstructionRule(p, k, own, i) && u in InstructionUses(p, own, i)
    ensures u.typ.Valid() ==> (u.modulePath, u.typ) in Came(k, u.walk)
  {
    if i.Intrinsic? { assert DynamicResult(p, i.id, u.modulePath, u.typ); }
  }

  lemma {:induction false} MarksInside(p: Program, k: Retained, own: string, i: Instruction, fact: Fact)
    requires own in p.artifacts && InstructionRule(p, k, own, i) && fact in InstructionMarks(p, own, i)
    ensures fact in FactsOf(k)
  {
    hide NamedReceiver;
  }

  lemma {:induction false} ImpliedInside(p: Program, k: Retained, f: FnRef, fact: Fact)
    requires Obeys(p, k) && f in k.functions && Implies(p, f, fact)
    ensures fact in FactsOf(k)
  {
    hide UseFact, InstructionImplies, InstructionRule, ShapeRule, CallRule, MethodRule, FactsOf;
    assert FunctionRule(p, k, f);
    var body := FunctionOf(p, f);
    if u :| u in DeclarationUses(body, f.modulePath) && UseFact(p, u, fact) {
      var refs := body.params + body.results + body.locals + body.upvalues;
      var j :| 0 <= j < |refs| && u == Use(Shapes, f.modulePath, refs[j]);
      assert Holds(k, f.modulePath, refs[j]);
      UseInside(p, k, u, fact);
    } else {
      var i :| i in FunctionOf(p, f).code && InstructionImplies(p, f.modulePath, i, fact);
      InstructionInside(p, k, f.modulePath, i, fact);
    }
  }

  lemma {:induction false} ObeyingIsClosed(p: Program, k: Retained)
    requires Obeys(p, k)
    ensures Closed(p, FactsOf(k))
  {
    hide FunctionRule, ShapeRule, CallRule, Implies, NamedReceiver;
    var s := FactsOf(k);
    forall f, fact | Live(f) in s && Implies(p, f, fact) ensures fact in s { ImpliedInside(p, k, f, fact); }
    forall c | c in Candidates(p) && Triggered(c, s) ensures Live(c.fn) in s {
      var own, m :| own in p.artifacts && m in p.artifacts[own].methods && m.functionId != "" && c == CandidateOf(p, own, m);
      assert MethodRule(p, k, own, m);
    }
  }

  // ----- and what is derivable obeys the rules ----------------------------------------------------------

  ghost predicate UsedBy(p: Program, f: FnRef, u: Use) {
    HasFunction(p, f) && (u in DeclarationUses(FunctionOf(p, f), f.modulePath)
      || exists i :: i in FunctionOf(p, f).code && u in InstructionUses(p, f.modulePath, i))
  }

  ghost predicate Reached(p: Program, w: Walk, own: string, r: TypeRef) {
    exists f, u :: ReachedFrom(p, w, own, r, f, u)
  }

  ghost predicate ReachedFrom(p: Program, w: Walk, own: string, r: TypeRef, f: FnRef, u: Use) {
    Derivable(p, Live(f)) && UsedBy(p, f, u) && u.walk == w && u.modulePath == own && own in p.artifacts
    && Walked(w, p.artifacts[own].table, u.typ, r)
  }

  ghost function Least(p: Program): Retained {
    Retained(
      (iset f | Derivable(p, Live(f))), (iset x: (string, TypeRef) | Reached(p, Shapes, x.0, x.1)),
      (iset x: (string, TypeRef) | Reached(p, Calls, x.0, x.1)), (iset key | Derivable(p, Receiver(key))),
      (iset x: (string, string) | Derivable(p, Required(x.0, x.1))), Derivable(p, Reflection))
  }

  lemma {:induction false} ImpliedIsDerivable(p: Program, f: FnRef, fact: Fact)
    requires Derivable(p, Live(f)) && Implies(p, f, fact)
    ensures Derivable(p, fact)
  {
    hide Implies, Derivable;
    DerivableClosed(p);
  }

  lemma {:induction false} UsedIsReached(p: Program, f: FnRef, u: Use)
    requires Derivable(p, Live(f)) && UsedBy(p, f, u) && u.modulePath in p.artifacts && u.typ.Valid()
    ensures Reached(p, u.walk, u.modulePath, u.typ)
  {
    hide Derivable, UsedBy;
    var t := p.artifacts[u.modulePath].table;
    WalkedClosed(u.walk, t, u.typ);
    assert ReachedFrom(p, u.walk, u.modulePath, u.typ, f, u);
  }

  lemma {:induction false} ReachedGoesOn(p: Program, w: Walk, own: string, r: TypeRef, c: TypeRef)
    requires Reached(p, w, own, r) && own in p.artifacts && Follows(w, p.artifacts[own].table, r, c) && c.Valid()
    ensures Reached(p, w, own, c)
  {
    hide Derivable, UsedBy, Follows, Successors;
    var f, u :| ReachedFrom(p, w, own, r, f, u);
    var t := p.artifacts[own].table;
    SuccessorsMeans(w, t, r, c);
    WalkedClosed(w, t, u.typ);
    assert ReachedFrom(p, w, own, c, f, u);
  }

  lemma {:induction false} ReachedYields(p: Program, w: Walk, own: string, r: TypeRef, fact: Fact)
    requires Reached(p, w, own, r) && own in p.artifacts && fact in VisitFacts(p, w, p.artifacts[own].table, r)
    ensures Derivable(p, fact)
  {
    hide Derivable, VisitFacts, Walked, DeclarationUses, InstructionUses, InstructionMarks;
    var f, u :| ReachedFrom(p, w, own, r, f, u);
    assert UseFact(p, u, fact);
    assert Implies(p, f, fact) by {
      if u !in DeclarationUses(FunctionOf(p, f), f.modulePath) {
        var i :| i in FunctionOf(p, f).code && u in InstructionUses(p, f.modulePath, i);
        assert InstructionImplies(p, f.modulePath, i, fact);
      }
    }
    ImpliedIsDerivable(p, f, fact);
  }

  lemma {:induction false} LeastShape(p: Program, own: string, r: TypeRef)
    requires Reached(p, Shapes, own, r) && own in p.artifacts
    ensures ShapeRule(p, Least(p), own, r)
  {
    hide Derivable, Reached, PartOf, IsNode, InterfaceMethods, NamedReceiver;
    var t, k := p.artifacts[own].table, Least(p);
    forall n, c | IsNode(t, r, n) && PartOf(c, n) && c.Valid() ensures (own, c) in k.shapes { ReachedGoesOn(p, Shapes, own, r, c); }
    forall key | NamedReceiver(t, r, {}) == Some(key) ensures key in k.receivers { ReachedYields(p, Shapes, own, r, Receiver(key)); }
    forall m | IsErrorInterface(p, t, r, m) ensures Requires(p, k, t, "Error", m.signature) {
      ReachedYields(p, Shapes, own, r, Required("Error", p.text.format(t, m.signature)));
    }
    LeastError(p, Shapes, own, r);
  }

  lemma {:induction false} LeastError(p: Program, w: Walk, own: string, r: TypeRef)
    requires Reached(p, w, own, r) && own in p.artifacts
    ensures PlainError(p, Least(p), p.artifacts[own].table, r)
  {
    hide Derivable, Reached, InterfaceMethods, NamedReceiver;
    if IsErrorPrimitive(r) {
      ReachedYields(p, w, own, r, Required("Error", p.text.format(p.artifacts[own].table, Signature([], [STRING_TYPE]))));
    }
  }

  lemma {:induction false} LeastCall(p: Program, own: string, r: TypeRef)
    requires Reached(p, Calls, own, r) && own in p.artifacts
    ensures CallRule(p, Least(p), own, r)
  {
    hide Derivable, Reached, PartOf, InterfaceMethods, NamedReceiver, UnderlyingOf, MethodPart;
    var t, k := p.artifacts[own].table, Least(p);
    forall m | HasMethod(t, r, m) ensures Requires(p, k, t, m.name, m.signature) {
      ReachedYields(p, Calls, own, r, Required(m.name, p.text.format(t, m.signature)));
    }
    forall m, c | HasMethod(t, r, m) && MethodPart(c, m) && c.Valid() ensures (own, c) in k.calls { ReachedGoesOn(p, Calls, own, r, c); }
    forall c | NodeOf(t, UnderlyingOf(t, r)).Some? && PartOf(c, NodeOf(t, UnderlyingOf(t, r)).value) && c.Valid() ensures (own, c) in k.calls {
      ReachedGoesOn(p, Calls, own, r, c);
    }
    LeastError(p, Calls, own, r);
  }

  /** The rule of one instruction, from the uses and marks of the worklist. */
  lemma {:induction false} LeastInstruction(p: Program, f: FnRef, i: Instruction)
    requires Derivable(p, Live(f)) && HasFunction(p, f) && i in FunctionOf(p, f).code
    ensures InstructionRule(p, Least(p), f.modulePath, i)
  {
    hide Derivable, Reached, NamedReceiver, UsedBy, Implies;
    var own, k := f.modulePath, Least(p);
    forall u | u in InstructionUses(p, own, i) && u.modulePath in p.artifacts && u.typ.Valid() ensures (u.modulePath, u.typ) in Came(k, u.walk) {
      InstructionUsed(p, f, i, u);
      UsedIsReached(p, f, u);
    }
    forall fact | fact in InstructionMarks(p, own, i) ensures Derivable(p, fact) {
      InstructionMarked(p, f, i, fact);
      ImpliedIsDerivable(p, f, fact);
    }
    InstructionRead(p, k, own, i);
  }

  lemma {:induction false} InstructionUsed(p: Program, f: FnRef, i: Instruction, u: Use)
    requires HasFunction(p, f) && i in FunctionOf(p, f).code && u in InstructionUses(p, f.modulePath, i)
    ensures UsedBy(p, f, u)
  {
    hide InstructionUses, DeclarationUses;
  }

  lemma {:induction false} InstructionMarked(p: Program, f: FnRef, i: Instruction, fact: Fact)
    requires HasFunction(p, f) && i in FunctionOf(p, f).code && fact in InstructionMarks(p, f.modulePath, i)
    ensures Implies(p, f, fact)
  {
    hide InstructionMarks, InstructionUses, DeclarationUses, UseFact;
    assert InstructionImplies(p, f.modulePath, i, fact);
  }

  lemma {:induction false} InstructionRead(p: Program, k: Retained, own: string, i: Instruction)
    requires own in p.artifacts
    requires forall u :: u in InstructionUses(p, own, i) && u.modulePath in p.artifacts && u.typ.Valid() ==> (u.modulePath, u.typ) in Came(k, u.walk)
    requires forall fact :: fact in InstructionMarks(p, own, i) ==> fact in FactsOf(k)
    ensures InstructionRule(p, k, own, i)
  {
    hide NamedReceiver;
    var uses, marks := InstructionUses(p, own, i), InstructionMarks(p, own, i);
    assert |uses| > 0 ==> uses[0] in uses;
    assert |uses| > 1 ==> uses[1] in uses;
    match i
    case Call(m, id) =>
      assert Live(FnRef(TargetModule(m, own), id)) in marks;
      assert own != "reflect" && FindsMethods(m, id) ==> Reflection in marks;
    case CallInterface(typ, member) =>
      assert own != "reflect" && FindsTypeMethods(p.artifacts[own].table, typ, member) ==> Reflection in marks;
    case Intrinsic(id) => forall m, r | DynamicResult(p, id, m, r) ensures Holds(k, m, r) { assert uses == [Use(Shapes, m, r)]; }
    case LoadExport(m, name) =>
      forall e | ExportOf(p, m, name) == Some(e) && e.kind == FunctionExport ensures FnRef(m, e.id) in k.functions {
        assert Live(FnRef(m, e.id)) in marks;
      }
    case _ =>
  }

  lemma {:induction false} LeastFunction(p: Program, f: FnRef)
    requires Derivable(p, Live(f)) && HasFunction(p, f)
    ensures FunctionRule(p, Least(p), f)
  {
    hide Derivable, Reached, InstructionRule, InstructionUses;
    var body, k := FunctionOf(p, f), Least(p);
    var refs := body.params + body.results + body.locals + body.upvalues;
    forall r | r in body.params || r in body.results || r in body.locals || r in body.upvalues ensures Holds(k, f.modulePath, r) {
      assert r in refs;
      var j :| 0 <= j < |refs| && refs[j] == r;
      assert DeclarationUses(body, f.modulePath)[j] == Use(Shapes, f.modulePath, r);
      if r.Valid() { UsedIsReached(p, f, Use(Shapes, f.modulePath, r)); }
    }
    forall i | i in body.code ensures InstructionRule(p, k, f.modulePath, i) { LeastInstruction(p, f, i); }
  }

  lemma {:induction false} LeastMethod(p: Program, own: string, m: Method)
    requires own in p.artifacts
    ensures MethodRule(p, Least(p), own, m)
  {
    hide Derivable, NamedReceiver, Reached, Implies;
    if m in p.artifacts[own].methods && m.functionId != "" {
      DerivableClosed(p);
      var c := CandidateOf(p, own, m);
      assert c in Candidates(p);
      var least := iset fact | Derivable(p, fact);
      assert Triggered(c, least) ==> Live(c.fn) in least;
    }
  }

  lemma {:induction false} LeastObeys(p: Program)
    ensures Obeys(p, Least(p))
  {
    hide Derivable, Reached, FunctionRule, ShapeRule, CallRule, MethodRule, Implies, Triggered;
    var k := Least(p);
    DerivableClosed(p);
    forall f | f in p.entries ensures f in k.functions { assert f in Roots(p); }
    forall own | own in p.artifacts && "fn.init" in p.artifacts[own].functions ensures FnRef(own, "fn.init") in k.functions {
      assert FnRef(own, "fn.init") in Roots(p);
    }
    forall f | f in k.functions && HasFunction(p, f) ensures FunctionRule(p, k, f) { LeastFunction(p, f); }
    forall own, r | own in p.artifacts && (own, r) in k.shapes ensures ShapeRule(p, k, own, r) { LeastShape(p, own, r); }
    forall own, r | own in p.artifacts && (own, r) in k.calls ensures CallRule(p, k, own, r) { LeastCall(p, own, r); }
    forall own, m | own in p.artifacts ensures MethodRule(p, k, own, m) { LeastMethod(p, own, m); }
  }

  /** A function must stay: whatever obeys the rules has it. */
  ghost predicate MustStay(p: Program, f: FnRef) {
    forall k: Retained :: Obeys(p, k) ==> f in k.functions
  }

  /** The linker's own closure and the flat rules agree. */
  lemma {:induction false} DerivableIsMustStay(p: Program, f: FnRef)
    ensures Derivable(p, Live(f)) <==> MustStay(p, f)
  {
    hide Closed, Obeys, Reached;
    LeastObeys(p);
    if Derivable(p, Live(f)) {
      forall k: Retained | Obeys(p, k) ensures f in k.functions {
        ObeyingIsClosed(p, k);
        assert Live(f) in FactsOf(k);
      }
    }
  }

  // ----- what a missing function or export means --------------------------------------------------------

  /** Name lookup finds the last export of that name. */
  lemma {:induction false} FindExportMeans(exports: seq<Export>, name: string, e: Export)
    ensures FindExport(exports, name) == Some(e) <==>
      exists i: nat :: IsLast(exports, name, i) && exports[i] == e
    ensures FindExport(exports, name) == None <==> forall i :: 0 <= i < |exports| ==> exports[i].name != name
  {
    if exports != [] {
      var n := |exports| - 1;
      FindExportMeans(exports[..n], name, e);
      if exports[n].name == name {
        assert IsLast(exports, name, n);
        forall i: nat | IsLast(exports, name, i) ensures i == n {}
      } else {
        forall i: nat ensures IsLast(exports, name, i) <==> IsLast(exports[..n], name, i) { LastBefore(exports, name, n, i); }
        assert forall i :: 0 <= i < n ==> exports[i] == exports[..n][i];
        if i: nat :| IsLast(exports, name, i) && exports[i] == e { assert IsLast(exports[..n], name, i) && exports[..n][i] == e; }
        if i: nat :| IsLast(exports[..n], name, i) && exports[..n][i] == e { assert IsLast(exports, name, i) && exports[i] == e; }
      }
    }
  }

  lemma {:induction false} LastBefore(exports: seq<Export>, name: string, n: nat, i: nat)
    requires n == |exports| - 1 && exports[n].name != name
    ensures IsLast(exports, name, i) <==> IsLast(exports[..n], name, i)
  {
    assert forall j :: 0 <= j < n ==> exports[j] == exports[..n][j];
  }

  ghost predicate IsLast(exports: seq<Export>, name: string, i: nat) {
    i < |exports| && exports[i].name == name && forall j :: i < j < |exports| ==> exports[j].name != name
  }

  ghost predicate Exports(p: Program, m: string, name: string, e: Export) { ExportOf(p, m, name) == Some(e) }

  /** What an instruction needs of the other modules: a dynamic result type that is there, an
      export that is there, and for an address, one that is a variable unless its module is
      not linked at all. */
  ghost predicate CanLink(p: Program, i: Instruction) {
    match i
    case Intrinsic(id) => id in p.dynamicResults ==> exists m, r :: DynamicResult(p, id, m, r)
    case LoadExport(m, name) => exists e :: Exports(p, m, name, e)
    case AddressExport(m, name) => m in p.artifacts ==> exists e :: Exports(p, m, name, e) && e.kind == GlobalExport
    case _ => true
  }

  lemma {:induction false} BrokenMeans(p: Program, f: FnRef)
    ensures Broken(p, f) <==>
      (f.modulePath in p.artifacts && f.id in p.artifacts[f.modulePath].functions
       ==> exists i :: i in p.artifacts[f.modulePath].functions[f.id].code && !CanLink(p, i))
  {
    hide CanLink, InstructionFails;
    forall i ensures InstructionFails(p, i) <==> !CanLink(p, i) { FailsMeans(p, i); }
  }

  lemma {:induction false} FailsMeans(p: Program, i: Instruction)
    ensures InstructionFails(p, i) <==> !CanLink(p, i)
  {
    match i
    case Intrinsic(id) =>
      if id in p.dynamicResults && p.dynamicResults[id].modulePath in p.artifacts {
        var key := p.dynamicResults[id];
        var t := p.artifacts[key.modulePath].table;
        if NamedOf(t, key).Some? { assert DynamicResult(p, id, key.modulePath, TypeRef(Named, "", t.nodes[t.names[key]].identity, t.names[key])); }
      }
    case LoadExport(m, name) => if ExportOf(p, m, name).Some? { assert Exports(p, m, name, ExportOf(p, m, name).value); }
    case AddressExport(m, name) => if ExportOf(p, m, name).Some? { assert Exports(p, m, name, ExportOf(p, m, name).value); }
    case _ =>
  }

  // ----- the declared type behind a receiver ---------------------------------------------------------------

  ghost predicate Declared(key: Key) { key.modulePath != "" && key.decl != "" }

  /** `r` names its declaration, or its node does. */
  ghost predicate Declares(t: Table, r: TypeRef, key: Key) {
    r.Valid() && Declared(key) &&
    if r.kind == Named && Declared(r.named) then key == r.named
    else r.node != "" && r.node in t.nodes && key == t.nodes[r.node].identity
  }

  /** What `r` points to, or is an instance of, when it declares nothing itself. */
  ghost predicate Behind(t: Table, r: TypeRef, inner: TypeRef) {
    r.Valid() && !(r.kind == Named && Declared(r.named)) && r.node != "" && r.node in t.nodes
    && var node := t.nodes[r.node];
    !Declared(node.identity) && (if node.kind == Pointer then inner == node.elem else node.kind == Instance && inner == node.base)
  }

  /** A declaration is `n` pointers and instances away. */
  ghost predicate Leads(t: Table, r: TypeRef, key: Key, n: nat)
    decreases n
  {
    if n == 0 then Declares(t, r, key) else exists inner :: Behind(t, r, inner) && Leads(t, inner, key, n - 1)
  }

  lemma {:induction false} LeadsOnce(t: Table, r: TypeRef, key: Key, n: nat, r': TypeRef, key': Key, n': nat)
    requires Leads(t, r, key, n) && Leads(t, r', key', n') && r.node == r'.node
    requires !(r.kind == Named && Declared(r.named)) && !(r'.kind == Named && Declared(r'.named))
    ensures n == n'
    decreases n
  {
    if n > 0 && n' > 0 {
      var inner :| Behind(t, r, inner) && Leads(t, inner, key, n - 1);
      var inner' :| Behind(t, r', inner') && Leads(t, inner', key', n' - 1);
      assert inner == inner';
      SameLength(t, inner, key, n - 1, key', n' - 1);
    }
  }

  lemma {:induction false} SameLength(t: Table, r: TypeRef, key: Key, n: nat, key': Key, n': nat)
    requires Leads(t, r, key, n) && Leads(t, r, key', n')
    ensures n == n'
    decreases n
  {
    if n > 0 && n' > 0 {
      var inner :| Behind(t, r, inner) && Leads(t, inner, key, n - 1);
      var inner' :| Behind(t, r, inner') && Leads(t, inner', key', n' - 1);
      SameLength(t, inner, key, n - 1, key', n' - 1);
    }
  }

  lemma {:induction false} NamedReceiverLeads(t: Table, r: TypeRef, seen: set<string>, key: Key) returns (n: nat)
    requires NamedReceiver(t, r, seen) == Some(key)
    ensures Leads(t, r, key, n)
    decreases t.nodes.Keys - seen
  {
    if Declares(t, r, key) {
      n := 0;
    } else {
      var node := t.nodes[r.node];
      var inner := if node.kind == Pointer then node.elem else node.base;
      var m := NamedReceiverLeads(t, inner, seen + {r.node}, key);
      n := m + 1;
      assert Behind(t, r, inner);
    }
  }

  /** No node further away than `n` comes up again on the way. */
  ghost predicate Passed(t: Table, seen: set<string>, n: nat) {
    forall id :: id in seen ==> Ahead(t, id, n)
  }

  ghost predicate Ahead(t: Table, id: string, n: nat) { exists r: TypeRef, key: Key, m: nat :: Further(t, id, n, r, key, m) }

  ghost predicate Further(t: Table, id: string, n: nat, r: TypeRef, key: Key, m: nat) {
    m > n && r.node == id && !(r.kind == Named && Declared(r.named)) && Leads(t, r, key, m)
  }

  lemma {:induction false} LeadsToReceiver(t: Table, r: TypeRef, seen: set<string>, key: Key, n: nat)
    requires Leads(t, r, key, n) && Passed(t, seen, n)
    ensures NamedReceiver(t, r, seen) == Some(key)
    decreases n
  {
    if r.node in seen && !(r.kind == Named && Declared(r.named)) {
      var r': TypeRef, key': Key, m: nat :| Further(t, r.node, n, r', key', m);
      LeadsOnce(t, r, key, n, r', key', m);
    }
    if n > 0 {
      var inner :| Behind(t, r, inner) && Leads(t, inner, key, n - 1);
      PassedMore(t, r, seen, key, n);
      LeadsToReceiver(t, inner, seen + {r.node}, key, n - 1);
    }
  }

  lemma {:induction false} PassedMore(t: Table, r: TypeRef, seen: set<string>, key: Key, n: nat)
    requires n > 0 && Leads(t, r, key, n) && !(r.kind == Named && Declared(r.named)) && Passed(t, seen, n)
    ensures Passed(t, seen + {r.node}, n - 1)
  {
    hide Leads;
    forall id | id in seen + {r.node} ensures Ahead(t, id, n - 1) {
      if id in seen {
        var r': TypeRef, key': Key, m: nat :| Further(t, id, n, r', key', m);
        assert Further(t, id, n - 1, r', key', m);
      } else {
        assert Further(t, id, n - 1, r, key, n);
      }
    }
  }

  /** The receiver of a method is the declaration some number of pointers and instances away,
      if there is one. */
  lemma {:induction false} NamedReceiverMeans(t: Table, r: TypeRef, key: Key)
    ensures NamedReceiver(t, r, {}) == Some(key) <==> exists n: nat :: Leads(t, r, key, n)
  {
    hide NamedReceiver, Leads;
    if NamedReceiver(t, r, {}) == Some(key) {
      var n := NamedReceiverLeads(t, r, {}, key);
      assert Leads(t, r, key, n);
    }
    if n: nat :| Leads(t, r, key, n) { LeadsToReceiver(t, r, {}, key, n); }
  }

  // ----- interfaces ------------------------------------------------------------------------------------------

  /** The node of a reference: by identity if it has one, else by the name of a named type. */
  ghost predicate Refers(t: Table, r: TypeRef, n: Node) {
    if r.node != "" then r.node in t.nodes && n == t.nodes[r.node]
    else r.kind == Named && r.named in t.names && t.names[r.named] != "" && t.names[r.named] in t.nodes && n == t.nodes[t.names[r.named]]
  }

  lemma {:induction false} NodeForRefMeans(t: Table, r: TypeRef, n: Node)
    ensures NodeForRef(t, r) == Some(n) <==> Refers(t, r, n)
  {
  }

  /** A valid reference is a named type with a declaration or a node, or carries exactly what its
      kind calls for: a primitive its name, other built-in types nothing, all the rest a node. */
  lemma {:induction false} ValidMeans(r: TypeRef)
    ensures r.kind == Named ==> (r.Valid() <==> (r.named.modulePath != "" && r.named.decl != "") || r.node != "")
    ensures r.kind != Named ==> (r.Valid() <==>
      && r.named == Key("", "") && (r.primitive != "" <==> r.kind == Primitive)
      && (r.node == "" <==> r.kind == Primitive || r.kind == Void || r.kind == AnyKind))
  {
  }

  /** The methods of an interface type: its own if it declares any, else those of the interface
      it stands for; none for a name of the empty interface. */
  lemma {:induction false} InterfaceMethodsMeans(t: Table, r: TypeRef, methods: seq<Method>)
    ensures var under := UnderlyingOf(t, r);
      && (r.kind == Named && under.kind == AnyKind ==> InterfaceMethods(t, r) == Some([]))
      && (!(r.kind == Named && under.kind == AnyKind) ==>
           (InterfaceMethods(t, r) == Some(methods) <==>
             under.kind == Interface && exists shape :: Refers(t, under, shape) && methods == OwnMethods(t, r, shape)))
  {
    hide UnderlyingOf;
    var under := UnderlyingOf(t, r);
    if NodeForRef(t, under).Some? { NodeForRefMeans(t, under, NodeForRef(t, under).value); }
    forall n ensures Refers(t, under, n) <==> NodeForRef(t, under) == Some(n) { NodeForRefMeans(t, under, n); }
    forall n ensures Refers(t, r, n) <==> NodeForRef(t, r) == Some(n) { NodeForRefMeans(t, r, n); }
  }

  ghost function OwnMethods(t: Table, r: TypeRef, shape: Node): seq<Method> {
    if r.kind == Named && exists n :: Refers(t, r, n) && n.methods != []
    then var n :| Refers(t, r, n) && n.methods != []; n.methods
    else shape.methods
  }

  /** One step from a named type to what it stands for. */
  ghost predicate StandsFor(t: Table, r: TypeRef, next: TypeRef) {
    r.kind == Named && next.Valid()
    && exists n :: Refers(t, r, n) && next == if n.alias then n.aliasTarget else n.underlying
  }

  /** `n` steps lead from `r` to `last`. */
  ghost predicate Chain(t: Table, r: TypeRef, last: TypeRef, n: nat)
    decreases n
  {
    if n == 0 then last == r else exists next :: StandsFor(t, r, next) && Chain(t, next, last, n - 1)
  }

  lemma {:induction false} UnderlyingChain(t: Table, r: TypeRef, steps: nat) returns (n: nat)
    ensures n <= steps && Chain(t, r, Underlying(t, r, steps), n)
    ensures n == steps || !Stands(t, Underlying(t, r, steps))
    decreases steps
  {
    n := 0;
    if steps > 0 && Stands(t, r) {
      var next :| StandsFor(t, r, next);
      var node :| Refers(t, r, node) && next == if node.alias then node.aliasTarget else node.underlying;
      NodeForRefMeans(t, r, node);
      n := UnderlyingChain(t, next, steps - 1);
      n := n + 1;
    } else if steps > 0 {
      UnderlyingStops(t, r, steps);
    }
  }

  ghost predicate Stands(t: Table, r: TypeRef) { exists next :: StandsFor(t, r, next) }

  lemma {:induction false} UnderlyingStops(t: Table, r: TypeRef, steps: nat)
    requires steps > 0 && !Stands(t, r)
    ensures Underlying(t, r, steps) == r
  {
    if r.kind == Named && NodeForRef(t, r).Some? {
      var node := NodeForRef(t, r).value;
      NodeForRefMeans(t, r, node);
      assert !StandsFor(t, r, node.aliasTarget) || !node.alias;
      assert !StandsFor(t, r, node.underlying) || node.alias;
    }
  }

  /** The underlying type ends the chain of declarations, unless that is longer than the table. */
  lemma {:induction false} UnderlyingMeans(t: Table, r: TypeRef) returns (n: nat)
    ensures n <= |t.nodes| + 1 && Chain(t, r, UnderlyingOf(t, r), n)
    ensures n == |t.nodes| + 1 || !Stands(t, UnderlyingOf(t, r))
  {
    hide Underlying, Chain;
    n := UnderlyingChain(t, r, |t.nodes| + 1);
  }

  // ----- consequences ------------------------------------------------------------------------------------------

  /** An implementation of a method that a kept function calls through an interface is kept, once
      its receiver is reachable. */
  lemma {:induction false} InterfaceCallKeeps(p: Program, f: FnRef, typ: TypeRef, member: string, asked: Method, own: string, m: Method, key: Key)
    requires Derivable(p, Live(f)) && HasFunction(p, f) && CallInterface(typ, member) in FunctionOf(p, f).code && typ.Valid()
    requires HasMethod(p.artifacts[f.modulePath].table, typ, asked)
    requires own in p.artifacts && m in p.artifacts[own].methods && m.functionId != "" && m.name == asked.name
    requires p.text.format(p.artifacts[own].table, m.signature) == p.text.format(p.artifacts[f.modulePath].table, asked.signature)
    requires NamedReceiver(p.artifacts[own].table, m.receiver, {}) == Some(key) && Derivable(p, Receiver(key))
    ensures Derivable(p, Live(FnRef(if m.modulePath == "" then own else m.modulePath, m.functionId)))
  {
    hide Derivable, NamedReceiver, Reached, InterfaceMethods;
    LeastObeys(p);
    var k := Least(p);
    assert FunctionRule(p, k, f) && InstructionRule(p, k, f.modulePath, CallInterface(typ, member));
    assert CallRule(p, k, f.modulePath, typ) && MethodRule(p, k, own, m);
  }

  /** The declared type behind a local of a kept function is a reachable receiver. */
  lemma {:induction false} LocalIsReceiver(p: Program, f: FnRef, r: TypeRef, key: Key)
    requires Derivable(p, Live(f)) && HasFunction(p, f) && r in FunctionOf(p, f).locals && r.Valid()
    requires NamedReceiver(p.artifacts[f.modulePath].table, r, {}) == Some(key)
    ensures Derivable(p, Receiver(key))
  {
    hide Derivable, NamedReceiver, Reached, InstructionRule, PartOf, IsNode;
    LeastObeys(p);
    var k := Least(p);
    assert FunctionRule(p, k, f) && Holds(k, f.modulePath, r) && ShapeRule(p, k, f.modulePath, r);
  }

  /** Once a kept function looks methods up by reflection, every method of a reachable receiver
      is kept. */
  lemma {:induction false} ReflectionKeeps(p: Program, f: FnRef, id: string, own: string, m: Method, key: Key)
    requires Derivable(p, Live(f)) && HasFunction(p, f) && f.modulePath != "reflect"
    requires Call("reflect", id) in FunctionOf(p, f).code && FindsMethods("reflect", id)
    requires own in p.artifacts && m in p.artifacts[own].methods && m.functionId != ""
    requires NamedReceiver(p.artifacts[own].table, m.receiver, {}) == Some(key) && Derivable(p, Receiver(key))
    ensures Derivable(p, Live(FnRef(if m.modulePath == "" then own else m.modulePath, m.functionId)))
  {
    hide Derivable, NamedReceiver, Reached, FindsMethods;
    LeastObeys(p);
    var k := Least(p);
    assert FunctionRule(p, k, f) && InstructionRule(p, k, f.modulePath, Call("reflect", id)) && MethodRule(p, k, own, m);
  }

  /** The type `r`, in the table of module `m`, that an instruction of module `own` brings with it. */
  ghost predicate Brings(p: Program, own: string, i: Instruction, m: string, r: TypeRef)
    requires own in p.artifacts
  {
    match i
    case TypeUse(typ) => m == own && r == typ
    case CallInterface(typ, _) => m == own && r == typ
    case Const(id) => m == own && id in p.artifacts[own].constants && r == p.artifacts[own].constants[id]
    case LoadGlobal(id) => m == own && id in p.artifacts[own].globals && r == p.artifacts[own].globals[id]
    case AddressGlobal(id) => m == own && id in p.artifacts[own].globals && r == p.artifacts[own].globals[id]
    case LoadExport(from, name) => m == from && exists e :: Exports(p, from, name, e) && r == e.typ
    case AddressExport(from, name) => m == from && exists e :: Exports(p, from, name, e) && r == e.typ
    case Intrinsic(id) => DynamicResult(p, id, m, r)
    case _ => false
  }

  /** Whatever constant, global, export or type an instruction of a kept function brings with it
      makes the declared type behind it a reachable receiver, and if it can be an error, keeps
      the error methods of reachable receivers. */
  lemma {:induction false} BroughtIsReceiver(p: Program, f: FnRef, i: Instruction, m: string, r: TypeRef)
    requires Derivable(p, Live(f)) && HasFunction(p, f) && i in FunctionOf(p, f).code
    requires Brings(p, f.modulePath, i, m, r) && r.Valid() && m in p.artifacts
    ensures forall key :: NamedReceiver(p.artifacts[m].table, r, {}) == Some(key) ==> Derivable(p, Receiver(key))
    ensures IsErrorPrimitive(r) ==>
      Derivable(p, Required("Error", p.text.format(p.artifacts[m].table, Signature([], [TypeRef(Primitive, "String", NO_KEY, "")]))))
    ensures forall e :: IsErrorInterface(p, p.artifacts[m].table, r, e) ==> Derivable(p, Required("Error", p.text.format(p.artifacts[m].table, e.signature)))
  {
    hide Derivable, NamedReceiver, Reached, PartOf, IsNode, IsErrorInterface;
    LeastObeys(p);
    var k := Least(p);
    assert FunctionRule(p, k, f) && InstructionRule(p, k, f.modulePath, i);
    assert Holds(k, m, r);
    assert ShapeRule(p, k, m, r);
  }

  /** A direct call, a closure and a loaded function export keep their target. */
  lemma {:induction false} CalledIsKept(p: Program, f: FnRef, i: Instruction, m: string, id: string)
    requires Derivable(p, Live(f)) && HasFunction(p, f) && i in FunctionOf(p, f).code
    ensures i == Call(m, id) || i == MakeClosure(m, id) ==> Derivable(p, Live(FnRef(if m == "" then f.modulePath else m, id)))
    ensures forall e :: i == LoadExport(m, id) && Exports(p, m, id, e) && e.kind == FunctionExport ==> Derivable(p, Live(FnRef(m, e.id)))
  {
    hide Derivable, NamedReceiver, Reached, PartOf, IsNode;
    LeastObeys(p);
    assert FunctionRule(p, Least(p), f) && InstructionRule(p, Least(p), f.modulePath, i);
  }
}
