/** The code linker of `compiler/linker_reachability.go`: which functions survive.

    Three switches trigger one another: a kept function makes receiver types
    reachable and interface methods required, a reachable receiver with a required
    method keeps a function, and a kept function may turn on reflection.  The model
    proves that the worklist computes the least set closed under these rules. */
module LinkerReachability {
  import opened Options

  datatype FnRef = FnRef(modulePath: string, id: string)

  /** Identity of a declared type. */
  datatype Key = Key(modulePath: string, decl: string)

  const NO_KEY := Key("", "")

  datatype Kind = Invalid | Void | AnyKind | Primitive | Named | Pointer | Instance | Interface | Composite

  datatype TypeRef = TypeRef(kind: Kind, primitive: string, named: Key, node: string) {
    predicate Valid() {
      match kind
      case Void => primitive == "" && named == NO_KEY && node == ""
      case AnyKind => primitive == "" && named == NO_KEY && node == ""
      case Primitive => primitive != "" && named == NO_KEY && node == ""
      case Named => (named.modulePath != "" && named.decl != "") || node != ""
      case _ => node != "" && primitive == "" && named == NO_KEY
    }
  }

  datatype Signature = Signature(params: seq<TypeRef>, results: seq<TypeRef>)

  datatype Method = Method(name: string, receiver: TypeRef, signature: Signature, functionId: string, modulePath: string)

  datatype Node = Node(
    kind: Kind, identity: Key, alias: bool, aliasTarget: TypeRef, underlying: TypeRef, elem: TypeRef, key: TypeRef,
    constraint: TypeRef, base: TypeRef, signature: Option<Signature>, tuple: seq<TypeRef>, fields: seq<TypeRef>,
    terms: seq<TypeRef>, typeArgs: seq<TypeRef>, methods: seq<Method>)

  datatype Table = Table(nodes: map<string, Node>, names: map<Key, string>)

  datatype ExportKind = FunctionExport | GlobalExport | OtherExport

  datatype Export = Export(name: string, kind: ExportKind, id: string, typ: TypeRef)

  /** Decoded instructions; `Plain` stands for the opcodes that name no type,
      function or export. */
  datatype Instruction =
    | Plain
    | TypeUse(typ: TypeRef)
    | Call(modulePath: string, target: string)
    | Intrinsic(id: string)
    | MakeClosure(modulePath: string, target: string)
    | LoadExport(modulePath: string, name: string)
    | CallInterface(typ: TypeRef, member: string)
    | Const(id: string)
    | LoadGlobal(id: string)
    | AddressGlobal(id: string)
    | AddressExport(modulePath: string, name: string)

  datatype Function = Function(
    params: seq<TypeRef>, results: seq<TypeRef>, locals: seq<TypeRef>, upvalues: seq<TypeRef>, code: seq<Instruction>)

  datatype Requirement = Requirement(modulePath: string, exports: seq<string>)

  datatype Artifact = Artifact(
    functions: map<string, Function>, exports: seq<Export>, constants: map<string, TypeRef>,
    globals: map<string, TypeRef>, table: Table, methods: seq<Method>, requirements: seq<Requirement>)

  /** Type-text services of the compiler, used as given functions. */
  datatype TypeText = TypeText(format: (Table, Signature) -> string, isString: (Table, TypeRef) -> bool)

  datatype Program = Program(
    artifacts: map<string, Artifact>, entries: seq<FnRef>, text: TypeText, dynamicResults: map<string, Key>)

  // ----- type tables ------------------------------------------------------------

  function NodeOf(t: Table, ref: TypeRef): Option<Node> {
    if ref.node != "" && ref.node in t.nodes then Some(t.nodes[ref.node]) else None
  }

  function NamedOf(t: Table, key: Key): Option<Node> {
    if key in t.names && t.names[key] != "" && t.names[key] in t.nodes then Some(t.nodes[t.names[key]]) else None
  }

  function NodeForRef(t: Table, ref: TypeRef): Option<Node> {
    if ref.kind == Named && ref.node == "" then NamedOf(t, ref.named) else NodeOf(t, ref)
  }

  function Underlying(t: Table, ref: TypeRef, steps: nat): TypeRef
    decreases steps
  {
    if ref.kind != Named || steps == 0 || NodeForRef(t, ref).None? then ref
    else
      var node := NodeForRef(t, ref).value;
      if node.alias then
        if node.aliasTarget.Valid() then Underlying(t, node.aliasTarget, steps - 1) else ref
      else if node.underlying.Valid() then Underlying(t, node.underlying, steps - 1)
      else ref
  }

  function UnderlyingOf(t: Table, ref: TypeRef): TypeRef {
    Underlying(t, ref, |t.nodes| + 1)
  }

  function InterfaceMethods(t: Table, ref: TypeRef): Option<seq<Method>> {
    var under := UnderlyingOf(t, ref);
    if ref.kind == Named && under.kind == AnyKind then Some([])
    else if under.kind != Interface || NodeForRef(t, under).None? then None
    else if ref.kind == Named && NodeForRef(t, ref).Some? && NodeForRef(t, ref).value.methods != []
    then Some(NodeForRef(t, ref).value.methods)
    else Some(NodeForRef(t, under).value.methods)
  }

  /** The declared type behind pointers and generic instances. */
  function NamedReceiver(t: Table, ref: TypeRef, seen: set<string>): Option<Key>
    decreases t.nodes.Keys - seen
  {
    if !ref.Valid() then None
    else if ref.kind == Named && ref.named.modulePath != "" && ref.named.decl != "" then Some(ref.named)
    else if NodeOf(t, ref).None? || ref.node in seen then None
    else
      var node := NodeOf(t, ref).value;
      if node.identity.modulePath != "" && node.identity.decl != "" then Some(node.identity)
      else if node.kind == Pointer then NamedReceiver(t, node.elem, seen + {ref.node})
      else if node.kind == Instance then NamedReceiver(t, node.base, seen + {ref.node})
      else None
  }

  function Children(n: Node): seq<TypeRef> {
    [n.underlying, n.aliasTarget, n.elem, n.key, n.constraint, n.base]
    + SignatureRefs(n.signature) + n.tuple + n.fields + n.terms + n.typeArgs
  }

  function SignatureRefs(s: Option<Signature>): seq<TypeRef> {
    if s.None? then [] else s.value.params + s.value.results
  }

  function MethodRefs(methods: seq<Method>): seq<TypeRef> {
    if methods == [] then []
    else methods[0].signature.params + methods[0].signature.results + MethodRefs(methods[1..])
  }

  // ----- facts and rules ------------------------------------------------------------

  datatype Fact = Live(fn: FnRef) | Receiver(key: Key) | Required(name: string, signature: string) | Reflection

  /** The two type walks: `Shapes` follows the parts of a type, `Calls` the
      signatures an interface call may pass through. */
  datatype Walk = Shapes | Calls

  function Successors(w: Walk, t: Table, ref: TypeRef): seq<TypeRef> {
    match w
    case Shapes =>
      var node := if NodeOf(t, ref).None? && ref.kind == Named then NamedOf(t, ref.named) else NodeOf(t, ref);
      if node.None? then [] else Children(node.value)
    case Calls =>
      var methods := InterfaceMethods(t, ref);
      var node := NodeOf(t, UnderlyingOf(t, ref));
      (if methods.None? then [] else MethodRefs(methods.value)) + (if node.None? then [] else Children(node.value))
  }

  const STRING_TYPE := TypeRef(Primitive, "String", NO_KEY, "")

  function ErrorPrimitiveFacts(p: Program, t: Table, ref: TypeRef): set<Fact> {
    if ref.kind == Primitive && ref.primitive == "Error"
    then {Required("Error", p.text.format(t, Signature([], [STRING_TYPE])))} else {}
  }

  function VisitFacts(p: Program, w: Walk, t: Table, ref: TypeRef): set<Fact> {
    var methods := InterfaceMethods(t, ref);
    ErrorPrimitiveFacts(p, t, ref) +
    match w
    case Shapes =>
      (if methods.Some? && |methods.value| == 1 && methods.value[0].name == "Error"
          && methods.value[0].signature.params == [] && |methods.value[0].signature.results| == 1
          && p.text.isString(t, methods.value[0].signature.results[0])
       then {Required("Error", p.text.format(t, methods.value[0].signature))} else {})
      + (var key := NamedReceiver(t, ref, {}); if key.Some? then {Receiver(key.value)} else {})
    case Calls =>
      if methods.None? then {}
      else set m | m in methods.value :: Required(m.name, p.text.format(t, m.signature))
  }

  /** One type use inside a function: which walk starts where. */
  datatype Use = Use(walk: Walk, modulePath: string, typ: TypeRef)

  function TargetModule(modulePath: string, own: string): string {
    if modulePath == "" then own else modulePath
  }

  function FindExport(exports: seq<Export>, name: string): Option<Export> {
    if exports == [] then None
    else if exports[|exports| - 1].name == name then Some(exports[|exports| - 1])
    else FindExport(exports[..|exports| - 1], name)
  }

  function ExportOf(p: Program, modulePath: string, name: string): Option<Export> {
    if modulePath in p.artifacts then FindExport(p.artifacts[modulePath].exports, name) else None
  }

  function InstructionUses(p: Program, own: string, i: Instruction): seq<Use>
    requires own in p.artifacts
  {
    match i
    case TypeUse(typ) => [Use(Shapes, own, typ)]
    case Intrinsic(id) =>
      if id !in p.dynamicResults then []
      else
        var key := p.dynamicResults[id];
        if key.modulePath in p.artifacts && NamedOf(p.artifacts[key.modulePath].table, key).Some?
        then
          var t := p.artifacts[key.modulePath].table;
          [Use(Shapes, key.modulePath, TypeRef(Named, "", NamedOf(t, key).value.identity, t.names[key]))]
        else []
    case LoadExport(m, name) => ExportUse(p, m, name)
    case AddressExport(m, name) => ExportUse(p, m, name)
    case CallInterface(typ, _) => [Use(Shapes, own, typ), Use(Calls, own, typ)]
    case Const(id) => TypedUse(p.artifacts[own].constants, own, id)
    case LoadGlobal(id) => TypedUse(p.artifacts[own].globals, own, id)
    case AddressGlobal(id) => TypedUse(p.artifacts[own].globals, own, id)
    case _ => []
  }

  function ExportUse(p: Program, m: string, name: string): seq<Use> {
    if ExportOf(p, m, name).Some? then [Use(Shapes, m, ExportOf(p, m, name).value.typ)] else []
  }

  function TypedUse(types: map<string, TypeRef>, own: string, id: string): seq<Use> {
    if id in types then [Use(Shapes, own, types[id])] else []
  }

  function InstructionMarks(p: Program, own: string, i: Instruction): set<Fact>
    requires own in p.artifacts
  {
    match i
    case Call(m, f) =>
      var target := TargetModule(m, own);
      {Live(FnRef(target, f))} +
      (if target == "reflect" && own != "reflect" &&
          f in {"method.Value.NumMethod", "method.Value.Method", "method.Value.MethodByName", "method.Value.Methods"}
       then {Reflection} else {})
    case MakeClosure(m, f) => {Live(FnRef(TargetModule(m, own), f))}
    case LoadExport(m, name) =>
      var found := ExportOf(p, m, name);
      if found.Some? && found.value.kind == FunctionExport then {Live(FnRef(m, found.value.id))} else {}
    case CallInterface(typ, member) =>
      if own != "reflect" && NamedReceiver(p.artifacts[own].table, typ, {}) == Some(Key("reflect", "Type"))
         && member in {"NumMethod", "Method", "MethodByName", "Methods"}
      then {Reflection} else {}
    case _ => {}
  }

  /** Instructions on which linking reports an error. */
  predicate InstructionFails(p: Program, i: Instruction) {
    match i
    case Intrinsic(id) =>
      id in p.dynamicResults &&
      var key := p.dynamicResults[id];
      (key.modulePath in p.artifacts ==> NamedOf(p.artifacts[key.modulePath].table, key).None?)
    case LoadExport(m, name) => ExportOf(p, m, name).None?
    case AddressExport(m, name) =>
      m in p.artifacts && (ExportOf(p, m, name).None? || ExportOf(p, m, name).value.kind != GlobalExport)
    case _ => false
  }

  predicate HasFunction(p: Program, f: FnRef) {
    f.modulePath in p.artifacts && f.id in p.artifacts[f.modulePath].functions
  }

  function FunctionOf(p: Program, f: FnRef): Function
    requires HasFunction(p, f)
  {
    p.artifacts[f.modulePath].functions[f.id]
  }

  /** A function the linker cannot process: absent, or with a failing instruction. */
  predicate Broken(p: Program, f: FnRef) {
    !HasFunction(p, f) || exists i :: i in FunctionOf(p, f).code && InstructionFails(p, i)
  }

  function SignatureUses(own: string, refs: seq<TypeRef>): seq<Use> {
    seq(|refs|, i requires 0 <= i < |refs| => Use(Shapes, own, refs[i]))
  }

  function DeclarationUses(f: Function, own: string): seq<Use> {
    SignatureUses(own, f.params + f.results + f.locals + f.upvalues)
  }

  /** Method implementations, as indexed before the worklist starts. */
  datatype Candidate = Candidate(fn: FnRef, name: string, signature: string, receiver: Option<Key>)

  function CandidateOf(p: Program, own: string, m: Method): Candidate
    requires own in p.artifacts
  {
    var t := p.artifacts[own].table;
    Candidate(FnRef(TargetModule(m.modulePath, own), m.functionId), m.name,
              p.text.format(t, m.signature), NamedReceiver(t, m.receiver, {}))
  }

  function Candidates(p: Program): set<Candidate> {
    set own, m | own in p.artifacts && m in p.artifacts[own].methods && m.functionId != "" :: CandidateOf(p, own, m)
  }

  function Roots(p: Program): set<FnRef> {
    (set own | own in p.artifacts && "fn.init" in p.artifacts[own].functions :: FnRef(own, "fn.init"))
    + (set f | f in p.entries)
  }

  // ----- the least closed set ---------------------------------------------------------

  ghost predicate WalkClosed(w: Walk, t: Table, start: TypeRef, s: iset<TypeRef>) {
    && (start.Valid() ==> start in s)
    && (forall r, c :: r in s && c in Successors(w, t, r) && c.Valid() ==> c in s)
  }

  ghost predicate Walked(w: Walk, t: Table, start: TypeRef, r: TypeRef) {
    forall s: iset<TypeRef> :: WalkClosed(w, t, start, s) ==> r in s
  }

  ghost predicate UseFact(p: Program, u: Use, fact: Fact) {
    u.modulePath in p.artifacts &&
    exists r :: Walked(u.walk, p.artifacts[u.modulePath].table, u.typ, r)
             && fact in VisitFacts(p, u.walk, p.artifacts[u.modulePath].table, r)
  }

  /** What keeping `f` implies by itself. */
  ghost predicate Implies(p: Program, f: FnRef, fact: Fact) {
    HasFunction(p, f) &&
    (|| (exists u :: u in DeclarationUses(FunctionOf(p, f), f.modulePath) && UseFact(p, u, fact))
     || (exists i :: i in FunctionOf(p, f).code && InstructionImplies(p, f.modulePath, i, fact)))
  }

  ghost predicate InstructionImplies(p: Program, own: string, i: Instruction, fact: Fact)
    requires own in p.artifacts
  {
    || fact in InstructionMarks(p, own, i)
    || (exists u :: u in InstructionUses(p, own, i) && UseFact(p, u, fact))
  }

  /** A reachable receiver whose method is required, or reached by reflection. */
  ghost predicate Triggered(c: Candidate, s: iset<Fact>) {
    && c.receiver.Some? && Receiver(c.receiver.value) in s
    && (Required(c.name, c.signature) in s || Reflection in s)
  }

  ghost predicate Closed(p: Program, s: iset<Fact>) {
    && (forall f :: f in Roots(p) ==> Live(f) in s)
    && (forall f, fact :: Live(f) in s && Implies(p, f, fact) ==> fact in s)
    && (forall c :: c in Candidates(p) && Triggered(c, s) ==> Live(c.fn) in s)
  }

  ghost predicate Derivable(p: Program, fact: Fact) {
    forall s: iset<Fact> :: Closed(p, s) ==> fact in s
  }

  lemma DerivableClosed(p: Program)
    ensures Closed(p, iset fact | Derivable(p, fact))
  {
    var least := iset fact | Derivable(p, fact);
    forall f, fact | Live(f) in least && Implies(p, f, fact) ensures fact in least {
      forall s: iset<Fact> | Closed(p, s) ensures fact in s {
        assert Live(f) in s;
      }
    }
    forall c | c in Candidates(p) && Triggered(c, least) ensures Live(c.fn) in least {
      forall s: iset<Fact> | Closed(p, s) ensures Live(c.fn) in s {
        assert Receiver(c.receiver.value) in s;
        assert Required(c.name, c.signature) in least ==> Required(c.name, c.signature) in s;
        assert Reflection in least ==> Reflection in s;
      }
    }
  }

  lemma WalkedClosed(w: Walk, t: Table, start: TypeRef)
    ensures WalkClosed(w, t, start, iset r | Walked(w, t, start, r))
  {
    var least := iset r | Walked(w, t, start, r);
    forall r, c | r in least && c in Successors(w, t, r) && c.Valid() ensures c in least {
      forall s: iset<TypeRef> | WalkClosed(w, t, start, s) ensures c in s {
        assert r in s;
      }
    }
  }
}
