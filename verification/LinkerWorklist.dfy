/** The worklist of `retainReachableCode`, proved against the least closed set. */
module LinkerWorklist {
  import opened Options
  import opened LinkerReachability
  import LinkerRules

  datatype Outcome = Kept(keep: set<FnRef>) | Failed(culprit: FnRef)

  function AllRefs(t: Table): set<TypeRef> {
    set id, r | id in t.nodes && r in NodeRefs(t.nodes[id]) :: r
  }

  function NodeRefs(n: Node): seq<TypeRef> {
    Children(n) + MethodRefs(n.methods)
  }

  lemma SuccessorsInTable(w: Walk, t: Table, ref: TypeRef, c: TypeRef)
    requires c in Successors(w, t, ref)
    ensures c in AllRefs(t)
  {
    var id :| id in t.nodes && c in NodeRefs(t.nodes[id]);
  }

  lemma SmallerOutside(universe: set<TypeRef>, seen: set<TypeRef>, more: set<TypeRef>)
    requires seen <= more
    ensures |universe - more| <= |universe - seen|
    ensures forall r :: r in universe && r in more && r !in seen ==> |universe - more| < |universe - seen|
  {
    var gone := (universe - seen) * more;
    assert universe - seen == (universe - more) + gone && (universe - more) !! gone;
    assert gone != {} ==> |gone| > 0;
  }

  /** A visited reference: its successors are visited and its facts recorded. */
  ghost predicate Settled(p: Program, w: Walk, t: Table, r: TypeRef, reached: set<TypeRef>, known: iset<Fact>) {
    && (forall c :: c in Successors(w, t, r) && c.Valid() ==> c in reached)
    && (forall fact :: fact in VisitFacts(p, w, t, r) ==> fact in known)
  }

  /** References visited since `seen` are complete. */
  ghost predicate Complete(p: Program, w: Walk, t: Table, seen: set<TypeRef>, reached: set<TypeRef>, known: iset<Fact>) {
    seen <= reached && forall r :: r in reached && r !in seen ==> Settled(p, w, t, r, reached, known)
  }

  lemma CompleteGrows(p: Program, w: Walk, t: Table, seen: set<TypeRef>, middle: set<TypeRef>, reached: set<TypeRef>,
                      known: iset<Fact>, more: iset<Fact>)
    requires Complete(p, w, t, seen, middle, known) && Complete(p, w, t, middle, reached, more) && known <= more
    ensures Complete(p, w, t, seen, reached, more)
  {
  }

  lemma MethodRule(p: Program, c: Candidate)
    requires c in Candidates(p) && c.receiver.Some? && Derivable(p, Receiver(c.receiver.value))
    requires Derivable(p, Required(c.name, c.signature)) || Derivable(p, Reflection)
    ensures Derivable(p, Live(c.fn))
  {
    DerivableClosed(p);
    assert Triggered(c, iset fact | Derivable(p, fact));
  }

  class Worklist {
    const p: Program
    var queue: seq<FnRef>
    var next: nat
    var queued: set<FnRef>
    var keep: set<FnRef>
    var receivers: set<Key>
    var required: set<(string, string)>
    var reflection: bool

    constructor (p: Program)
      ensures this.p == p && queue == [] && next == 0 && queued == {} && keep == {}
      ensures receivers == {} && required == {} && !reflection
    {
      this.p := p;
      queue, next, queued, keep := [], 0, {}, {};
      receivers, required, reflection := {}, {}, false;
    }

    ghost predicate Has(fact: Fact) reads this {
      match fact
      case Live(f) => f in keep || f in queued
      case Receiver(k) => k in receivers
      case Required(n, s) => (n, s) in required
      case Reflection => reflection
    }

    ghost function Facts(): iset<Fact> reads this {
      iset fact | Has(fact)
    }

    ghost predicate Fires(c: Candidate) reads this {
      && c.receiver.Some? && c.receiver.value in receivers
      && ((c.name, c.signature) in required || reflection)
    }

    /** The queue is in order, and everything recorded is derivable. */
    ghost predicate Sound() reads this {
      && next <= |queue|
      && (forall i, j :: next <= i < j < |queue| ==> queue[i] != queue[j])
      && (forall f :: f in queued <==> f in queue[next..])
      && keep !! queued
      && (forall fact :: Has(fact) ==> Derivable(p, fact))
    }

    /** The method rules are applied to all candidates outside `todo`. */
    ghost predicate ValidBut(todo: set<Candidate>) reads this {
      Sound() && forall c :: c in Candidates(p) && Fires(c) && c !in todo ==> Has(Live(c.fn))
    }

    ghost predicate Valid() reads this {
      ValidBut({})
    }

    twostate predicate Grew() reads this {
      && next == old(next) && keep == old(keep)
      && old(queued) <= queued && old(receivers) <= receivers && old(required) <= required
      && (old(reflection) ==> reflection) && old(Facts()) <= Facts()
    }

    method Enqueue(f: FnRef)
      requires Sound() && Derivable(p, Live(f))
      modifies this`queue, this`queued
      ensures Sound() && Has(Live(f)) && Grew()
    {
      if f !in keep && f !in queued {
        queued := queued + {f};
        queue := queue + [f];
        assert queue[next..] == old(queue)[next..] + [f];
      }
    }

    /** Enqueues triggered methods, in any order. */
    method EnqueueAll(candidates: set<Candidate>)
      requires ValidBut(candidates) && forall c :: c in candidates ==> Derivable(p, Live(c.fn))
      modifies this`queue, this`queued
      ensures Valid() && Grew()
    {
      var todo := candidates;
      while todo != {}
        invariant ValidBut(todo) && todo <= candidates && Grew()
        decreases todo
      {
        var c :| c in todo;
        Enqueue(c.fn);
        todo := todo - {c};
      }
    }

    method RequireMethod(name: string, signature: string)
      requires Valid() && Derivable(p, Required(name, signature))
      modifies this
      ensures Valid() && Grew() && Has(Required(name, signature))
    {
      hide Derivable, Candidates;
      assert forall k :: k in receivers ==> Has(Receiver(k));
      required := required + {(name, signature)};
      var todo := set c | c in Candidates(p) && c.name == name && c.signature == signature
        && c.receiver.Some? && c.receiver.value in receivers;
      forall c | c in todo ensures Derivable(p, Live(c.fn)) { MethodRule(p, c); }
      EnqueueAll(todo);
    }

    method AddReceiver(key: Key)
      requires Valid() && Derivable(p, Receiver(key))
      modifies this
      ensures Valid() && Grew() && Has(Receiver(key))
    {
      hide Derivable, Candidates;
      if key !in receivers {
        assert forall r :: r in required ==> Has(Required(r.0, r.1));
        assert reflection ==> Has(Reflection);
        receivers := receivers + {key};
        var todo := set c | c in Candidates(p) && c.receiver == Some(key)
          && (reflection || (c.name, c.signature) in required);
        forall c | c in todo ensures Derivable(p, Live(c.fn)) { MethodRule(p, c); }
        EnqueueAll(todo);
      }
    }

    method EnableReflection()
      requires Valid() && Derivable(p, Reflection)
      modifies this
      ensures Valid() && Grew() && Has(Reflection)
    {
      hide Derivable, Candidates;
      if !reflection {
        assert forall k :: k in receivers ==> Has(Receiver(k));
        reflection := true;
        var todo := set c | c in Candidates(p) && c.receiver.Some? && c.receiver.value in receivers;
        forall c | c in todo ensures Derivable(p, Live(c.fn)) { MethodRule(p, c); }
        EnqueueAll(todo);
      }
    }

    method Learn(fact: Fact)
      requires Valid() && Derivable(p, fact)
      modifies this
      ensures Valid() && Grew() && Has(fact)
    {
      match fact
      case Live(f) => Enqueue(f);
      case Receiver(key) => AddReceiver(key);
      case Required(name, signature) => RequireMethod(name, signature);
      case Reflection => EnableReflection();
    }

    method LearnAll(facts: set<Fact>)
      requires Valid() && forall fact :: fact in facts ==> Derivable(p, fact)
      modifies this
      ensures Valid() && Grew() && forall fact :: fact in facts ==> Has(fact)
    {
      var todo := facts;
      while todo != {}
        invariant Valid() && Grew() && todo <= facts
        invariant forall fact :: fact in facts ==> fact in todo || fact in Facts()
        decreases todo
      {
        var fact :| fact in todo;
        Learn(fact);
        todo := todo - {fact};
      }
    }

    /** Every reference of the walk that began at `start` justifies its facts. */
    ghost predicate Justified(w: Walk, t: Table, start: TypeRef) reads this {
      forall r, fact :: Walked(w, t, start, r) && fact in VisitFacts(p, w, t, r) ==> Derivable(p, fact)
    }

    /** The recursive visitor of both walks. */
    method Visit(w: Walk, t: Table, ref: TypeRef, seen: set<TypeRef>, ghost start: TypeRef, ghost universe: set<TypeRef>)
      returns (reached: set<TypeRef>)
      requires Valid() && ref in universe && AllRefs(t) <= universe && Justified(w, t, start)
      requires ref.Valid() ==> Walked(w, t, start, ref)
      modifies this
      ensures Valid() && Grew() && Complete(p, w, t, seen, reached, Facts()) && (ref.Valid() ==> ref in reached)
      decreases |universe - seen|, 0
    {
      reached := seen;
      if !ref.Valid() || ref in seen {
        return;
      }
      reached := seen + {ref};
      LearnAll(VisitFacts(p, w, t, ref));
      ghost var learned := Facts();
      SmallerOutside(universe, seen, reached);
      var children := Successors(w, t, ref);
      forall c | c in children ensures c in universe && (c.Valid() ==> Walked(w, t, start, c)) {
        SuccessorsInTable(w, t, ref, c);
        WalkedClosed(w, t, start);
      }
      reached := VisitAll(w, t, children, reached, start, universe);
      assert Settled(p, w, t, ref, reached, Facts());
    }

    method VisitAll(w: Walk, t: Table, refs: seq<TypeRef>, seen: set<TypeRef>, ghost start: TypeRef, ghost universe: set<TypeRef>)
      returns (reached: set<TypeRef>)
      requires Valid() && AllRefs(t) <= universe && Justified(w, t, start)
      requires forall c <- refs :: c in universe && (c.Valid() ==> Walked(w, t, start, c))
      modifies this
      ensures Valid() && Grew() && Complete(p, w, t, seen, reached, Facts())
      ensures forall c :: c in refs && c.Valid() ==> c in reached
      decreases |universe - seen|, |refs| + 1
    {
      reached := seen;
      if refs != [] {
        var first := Visit(w, t, refs[0], seen, start, universe);
        ghost var known := Facts();
        SmallerOutside(universe, seen, first);
        reached := VisitAll(w, t, refs[1..], first, start, universe);
        CompleteGrows(p, w, t, seen, first, reached, known, Facts());
      }
    }

    /** Visits one type use of a kept function. */
    method WalkType(u: Use)
      requires Valid() && u.modulePath in p.artifacts
      requires forall fact :: UseFact(p, u, fact) ==> Derivable(p, fact)
      modifies this
      ensures Valid() && Grew() && forall fact :: UseFact(p, u, fact) ==> fact in Facts()
    {
      var t := p.artifacts[u.modulePath].table;
      var reached := Visit(u.walk, t, u.typ, {}, u.typ, AllRefs(t) + {u.typ});
      WalkEnds(p, u, reached, Facts());
    }

    method WalkAll(uses: seq<Use>)
      requires Valid() && forall u <- uses :: u.modulePath in p.artifacts
      requires forall u, fact :: u in uses && UseFact(p, u, fact) ==> Derivable(p, fact)
      modifies this
      ensures Valid() && Grew() && forall u, fact :: u in uses && UseFact(p, u, fact) ==> fact in Facts()
    {
      hide UseFact, Derivable;
      var i := 0;
      while i < |uses|
        invariant 0 <= i <= |uses| && Valid() && Grew()
        invariant forall u, fact :: u in uses[..i] && UseFact(p, u, fact) ==> fact in Facts()
      {
        assert uses[..i + 1] == uses[..i] + [uses[i]];
        WalkType(uses[i]);
        i := i + 1;
      }
      assert uses[..i] == uses;
    }

    method Execute(own: string, i: Instruction) returns (ok: bool)
      requires Valid() && own in p.artifacts
      requires forall fact :: InstructionImplies(p, own, i, fact) ==> Derivable(p, fact)
      modifies this
      ensures Valid() && Grew() && ok == !InstructionFails(p, i)
      ensures ok ==> forall fact :: InstructionImplies(p, own, i, fact) ==> fact in Facts()
    {
      ok := !InstructionFails(p, i);
      if ok {
        WalkAll(InstructionUses(p, own, i));
        LearnAll(InstructionMarks(p, own, i));
      }
    }

    /** Traces one kept function. */
    method Trace(f: FnRef) returns (ok: bool)
      requires Valid() && HasFunction(p, f) && Derivable(p, Live(f))
      modifies this
      ensures Valid() && Grew() && ok == !Broken(p, f)
      ensures ok ==> forall fact :: Implies(p, f, fact) ==> fact in Facts()
    {
      forall fact | Implies(p, f, fact) ensures Derivable(p, fact) {
        DerivableClosed(p);
      }
      hide UseFact, InstructionImplies, InstructionFails, Derivable;
      var function_ := FunctionOf(p, f);
      var declared := DeclarationUses(function_, f.modulePath);
      WalkAll(declared);
      var code, n := function_.code, 0;
      while n < |code|
        invariant 0 <= n <= |code| && Valid() && Grew()
        invariant forall u, fact :: u in declared && UseFact(p, u, fact) ==> fact in Facts()
        invariant forall i <- code[..n] :: !InstructionFails(p, i)
        invariant forall i, fact :: i in code[..n] && InstructionImplies(p, f.modulePath, i, fact) ==> fact in Facts()
      {
        ok := Execute(f.modulePath, code[n]);
        if !ok {
          return;
        }
        n := n + 1;
      }
      assert code[..n] == code;
      ok := true;
    }

    /** Processes the head of the queue. */
    method Step() returns (f: FnRef, ok: bool)
      requires Valid() && next < |queue| && Traced(p, keep, Facts())
      modifies this
      ensures Valid() && old(Facts()) <= Facts() && f !in old(keep)
      ensures Derivable(p, Live(f)) && ok == !Broken(p, f)
      ensures ok ==> keep == old(keep) + {f} && Traced(p, keep, Facts())
    {
      f := queue[next];
      assert Has(Live(f)) by { assert f in queue[next..]; }
      assert f !in keep;
      if !HasFunction(p, f) {
        return f, false;
      }
      Pop(f);
      ghost var known := Facts();
      ok := Trace(f);
      if ok {
        TraceAdds(p, old(keep), f, known, Facts());
      }
    }

    lemma Drained()
      requires Valid() && next == |queue|
      ensures forall f :: Live(f) in Facts() <==> f in keep
      ensures forall fact :: fact in Facts() ==> Derivable(p, fact)
      ensures forall c :: c in Candidates(p) && Triggered(c, Facts()) ==> Live(c.fn) in Facts()
    {
      assert forall c :: c in Candidates(p) && Triggered(c, Facts()) ==> Fires(c);
    }

    method Run() returns (outcome: Outcome)
      requires queue == [] && next == 0 && queued == {} && keep == {}
      requires receivers == {} && required == {} && !reflection
      modifies this
      ensures outcome.Kept? <==> forall f :: Derivable(p, Live(f)) ==> !Broken(p, f)
      ensures outcome.Kept? ==> forall f :: f in outcome.keep <==> Derivable(p, Live(f))
      ensures outcome.Failed? ==> Derivable(p, Live(outcome.culprit)) && Broken(p, outcome.culprit)
    {
      assert forall fact :: !Has(fact);
      DerivableClosed(p);
      var roots := set f | f in Roots(p) :: Live(f);
      LearnAll(roots);
      while next < |queue|
        invariant Valid() && Traced(p, keep, Facts()) && forall fact :: fact in roots ==> fact in Facts()
        decreases AllFunctions(p) - keep
      {
        var f, ok := Step();
        if !ok {
          return Failed(f);
        }
      }
      Drained();
      assert forall f :: f in Roots(p) ==> Live(f) in roots;
      FixpointReached(p, keep, Facts());
      outcome := Kept(keep);
    }

    /** Takes the head of the queue into the kept set. */
    method Pop(f: FnRef)
      requires Valid() && next < |queue| && f == queue[next]
      modifies this
      ensures Valid() && Facts() == old(Facts()) && keep == old(keep) + {f} && f !in old(keep)
      ensures queue == old(queue) && receivers == old(receivers)
    {
      assert queue[next..] == [f] + queue[next + 1..];
      next := next + 1;
      queued := queued - {f};
      keep := keep + {f};
      assert forall fact :: Has(fact) <==> old(Has(fact));
    }
  }

  /** Every kept function has been traced without error. */
  ghost predicate Traced(p: Program, keep: set<FnRef>, known: iset<Fact>) {
    forall f :: f in keep ==> !Broken(p, f) && forall fact :: Implies(p, f, fact) ==> fact in known
  }

  lemma TraceAdds(p: Program, keep: set<FnRef>, f: FnRef, known: iset<Fact>, more: iset<Fact>)
    requires Traced(p, keep, known) && known <= more && Traced(p, {f}, more)
    ensures Traced(p, keep + {f}, more)
  {
  }

  ghost function AllFunctions(p: Program): set<FnRef> {
    set own, id | own in p.artifacts && id in p.artifacts[own].functions :: FnRef(own, id)
  }

  lemma WalkEnds(p: Program, u: Use, reached: set<TypeRef>, known: iset<Fact>)
    requires u.modulePath in p.artifacts
    requires Complete(p, u.walk, p.artifacts[u.modulePath].table, {}, reached, known) && (u.typ.Valid() ==> u.typ in reached)
    ensures forall fact :: UseFact(p, u, fact) ==> fact in known
  {
    var t := p.artifacts[u.modulePath].table;
    var visited := iset r | r in reached;
    assert WalkClosed(u.walk, t, u.typ, visited) by {
      assert forall r :: r in visited ==> Settled(p, u.walk, t, r, reached, known);
    }
  }

  lemma FixpointReached(p: Program, keep: set<FnRef>, known: iset<Fact>)
    requires forall fact :: fact in known ==> Derivable(p, fact)
    requires forall f :: Live(f) in known <==> f in keep
    requires forall f :: f in Roots(p) ==> Live(f) in known
    requires Traced(p, keep, known)
    requires forall c :: c in Candidates(p) && Triggered(c, known) ==> Live(c.fn) in known
    ensures forall f :: f in keep <==> Derivable(p, Live(f))
    ensures forall f :: Derivable(p, Live(f)) ==> !Broken(p, f)
  {
    assert Closed(p, known);
  }

  /** The linker entry point: from scratch, with an empty worklist. */
  method RetainReachable(p: Program) returns (outcome: Outcome)
    ensures outcome.Kept? <==> forall f :: Derivable(p, Live(f)) ==> !Broken(p, f)
    ensures outcome.Kept? ==> forall f :: f in outcome.keep <==> Derivable(p, Live(f))
    ensures outcome.Failed? ==> Derivable(p, Live(outcome.culprit)) && Broken(p, outcome.culprit)
    ensures outcome.Kept? ==> forall f :: f in outcome.keep <==> LinkerRules.MustStay(p, f)
    ensures outcome.Failed? ==> LinkerRules.MustStay(p, outcome.culprit)
  {
    var worklist := new Worklist(p);
    outcome := worklist.Run();
    forall f ensures Derivable(p, Live(f)) <==> LinkerRules.MustStay(p, f) { LinkerRules.DerivableIsMustStay(p, f); }
  }
}
