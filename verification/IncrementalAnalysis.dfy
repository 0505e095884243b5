/** Incremental semantic analysis of a package graph: `compiler/analysis.go` and
    `compiler/dependency_facts.go`.

    A package is reused when its own source digest and the digests of its direct
    imports are unchanged.  The model proves that this shallow test is enough: the
    incremental result is the result of a run that reuses nothing. */
module IncrementalAnalysis {
  import opened Options

  type Path = string

  /** One public declaration of a package; `surface` stands for its signature,
      fields, methods and constant value. */
  datatype Member = Member(name: string, isType: bool, surface: string)

  /** Dependency facts handed to the checker: package path to visible members. */
  type Facts = map<Path, seq<Member>>

  datatype Source = Source(files: string, resources: seq<(string, string)>)

  datatype Header = Header(source: Source, imports: seq<Path>)

  /** `hasErrors` says that the graph's own diagnostics contain an error. */
  datatype Graph = Graph(order: seq<Path>, packages: map<Path, Header>, diagnostics: seq<string>, hasErrors: bool)

  /** Target and limits, compared as a whole by the reuse test. */
  datatype Config = Config(target: string, limits: nat)

  datatype Parse<A> = Rejected(diagnostics: seq<string>) | Parsed(ast: A)

  /** Parser and checker, as deterministic functions of their inputs. */
  datatype FrontEnd<!A, !I> = FrontEnd(
    parse: (Config, Path, Source) -> Parse<A>,
    check: (Config, A, Facts) -> I,
    diagnostics: I -> seq<string>,
    hasErrors: I -> bool,
    exports: I -> seq<Member>)

  /** Digests are free constructors: equal digests have equal contents.  `Absent`
      is the empty string read from a map without an entry. */
  datatype ExportDigest = Absent | Digest(surface: Option<seq<Member>>, types: Facts)

  type DependencyDigest = multiset<(Path, ExportDigest)>

  datatype Result<+I> = Result(
    packages: map<Path, I>,
    exportHashes: map<Path, ExportDigest>,
    sourceHashes: map<Path, Source>,
    dependencyHashes: map<Path, DependencyDigest>,
    diagnostics: seq<string>)

  /** Loop state: the result so far, the surfaces of the packages without errors,
      and whether an error has ended the run. */
  datatype Progress<+I> = Progress(result: Result<I>, exports: map<Path, seq<Member>>, stopped: bool)

  // ----- dependency facts -----------------------------------------------------

  function TypesOf(members: seq<Member>): (types: seq<Member>)
    ensures forall m <- types :: m.isType && m in members
    ensures forall m <- members :: m.isType ==> m in types
  {
    if members == [] then []
    else (if members[0].isType then [members[0]] else []) + TypesOf(members[1..])
  }

  lemma {:induction false} TypesOfTypes(members: seq<Member>)
    ensures TypesOf(TypesOf(members)) == TypesOf(members)
  {
    if members != [] {
      TypesOfTypes(members[1..]);
      var rest := TypesOf(members[1..]);
      assert members[0].isType ==> ([members[0]] + rest)[1..] == rest;
      assert [] + rest == rest;
    }
  }

  function ImportsOf(g: Graph, q: Path): seq<Path> {
    if q in g.packages then g.packages[q].imports else []
  }

  /** `s` holds the analysed roots and, with a package, its analysed imports. */
  ghost predicate ReachClosed(exports: map<Path, seq<Member>>, g: Graph, roots: seq<Path>, s: iset<Path>) {
    && (forall q :: q in roots && q in exports ==> q in s)
    && (forall q, r :: q in s && r in ImportsOf(g, q) && r in exports ==> r in s)
  }

  ghost predicate Reachable(exports: map<Path, seq<Member>>, g: Graph, roots: seq<Path>, q: Path) {
    forall s: iset<Path> :: ReachClosed(exports, g, roots, s) ==> q in s
  }

  /** Direct imports contribute every member, the rest of the closure only types. */
  ghost function FactsOf(exports: map<Path, seq<Member>>, g: Graph, roots: seq<Path>): Facts {
    map q | q in exports && Reachable(exports, g, roots, q) && (q in roots || TypesOf(exports[q]) != [])
      :: if q in roots then exports[q] else TypesOf(exports[q])
  }

  lemma ReachableIsClosed(exports: map<Path, seq<Member>>, g: Graph, roots: seq<Path>)
    ensures ReachClosed(exports, g, roots, iset q | Reachable(exports, g, roots, q))
  {
    var least := iset q | Reachable(exports, g, roots, q);
    forall q, r | q in least && r in ImportsOf(g, q) && r in exports
      ensures r in least
    {
      forall s: iset<Path> | ReachClosed(exports, g, roots, s) ensures r in s {
        assert q in s;
      }
    }
  }

  /** Facts of the packages visited so far. */
  ghost function FactsSeen(exports: map<Path, seq<Member>>, imports: seq<Path>, seen: set<Path>): Facts {
    map q | q in seen && q in exports && (q in imports || TypesOf(exports[q]) != [])
      :: if q in imports then exports[q] else TypesOf(exports[q])
  }

  lemma FactsSeenAdd(exports: map<Path, seq<Member>>, imports: seq<Path>, seen: set<Path>, path: Path)
    ensures var facts := FactsSeen(exports, imports, seen);
      FactsSeen(exports, imports, seen + {path}) ==
      if path in exports && (path in imports || TypesOf(exports[path]) != [])
      then facts[path := if path in imports then exports[path] else TypesOf(exports[path])]
      else facts
  {
  }

  /** What is left to visit: everything owed is seen or pending, and all of it is reachable. */
  ghost predicate Frontier(exports: map<Path, seq<Member>>, g: Graph, imports: seq<Path>, seen: set<Path>, pending: seq<Path>) {
    && (forall q :: q in imports ==> q in seen || q in pending)
    && (forall q, r :: q in seen && q in exports && r in ImportsOf(g, q) ==> r in seen || r in pending)
    && (forall q :: q in seen && q in exports ==> Reachable(exports, g, imports, q))
    && (forall q :: q in pending && q in exports ==> Reachable(exports, g, imports, q))
  }

  ghost function Universe(g: Graph, imports: seq<Path>): set<Path> {
    (set q | q in imports) + (set q, r | q in g.packages && r in g.packages[q].imports :: r)
  }

  lemma FrontierStep(exports: map<Path, seq<Member>>, g: Graph, imports: seq<Path>, seen: set<Path>, rest: seq<Path>, path: Path)
    requires Frontier(exports, g, imports, seen, rest + [path])
    ensures path in seen ==> Frontier(exports, g, imports, seen, rest)
    ensures path !in exports ==> Frontier(exports, g, imports, seen + {path}, rest)
    ensures path in exports ==> Frontier(exports, g, imports, seen + {path}, rest + ImportsOf(g, path))
  {
    assert forall q :: q in rest + [path] <==> q in rest || q == path;
    ReachableIsClosed(exports, g, imports);
    var least := iset q | Reachable(exports, g, imports, q);
    if path in exports {
      assert path in least;
      assert forall q :: q in ImportsOf(g, path) && q in exports ==> q in least;
    }
  }

  lemma FrontierDone(exports: map<Path, seq<Member>>, g: Graph, imports: seq<Path>, seen: set<Path>)
    requires Frontier(exports, g, imports, seen, [])
    ensures FactsSeen(exports, imports, seen) == FactsOf(exports, g, imports)
  {
    var visited := iset q | q in seen && q in exports;
    assert ReachClosed(exports, g, imports, visited);
    forall q | q in exports ensures q in seen <==> Reachable(exports, g, imports, q) {
    }
  }

  /** The pending stack of the source.  Visiting order does not matter: the result
      is the declarative closure. */
  method SemanticDependencies(imports: seq<Path>, exports: map<Path, seq<Member>>, g: Graph)
    returns (facts: Facts)
    ensures facts == FactsOf(exports, g, imports)
  {
    var seen: set<Path> := {};
    facts := map[];
    var pending := imports;
    ghost var universe := Universe(g, imports);
    while pending != []
      invariant Frontier(exports, g, imports, seen, pending)
      invariant forall q :: q in pending ==> q in universe
      invariant facts == FactsSeen(exports, imports, seen)
      decreases universe - seen, |pending|
    {
      var path := pending[|pending| - 1];
      assert pending == pending[..|pending| - 1] + [path];
      pending := pending[..|pending| - 1];
      FrontierStep(exports, g, imports, seen, pending, path);
      if path !in seen {
        FactsSeenAdd(exports, imports, seen, path);
        seen := seen + {path};
        if path in exports {
          pending := pending + ImportsOf(g, path);
          var members := if path in imports then exports[path] else TypesOf(exports[path]);
          if path in imports || members != [] {
            facts := facts[path := members];
          }
        }
      }
    }
    FrontierDone(exports, g, imports, seen);
  }

  // ----- a run without reuse ----------------------------------------------------

  function DigestOf(hashes: map<Path, ExportDigest>, q: Path): ExportDigest {
    if q in hashes then hashes[q] else Absent
  }

  function DependencyDigestOf(hashes: map<Path, ExportDigest>, imports: seq<Path>): DependencyDigest {
    multiset(seq(|imports|, i requires 0 <= i < |imports| => (imports[i], DigestOf(hashes, imports[i]))))
  }

  function TypeFacts(facts: Facts): Facts {
    map q | q in facts && TypesOf(facts[q]) != [] :: TypesOf(facts[q])
  }

  /** A graph with errors is not analysed at all. */
  function Initial<I>(g: Graph): Progress<I> {
    Progress(Result(map[], map[], map[], map[], g.diagnostics), map[], g.hasErrors)
  }

  function WithHashes<I>(p: Progress<I>, g: Graph, path: Path): Progress<I>
    requires path in g.packages
  {
    p.(result := p.result.(
      sourceHashes := p.result.sourceHashes[path := g.packages[path].source],
      dependencyHashes := p.result.dependencyHashes[
        path := DependencyDigestOf(p.result.exportHashes, g.packages[path].imports)]))
  }

  /** Records one checked package, whether freshly checked or reused. */
  function Record<A, I>(fe: FrontEnd<A, I>, resume: bool, p: Progress<I>, path: Path, info: I, digest: ExportDigest)
    : Progress<I>
  {
    Progress(
      p.result.(
        packages := p.result.packages[path := info],
        exportHashes := p.result.exportHashes[path := digest],
        diagnostics := p.result.diagnostics + fe.diagnostics(info)),
      if fe.hasErrors(info) then p.exports else p.exports[path := fe.exports(info)],
      fe.hasErrors(info) && !resume)
  }

  function FreshDigest<A, I>(fe: FrontEnd<A, I>, info: I, facts: Facts): ExportDigest {
    Digest(if fe.hasErrors(info) then None else Some(fe.exports(info)), TypeFacts(facts))
  }

  /** Parse and check one package against the given facts. */
  function AnalyzeFresh<A, I>(fe: FrontEnd<A, I>, c: Config, g: Graph, resume: bool, p: Progress<I>, path: Path,
                              facts: Facts): Progress<I>
    requires path in g.packages
  {
    match fe.parse(c, path, g.packages[path].source)
    case Rejected(ds) => p.(result := p.result.(diagnostics := p.result.diagnostics + ds), stopped := !resume)
    case Parsed(ast) =>
      var info := fe.check(c, ast, facts);
      Record(fe, resume, p, path, info, FreshDigest(fe, info, facts))
  }

  ghost predicate WellFormed(g: Graph) {
    && (forall i :: 0 <= i < |g.order| ==> g.order[i] in g.packages)
    && (forall i, j :: 0 <= i < j < |g.order| ==> g.order[i] != g.order[j])
    && (forall i, q :: 0 <= i < |g.order| && q in ImportsOf(g, g.order[i]) ==> q in g.order[..i])
  }

  /** The reference: `n` packages in graph order, nothing reused. */
  ghost function FullRun<A, I>(fe: FrontEnd<A, I>, c: Config, g: Graph, resume: bool, n: nat): Progress<I>
    requires WellFormed(g) && n <= |g.order|
  {
    if n == 0 then Initial(g)
    else
      var p := FullRun(fe, c, g, resume, n - 1);
      if p.stopped then p
      else
        var path := g.order[n - 1];
        AnalyzeFresh(fe, c, g, resume, WithHashes(p, g, path), path,
                     FactsOf(p.exports, g, g.packages[path].imports))
  }

  /** A graph with errors of its own, an import cycle say, need not be well formed. */
  ghost predicate Analysable(g: Graph) { g.hasErrors || WellFormed(g) }

  ghost function FullResult<A, I>(fe: FrontEnd<A, I>, c: Config, g: Graph, resume: bool): Result<I>
    requires Analysable(g)
  {
    if g.hasErrors then Initial<I>(g).result else FullRun(fe, c, g, resume, |g.order|).result
  }

  // ----- what every entry of a run means ------------------------------------------

  /** A recorded package is the check of its source against the facts of its
      imports, and its digest covers its surface and the types below it. */
  ghost predicate Justified<A, I>(fe: FrontEnd<A, I>, c: Config, g: Graph, p: Progress<I>, path: Path) {
    && path in g.packages && path in p.result.packages
    && path in p.result.exportHashes && path in p.result.sourceHashes && path in p.result.dependencyHashes
    && p.result.sourceHashes[path] == g.packages[path].source
    && p.result.dependencyHashes[path] == DependencyDigestOf(p.result.exportHashes, g.packages[path].imports)
    && var facts := FactsOf(p.exports, g, g.packages[path].imports);
    && var parsed := fe.parse(c, path, g.packages[path].source);
    && parsed.Parsed?
    && p.result.packages[path] == fe.check(c, parsed.ast, facts)
    && p.result.exportHashes[path] == FreshDigest(fe, p.result.packages[path], facts)
    && (path in p.exports <==> !fe.hasErrors(p.result.packages[path]))
    && (path in p.exports ==> p.exports[path] == fe.exports(p.result.packages[path]))
  }

  ghost predicate Consistent<A, I>(fe: FrontEnd<A, I>, c: Config, g: Graph, p: Progress<I>, n: nat)
    requires n <= |g.order|
  {
    && p.exports.Keys <= p.result.packages.Keys
    && p.result.packages.Keys == p.result.exportHashes.Keys
    && (forall q :: q in p.result.packages ==> q in g.order[..n])
    && (forall q :: q in p.result.packages ==> Justified(fe, c, g, p, q))
  }

  /** Facts do not change when packages outside an import-closed set are analysed. */
  lemma FactsStable(a: map<Path, seq<Member>>, b: map<Path, seq<Member>>, g: Graph, roots: seq<Path>, within: set<Path>)
    requires forall q :: q in roots ==> q in within
    requires forall q, r :: q in within && r in ImportsOf(g, q) ==> r in within
    requires forall q :: q in within ==> (q in a <==> q in b) && (q in a ==> a[q] == b[q])
    ensures FactsOf(a, g, roots) == FactsOf(b, g, roots)
  {
    forall q | q in a || q in b
      ensures Reachable(a, g, roots, q) <==> Reachable(b, g, roots, q)
      ensures Reachable(a, g, roots, q) ==> q in within
    {
      ReachableWithin(a, b, g, roots, within, q);
      ReachableWithin(b, a, g, roots, within, q);
    }
  }

  lemma ReachableWithin(a: map<Path, seq<Member>>, b: map<Path, seq<Member>>, g: Graph, roots: seq<Path>, within: set<Path>, q: Path)
    requires forall r :: r in roots ==> r in within
    requires forall r, t :: r in within && t in ImportsOf(g, r) ==> t in within
    requires forall r :: r in within ==> (r in a <==> r in b)
    ensures Reachable(a, g, roots, q) ==> q in within && Reachable(b, g, roots, q)
  {
    if Reachable(a, g, roots, q) {
      forall s: iset<Path> | ReachClosed(b, g, roots, s) ensures q in s && q in within {
        var inner := iset r | r in s && r in within;
        assert ReachClosed(a, g, roots, inner);
      }
      ReachableIsClosed(b, g, roots);
      var least := iset r | Reachable(b, g, roots, r);
      assert ReachClosed(b, g, roots, least);
    }
  }

  lemma PrefixClosed(g: Graph, n: nat)
    requires WellFormed(g) && n <= |g.order|
    ensures forall q, r :: q in g.order[..n] && r in ImportsOf(g, q) ==> r in g.order[..n]
  {
    forall q, r | q in g.order[..n] && r in ImportsOf(g, q) ensures r in g.order[..n] {
      var i :| 0 <= i < n && g.order[i] == q;
      assert r in g.order[..i];
    }
  }

  lemma {:induction false} RunConsistent<A, I(!new)>(fe: FrontEnd<A, I>, c: Config, g: Graph, resume: bool, n: nat)
    requires WellFormed(g) && n <= |g.order|
    ensures Consistent(fe, c, g, FullRun(fe, c, g, resume, n), n)
  {
    hide AnalyzeFresh, WithHashes, FactsOf, Justified;
    if n > 0 {
      RunConsistent(fe, c, g, resume, n - 1);
      var p := FullRun(fe, c, g, resume, n - 1);
      if !p.stopped {
        StepConsistent(fe, c, g, resume, p, n - 1);
      }
    }
  }

  lemma StepConsistent<A, I(!new)>(fe: FrontEnd<A, I>, c: Config, g: Graph, resume: bool, p: Progress<I>, n: nat)
    requires WellFormed(g) && n < |g.order|
    requires Consistent(fe, c, g, p, n)
    ensures var path := g.order[n];
      Consistent(fe, c, g,
        AnalyzeFresh(fe, c, g, resume, WithHashes(p, g, path), path, FactsOf(p.exports, g, g.packages[path].imports)), n + 1)
  {
    hide AnalyzeFresh, WithHashes, FactsOf, Justified, DependencyDigestOf;
    var path := g.order[n];
    var source, imports := g.packages[path].source, g.packages[path].imports;
    var facts := FactsOf(p.exports, g, imports);
    var w := WithHashes(p, g, path);
    var p' := AnalyzeFresh(fe, c, g, resume, w, path, facts);
    assert path !in g.order[..n];
    PrefixClosed(g, n);
    var within := set q | q in g.order[..n];
    assert ImportsOf(g, path) == imports;
    StepGrows(fe, c, g, resume, p, path, facts);
    StepKeys(fe, c, g, resume, p, path, facts);
    KeepsAllJustified(fe, c, g, p, p', within, path, n);
    if fe.parse(c, path, source).Parsed? {
      FactsStable(p.exports, p'.exports, g, imports, within);
      SameDependencyDigest(p.result.exportHashes, p'.result.exportHashes, imports);
      StepJustified(fe, c, g, resume, p, path, facts);
    }
    assert g.order[..n + 1] == g.order[..n] + [path];
    assert forall q :: q in p'.result.packages ==> q in p.result.packages || q == path;
  }

  lemma StepGrows<A, I(!new)>(fe: FrontEnd<A, I>, c: Config, g: Graph, resume: bool, p: Progress<I>, path: Path, facts: Facts)
    requires path in g.packages
    requires p.exports.Keys <= p.result.packages.Keys == p.result.exportHashes.Keys
    ensures Grows(p, AnalyzeFresh(fe, c, g, resume, WithHashes(p, g, path), path, facts), path)
  {
  }

  lemma StepKeys<A, I>(fe: FrontEnd<A, I>, c: Config, g: Graph, resume: bool, p: Progress<I>, path: Path, facts: Facts)
    requires path in g.packages
    requires p.exports.Keys <= p.result.packages.Keys == p.result.exportHashes.Keys
    ensures var p' := AnalyzeFresh(fe, c, g, resume, WithHashes(p, g, path), path, facts);
      && p'.exports.Keys <= p'.result.packages.Keys == p'.result.exportHashes.Keys
      && p'.result.packages.Keys ==
         p.result.packages.Keys + if fe.parse(c, path, g.packages[path].source).Parsed? then {path} else {}
  {
  }

  lemma StepJustified<A, I(!new)>(fe: FrontEnd<A, I>, c: Config, g: Graph, resume: bool, p: Progress<I>, path: Path, facts: Facts)
    requires path in g.packages && path !in p.exports
    requires fe.parse(c, path, g.packages[path].source).Parsed?
    requires var imports := g.packages[path].imports;
      var p' := AnalyzeFresh(fe, c, g, resume, WithHashes(p, g, path), path, facts);
      && facts == FactsOf(p'.exports, g, imports)
      && DependencyDigestOf(p.result.exportHashes, imports) == DependencyDigestOf(p'.result.exportHashes, imports)
    ensures Justified(fe, c, g, AnalyzeFresh(fe, c, g, resume, WithHashes(p, g, path), path, facts), path)
  {
  }

  /** Nothing but the entries of `path` has changed. */
  ghost predicate Grows<I(!new)>(p: Progress<I>, p': Progress<I>, path: Path) {
    && (forall r :: r != path ==> (r in p.exports <==> r in p'.exports) && (r in p.exports ==> p.exports[r] == p'.exports[r]))
    && (forall r :: r != path ==> DigestOf(p.result.exportHashes, r) == DigestOf(p'.result.exportHashes, r))
    && (forall r :: r != path && r in p.result.packages ==>
          && r in p'.result.packages && p'.result.packages[r] == p.result.packages[r]
          && r in p'.result.exportHashes)
    && (forall r :: r != path && r in p.result.sourceHashes ==>
          r in p'.result.sourceHashes && p'.result.sourceHashes[r] == p.result.sourceHashes[r])
    && (forall r :: r != path && r in p.result.dependencyHashes ==>
          r in p'.result.dependencyHashes && p'.result.dependencyHashes[r] == p.result.dependencyHashes[r])
  }

  lemma KeepsAllJustified<A, I(!new)>(fe: FrontEnd<A, I>, c: Config, g: Graph, p: Progress<I>, p': Progress<I>,
                                      within: set<Path>, path: Path, n: nat)
    requires n <= |g.order| && Consistent(fe, c, g, p, n) && Grows(p, p', path)
    requires within == (set q | q in g.order[..n]) && path !in within
    requires forall r, t :: r in within && t in ImportsOf(g, r) ==> t in within
    ensures forall q :: q in p.result.packages ==> Justified(fe, c, g, p', q)
  {
    forall q | q in p.result.packages ensures Justified(fe, c, g, p', q) {
      assert q in within && Justified(fe, c, g, p, q);
      KeepsJustified(fe, c, g, p, p', within, q);
    }
  }

  lemma KeepsJustified<A, I>(fe: FrontEnd<A, I>, c: Config, g: Graph, p: Progress<I>, p': Progress<I>, within: set<Path>, q: Path)
    requires Justified(fe, c, g, p, q) && q in within
    requires forall r, t :: r in within && t in ImportsOf(g, r) ==> t in within
    requires forall r :: r in within ==> (r in p.exports <==> r in p'.exports) && (r in p.exports ==> p.exports[r] == p'.exports[r])
    requires forall r :: r in within ==> DigestOf(p.result.exportHashes, r) == DigestOf(p'.result.exportHashes, r)
    requires q in p'.result.packages && p'.result.packages[q] == p.result.packages[q]
    requires q in p'.result.exportHashes
    requires q in p'.result.sourceHashes && p'.result.sourceHashes[q] == p.result.sourceHashes[q]
    requires q in p'.result.dependencyHashes && p'.result.dependencyHashes[q] == p.result.dependencyHashes[q]
    ensures Justified(fe, c, g, p', q)
  {
    var roots := g.packages[q].imports;
    assert ImportsOf(g, q) == roots;
    FactsStable(p.exports, p'.exports, g, roots, within);
    SameDependencyDigest(p.result.exportHashes, p'.result.exportHashes, roots);
    assert DigestOf(p.result.exportHashes, q) == DigestOf(p'.result.exportHashes, q);
  }

  lemma SameDependencyDigest(a: map<Path, ExportDigest>, b: map<Path, ExportDigest>, imports: seq<Path>)
    requires forall q :: q in imports ==> DigestOf(a, q) == DigestOf(b, q)
    ensures DependencyDigestOf(a, imports) == DependencyDigestOf(b, imports)
  {
    var x := seq(|imports|, i requires 0 <= i < |imports| => (imports[i], DigestOf(a, imports[i])));
    var y := seq(|imports|, i requires 0 <= i < |imports| => (imports[i], DigestOf(b, imports[i])));
    assert x == y;
  }

  // ----- direct digests determine the transitive facts -----------------------------

  lemma DigestMembers(hashes: map<Path, ExportDigest>, imports: seq<Path>, q: Path, d: ExportDigest)
    ensures (q, d) in DependencyDigestOf(hashes, imports) <==> q in imports && d == DigestOf(hashes, q)
  {
    var x := seq(|imports|, i requires 0 <= i < |imports| => (imports[i], DigestOf(hashes, imports[i])));
    if q in imports {
      var i :| 0 <= i < |imports| && imports[i] == q;
      assert x[i] == (q, DigestOf(hashes, q));
    }
  }

  ghost predicate FirstStep(exports: map<Path, seq<Member>>, g: Graph, roots: seq<Path>, d: Path, q: Path) {
    d in roots && d in exports && (q == d || Reachable(exports, g, ImportsOf(g, d), q))
  }

  ghost predicate ViaRoot(exports: map<Path, seq<Member>>, g: Graph, roots: seq<Path>, q: Path) {
    exists d :: FirstStep(exports, g, roots, d, q)
  }

  /** A package reached from `roots` is a root or is reached from a root's imports. */
  lemma ReachableByFirstStep(exports: map<Path, seq<Member>>, g: Graph, roots: seq<Path>, q: Path)
    ensures Reachable(exports, g, roots, q) <==>
      ViaRoot(exports, g, roots, q)
  {
    var union := iset r | ViaRoot(exports, g, roots, r);
    forall r, t | r in union && t in ImportsOf(g, r) && t in exports ensures t in union {
      var d :| FirstStep(exports, g, roots, d, r);
      ReachableIsClosed(exports, g, ImportsOf(g, d));
      assert FirstStep(exports, g, roots, d, t);
    }
    assert forall r :: r in roots && r in exports ==> FirstStep(exports, g, roots, r, r);
    assert ReachClosed(exports, g, roots, union);
    if d :| FirstStep(exports, g, roots, d, q) {
      forall s: iset<Path> | ReachClosed(exports, g, roots, s) ensures q in s {
        assert d in s;
        assert ReachClosed(exports, g, ImportsOf(g, d), s);
      }
    }
  }

  /** Membership and contents of the facts, read off the direct digests alone. */
  ghost predicate FactsMatchDigests(facts: Facts, imports: seq<Path>, hashes: map<Path, ExportDigest>) {
    forall q :: if q in imports
      then (q in facts <==> DigestOf(hashes, q).Digest? && DigestOf(hashes, q).surface.Some?)
           && (q in facts ==> facts[q] == DigestOf(hashes, q).surface.value)
      else (q in facts <==> exists d :: Carries(imports, hashes, d, q))
           && (forall d :: q in facts && Carries(imports, hashes, d, q) ==> facts[q] == hashes[d].types[q])
  }

  ghost predicate Carries(imports: seq<Path>, hashes: map<Path, ExportDigest>, d: Path, q: Path) {
    d in imports && d in hashes && hashes[d].Digest? && hashes[d].surface.Some? && q in hashes[d].types
  }

  lemma FactsFromDirectDigests<A, I>(fe: FrontEnd<A, I>, c: Config, g: Graph, p: Progress<I>, n: nat, path: Path)
    requires WellFormed(g) && n <= |g.order| && Consistent(fe, c, g, p, n)
    requires path in g.packages
    ensures FactsMatchDigests(FactsOf(p.exports, g, g.packages[path].imports), g.packages[path].imports, p.result.exportHashes)
  {
    var imports, hashes := g.packages[path].imports, p.result.exportHashes;
    var facts := FactsOf(p.exports, g, imports);
    forall q
      ensures q in imports ==> (q in facts <==> DigestOf(hashes, q).Digest? && DigestOf(hashes, q).surface.Some?)
      ensures q in imports && q in facts ==> facts[q] == DigestOf(hashes, q).surface.value
      ensures q !in imports ==> (q in facts <==> exists d :: Carries(imports, hashes, d, q))
      ensures q !in imports ==> forall d :: q in facts && Carries(imports, hashes, d, q) ==> facts[q] == hashes[d].types[q]
    {
      if q in imports {
        DirectFacts(fe, c, g, p, n, imports, q);
      } else {
        IndirectFacts(fe, c, g, p, n, imports, q);
      }
    }
  }

  lemma DirectFacts<A, I>(fe: FrontEnd<A, I>, c: Config, g: Graph, p: Progress<I>, n: nat, imports: seq<Path>, q: Path)
    requires n <= |g.order| && Consistent(fe, c, g, p, n) && q in imports
    ensures var facts, digest := FactsOf(p.exports, g, imports), DigestOf(p.result.exportHashes, q);
      (q in facts <==> digest.Digest? && digest.surface.Some?) && (q in facts ==> facts[q] == digest.surface.value)
  {
    if q in p.result.packages { assert Justified(fe, c, g, p, q); }
    if q in p.exports {
      assert Reachable(p.exports, g, imports, q);
    }
  }

  lemma IndirectFacts<A, I>(fe: FrontEnd<A, I>, c: Config, g: Graph, p: Progress<I>, n: nat, imports: seq<Path>, q: Path)
    requires n <= |g.order| && Consistent(fe, c, g, p, n) && q !in imports
    ensures var facts, hashes := FactsOf(p.exports, g, imports), p.result.exportHashes;
      && (q in facts <==> exists d :: Carries(imports, hashes, d, q))
      && (forall d :: q in facts && Carries(imports, hashes, d, q) ==> facts[q] == hashes[d].types[q])
  {
    var facts, hashes := FactsOf(p.exports, g, imports), p.result.exportHashes;
    ReachableByFirstStep(p.exports, g, imports, q);
    if q in facts {
      var d :| FirstStep(p.exports, g, imports, d, q);
      DigestCarries(fe, c, g, p, n, d, q);
      assert Carries(imports, hashes, d, q);
    }
    forall d | Carries(imports, hashes, d, q) ensures q in facts && facts[q] == hashes[d].types[q] {
      DigestCarries(fe, c, g, p, n, d, q);
      assert FirstStep(p.exports, g, imports, d, q);
    }
  }

  lemma DigestCarries<A, I>(fe: FrontEnd<A, I>, c: Config, g: Graph, p: Progress<I>, n: nat, d: Path, q: Path)
    requires n <= |g.order| && Consistent(fe, c, g, p, n)
    ensures var hashes := p.result.exportHashes;
      (d in hashes && hashes[d].Digest? && hashes[d].surface.Some? && q in hashes[d].types) <==>
      (d in p.exports && q in p.exports && TypesOf(p.exports[q]) != [] && Reachable(p.exports, g, ImportsOf(g, d), q))
    ensures d in p.exports && q in p.result.exportHashes[d].types ==>
      p.result.exportHashes[d].types[q] == TypesOf(p.exports[q])
  {
    hide Reachable, DependencyDigestOf;
    if d in p.result.packages {
      assert Justified(fe, c, g, p, d);
      var facts := FactsOf(p.exports, g, ImportsOf(g, d));
      assert p.result.exportHashes[d].types == TypeFacts(facts);
      if q in p.exports {
        TypesOfTypes(p.exports[q]);
        assert q in facts ==> TypesOf(facts[q]) == TypesOf(p.exports[q]);
      }
    }
  }

  lemma DigestsDetermineFacts(f: Facts, f': Facts, imports: seq<Path>, imports': seq<Path>,
                              h: map<Path, ExportDigest>, h': map<Path, ExportDigest>)
    requires FactsMatchDigests(f, imports, h) && FactsMatchDigests(f', imports', h')
    requires DependencyDigestOf(h, imports) == DependencyDigestOf(h', imports')
    ensures f == f'
  {
    hide FactsMatchDigests, DependencyDigestOf;
    forall q ensures (q in f <==> q in f') && (q in f ==> f[q] == f'[q]) {
      SameImport(imports, imports', h, h', q);
      if q in imports {
        DirectAgree(f, f', imports, imports', h, h', q);
      } else {
        forall d ensures Carries(imports, h, d, q) <==> Carries(imports', h', d, q)
          ensures Carries(imports, h, d, q) ==> h[d].types[q] == h'[d].types[q]
        {
          SameImport(imports, imports', h, h', d);
        }
        IndirectAgree(f, f', imports, imports', h, h', q);
      }
    }
  }

  lemma SameImport(imports: seq<Path>, imports': seq<Path>, h: map<Path, ExportDigest>, h': map<Path, ExportDigest>, q: Path)
    requires DependencyDigestOf(h, imports) == DependencyDigestOf(h', imports')
    ensures q in imports <==> q in imports'
    ensures q in imports ==> DigestOf(h, q) == DigestOf(h', q)
  {
    hide DependencyDigestOf;
    DigestMembers(h, imports, q, DigestOf(h, q));
    DigestMembers(h', imports', q, DigestOf(h, q));
    DigestMembers(h', imports', q, DigestOf(h', q));
    DigestMembers(h, imports, q, DigestOf(h', q));
  }

  lemma DirectAgree(f: Facts, f': Facts, imports: seq<Path>, imports': seq<Path>,
                    h: map<Path, ExportDigest>, h': map<Path, ExportDigest>, q: Path)
    requires FactsMatchDigests(f, imports, h) && FactsMatchDigests(f', imports', h')
    requires q in imports && q in imports' && DigestOf(h, q) == DigestOf(h', q)
    ensures (q in f <==> q in f') && (q in f ==> f[q] == f'[q])
  {
  }

  lemma IndirectAgree(f: Facts, f': Facts, imports: seq<Path>, imports': seq<Path>,
                      h: map<Path, ExportDigest>, h': map<Path, ExportDigest>, q: Path)
    requires FactsMatchDigests(f, imports, h) && FactsMatchDigests(f', imports', h')
    requires q !in imports && q !in imports'
    requires forall d :: Carries(imports, h, d, q) <==> Carries(imports', h', d, q)
    requires forall d :: Carries(imports, h, d, q) ==> h[d].types[q] == h'[d].types[q]
    ensures (q in f <==> q in f') && (q in f ==> f[q] == f'[q])
  {
    if q in f {
      var d :| Carries(imports, h, d, q);
      assert Carries(imports', h', d, q);
    }
  }

  /** The reuse test is exact: with equal source and dependency digests the cached
      package and digest are what a fresh check would produce. */
  lemma ReuseIsFresh<A, I>(fe: FrontEnd<A, I>, c: Config, g: Graph, p: Progress<I>, n: nat,
                           g': Graph, p': Progress<I>, n': nat, path: Path)
    requires WellFormed(g) && n <= |g.order| && Consistent(fe, c, g, p, n)
    requires WellFormed(g') && n' <= |g'.order| && Consistent(fe, c, g', p', n')
    requires path in g.packages && path in p'.result.packages
    requires p'.result.sourceHashes[path] == g.packages[path].source
    requires p'.result.dependencyHashes[path] == DependencyDigestOf(p.result.exportHashes, g.packages[path].imports)
    ensures var facts := FactsOf(p.exports, g, g.packages[path].imports);
      var parsed := fe.parse(c, path, g.packages[path].source);
      && parsed.Parsed?
      && p'.result.packages[path] == fe.check(c, parsed.ast, facts)
      && p'.result.exportHashes[path] == FreshDigest(fe, p'.result.packages[path], facts)
  {
    assert Justified(fe, c, g', p', path);
    FactsFromDirectDigests(fe, c, g, p, n, path);
    FactsFromDirectDigests(fe, c, g', p', n', path);
    DigestsDetermineFacts(
      FactsOf(p.exports, g, g.packages[path].imports), FactsOf(p'.exports, g', g'.packages[path].imports),
      g.packages[path].imports, g'.packages[path].imports, p.result.exportHashes, p'.result.exportHashes);
  }

  // ----- what a finished run says -----------------------------------------------------

  /** The surfaces of the recorded packages without errors. */
  ghost function Surfaces<A(!new), I(!new)>(fe: FrontEnd<A, I>, r: Result<I>): map<Path, seq<Member>> {
    map q | q in r.packages && !fe.hasErrors(r.packages[q]) :: fe.exports(r.packages[q])
  }

  /** The package does not parse, or it was recorded with errors. */
  ghost predicate Fails<A(!new), I(!new)>(fe: FrontEnd<A, I>, c: Config, g: Graph, r: Result<I>, q: Path)
    requires q in g.packages
  {
    match fe.parse(c, q, g.packages[q].source)
    case Rejected(_) => true
    case Parsed(_) => q in r.packages && fe.hasErrors(r.packages[q])
  }

  /** The graph's diagnostics, then package by package those of the parser or the checker. */
  ghost function DiagnosticsUpTo<A(!new), I(!new)>(fe: FrontEnd<A, I>, c: Config, g: Graph, r: Result<I>, k: nat): seq<string>
    requires WellFormed(g) && k <= |g.order|
  {
    if k == 0 then g.diagnostics
    else
      var q := g.order[k - 1];
      DiagnosticsUpTo(fe, c, g, r, k - 1) + match fe.parse(c, q, g.packages[q].source)
        case Rejected(ds) => ds
        case Parsed(_) => if q in r.packages then fe.diagnostics(r.packages[q]) else []
  }

  ghost predicate Recorded<A(!new), I(!new)>(fe: FrontEnd<A, I>, c: Config, g: Graph, r: Result<I>, k: nat)
    requires WellFormed(g) && k <= |g.order|
  {
    forall q :: q in r.packages <==> q in g.order[..k] && fe.parse(c, q, g.packages[q].source).Parsed?
  }

  /** The first `k` packages of the order have been looked at, those that parse are recorded,
      and only the last of them may have failed unless errors are to be passed over. */
  ghost predicate Covers<A(!new), I(!new)>(fe: FrontEnd<A, I>, c: Config, g: Graph, resume: bool, r: Result<I>, k: nat)
    requires WellFormed(g)
  {
    && k <= |g.order|
    && (forall q :: (q in r.sourceHashes <==> q in g.order[..k]) && (q in r.dependencyHashes <==> q in g.order[..k]))
    && Recorded(fe, c, g, r, k)
    && (forall i :: 0 <= i < k - 1 ==> resume || !Fails(fe, c, g, r, g.order[i]))
    && r.diagnostics == DiagnosticsUpTo(fe, c, g, r, k)
  }

  /** A run ends with the order, or right after the first failure that is not passed over. */
  ghost predicate EndsAt<A(!new), I(!new)>(fe: FrontEnd<A, I>, c: Config, g: Graph, resume: bool, r: Result<I>, k: nat)
    requires WellFormed(g)
  {
    && Covers(fe, c, g, resume, r, k)
    && (k < |g.order| ==> k > 0 && !resume && Fails(fe, c, g, r, g.order[k - 1]))
    && (forall q :: q in r.packages ==> Justified(fe, c, g, Progress(r, Surfaces(fe, r), false), q))
  }

  /** The meaning of an analysis, read off graph and result alone. */
  ghost predicate Means<A(!new), I(!new)>(fe: FrontEnd<A, I>, c: Config, g: Graph, resume: bool, r: Result<I>)
    requires Analysable(g)
  {
    if g.hasErrors then r == Result(map[], map[], map[], map[], g.diagnostics)
    else exists k :: EndsAt(fe, c, g, resume, r, k)
  }

  lemma {:induction false} SameDiagnostics<A(!new), I(!new)>(fe: FrontEnd<A, I>, c: Config, g: Graph, r: Result<I>, r': Result<I>, k: nat)
    requires WellFormed(g) && k <= |g.order|
    requires forall q :: q in g.order[..k] ==> (q in r.packages <==> q in r'.packages) && (q in r.packages ==> r.packages[q] == r'.packages[q])
    ensures DiagnosticsUpTo(fe, c, g, r, k) == DiagnosticsUpTo(fe, c, g, r', k)
  {
    if k > 0 {
      assert g.order[k - 1] in g.order[..k];
      assert forall q :: q in g.order[..k - 1] ==> q in g.order[..k];
      SameDiagnostics(fe, c, g, r, r', k - 1);
    }
  }

  /** What one package adds, whichever way it goes. */
  lemma {:induction false} StepEffect<A(!new), I(!new)>(fe: FrontEnd<A, I>, c: Config, g: Graph, resume: bool, p: Progress<I>, path: Path, facts: Facts)
    requires path in g.packages
    ensures var r, p' := p.result, AnalyzeFresh(fe, c, g, resume, WithHashes(p, g, path), path, facts);
      && p'.result.sourceHashes.Keys == r.sourceHashes.Keys + {path} && p'.result.dependencyHashes.Keys == r.dependencyHashes.Keys + {path}
      && match fe.parse(c, path, g.packages[path].source)
         case Rejected(ds) => p'.result.packages == r.packages && p'.result.diagnostics == r.diagnostics + ds && p'.stopped == !resume
         case Parsed(ast) =>
           var info := fe.check(c, ast, facts);
           && p'.result.packages == r.packages[path := info] && p'.result.diagnostics == r.diagnostics + fe.diagnostics(info)
           && p'.stopped == (fe.hasErrors(info) && !resume)
  {
    hide DependencyDigestOf;
  }

  lemma {:induction false} StepCovers<A(!new), I(!new)>(fe: FrontEnd<A, I>, c: Config, g: Graph, resume: bool, p: Progress<I>, n: nat, facts: Facts)
    requires WellFormed(g) && n < |g.order| && Covers(fe, c, g, resume, p.result, n)
    requires n > 0 ==> resume || !Fails(fe, c, g, p.result, g.order[n - 1])
    ensures var path := g.order[n];
      var p' := AnalyzeFresh(fe, c, g, resume, WithHashes(p, g, path), path, facts);
      && Covers(fe, c, g, resume, p'.result, n + 1)
      && (p'.stopped <==> !resume && Fails(fe, c, g, p'.result, path))
  {
    var path := g.order[n];
    StepEffect(fe, c, g, resume, p, path, facts);
    var p' := AnalyzeFresh(fe, c, g, resume, WithHashes(p, g, path), path, facts);
    hide AnalyzeFresh, WithHashes;
    assert path in g.packages;
    assert path !in g.order[..n];
    CoversMore(fe, c, g, resume, p.result, p'.result, n);
  }

  lemma {:induction false} CoversMore<A(!new), I(!new)>(fe: FrontEnd<A, I>, c: Config, g: Graph, resume: bool, r: Result<I>, r': Result<I>, n: nat)
    requires WellFormed(g) && n < |g.order| && Covers(fe, c, g, resume, r, n)
    requires n > 0 ==> resume || !Fails(fe, c, g, r, g.order[n - 1])
    requires r'.sourceHashes.Keys == r.sourceHashes.Keys + {g.order[n]} && r'.dependencyHashes.Keys == r.dependencyHashes.Keys + {g.order[n]}
    requires match fe.parse(c, g.order[n], g.packages[g.order[n]].source)
      case Rejected(ds) => r'.packages == r.packages && r'.diagnostics == r.diagnostics + ds
      case Parsed(_) =>
        && g.order[n] in r'.packages && r'.packages == r.packages[g.order[n] := r'.packages[g.order[n]]]
        && r'.diagnostics == r.diagnostics + fe.diagnostics(r'.packages[g.order[n]])
    ensures Covers(fe, c, g, resume, r', n + 1)
  {
    hide WellFormed, Fails, Recorded, DiagnosticsUpTo;
    PrefixMore(g, n);
    RecordedMore(fe, c, g, r, r', n);
    NoEarlierFailure(fe, c, g, resume, r, r', n);
    DiagnosticsMore(fe, c, g, r, r', n);
  }

  lemma {:induction false} DiagnosticsMore<A(!new), I(!new)>(fe: FrontEnd<A, I>, c: Config, g: Graph, r: Result<I>, r': Result<I>, n: nat)
    requires WellFormed(g) && n < |g.order| && r.diagnostics == DiagnosticsUpTo(fe, c, g, r, n) && Recorded(fe, c, g, r, n)
    requires match fe.parse(c, g.order[n], g.packages[g.order[n]].source)
      case Rejected(ds) => r'.packages == r.packages && r'.diagnostics == r.diagnostics + ds
      case Parsed(_) =>
        && g.order[n] in r'.packages && r'.packages == r.packages[g.order[n] := r'.packages[g.order[n]]]
        && r'.diagnostics == r.diagnostics + fe.diagnostics(r'.packages[g.order[n]])
    ensures r'.diagnostics == DiagnosticsUpTo(fe, c, g, r', n + 1)
  {
    PrefixMore(g, n);
    hide WellFormed, Recorded;
    SameDiagnostics(fe, c, g, r, r', n);
  }

  lemma {:induction false} RecordedMore<A(!new), I(!new)>(fe: FrontEnd<A, I>, c: Config, g: Graph, r: Result<I>, r': Result<I>, n: nat)
    requires WellFormed(g) && n < |g.order| && Recorded(fe, c, g, r, n)
    requires if fe.parse(c, g.order[n], g.packages[g.order[n]].source).Rejected? then r'.packages == r.packages
      else g.order[n] in r'.packages && r'.packages == r.packages[g.order[n] := r'.packages[g.order[n]]]
    ensures Recorded(fe, c, g, r', n + 1)
  {
    PrefixMore(g, n);
  }

  lemma {:induction false} PrefixMore(g: Graph, n: nat)
    requires WellFormed(g) && n < |g.order|
    ensures forall q :: q in g.order[..n + 1] <==> q in g.order[..n] || q == g.order[n]
    ensures forall i :: 0 <= i < |g.order| ==> g.order[i] in g.packages
    ensures g.order[n] !in g.order[..n]
  {
    assert g.order[..n + 1] == g.order[..n] + [g.order[n]];
  }

  lemma {:induction false} NoEarlierFailure<A(!new), I(!new)>(fe: FrontEnd<A, I>, c: Config, g: Graph, resume: bool, r: Result<I>, r': Result<I>, n: nat)
    requires WellFormed(g) && n < |g.order| && Covers(fe, c, g, resume, r, n)
    requires n > 0 ==> resume || !Fails(fe, c, g, r, g.order[n - 1])
    requires forall q :: q in g.order[..n] ==> (q in r.packages <==> q in r'.packages) && (q in r.packages ==> r.packages[q] == r'.packages[q])
    ensures forall i :: 0 <= i < n ==> resume || !Fails(fe, c, g, r', g.order[i])
  {
    hide DiagnosticsUpTo;
    forall i | 0 <= i < n ensures resume || !Fails(fe, c, g, r', g.order[i]) {
      assert g.order[i] in g.order[..n];
      assert resume || !Fails(fe, c, g, r, g.order[i]);
    }
  }

  /** Where the run without reuse stands after `n` packages: after all of them, or stopped. */
  lemma {:induction false} RunCovers<A(!new), I(!new)>(fe: FrontEnd<A, I>, c: Config, g: Graph, resume: bool, n: nat) returns (k: nat)
    requires WellFormed(g) && !g.hasErrors && n <= |g.order|
    ensures k <= n
    ensures var p := FullRun(fe, c, g, resume, n);
      && Covers(fe, c, g, resume, p.result, k)
      && (if p.stopped then k > 0 && !resume && Fails(fe, c, g, p.result, g.order[k - 1])
          else k == n && (n > 0 ==> resume || !Fails(fe, c, g, p.result, g.order[n - 1])))
  {
    hide Covers, AnalyzeFresh, WithHashes, FactsOf;
    if n == 0 {
      k := 0;
      NothingCovered(fe, c, g, resume);
    } else {
      k := RunCovers(fe, c, g, resume, n - 1);
      var p := FullRun(fe, c, g, resume, n - 1);
      if !p.stopped {
        StepCovers(fe, c, g, resume, p, n - 1, FactsOf(p.exports, g, g.packages[g.order[n - 1]].imports));
        k := n;
      }
    }
  }

  lemma {:induction false} NothingCovered<A(!new), I(!new)>(fe: FrontEnd<A, I>, c: Config, g: Graph, resume: bool)
    requires WellFormed(g)
    ensures Covers(fe, c, g, resume, Initial<I>(g).result, 0)
  {
  }

  lemma {:induction false} RunMeans<A(!new), I(!new)>(fe: FrontEnd<A, I>, c: Config, g: Graph, resume: bool)
    requires Analysable(g)
    ensures Means(fe, c, g, resume, FullResult(fe, c, g, resume))
  {
    hide Covers, FullRun, FactsOf, Justified;
    if !g.hasErrors {
      var n := |g.order|;
      var k := RunCovers(fe, c, g, resume, n);
      RunConsistent(fe, c, g, resume, n);
      var p := FullRun(fe, c, g, resume, n);
      forall q | q in p.result.packages ensures Justified(fe, c, g, Progress(p.result, Surfaces(fe, p.result), false), q) {
        SurfacesAre(fe, c, g, p, n);
        SameJustified(fe, c, g, p, q);
      }
      assert EndsAt(fe, c, g, resume, p.result, k);
    }
  }

  lemma {:induction false} SurfacesAre<A(!new), I(!new)>(fe: FrontEnd<A, I>, c: Config, g: Graph, p: Progress<I>, n: nat)
    requires n <= |g.order| && Consistent(fe, c, g, p, n)
    ensures p.exports == Surfaces(fe, p.result)
  {
    forall q | q in p.result.packages
      ensures (q in p.exports <==> !fe.hasErrors(p.result.packages[q])) && (q in p.exports ==> p.exports[q] == fe.exports(p.result.packages[q]))
    {
      assert Justified(fe, c, g, p, q);
    }
  }

  lemma {:induction false} SameJustified<A(!new), I(!new)>(fe: FrontEnd<A, I>, c: Config, g: Graph, p: Progress<I>, q: Path)
    requires Justified(fe, c, g, p, q) && p.exports == Surfaces(fe, p.result)
    ensures Justified(fe, c, g, Progress(p.result, Surfaces(fe, p.result), false), q)
  {
  }

  // ----- when a run stops ---------------------------------------------------------------

  /** A failure that is not passed over ends the run: nothing later is looked at. */
  lemma {:induction false} StopsAtFailure<A(!new), I(!new)>(fe: FrontEnd<A, I>, c: Config, g: Graph, r: Result<I>, i: nat, j: nat)
    requires WellFormed(g) && !g.hasErrors && Means(fe, c, g, false, r)
    requires i < j < |g.order| && g.order[i] in r.sourceHashes && Fails(fe, c, g, r, g.order[i])
    ensures g.order[j] !in r.sourceHashes && g.order[j] !in r.dependencyHashes && g.order[j] !in r.packages
  {
    var k :| EndsAt(fe, c, g, false, r, k);
    InPrefix(g, i, k);
    InPrefix(g, j, k);
  }

  lemma {:induction false} InPrefix(g: Graph, i: nat, k: nat)
    requires WellFormed(g) && i < |g.order| && k <= |g.order|
    ensures g.order[i] in g.order[..k] <==> i < k
  {
  }

  /** Without such a failure every package is looked at. */
  lemma {:induction false} RunsToTheEnd<A(!new), I(!new)>(fe: FrontEnd<A, I>, c: Config, g: Graph, resume: bool, r: Result<I>, q: Path)
    requires WellFormed(g) && !g.hasErrors && Means(fe, c, g, resume, r)
    requires resume || forall i :: 0 <= i < |g.order| && g.order[i] in r.sourceHashes ==> !Fails(fe, c, g, r, g.order[i])
    ensures q in r.sourceHashes <==> q in g.order
  {
    hide WellFormed, Justified, Fails;
    var k: nat :| EndsAt(fe, c, g, resume, r, k);
    assert 0 < k <= |g.order| ==> g.order[k - 1] in g.order[..k];
    assert g.order[..|g.order|] == g.order;
  }

  // ----- the incremental run --------------------------------------------------------

  /** An earlier snapshot: its configuration and result. */
  datatype Snapshot<+I> = Snapshot(config: Config, result: Result<I>)

  /** A snapshot some earlier analysis returned.  `Analyze` returns such snapshots
      itself, so chains of incremental runs are covered. */
  ghost predicate Returned<A(!new), I(!new)>(fe: FrontEnd<A, I>, s: Snapshot<I>) {
    exists g, resume :: Analysable(g) && s.result == FullResult(fe, s.config, g, resume)
  }

  /** The snapshot has the package with the digests it has now, made under the same configuration. */
  ghost predicate Unchanged<I>(previous: Option<Snapshot<I>>, c: Config, r: Result<I>, q: Path) {
    previous.Some? && previous.value.config == c
    && var cached := previous.value.result;
    && q in cached.packages && q in r.sourceHashes && q in r.dependencyHashes
    && q in cached.sourceHashes && cached.sourceHashes[q] == r.sourceHashes[q]
    && q in cached.dependencyHashes && cached.dependencyHashes[q] == r.dependencyHashes[q]
  }

  /** The reuse test of the loop. */
  predicate Hit<I>(previous: Option<Snapshot<I>>, c: Config, source: Source, now: Result<I>, path: Path)
    requires path in now.dependencyHashes
  {
    previous.Some? && previous.value.config == c
    && var cached := previous.value.result;
    && path in cached.sourceHashes && cached.sourceHashes[path] == source
    && path in cached.dependencyHashes && cached.dependencyHashes[path] == now.dependencyHashes[path]
    && path in cached.packages
  }

  /** Looking at one package settles whether it is unchanged, and nothing about the others. */
  lemma {:induction false} StepReuses<A(!new), I(!new)>(fe: FrontEnd<A, I>, c: Config, g: Graph, resume: bool, p: Progress<I>, path: Path,
                                                      facts: Facts, previous: Option<Snapshot<I>>)
    requires path in g.packages
    ensures var w, p' := WithHashes(p, g, path), AnalyzeFresh(fe, c, g, resume, WithHashes(p, g, path), path, facts);
      && path in p'.result.sourceHashes
      && (Unchanged(previous, c, p'.result, path) <==> Hit(previous, c, g.packages[path].source, w.result, path))
      && forall q :: q != path ==>
           (q in p'.result.sourceHashes <==> q in p.result.sourceHashes)
           && (Unchanged(previous, c, p'.result, q) <==> Unchanged(previous, c, p.result, q))
  {
    hide DependencyDigestOf;
  }

  method Analyze<A(!new), I(!new)>(fe: FrontEnd<A, I>, c: Config, g: Graph, resume: bool, previous: Option<Snapshot<I>>)
    returns (result: Result<I>, reused: set<Path>)
    requires Analysable(g)
    requires previous.Some? ==> Returned(fe, previous.value)
    ensures result == FullResult(fe, c, g, resume)
    ensures Means(fe, c, g, resume, result)
    ensures Returned(fe, Snapshot(c, result))
    ensures forall q :: q in reused <==> q in result.sourceHashes && Unchanged(previous, c, result, q)
  {
    hide FactsOf, AnalyzeFresh, Record, Returned, FullRun, WellFormed, Means;
    ReturnedNow(fe, c, g, resume);
    RunMeans(fe, c, g, resume);
    var p: Progress<I> := Initial(g);
    reused := {};
    if g.hasErrors {
      return p.result, reused;
    }
    var n := 0;
    FullRunStart(fe, c, g, resume);
    while n < |g.order| && !p.stopped
      invariant 0 <= n <= |g.order|
      invariant p == FullRun(fe, c, g, resume, n)
      invariant forall q :: q in reused <==> q in p.result.sourceHashes && Unchanged(previous, c, p.result, q)
    {
      FullRunStep(fe, c, g, resume, n);
      var path := g.order[n];
      var header := g.packages[path];
      var facts := SemanticDependencies(header.imports, p.exports, g);
      var hashed := WithHashes(p, g, path);
      ghost var before := p;
      if Hit(previous, c, header.source, hashed.result, path) {
        var entry := previous.value.result;
        ReuseStep(fe, c, g, resume, n, previous.value, path);
        p := Record(fe, resume, hashed, path, entry.packages[path], DigestOf(entry.exportHashes, path));
        reused := reused + {path};
      } else {
        p := AnalyzeFresh(fe, c, g, resume, hashed, path, facts);
        reused := reused - {path};
      }
      StepReuses(fe, c, g, resume, before, path, facts, previous);
      n := n + 1;
    }
    StoppedRun(fe, c, g, resume, n, |g.order|);
    result := p.result;
  }

  lemma FullRunStart<A, I>(fe: FrontEnd<A, I>, c: Config, g: Graph, resume: bool)
    requires WellFormed(g)
    ensures FullRun(fe, c, g, resume, 0) == Initial(g)
  {
  }

  lemma FullRunStep<A, I>(fe: FrontEnd<A, I>, c: Config, g: Graph, resume: bool, n: nat)
    requires WellFormed(g) && n < |g.order| && !FullRun(fe, c, g, resume, n).stopped
    ensures var p, path := FullRun(fe, c, g, resume, n), g.order[n];
      && path in g.packages
      && FullRun(fe, c, g, resume, n + 1) ==
         AnalyzeFresh(fe, c, g, resume, WithHashes(p, g, path), path, FactsOf(p.exports, g, g.packages[path].imports))
  {
  }

  lemma ReturnedNow<A(!new), I(!new)>(fe: FrontEnd<A, I>, c: Config, g: Graph, resume: bool)
    requires Analysable(g)
    ensures Returned(fe, Snapshot(c, FullResult(fe, c, g, resume)))
  {
  }

  /** One reused package: recording it is the step a fresh run would take. */
  lemma ReuseStep<A(!new), I(!new)>(fe: FrontEnd<A, I>, c: Config, g: Graph, resume: bool, n: nat, s: Snapshot<I>, path: Path)
    requires WellFormed(g) && n < |g.order| && !FullRun(fe, c, g, resume, n).stopped && path == g.order[n]
    requires Returned(fe, s) && s.config == c
    requires path in g.packages && path in s.result.packages
    requires path in s.result.sourceHashes && s.result.sourceHashes[path] == g.packages[path].source
    requires path in s.result.dependencyHashes
    requires s.result.dependencyHashes[path] ==
      DependencyDigestOf(FullRun(fe, c, g, resume, n).result.exportHashes, g.packages[path].imports)
    ensures FullRun(fe, c, g, resume, n + 1) ==
      Record(fe, resume, WithHashes(FullRun(fe, c, g, resume, n), g, path), path,
             s.result.packages[path], DigestOf(s.result.exportHashes, path))
  {
    hide FactsOf, Returned, Record, Consistent, DependencyDigestOf;
    RunConsistent(fe, c, g, resume, n);
    ReuseFrom(fe, c, g, FullRun(fe, c, g, resume, n), n, s, path);
    FullRunStep(fe, c, g, resume, n);
  }

  lemma ReuseFrom<A(!new), I(!new)>(fe: FrontEnd<A, I>, c: Config, g: Graph, p: Progress<I>, n: nat, s: Snapshot<I>, path: Path)
    requires WellFormed(g) && n <= |g.order| && Consistent(fe, c, g, p, n)
    requires Returned(fe, s) && s.config == c
    requires path in g.packages && path in s.result.packages
    requires path in s.result.sourceHashes && s.result.sourceHashes[path] == g.packages[path].source
    requires path in s.result.dependencyHashes
    requires s.result.dependencyHashes[path] == DependencyDigestOf(p.result.exportHashes, g.packages[path].imports)
    ensures var facts := FactsOf(p.exports, g, g.packages[path].imports);
      var parsed := fe.parse(c, path, g.packages[path].source);
      && parsed.Parsed?
      && s.result.packages[path] == fe.check(c, parsed.ast, facts)
      && DigestOf(s.result.exportHashes, path) == FreshDigest(fe, s.result.packages[path], facts)
  {
    var g', resume :| Analysable(g') && s.result == FullResult(fe, s.config, g', resume);
    assert !g'.hasErrors;
    RunConsistent(fe, c, g', resume, |g'.order|);
    ReuseIsFresh(fe, c, g, p, n, g', FullRun(fe, c, g', resume, |g'.order|), |g'.order|, path);
  }

  lemma {:induction false} StoppedRun<A, I>(fe: FrontEnd<A, I>, c: Config, g: Graph, resume: bool, n: nat, m: nat)
    requires WellFormed(g) && n <= m <= |g.order|
    requires n < m ==> FullRun(fe, c, g, resume, n).stopped
    ensures FullRun(fe, c, g, resume, m) == FullRun(fe, c, g, resume, n)
  {
    hide AnalyzeFresh, WithHashes, FactsOf;
    if n < m {
      StoppedRun(fe, c, g, resume, n, m - 1);
    }
  }
}
