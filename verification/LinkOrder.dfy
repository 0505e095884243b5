/** Module order and hash binding: `dependencyOrder` in
    `compiler/linker_reachability.go`, `retainReachableModules` and the
    hash-binding loop of `linkProgram` in `compiler/linker_image.go`. */
module LinkOrder {
  import opened Options

  /** Source requirements of each module; the source visits them sorted, the model
      in the order given. */
  type Modules = map<string, seq<string>>

  ghost predicate Closed(modules: Modules) {
    forall m, d :: m in modules && d in modules[m] ==> d in modules
  }

  ghost predicate IsPath(modules: Modules, path: seq<string>) {
    forall i :: 0 <= i < |path| - 1 ==> path[i] in modules && path[i + 1] in modules[path[i]]
  }

  ghost predicate Acyclic(modules: Modules) {
    forall path :: |path| >= 2 && IsPath(modules, path) ==> path[0] != path[|path| - 1]
  }

  ghost predicate Distinct(s: seq<string>) {
    forall i, j :: 0 <= i < j < |s| ==> s[i] != s[j]
  }

  /** Each module of `order` follows all of its requirements. */
  ghost predicate DependenciesFirst(modules: Modules, order: seq<string>) {
    forall i, d :: 0 <= i < |order| && order[i] in modules && d in modules[order[i]] ==> d in order[..i]
  }

  class OrderWalk {
    const modules: Modules
    var seen: set<string>
    var order: seq<string>

    constructor (modules: Modules)
      ensures this.modules == modules && seen == {} && order == []
    {
      this.modules := modules;
      seen, order := {}, [];
    }

    /** `stack` is the chain of visits in progress. */
    ghost predicate Valid(stack: seq<string>) reads this {
      && Distinct(order) && IsPath(modules, stack)
      && (forall m :: m in order ==> m in modules && m in seen && m !in stack)
      && (forall m :: m in stack ==> m in modules && m in seen)
      && (forall m :: m in seen && m in modules ==> m in order || m in stack)
      && (Closed(modules) && Acyclic(modules) ==> DependenciesFirst(modules, order))
    }

    method Visit(m: string, ghost stack: seq<string>)
      requires Valid(stack) && (stack != [] ==> m in modules[stack[|stack| - 1]])
      modifies this
      ensures Valid(stack) && m in seen && old(seen) <= seen && old(order) <= order
      decreases modules.Keys - seen
    {
      if m in seen {
        return;
      }
      seen := seen + {m};
      if m !in modules {
        return;
      }
      ghost var chain := stack + [m];
      var dependencies, i := modules[m], 0;
      while i < |dependencies|
        invariant 0 <= i <= |dependencies|
        invariant Valid(chain) && old(seen) + {m} <= seen && old(order) <= order
        invariant forall d :: d in dependencies[..i] ==> d in seen
      {
        assert dependencies[..i + 1] == dependencies[..i] + [dependencies[i]];
        Visit(dependencies[i], chain);
        i := i + 1;
      }
      assert dependencies[..i] == dependencies;
      if Closed(modules) && Acyclic(modules) {
        forall d | d in dependencies ensures d in order {
          BackEdgeIsCycle(modules, chain, d);
        }
        OrderExtends(modules, order, m);
      }
      order := order + [m];
    }
  }

  lemma BackEdgeIsCycle(modules: Modules, chain: seq<string>, d: string)
    requires IsPath(modules, chain) && chain != []
    requires chain[|chain| - 1] in modules && d in modules[chain[|chain| - 1]]
    ensures d in chain ==> !Acyclic(modules)
  {
    if d in chain {
      var k :| 0 <= k < |chain| && chain[k] == d;
      var cycle := chain[k..] + [d];
      assert IsPath(modules, cycle);
    }
  }

  lemma OrderExtends(modules: Modules, order: seq<string>, m: string)
    requires DependenciesFirst(modules, order)
    requires m in modules ==> forall d :: d in modules[m] ==> d in order
    ensures DependenciesFirst(modules, order + [m])
  {
    var longer := order + [m];
    forall i, d | 0 <= i < |longer| && longer[i] in modules && d in modules[longer[i]] ensures d in longer[..i] {
      assert longer[..i] == order[..i];
    }
  }

  /** Preferred modules first, then the modules not yet seen, in any order. */
  method DependencyOrder(preferred: seq<string>, modules: Modules) returns (order: seq<string>)
    ensures Distinct(order) && forall m :: m in order <==> m in modules
    ensures Closed(modules) && Acyclic(modules) ==> DependenciesFirst(modules, order)
  {
    var walk := new OrderWalk(modules);
    for i := 0 to |preferred|
      invariant walk.Valid([])
    {
      walk.Visit(preferred[i], []);
    }
    var rest := modules.Keys - walk.seen;
    while rest != {}
      invariant walk.Valid([]) && forall m :: m in modules ==> m in walk.seen || m in rest
      decreases rest
    {
      var m :| m in rest;
      walk.Visit(m, []);
      rest := rest - {m};
    }
    order := walk.order;
  }

  // ----- hash binding ---------------------------------------------------------------

  /** A package hash covers the package and the hashes of its requirements. */
  datatype Hash = Hash(modulePath: string, requirements: seq<Hash>)

  method BindRequirements(names: seq<string>, hashes: map<string, Hash>) returns (bound: Option<seq<Hash>>)
    ensures bound.Some? <==> forall d <- names :: d in hashes
    ensures bound.Some? ==> |bound.value| == |names|
    ensures bound.Some? ==> forall i :: 0 <= i < |names| ==> bound.value[i] == hashes[names[i]]
  {
    var acc, i := [], 0;
    while i < |names|
      invariant 0 <= i <= |names| && |acc| == i
      invariant forall j :: 0 <= j < i ==> names[j] in hashes && acc[j] == hashes[names[j]]
    {
      if names[i] !in hashes {
        return None;
      }
      acc := acc + [hashes[names[i]]];
      i := i + 1;
    }
    bound := Some(acc);
  }

  ghost predicate Bound(modules: Modules, hashes: map<string, Hash>, m: string) {
    && m in modules && m in hashes && hashes[m].modulePath == m && |hashes[m].requirements| == |modules[m]|
    && forall i :: 0 <= i < |modules[m]| ==>
        modules[m][i] in hashes && hashes[m].requirements[i] == hashes[modules[m][i]]
  }

  method BindHashes(order: seq<string>, modules: Modules) returns (bound: Option<map<string, Hash>>)
    requires Distinct(order) && forall m :: m in order <==> m in modules
    ensures bound.Some? <==> DependenciesFirst(modules, order)
    ensures bound.Some? ==> bound.value.Keys == modules.Keys && forall m :: m in modules ==> Bound(modules, bound.value, m)
  {
    var hashes, n := map[], 0;
    while n < |order|
      invariant 0 <= n <= |order|
      invariant forall m :: m in hashes <==> m in order[..n]
      invariant forall m :: m in hashes ==> Bound(modules, hashes, m)
      invariant forall i, d :: 0 <= i < n && d in modules[order[i]] ==> d in order[..i]
    {
      var m := order[n];
      var requirements := BindRequirements(modules[m], hashes);
      if requirements.None? {
        return None;
      }
      assert m !in hashes;
      assert order[..n + 1] == order[..n] + [m];
      hashes := hashes[m := Hash(m, requirements.value)];
      n := n + 1;
    }
    assert order[..n] == order;
    bound := Some(hashes);
  }

  lemma {:induction false} PathDescends(modules: Modules, order: seq<string>, path: seq<string>, i: nat, k: nat)
    requires DependenciesFirst(modules, order) && Distinct(order)
    requires IsPath(modules, path) && i < |path| - 1
    requires k < |order| && order[k] == path[i]
    ensures exists j :: 0 <= j < k && order[j] == path[|path| - 1]
    decreases |path| - i
  {
    assert path[i + 1] in order[..k];
    var j :| 0 <= j < k && order[j] == path[i + 1];
    if i + 1 < |path| - 1 {
      PathDescends(modules, order, path, i + 1, j);
    }
  }

  lemma OrderedIsAcyclic(modules: Modules, order: seq<string>)
    requires Distinct(order) && forall m :: m in order <==> m in modules
    requires DependenciesFirst(modules, order)
    ensures Closed(modules) && Acyclic(modules)
  {
    forall m, d | m in modules && d in modules[m] ensures d in modules {
      var k :| 0 <= k < |order| && order[k] == m;
      assert d in order[..k];
    }
    forall path | |path| >= 2 && IsPath(modules, path) ensures path[0] != path[|path| - 1] {
      assert path[0] in order;
      var k :| 0 <= k < |order| && order[k] == path[0];
      PathDescends(modules, order, path, 0, k);
    }
  }

  /** Ordering and binding together: binding meets no unavailable module exactly on
      closed, acyclic requirement graphs, whatever the preferred order. */
  method LinkModules(preferred: seq<string>, modules: Modules)
    returns (order: seq<string>, bound: Option<map<string, Hash>>)
    ensures Distinct(order) && forall m :: m in order <==> m in modules
    ensures bound.Some? <==> Closed(modules) && Acyclic(modules)
    ensures bound.Some? ==> DependenciesFirst(modules, order) && bound.value.Keys == modules.Keys
    ensures bound.Some? ==> forall m :: m in modules ==> Bound(modules, bound.value, m)
  {
    order := DependencyOrder(preferred, modules);
    bound := BindHashes(order, modules);
    if bound.Some? {
      OrderedIsAcyclic(modules, order);
    }
  }

  // ----- reachable modules ----------------------------------------------------------

  ghost predicate ModuleClosed(modules: Modules, root: string, s: iset<string>) {
    root in s && forall m, d :: m in s && m in modules && d in modules[m] ==> d in s
  }

  ghost predicate Needed(modules: Modules, root: string, m: string) {
    forall s: iset<string> :: ModuleClosed(modules, root, s) ==> m in s
  }

  lemma NeededClosed(modules: Modules, root: string)
    ensures ModuleClosed(modules, root, iset m | Needed(modules, root, m))
  {
    forall m, d | Needed(modules, root, m) && m in modules && d in modules[m] ensures Needed(modules, root, d) {
      forall s: iset<string> | ModuleClosed(modules, root, s) ensures d in s {
        assert m in s;
      }
    }
  }

  /** Breadth-first retention: the least closed set around the root, or an error
      exactly when that set needs a module that is absent. */
  method RetainReachableModules(modules: Modules, root: string) returns (retained: Option<Modules>)
    ensures retained.Some? <==> forall m :: Needed(modules, root, m) ==> m in modules
    ensures retained.Some? ==> Closed(retained.value) && forall m :: m in retained.value <==> Needed(modules, root, m)
    ensures retained.Some? ==> forall m :: m in retained.value ==> retained.value[m] == modules[m]
  {
    NeededClosed(modules, root);
    ghost var least := iset m | Needed(modules, root, m);
    var kept: Modules, queue, next := map[], [root], 0;
    while next < |queue|
      invariant 0 <= next <= |queue| && root in queue
      invariant forall m :: m in queue ==> m in least
      invariant forall m :: m in queue[..next] ==> m in kept
      invariant forall m :: m in kept ==> m in queue && m in modules && kept[m] == modules[m]
      invariant forall m, d :: m in kept && d in modules[m] ==> d in queue
      decreases modules.Keys - kept.Keys, |queue| - next
    {
      var m := queue[next];
      assert queue[..next + 1] == queue[..next] + [m];
      next := next + 1;
      if m !in kept {
        assert m in least;
        if m !in modules {
          return None;
        }
        ghost var keys := kept.Keys;
        kept := kept[m := modules[m]];
        assert kept.Keys == keys + {m};
        ghost var before := queue;
        queue := queue + modules[m];
        assert queue[..next] == before[..next];
      }
    }
    assert queue[..next] == queue;
    ghost var found := iset m | m in kept;
    assert ModuleClosed(modules, root, found);
    retained := Some(kept);
  }
}
