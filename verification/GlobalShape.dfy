/** The shape check that lets module state be rebound on a hot reload: `compareGlobals` in
    `runtime/hot_reload_plan.go` and `bindModuleState` in `runtime/module.go`. */
module GlobalShape {

  /** A declaration with its formatted type text. */
  datatype Global = Global(id: string, typ: string)

  /** The cells of a module state, by identity, with the type text they were made for. */
  type Cells = map<string, string>

  function IdsOf(globals: seq<Global>): set<string> { set g | g in globals :: g.id }

  ghost predicate Unique(globals: seq<Global>) {
    forall i, j :: 0 <= i < j < |globals| ==> globals[i].id != globals[j].id
  }

  /** Later declarations of an identity override earlier ones. */
  function Index(globals: seq<Global>): (index: Cells)
    ensures index.Keys == IdsOf(globals)
  {
    if globals == [] then map[]
    else
      var n := |globals| - 1;
      assert globals == globals[..n] + [globals[n]];
      Index(globals[..n])[globals[n].id := globals[n].typ]
  }

  /** Same number of globals, and each old one is still there with the same type. */
  ghost predicate SameShape(before: seq<Global>, after: seq<Global>) {
    && |before| == |after|
    && forall g :: g in before ==> g.id in Index(after) && Index(after)[g.id] == g.typ
  }

  method CompareGlobals(before: seq<Global>, after: seq<Global>) returns (same: bool)
    ensures same <==> SameShape(before, after)
  {
    if |before| != |after| {
      return false;
    }
    var index: Cells := map[];
    for i := 0 to |after|
      invariant index == Index(after[..i])
    {
      assert after[..i + 1][..i] == after[..i];
      index := index[after[i].id := after[i].typ];
    }
    assert after[..|after|] == after;
    for i := 0 to |before|
      invariant forall k :: 0 <= k < i ==> before[k].id in index && index[before[k].id] == before[k].typ
    {
      if before[i].id !in index || index[before[i].id] != before[i].typ {
        assert before[i] in before;
        return false;
      }
    }
    return true;
  }

  /** Every declaration of the new code finds a cell. */
  ghost predicate Binds(globals: seq<Global>, cells: Cells) {
    forall g :: g in globals ==> g.id in cells
  }

  method BindModuleState(globals: seq<Global>, cells: Cells) returns (bound: bool, types: seq<string>)
    ensures bound <==> Binds(globals, cells)
    ensures bound ==> |types| == |globals| && forall i :: 0 <= i < |globals| ==> globals[i].id in cells && types[i] == cells[globals[i].id]
  {
    types := [];
    for i := 0 to |globals|
      invariant |types| == i && forall k :: 0 <= k < i ==> globals[k].id in cells && types[k] == cells[globals[k].id]
    {
      if globals[i].id !in cells {
        assert globals[i] in globals;
        return false, [];
      }
      types := types + [cells[globals[i].id]];
    }
    return true, types;
  }

  // ----- counting distinct identities ------------------------------------------------------------

  lemma {:induction false} IdsGrow(globals: seq<Global>, g: Global)
    ensures IdsOf(globals + [g]) == IdsOf(globals) + {g.id}
  {
    forall id | id in IdsOf(globals) + {g.id} ensures id in IdsOf(globals + [g]) {
      if id in IdsOf(globals) {
        var h :| h in globals && h.id == id;
        assert h in globals + [g];
      } else {
        assert g in globals + [g];
      }
    }
  }

  lemma {:induction false} IdCount(globals: seq<Global>)
    ensures |IdsOf(globals)| <= |globals|
    ensures Unique(globals) <==> |IdsOf(globals)| == |globals|
  {
    if globals != [] {
      var n := |globals| - 1;
      var rest, last := globals[..n], globals[n];
      assert globals == rest + [last];
      IdsGrow(rest, last);
      IdCount(rest);
      if Unique(globals) {
        forall h | h in rest ensures h.id != last.id {
          var i :| 0 <= i < n && globals[i] == h;
        }
      } else if last.id !in IdsOf(rest) {
        NewIdUnique(rest, last);
      }
    }
  }

  lemma {:induction false} NewIdUnique(rest: seq<Global>, last: Global)
    requires last.id !in IdsOf(rest)
    ensures Unique(rest) ==> Unique(rest + [last])
  {
    forall i | 0 <= i < |rest| ensures rest[i].id != last.id { assert rest[i] in rest; }
  }

  lemma {:induction false} SubsetCount(a: set<string>, b: set<string>)
    requires a <= b
    ensures |a| <= |b| && (|a| == |b| <==> a == b)
  {
    assert b == a + (b - a);
  }

  /** After an accepted comparison binding succeeds exactly if the new declarations name no
      more identities than the old ones. */
  lemma {:induction false} BindsExactly(before: seq<Global>, after: seq<Global>, cells: Cells)
    requires SameShape(before, after) && cells.Keys == IdsOf(before)
    ensures Binds(after, cells) <==> |IdsOf(after)| <= |IdsOf(before)|
  {
    assert IdsOf(before) <= IdsOf(after);
    SubsetCount(IdsOf(before), IdsOf(after));
    if Binds(after, cells) {
      assert IdsOf(after) <= IdsOf(before);
    } else {
      var g :| g in after && g.id !in cells;
      assert g.id in IdsOf(after);
    }
  }

  /** Distinct old identities are enough, and then cells and declarations agree again. */
  lemma {:induction false} AcceptedBinds(before: seq<Global>, after: seq<Global>)
    requires SameShape(before, after) && Unique(before)
    ensures Binds(after, Index(before)) && Unique(after) && Index(after) == Index(before)
  {
    assert IdsOf(before) <= IdsOf(after);
    forall id | id in IdsOf(before) ensures id in Index(after) && Index(after)[id] == Index(before)[id] {
      IndexFrom(before, id);
    }
    IdCount(before);
    IdCount(after);
    SubsetCount(IdsOf(before), IdsOf(after));
    BindsExactly(before, after, Index(before));
    hide IdsOf, Unique, Binds;
    assert Index(after).Keys == Index(before).Keys;
    assert forall id :: id in Index(before) ==> Index(after)[id] == Index(before)[id];
  }

  lemma {:induction false} ShapeOfItself(globals: seq<Global>)
    requires Unique(globals)
    ensures SameShape(globals, globals)
  {
    forall g | g in globals ensures g.id in Index(globals) && Index(globals)[g.id] == g.typ {
      IndexFrom(globals, g.id);
      var i :| 0 <= i < |globals| && globals[i] == g;
      var j :| 0 <= j < |globals| && globals[j] == Global(g.id, Index(globals)[g.id]);
      assert globals[i].id == globals[j].id;
    }
  }

  lemma {:induction false} IndexFrom(globals: seq<Global>, id: string)
    requires id in IdsOf(globals)
    ensures Global(id, Index(globals)[id]) in globals
  {
    var n := |globals| - 1;
    var rest, last := globals[..n], globals[n];
    assert globals == rest + [last];
    if last.id != id {
      IdsGrow(rest, last);
      IndexFrom(rest, id);
    }
  }

  /** With a repeated identity an accepted comparison can still fail to bind. */
  lemma {:induction false} RepeatedIdMisleads(a: string, b: string, typ: string)
    requires a != b
    ensures var before, after := [Global(a, typ), Global(a, typ)], [Global(a, typ), Global(b, typ)];
      SameShape(before, after) && !Binds(after, Index(before))
  {
    var before, after := [Global(a, typ), Global(a, typ)], [Global(a, typ), Global(b, typ)];
    assert after[..1] == [Global(a, typ)] && [Global(a, typ)][..0] == [];
    assert Index(after[..1]) == map[a := typ];
    assert Index(after) == map[a := typ, b := typ];
    assert before[..1] == [Global(a, typ)];
    assert Global(b, typ) in after && b !in Index(before);
  }
}
