/** Sorting records by a byte-string key, as the value codec does before writing a
    map or a struct.  Where equal keys carry equal payloads the result does not
    depend on the input order, nor on the sorting algorithm. */
module KeyedSort {

  datatype Keyed<+T> = Keyed(key: seq<nat>, payload: T)

  /** `bytes.Compare(a, b) <= 0`. */
  predicate LexLe(a: seq<nat>, b: seq<nat>) {
    a == [] || (b != [] && (a[0] < b[0] || (a[0] == b[0] && LexLe(a[1..], b[1..]))))
  }

  /** What the comparison is about: one key is a prefix of the other, or has the smaller
      byte where they first differ. */
  ghost predicate ByteOrder(a: seq<nat>, b: seq<nat>) {
    a <= b || exists i :: FirstSmaller(a, b, i)
  }

  ghost predicate FirstSmaller(a: seq<nat>, b: seq<nat>, i: nat) {
    i < |a| && i < |b| && a[i] < b[i] && forall k :: 0 <= k < i ==> a[k] == b[k]
  }

  lemma {:induction false} LexIsByteOrder(a: seq<nat>, b: seq<nat>)
    ensures LexLe(a, b) <==> ByteOrder(a, b)
  {
    if a != [] && b != [] {
      if a[0] == b[0] {
        LexIsByteOrder(a[1..], b[1..]);
        assert a == [a[0]] + a[1..] && b == [b[0]] + b[1..];
        if i: nat :| FirstSmaller(a[1..], b[1..], i) { assert FirstSmaller(a, b, i + 1); }
        if i: nat :| FirstSmaller(a, b, i) { assert FirstSmaller(a[1..], b[1..], i - 1); }
      } else if a[0] < b[0] {
        assert FirstSmaller(a, b, 0);
      }
    }
  }

  lemma {:induction false} LexTotal(a: seq<nat>, b: seq<nat>)
    ensures LexLe(a, b) || LexLe(b, a)
    ensures LexLe(a, b) && LexLe(b, a) ==> a == b
  {
    if a != [] && b != [] && a[0] == b[0] {
      LexTotal(a[1..], b[1..]);
      assert a == [a[0]] + a[1..] && b == [b[0]] + b[1..];
    }
  }

  lemma {:induction false} LexTransitive(a: seq<nat>, b: seq<nat>, c: seq<nat>)
    requires LexLe(a, b) && LexLe(b, c)
    ensures LexLe(a, c)
  {
    if a != [] && a[0] == b[0] && b[0] == c[0] {
      LexTransitive(a[1..], b[1..], c[1..]);
    }
  }

  function Insert<T>(x: Keyed<T>, s: seq<Keyed<T>>): (r: seq<Keyed<T>>)
    ensures multiset(r) == multiset(s) + multiset{x}
  {
    if s == [] || LexLe(x.key, s[0].key) then [x] + s
    else
      assert s == [s[0]] + s[1..];
      [s[0]] + Insert(x, s[1..])
  }

  function Sort<T>(s: seq<Keyed<T>>): (r: seq<Keyed<T>>)
    ensures multiset(r) == multiset(s) && |r| == |s|
  {
    if s == [] then []
    else
      assert s == [s[0]] + s[1..];
      var r := Insert(s[0], Sort(s[1..]));
      assert |multiset(r)| == |r| && |multiset(s)| == |s|;
      r
  }

  ghost predicate Sorted<T>(s: seq<Keyed<T>>) {
    forall i :: 0 < i < |s| ==> LexLe(s[i - 1].key, s[i].key)
  }

  /** Equal keys carry equal payloads; distinct keys are the usual case. */
  ghost predicate Coherent<T>(s: seq<Keyed<T>>) {
    forall x, y :: x in s && y in s && x.key == y.key ==> x == y
  }

  lemma {:induction false} InsertSorted<T>(x: Keyed<T>, s: seq<Keyed<T>>)
    requires Sorted(s)
    ensures Sorted(Insert(x, s))
    ensures s != [] && !LexLe(x.key, s[0].key) ==> Insert(x, s)[0] == s[0]
  {
    if s != [] && !LexLe(x.key, s[0].key) {
      LexTotal(x.key, s[0].key);
      InsertSorted(x, s[1..]);
      var rest := Insert(x, s[1..]);
      assert rest[0] == x || rest[0] == s[1];
    }
  }

  lemma {:induction false} SortSorted<T>(s: seq<Keyed<T>>)
    ensures Sorted(Sort(s))
  {
    if s != [] {
      SortSorted(s[1..]);
      InsertSorted(s[0], Sort(s[1..]));
    }
  }

  lemma {:induction false} SortOfSorted<T>(s: seq<Keyed<T>>)
    requires Sorted(s)
    ensures Sort(s) == s
  {
    if s != [] {
      SortOfSorted(s[1..]);
      assert s == [s[0]] + s[1..];
    }
  }

  lemma {:induction false} InsertCommutes<T>(x: Keyed<T>, y: Keyed<T>, s: seq<Keyed<T>>)
    requires x.key == y.key ==> x == y
    ensures Insert(x, Insert(y, s)) == Insert(y, Insert(x, s))
  {
    hide LexLe;
    LexTotal(x.key, y.key);
    if s != [] {
      var h := s[0].key;
      LexTotal(x.key, h);
      LexTotal(y.key, h);
      if LexLe(x.key, h) && !LexLe(y.key, h) {
        if LexLe(y.key, x.key) { LexTransitive(y.key, x.key, h); }
        assert ([x] + s)[1..] == s;
      } else if LexLe(y.key, h) && !LexLe(x.key, h) {
        if LexLe(x.key, y.key) { LexTransitive(x.key, y.key, h); }
        assert ([y] + s)[1..] == s;
      } else if LexLe(x.key, h) && LexLe(y.key, h) {
        assert ([x] + s)[1..] == s && ([y] + s)[1..] == s;
      } else {
        InsertCommutes(x, y, s[1..]);
        var a, b := Insert(x, s[1..]), Insert(y, s[1..]);
        assert ([s[0]] + a)[1..] == a && ([s[0]] + b)[1..] == b;
      }
    }
  }

  function Without<T>(s: seq<Keyed<T>>, i: nat): (r: seq<Keyed<T>>)
    requires i < |s|
    ensures multiset(r) + multiset{s[i]} == multiset(s)
    ensures forall x :: x in r ==> x in s
  {
    assert s == s[..i] + [s[i]] + s[i + 1..];
    s[..i] + s[i + 1..]
  }

  lemma WithoutTail<T>(s: seq<Keyed<T>>, i: nat)
    requires 0 < i < |s|
    ensures Without(s, i) == [s[0]] + Without(s[1..], i - 1)
  {
  }

  lemma SortCons<T>(x: Keyed<T>, s: seq<Keyed<T>>)
    ensures Sort([x] + s) == Insert(x, Sort(s))
  {
    assert ([x] + s)[1..] == s;
  }

  lemma {:induction false} SortAround<T>(s: seq<Keyed<T>>, i: nat)
    requires i < |s| && Coherent(s)
    ensures Sort(s) == Insert(s[i], Sort(Without(s, i)))
  {
    hide Insert, LexLe;
    if i == 0 {
      assert Without(s, 0) == s[1..];
    } else {
      var tail := s[1..];
      assert Coherent(tail) by { assert forall x :: x in tail ==> x in s; }
      SortAround(tail, i - 1);
      WithoutTail(s, i);
      SortCons(s[0], Without(tail, i - 1));
      assert s[0] in s && s[i] in s;
      InsertCommutes(s[0], s[i], Sort(Without(tail, i - 1)));
    }
  }

  /** Sorting forgets the input order. */
  lemma {:induction false} SortPermutation<T>(s: seq<Keyed<T>>, t: seq<Keyed<T>>)
    requires multiset(s) == multiset(t) && Coherent(s)
    ensures Sort(s) == Sort(t)
    decreases |t|
  {
    hide Insert, LexLe, Without, Coherent;
    if t == [] {
      assert |multiset(s)| == 0;
      assert s == [];
    } else {
      var i := FindHead(s, t);
      SortAround(s, i);
      SortPermutation(Without(s, i), t[1..]);
      SortCons(t[0], t[1..]);
      assert t == [t[0]] + t[1..];
    }
  }

  lemma FindHead<T>(s: seq<Keyed<T>>, t: seq<Keyed<T>>) returns (i: nat)
    requires multiset(s) == multiset(t) && t != [] && Coherent(s)
    ensures i < |s| && s[i] == t[0]
    ensures multiset(Without(s, i)) == multiset(t[1..]) && Coherent(Without(s, i))
  {
    hide Sort, Insert;
    assert t[0] in multiset(s);
    i :| 0 <= i < |s| && s[i] == t[0];
    var without := Without(s, i);
    assert t == [t[0]] + t[1..];
    assert multiset(without) == multiset(s) - multiset{t[0]} == multiset(t[1..]);
    forall x, y | x in without && y in without && x.key == y.key ensures x == y {
      assert x in s && y in s;
    }
  }

  /** Any sorted rearrangement is the one computed here. */
  lemma SortUnique<T>(s: seq<Keyed<T>>, t: seq<Keyed<T>>)
    requires multiset(s) == multiset(t) && Coherent(s) && Sorted(t)
    ensures t == Sort(s)
  {
    SortPermutation(s, t);
    SortOfSorted(t);
  }

  function MapPayload<T, U>(f: T -> U, s: seq<Keyed<T>>): seq<Keyed<U>> {
    seq(|s|, i requires 0 <= i < |s| => Keyed(s[i].key, f(s[i].payload)))
  }

  lemma {:induction false} MapPayloadHead<T, U>(f: T -> U, s: seq<Keyed<T>>)
    requires s != []
    ensures var m := MapPayload(f, s);
      m != [] && m[0] == Keyed(s[0].key, f(s[0].payload)) && m[1..] == MapPayload(f, s[1..])
  {
  }

  lemma {:induction false} MapPayloadCons<T, U>(f: T -> U, x: Keyed<T>, s: seq<Keyed<T>>)
    ensures MapPayload(f, [x] + s) == [Keyed(x.key, f(x.payload))] + MapPayload(f, s)
  {
  }

  lemma {:induction false} InsertUnfolds<T>(x: Keyed<T>, s: seq<Keyed<T>>)
    ensures Insert(x, s) == if s == [] || LexLe(x.key, s[0].key) then [x] + s else [s[0]] + Insert(x, s[1..])
  {
    hide LexLe;
  }

  lemma {:induction false} SortUnfolds<T>(s: seq<Keyed<T>>)
    requires s != []
    ensures Sort(s) == Insert(s[0], Sort(s[1..]))
  {
    hide Insert;
  }

  lemma {:induction false} MapPayloadNone<T, U>(f: T -> U)
    ensures MapPayload(f, []) == []
  {
  }

  lemma {:induction false} InsertMap<T, U>(f: T -> U, x: Keyed<T>, s: seq<Keyed<T>>)
    ensures MapPayload(f, Insert(x, s)) == Insert(Keyed(x.key, f(x.payload)), MapPayload(f, s))
  {
    hide LexLe, Insert, MapPayload;
    var y := Keyed(x.key, f(x.payload));
    InsertUnfolds(x, s);
    InsertUnfolds(y, MapPayload(f, s));
    if s == [] {
      MapPayloadNone(f);
      MapPayloadCons(f, x, s);
    } else {
      MapPayloadHead(f, s);
      if LexLe(x.key, s[0].key) {
        MapPayloadCons(f, x, s);
      } else {
        InsertMap(f, x, s[1..]);
        MapPayloadCons(f, s[0], Insert(x, s[1..]));
      }
    }
  }

  /** Payloads ride along: sorting and mapping payloads commute. */
  lemma {:induction false} SortMap<T, U>(f: T -> U, s: seq<Keyed<T>>)
    ensures MapPayload(f, Sort(s)) == Sort(MapPayload(f, s))
  {
    hide Insert, LexLe, MapPayload, Sort;
    if s == [] {
      SortNone<T>();
      SortNone<U>();
      MapPayloadNone(f);
    } else {
      MapPayloadHead(f, s);
      SortUnfolds(s);
      SortUnfolds(MapPayload(f, s));
      SortMap(f, s[1..]);
      InsertMap(f, s[0], Sort(s[1..]));
    }
  }

  lemma {:induction false} SortNone<T>()
    ensures Sort<T>([]) == []
  {
  }
}
