/** `validateValues` of `rpc/value.go`: a running tally of bytes and elements over a
    tree walk.  The tally is shown to be a plain sum, so the order of map entries
    and fields does not affect the verdict. */
module ValueValidation {
  import opened Options
  import opened WireCodec
  import opened KeyedSort
  import opened ValueCodec

  datatype Tally = Tally(bytes: nat, elements: nat) {
    function Add(other: Tally): Tally { Tally(bytes + other.bytes, elements + other.elements) }
    predicate Within(env: Env) { bytes <= env.maxBytes && elements <= env.maxElements }
  }

  const ZERO := Tally(0, 0)

  function Checked(env: Env, t: Tally): Option<Tally> {
    if t.Within(env) then Some(t) else None
  }

  /** Agreement of a value with its type text. */
  predicate Shaped(env: Env, v: Value) {
    match v.data
    case Nil => true
    case Slice(items) => env.sliceType(v.typ) && forall item <- items :: env.slice(v.typ, item.typ)
    case Map(entries) => env.mapType(v.typ) && forall e <- entries :: env.mapping(v.typ, e.key.typ, e.value.typ)
    case Struct(_) => env.message(v.typ)
    case Optional(inner) => env.optional(v.typ, inner.typ)
    case _ => env.leaf(v.typ, v.data)
  }

  predicate ResourceOk(env: Env, typ: Bytes, ref: ResourceRef) {
    ref.epoch != 0 && ref.objectId != 0 && |ref.typeHash| == 64 && env.trim(typ) == ref.typeHash
  }

  // ----- the walk ---------------------------------------------------------------

  function Validate(env: Env, v: Value, depth: nat, acc: Tally): Option<Tally>
    decreases v, 1
  {
    if v.typ == [] || !env.utf8(v.typ) || depth > env.maxDepth then None
    else
      var t :- Checked(env, acc.Add(Tally(|v.typ|, 1)));
      if v.data.Resource? then if depth == 0 && ResourceOk(env, v.typ, v.data.ref) then Some(t) else None
      else if !Shaped(env, v) then None
      else ValidateData(env, v.data, depth, t)
  }

  function ValidateData(env: Env, d: Data, depth: nat, t: Tally): Option<Tally>
    decreases d, 1
  {
    match d
    case Str(s) => if env.utf8(s) then Checked(env, t.Add(Tally(|s|, 0))) else None
    case Raw(s) => Checked(env, t.Add(Tally(|s|, 0)))
    case Slice(items) => var u :- ValidateItems(env, items, depth + 1, t); Checked(env, u)
    case Map(entries) => var u :- ValidateEntries(env, entries, depth + 1, t); Checked(env, u)
    case Struct(fields) => var u :- ValidateFields(env, fields, {}, depth + 1, t); Checked(env, u)
    case Optional(inner) => Validate(env, inner, depth + 1, t)
    case _ => Some(t)
  }

  function ValidateItems(env: Env, items: seq<Value>, depth: nat, acc: Tally): Option<Tally>
    decreases items, 0
  {
    if items == [] then Some(acc)
    else
      var t :- Validate(env, items[0], depth, acc);
      ValidateItems(env, items[1..], depth, t)
  }

  function ValidateEntry(env: Env, e: Entry, depth: nat, acc: Tally): Option<Tally>
    decreases e, 2
  {
    var t :- Validate(env, e.key, depth, acc);
    Validate(env, e.value, depth, t)
  }

  function ValidateEntries(env: Env, entries: seq<Entry>, depth: nat, acc: Tally): Option<Tally>
    decreases entries, 0
  {
    if entries == [] then Some(acc)
    else
      var t :- ValidateEntry(env, entries[0], depth, acc);
      ValidateEntries(env, entries[1..], depth, t)
  }

  function ValidateField(env: Env, f: Field, depth: nat, acc: Tally): Option<Tally>
    decreases f, 2
  {
    Validate(env, f.value, depth, acc)
  }

  function ValidateFields(env: Env, fields: seq<Field>, seen: set<FieldId>, depth: nat, acc: Tally): Option<Tally>
    decreases fields, 0
  {
    if fields == [] then Some(acc)
    else if fields[0].id == 0 || fields[0].id in seen then None
    else
      var t :- ValidateField(env, fields[0], depth, acc);
      ValidateFields(env, fields[1..], seen + {fields[0].id}, depth, t)
  }

  // ----- what the walk decides ------------------------------------------------------

  predicate Proper(env: Env, v: Value, depth: nat)
    decreases v, 1
  {
    && v.typ != [] && env.utf8(v.typ) && depth <= env.maxDepth
    && if v.data.Resource? then depth == 0 && ResourceOk(env, v.typ, v.data.ref)
       else Shaped(env, v) && ProperData(env, v.data, depth)
  }

  predicate ProperData(env: Env, d: Data, depth: nat)
    decreases d, 1
  {
    match d
    case Str(s) => env.utf8(s)
    case Slice(items) => forall i :: 0 <= i < |items| ==> Proper(env, items[i], depth + 1)
    case Map(entries) => forall i :: 0 <= i < |entries| ==> ProperEntry(env, entries[i], depth + 1)
    case Struct(fields) =>
      && (forall i :: 0 <= i < |fields| ==> fields[i].id != 0 && ProperField(env, fields[i], depth + 1))
      && (forall i, j :: 0 <= i < j < |fields| ==> fields[i].id != fields[j].id)
    case Optional(inner) => Proper(env, inner, depth + 1)
    case _ => true
  }

  predicate ProperEntry(env: Env, e: Entry, depth: nat)
    decreases e, 2
  {
    Proper(env, e.key, depth) && Proper(env, e.value, depth)
  }

  predicate ProperField(env: Env, f: Field, depth: nat)
    decreases f, 2
  {
    Proper(env, f.value, depth)
  }

  function Size(v: Value): Tally
    decreases v, 1
  {
    Tally(|v.typ|, 1).Add(SizeData(v.data))
  }

  function SizeData(d: Data): Tally
    decreases d, 1
  {
    match d
    case Str(s) => Tally(|s|, 0)
    case Raw(s) => Tally(|s|, 0)
    case Slice(items) => SizeItems(items)
    case Map(entries) => SizeEntries(entries)
    case Struct(fields) => SizeFields(fields)
    case Optional(inner) => Size(inner)
    case _ => ZERO
  }

  function SizeItems(items: seq<Value>): Tally
    decreases items, 0
  {
    if items == [] then ZERO else Size(items[0]).Add(SizeItems(items[1..]))
  }

  function SizeEntry(e: Entry): Tally
    decreases e, 2
  {
    Size(e.key).Add(Size(e.value))
  }

  function SizeEntries(entries: seq<Entry>): Tally
    decreases entries, 0
  {
    if entries == [] then ZERO else SizeEntry(entries[0]).Add(SizeEntries(entries[1..]))
  }

  function SizeField(f: Field): Tally
    decreases f, 2
  {
    Size(f.value)
  }

  function SizeFields(fields: seq<Field>): Tally
    decreases fields, 0
  {
    if fields == [] then ZERO else SizeField(fields[0]).Add(SizeFields(fields[1..]))
  }

  function Verdict(env: Env, proper: bool, total: Tally): Option<Tally> {
    if proper && total.Within(env) then Some(total) else None
  }

  /** The walk accepts exactly the proper values whose total stays within limits. */
  lemma {:induction false} ValidateMeans(env: Env, v: Value, depth: nat, acc: Tally)
    requires acc.Within(env)
    ensures Validate(env, v, depth, acc) == Verdict(env, Proper(env, v, depth), acc.Add(Size(v)))
    decreases v, 1
  {
    hide ValidateData, ProperData, SizeData, Shaped, ResourceOk;
    var t := acc.Add(Tally(|v.typ|, 1));
    if v.data.Resource? {
      ResourceSizeless(v.data);
    }
    if t.Within(env) {
      ValidateDataMeans(env, v.data, depth, t);
    }
  }

  lemma ResourceSizeless(d: Data)
    requires d.Resource?
    ensures SizeData(d) == ZERO
  {
  }

  lemma {:induction false} ValidateDataMeans(env: Env, d: Data, depth: nat, t: Tally)
    requires t.Within(env)
    ensures ValidateData(env, d, depth, t) == Verdict(env, ProperData(env, d, depth), t.Add(SizeData(d)))
    decreases d, 1
  {
    hide Validate, Proper, Size, ValidateItems, ValidateEntries, ValidateFields;
    hide SizeItems, SizeEntries, SizeFields, ProperEntry, ProperField;
    match d
    case Slice(items) => ValidateItemsMeans(env, items, depth + 1, t);
    case Map(entries) => ValidateEntriesMeans(env, entries, depth + 1, t);
    case Struct(fields) => ValidateFieldsMeans(env, fields, {}, depth + 1, t);
    case Optional(inner) => ValidateMeans(env, inner, depth + 1, t);
    case _ =>
  }

  lemma {:induction false} ValidateItemsMeans(env: Env, items: seq<Value>, depth: nat, acc: Tally)
    requires acc.Within(env)
    ensures ValidateItems(env, items, depth, acc) ==
      Verdict(env, forall i :: 0 <= i < |items| ==> Proper(env, items[i], depth), acc.Add(SizeItems(items)))
    decreases items, 0
  {
    hide Validate, Proper, Size;
    if items != [] {
      ValidateMeans(env, items[0], depth, acc);
      var t := acc.Add(Size(items[0]));
      assert items == [items[0]] + items[1..];
      if t.Within(env) {
        ValidateItemsMeans(env, items[1..], depth, t);
      }
    }
  }

  lemma {:induction false} ValidateEntryMeans(env: Env, e: Entry, depth: nat, acc: Tally)
    requires acc.Within(env)
    ensures ValidateEntry(env, e, depth, acc) == Verdict(env, ProperEntry(env, e, depth), acc.Add(SizeEntry(e)))
    decreases e, 2
  {
    hide Validate, Proper, Size;
    ValidateMeans(env, e.key, depth, acc);
    if acc.Add(Size(e.key)).Within(env) {
      ValidateMeans(env, e.value, depth, acc.Add(Size(e.key)));
    }
  }

  lemma {:induction false} ValidateEntriesMeans(env: Env, entries: seq<Entry>, depth: nat, acc: Tally)
    requires acc.Within(env)
    ensures ValidateEntries(env, entries, depth, acc) ==
      Verdict(env, forall i :: 0 <= i < |entries| ==> ProperEntry(env, entries[i], depth), acc.Add(SizeEntries(entries)))
    decreases entries, 0
  {
    hide ValidateEntry, ProperEntry, SizeEntry;
    if entries != [] {
      ValidateEntryMeans(env, entries[0], depth, acc);
      var t := acc.Add(SizeEntry(entries[0]));
      assert entries == [entries[0]] + entries[1..];
      if t.Within(env) {
        ValidateEntriesMeans(env, entries[1..], depth, t);
      }
    }
  }

  lemma ValidateFieldMeans(env: Env, f: Field, depth: nat, acc: Tally)
    requires acc.Within(env)
    ensures ValidateField(env, f, depth, acc) == Verdict(env, ProperField(env, f, depth), acc.Add(SizeField(f)))
    decreases f, 2
  {
    hide Validate, Proper, Size;
    ValidateMeans(env, f.value, depth, acc);
  }

  /** Field identities are non-zero, pairwise distinct and not among `seen`. */
  predicate ProperFields(env: Env, fields: seq<Field>, seen: set<FieldId>, depth: nat) {
    && (forall i :: 0 <= i < |fields| ==> fields[i].id != 0 && ProperField(env, fields[i], depth))
    && (forall i :: 0 <= i < |fields| ==> fields[i].id !in seen)
    && (forall i, j :: 0 <= i < j < |fields| ==> fields[i].id != fields[j].id)
  }

  lemma ProperFieldsStep(env: Env, fields: seq<Field>, seen: set<FieldId>, depth: nat)
    requires fields != []
    ensures ProperFields(env, fields, seen, depth) <==>
      fields[0].id != 0 && fields[0].id !in seen && ProperField(env, fields[0], depth)
      && ProperFields(env, fields[1..], seen + {fields[0].id}, depth)
  {
    var rest := fields[1..];
    if ProperFields(env, rest, seen + {fields[0].id}, depth) {
      assert forall i :: 1 <= i < |fields| ==> fields[i] == rest[i - 1];
    }
  }

  lemma {:induction false} ValidateFieldsMeans(env: Env, fields: seq<Field>, seen: set<FieldId>, depth: nat, acc: Tally)
    requires acc.Within(env)
    ensures ValidateFields(env, fields, seen, depth, acc) ==
      Verdict(env, ProperFields(env, fields, seen, depth), acc.Add(SizeFields(fields)))
    decreases fields, 0
  {
    hide ValidateField, ProperField, SizeField;
    if fields != [] {
      ProperFieldsStep(env, fields, seen, depth);
      ValidateFieldMeans(env, fields[0], depth, acc);
      var t := acc.Add(SizeField(fields[0]));
      if t.Within(env) {
        ValidateFieldsMeans(env, fields[1..], seen + {fields[0].id}, depth, t);
      }
    }
  }

  // ----- what fits a type ---------------------------------------------------------------------------

  /** Place by place: every item fits the slice type, every entry the map type, a struct its
      message type, an optional what it may hold, nothing at all fits any type, and anything else
      fits by itself. */
  lemma {:induction false} FitsMeans(env: Env, v: Value)
    ensures v.data.Nil? ==> Shaped(env, v)
    ensures v.data.Slice? ==>
      (Shaped(env, v) <==> env.sliceType(v.typ) && forall i :: 0 <= i < |v.data.items| ==> env.slice(v.typ, v.data.items[i].typ))
    ensures v.data.Map? ==>
      (Shaped(env, v) <==>
        env.mapType(v.typ) && forall i :: 0 <= i < |v.data.entries| ==> env.mapping(v.typ, v.data.entries[i].key.typ, v.data.entries[i].value.typ))
    ensures v.data.Struct? ==> (Shaped(env, v) <==> env.message(v.typ))
    ensures v.data.Optional? ==> (Shaped(env, v) <==> env.optional(v.typ, v.data.inner.typ))
    ensures !v.data.Nil? && !v.data.Slice? && !v.data.Map? && !v.data.Struct? && !v.data.Optional? ==> (Shaped(env, v) <==> env.leaf(v.typ, v.data))
  {
  }

  /** A resource is proper at the top only, under a type whose trimmed text is its 64-byte hash, and
      with an epoch and an identity; nested, a resource is never proper. */
  lemma {:induction false} ResourceProper(env: Env, typ: Bytes, ref: ResourceRef, depth: nat)
    ensures Proper(env, Value(typ, Resource(ref)), depth) <==>
      typ != [] && env.utf8(typ) && depth == 0 && ref.epoch > 0 && ref.objectId > 0 && |ref.typeHash| == 64 && env.trim(typ) == ref.typeHash
  {
  }
}
