/** Strict validation as `fly config validate --strict` runs it: on the patched map (internal/appconfig/serde.go). */
module StrictOnPatched {
  import opened Prelude
  import opened Values
  import opened Patches
  import opened NormalForm
  import opened Repatching
  import opened Migration
  import opened StrictValidation
  import opened StrictReport

  // ---------------------------------------------------------------------------
  // Typed values hide what is below them
  // ---------------------------------------------------------------------------

  /** The value has a type of its own, as the patches give it, and not the one a decoder gives. */
  predicate Typed(v: Value) {
    v.ObjList? || v.StrMap? || v.StrList?
  }

  /** The value one step below. */
  function Child(v: Value, step: Step): (w: Option<Value>) {
    match step
    case InField(k) => if v.Obj? && k in v.table.m then Some(v.table.m[k]) else None
    case InIndex(i) => if v.List? && i < |v.items| then Some(v.items[i]) else None
  }

  /** Following `path` from `v` comes to a typed value, at its end or on the way. */
  ghost predicate MeetsTyped(v: Value, path: seq<Step>)
    decreases |path|
  {
    Typed(v) || (path != [] && Child(v, path[0]).Some? && MeetsTyped(Child(v, path[0]).value, path[1..]))
  }

  /** The steps a type gives a reason to take do not depend on the value. */
  ghost function StepType(schema: Schema, t: Type, step: Step): (u: Option<Type>) {
    match step
    case InField(k) =>
      (match Deref(t)
       case Struct(id) =>
         if k in schema(id).fields && IsNested(schema, schema(id).fields[k]) then Some(schema(id).fields[k]) else None
       case MapOf(e) => if IsNested(schema, e) then Some(Deref(e)) else None
       case _ => None)
    case InIndex(_) => if t.Slice? && IsNested(schema, Deref(t.elem)) then Some(Deref(t.elem)) else None
  }

  lemma StepTypeIff(schema: Schema, v: Value, t: Type, step: Step, w: Value, u: Type)
    ensures Leads(schema, v, t, step, w, u) <==> Child(v, step) == Some(w) && StepType(schema, t, step) == Some(u)
  {
    LeadsIff(schema, v, t, step, w, u);
  }

  /** The value at the end of a path, and the type a schema gives it: neither depends on the other. */
  ghost function ValueAt(v: Value, path: seq<Step>): (w: Option<Value>)
    decreases |path|
  {
    if path == [] then Some(v)
    else if Child(v, path[0]).None? then None
    else ValueAt(Child(v, path[0]).value, path[1..])
  }

  ghost function TypeAt(schema: Schema, t: Type, path: seq<Step>): (u: Option<Type>)
    decreases |path|
  {
    if path == [] then Some(t)
    else if StepType(schema, t, path[0]).None? then None
    else TypeAt(schema, StepType(schema, t, path[0]).value, path[1..])
  }

  ghost predicate Lacks(schema: Schema, v: Value, t: Type, key: Key) {
    v.Obj? && Deref(t).Struct? && key in v.table.m && !Recognised(schema, Deref(t).id, key)
  }

  ghost predicate UnknownAt(schema: Schema, w: Option<Value>, u: Option<Type>, key: Key) {
    w.Some? && u.Some? && Lacks(schema, w.value, u.value, key)
  }

  lemma {:induction false} UnknownIsAt(schema: Schema, v: Value, t: Type, path: seq<Step>, key: Key)
    requires Unknown(schema, v, t, path, key)
    ensures UnknownAt(schema, ValueAt(v, path), TypeAt(schema, t, path), key)
    decreases |path|
  {
    if path != [] {
      var w, u :| Leads(schema, v, t, path[0], w, u) && Unknown(schema, w, u, path[1..], key);
      StepTypeIff(schema, v, t, path[0], w, u);
      UnknownIsAt(schema, w, u, path[1..], key);
    }
  }

  lemma {:induction false} AtIsUnknown(schema: Schema, v: Value, t: Type, path: seq<Step>, key: Key)
    requires UnknownAt(schema, ValueAt(v, path), TypeAt(schema, t, path), key)
    ensures Unknown(schema, v, t, path, key)
    decreases |path|
  {
    if path != [] {
      var w, u := Child(v, path[0]).value, StepType(schema, t, path[0]).value;
      StepTypeIff(schema, v, t, path[0], w, u);
      AtIsUnknown(schema, w, u, path[1..], key);
    }
  }

  lemma FoundIffAt(schema: Schema, v: Value, t: Type, path: seq<Step>, key: Key)
    ensures Position(path, key) in Found(schema, v, t) <==>
            UnknownAt(schema, ValueAt(v, path), TypeAt(schema, t, path), key)
  {
    FoundIffUnknown(schema, v, t, path, key);
    if Unknown(schema, v, t, path, key) {
      UnknownIsAt(schema, v, t, path, key);
    } else if UnknownAt(schema, ValueAt(v, path), TypeAt(schema, t, path), key) {
      AtIsUnknown(schema, v, t, path, key);
    }
  }

  lemma PlainChild(v: Value, step: Step)
    requires !Typed(v)
    ensures Child(Plain(v), step) == if Child(v, step).Some? then Some(Plain(Child(v, step).value)) else None
  {
    if v.StrPtr? {
      assert !Plain(v).Obj? && !Plain(v).List?;
    }
  }

  /** A path that meets nothing typed leads to the same place in the plain form; one that does leads to no table. */
  lemma {:induction false} PlainValueAt(v: Value, path: seq<Step>)
    ensures !MeetsTyped(v, path) && ValueAt(v, path).None? ==> ValueAt(Plain(v), path).None?
    ensures !MeetsTyped(v, path) && ValueAt(v, path).Some? ==>
              !Typed(ValueAt(v, path).value) && ValueAt(Plain(v), path) == Some(Plain(ValueAt(v, path).value))
    ensures MeetsTyped(v, path) && ValueAt(v, path).Some? ==> Typed(ValueAt(v, path).value)
    decreases |path|
  {
    if path != [] {
      if Typed(v) {
        assert Child(v, path[0]).None?;
      } else {
        PlainChild(v, path[0]);
        if Child(v, path[0]).Some? {
          PlainValueAt(Child(v, path[0]).value, path[1..]);
        }
      }
    }
  }

  lemma PlainLacks(schema: Schema, v: Value, t: Type, key: Key)
    ensures Typed(v) ==> !Lacks(schema, v, t, key)
    ensures !Typed(v) ==> (Lacks(schema, v, t, key) <==> Lacks(schema, Plain(v), t, key))
  {
    assert !Typed(v) ==> (Plain(v).Obj? <==> v.Obj?);
  }

  /** The traversal finds in a value exactly what it finds in its plain form and does not lie behind a typed value. */
  lemma FoundPlainIff(schema: Schema, v: Value, t: Type, path: seq<Step>, key: Key)
    ensures Position(path, key) in Found(schema, v, t) <==>
            Position(path, key) in Found(schema, Plain(v), t) && !MeetsTyped(v, path)
  {
    FoundIffAt(schema, v, t, path, key);
    FoundIffAt(schema, Plain(v), t, path, key);
    PlainValueAt(v, path);
    if ValueAt(v, path).Some? && TypeAt(schema, t, path).Some? {
      PlainLacks(schema, ValueAt(v, path).value, TypeAt(schema, t, path).value, key);
    }
  }

  /** The same of a whole config: nothing else is missed, and nothing else is reported. */
  lemma TopFoundPlainIff(schema: Schema, root: nat, r: Fields, path: seq<Step>, key: Key)
    ensures var plain := PlainTable(Table(r)).m;
            Position(path, key) in TopFound(schema, root, r, r.Keys) <==>
            Position(path, key) in TopFound(schema, root, plain, plain.Keys) && !MeetsTyped(Obj(Table(r)), path)
  {
    var plain := PlainTable(Table(r)).m;
    TopFoundIff(schema, root, r, path, key);
    TopFoundIff(schema, root, plain, path, key);
    if path != [] && path[0].InField? && path[0].key in r && path[0].key in schema(root).fields {
      FoundPlainIff(schema, r[path[0].key], schema(root).fields[path[0].key], path[1..], key);
      assert plain[path[0].key] == Plain(r[path[0].key]);
    }
  }

  // ---------------------------------------------------------------------------
  // Where a patched config holds typed values
  // ---------------------------------------------------------------------------

  /** Nothing in the value is typed: what a decoder gives. */
  ghost predicate Untyped(v: Value) {
    match v
    case Obj(t) => forall k :: k in t.m ==> Untyped(t.m[k])
    case List(items) => forall i :: 0 <= i < |items| ==> Untyped(items[i])
    case _ => !Typed(v)
  }

  ghost predicate Decoded(c: Fields) {
    forall k :: k in c ==> Untyped(c[k])
  }

  lemma {:induction false} UntypedMeetsNothing(v: Value, path: seq<Step>)
    requires Untyped(v)
    ensures !MeetsTyped(v, path)
    decreases |path|
  {
    if path != [] {
      match path[0]
      case InField(k) =>
        if v.Obj? && k in v.table.m {
          UntypedMeetsNothing(v.table.m[k], path[1..]);
        }
      case InIndex(i) =>
        if v.List? && i < |v.items| {
          UntypedMeetsNothing(v.items[i], path[1..]);
        }
    }
  }

  /** Headers are the only typed value of a check. */
  ghost predicate OnlyHeadersTyped(t: Table) {
    forall k :: k in t.m ==> if k == Headers then t.m[k].StrMap? else Untyped(t.m[k])
  }

  lemma CheckTypes(p: Prims, t: Table)
    requires PatchCheck(p, t).Some? && Decoded(t.m)
    ensures OnlyHeadersTyped(PatchCheck(p, t).value)
  {
    CheckFields(p, t);
    var u := PatchCheck(p, t).value;
    forall k | k in u.m ensures if k == Headers then u.m[k].StrMap? else Untyped(u.m[k]) {
      assert Get(u.m, k) == CheckField(p, t.m, k);
    }
  }

  ghost predicate ChecksTyped(m: Fields) {
    forall k :: k in m ==> m[k].Obj? && OnlyHeadersTyped(m[k].table)
  }

  lemma {:induction false} CheckItemsTypes(p: Prims, items: seq<Value>)
    requires PatchCheckItems(p, items).Some? && Untyped(List(items))
    ensures ChecksTyped(PatchCheckItems(p, items).value)
  {
    if items != [] {
      var n := |items| - 1;
      forall i | 0 <= i < n ensures Untyped(items[..n][i]) {
        assert Untyped(items[i]);
      }
      CheckItemsTypes(p, items[..n]);
      assert Untyped(items[n]);
      CheckTypes(p, items[n].table);
    }
  }

  lemma ChecksTypes(p: Prims, v: Value)
    requires CheckSection(p, v).Some? && Untyped(v)
    ensures ChecksTyped(CheckSection(p, v).value)
  {
    if v.Obj? {
      forall k | k in v.table.m { CheckTypes(p, v.table.m[k].table); }
    } else {
      CheckItemsTypes(p, v.items);
    }
  }

  ghost predicate BelowHeaders(m: Fields, path: seq<Step>) {
    && |path| >= 2 && path[0].InField? && path[0].key in m && path[1] == InField(Headers)
    && m[path[0].key].Obj? && Headers in m[path[0].key].table.m
  }

  lemma ChecksMeetIff(m: Fields, path: seq<Step>)
    requires ChecksTyped(m)
    ensures MeetsTyped(Obj(Table(m)), path) <==> BelowHeaders(m, path)
  {
    if path != [] && path[0].InField? && path[0].key in m {
      var u := m[path[0].key].table;
      var rest := path[1..];
      if rest != [] && rest[0].InField? && rest[0].key in u.m && rest[0].key != Headers {
        UntypedMeetsNothing(u.m[rest[0].key], rest[1..]);
      }
      assert MeetsTyped(Obj(u), rest) <==> rest != [] && rest[0] == InField(Headers) && Headers in u.m;
    }
  }

  ghost predicate AtWords(m: Fields, path: seq<Step>) {
    path != [] && path[0].InField? && path[0].key in WORD_KEYS && path[0].key in m && m[path[0].key].StrList?
  }

  lemma WordsMeetIff(t: Table, path: seq<Step>)
    requires WordFields(t).Some? && Decoded(t.m)
    ensures MeetsTyped(Obj(Table(WordFields(t).value)), path) <==> AtWords(WordFields(t).value, path)
  {
    var m := WordFields(t).value;
    if path != [] && path[0].InField? && path[0].key in m {
      var k := path[0].key;
      if k !in WORD_KEYS {
        assert m[k] == t.m[k];
        UntypedMeetsNothing(m[k], path[1..]);
      } else {
        assert m[k].StrList? || m[k].Nil?;
      }
    }
  }

  /** The places of a patched config that strict validation does not see. */
  ghost predicate Hidden(r: Fields, path: seq<Step>) {
    && path != [] && path[0].InField? && path[0].key in r
    && (var k, v, rest := path[0].key, r[path[0].key], path[1..];
        || k in {Env, Services, Vm, Mounts, Metrics}
        || (k == Processes && v.StrMap?)
        || (k == Checks && v.Obj? && BelowHeaders(v.table.m, rest))
        || (k == Experimental && v.Obj? && AtWords(v.table.m, rest)))
  }

  lemma SectionMeetsIff(p: Prims, c: Fields, r: Fields, path: seq<Step>)
    requires Patched(p, c, r) && Normal(r) && Decoded(c)
    requires path != [] && path[0].InField? && path[0].key in r
    ensures MeetsTyped(r[path[0].key], path[1..]) <==> Hidden(r, path)
  {
    var k, rest := path[0].key, path[1..];
    assert Get(r, k) == Section(p, c, k);
    if k in {Env, Services, Vm, Mounts, Metrics} {
    } else if k == Checks {
      ChecksTypes(p, c[Checks]);
      ChecksMeetIff(r[k].table.m, rest);
    } else if k == Experimental {
      WordsMeetIff(c[Experimental].table, rest);
    } else if k == Processes && r[k].StrMap? {
    } else {
      RestIsUntyped(p, c, r, k);
      UntypedMeetsNothing(r[k], rest);
    }
  }

  lemma RestIsUntyped(p: Prims, c: Fields, r: Fields, k: Key)
    requires Patched(p, c, r) && Normal(r) && Decoded(c) && k in r
    requires k !in {Env, Services, Vm, Mounts, Metrics, Checks, Experimental} && (k == Processes ==> !r[k].StrMap?)
    ensures Untyped(r[k])
  {
    assert Get(r, k) == Section(p, c, k);
    if k == Build {
      assert Untyped(c[Build]);
    } else if k == Processes {
      assert r[k] == c[k];
    } else if k != KillTimeout {
      UntouchedSection(p, c, k);
    }
  }

  /**
   * Of the unknown keys of a patched config, strict validation reports exactly those that are in no hidden place: below
   * env, services, vm, mounts and metrics, below processes given as a list, below the headers of a check, and below the
   * words of an experimental command.
   */
  lemma PatchedReportIff(p: Prims, c: Fields, r: Fields, schema: Schema, root: nat, path: seq<Step>, key: Key)
    requires PatchRoot(p, c) == Some(r) && Decoded(c)
    ensures var plain := PlainTable(Table(r)).m;
            Position(path, key) in TopFound(schema, root, r, r.Keys) <==>
            Position(path, key) in TopFound(schema, root, plain, plain.Keys) && !Hidden(r, path)
  {
    TopFoundPlainIff(schema, root, r, path, key);
    PatchedIsNormal(p, c, r);
    RootIsSections(p, c);
    if path != [] && path[0].InField? && path[0].key in r {
      SectionMeetsIff(p, c, r, path);
      assert MeetsTyped(Obj(Table(r)), path) <==> MeetsTyped(r[path[0].key], path[1..]);
    }
  }

  /** A list of tables that the patches have typed is not searched, whatever its type expects. */
  lemma TypedTablesAreNotSearched(schema: Schema, tables: seq<Table>, t: Type)
    ensures Found(schema, ObjList(tables), t) == {}
  {
  }

  /** So on a patched config no unknown key inside services, vm, mounts or metrics is ever reported. */
  lemma StrictValidationMissesTables(p: Prims, c: Fields, r: Fields, schema: Schema, root: nat)
    requires PatchRoot(p, c) == Some(r)
    ensures forall x :: x in TopFound(schema, root, r, r.Keys) ==>
              x.path != [] && x.path[0].InField? && x.path[0].key !in {Services, Vm, Mounts, Metrics}
  {
    PatchedIsNormal(p, c, r);
    forall x | x in TopFound(schema, root, r, r.Keys)
      ensures x.path != [] && x.path[0].InField? && x.path[0].key !in {Services, Vm, Mounts, Metrics}
    {
      var k :| k in r && x in TopKeyFound(schema, root, r, k);
      TopKeyFoundBelow(schema, root, r, k, x);
      if r[k].ObjList? {
        TypedTablesAreNotSearched(schema, r[k].tables, schema(root).fields[k]);
      }
    }
  }

  const TYPO := Other("memroy")

  /** A config type with one section, a list of structs that know the key `memory`. */
  function VmSchema(): (schema: Schema) {
    (id: nat) => if id == 0 then StructInfo(false, map[Vm := Slice(Pointer(Struct(1)))], [])
                 else StructInfo(false, map[Memory := Scalar], [])
  }

  const TYPO_ITEM := Obj(Table(map[TYPO := Bool(true)]))

  lemma TypoIsFound()
    ensures var c := map[Vm := List([TYPO_ITEM])];
            Position([InField(Vm), InIndex(0)], TYPO) in TopFound(VmSchema(), 0, c, c.Keys)
  {
    var c := map[Vm := List([TYPO_ITEM])];
    var path, rest := [InField(Vm), InIndex(0)], [InIndex(0)];
    var t := Slice(Pointer(Struct(1)));
    TopFoundIff(VmSchema(), 0, c, path, TYPO);
    assert path[1..] == rest && rest[1..] == [];
    FoundIffAt(VmSchema(), List([TYPO_ITEM]), t, rest, TYPO);
    assert ValueAt(List([TYPO_ITEM]), rest) == Some(TYPO_ITEM);
    assert TypeAt(VmSchema(), t, rest) == Some(Struct(1));
  }

  lemma TypoPatches(p: Prims)
    ensures PatchRoot(p, map[Vm := List([TYPO_ITEM])]).Some?
  {
    var c := map[Vm := List([TYPO_ITEM])];
    var none: seq<Table> := [];
    assert TablesOf(None) == Some(none);
    assert TablesOf(Get(c, Vm)).Some?;
    RootIsSections(p, c);
  }

  /** A misspelled key is found in the map as decoded, and missed once that map is patched. */
  lemma MissedTypo(p: Prims)
    ensures var c := map[Vm := List([TYPO_ITEM])];
            && PatchRoot(p, c).Some?
            && Position([InField(Vm), InIndex(0)], TYPO) in TopFound(VmSchema(), 0, c, c.Keys)
            && var r := PatchRoot(p, c).value;
               Position([InField(Vm), InIndex(0)], TYPO) !in TopFound(VmSchema(), 0, r, r.Keys)
  {
    var c := map[Vm := List([TYPO_ITEM])];
    TypoPatches(p);
    TypoIsFound();
    StrictValidationMissesTables(p, c, PatchRoot(p, c).value, VmSchema(), 0);
  }
}
