/** Strict validation of raw config maps against struct types (internal/appconfig/strict_validate.go). */
module StrictValidation {
  import opened Values

  datatype Type = Scalar | Struct(id: nat) | Pointer(elem: Type) | Slice(elem: Type) | MapOf(elem: Type)

  /** A struct type: its tagged fields, each with one pointer removed, and the structs it embeds inline. */
  datatype StructInfo = StructInfo(builtin: bool, fields: map<Key, Type>, inlines: seq<nat>)

  /** Struct types by identity; a struct may reach itself. */
  type Schema = nat -> StructInfo

  function Deref(t: Type): (u: Type) {
    if t.Pointer? then t.elem else t
  }

  predicate IsNested(schema: Schema, t: Type) {
    match Deref(t)
    case Struct(id) => !schema(id).builtin
    case Slice(e) => Deref(e).Struct? && !schema(Deref(e).id).builtin
    case MapOf(e) => IsNested(schema, e)
    case _ => false
  }

  predicate Recognised(schema: Schema, id: nat, k: Key) {
    k in schema(id).fields || exists i :: 0 <= i < |schema(id).inlines| && k in schema(schema(id).inlines[i]).fields
  }

  // ---------------------------------------------------------------------------
  // Reference: following a path
  // ---------------------------------------------------------------------------

  datatype Step = InField(key: Key) | InIndex(index: nat)

  datatype Position = Position(path: seq<Step>, key: Key)

  /** `u` is `t`, or what `t` points to. */
  ghost predicate Unpointed(t: Type, u: Type) {
    t == Pointer(u) || (t == u && !u.Pointer?)
  }

  /** `t` is a map of maps, `n` deep, of which the innermost holds `u`; any of the maps may be behind a pointer. */
  ghost predicate ThroughMaps(t: Type, n: nat, u: Type) {
    if n == 0 then t == u
    else exists e :: (t == MapOf(e) || t == Pointer(MapOf(e))) && ThroughMaps(e, n - 1, u)
  }

  ghost predicate OwnStruct(schema: Schema, t: Type) {
    exists id :: !schema(id).builtin && (t == Struct(id) || t == Pointer(Struct(id)))
  }

  ghost predicate HoldsStructs(schema: Schema, t: Type) {
    OwnStruct(schema, t) || exists e :: (t == Slice(e) || t == Pointer(Slice(e))) && OwnStruct(schema, e)
  }

  /** Behind any number of maps there is a struct of the program's own, or a list of such. */
  ghost predicate WorthSearching(schema: Schema, t: Type) {
    exists n: nat, u :: ThroughMaps(t, n, u) && HoldsStructs(schema, u)
  }

  /** The value and type that one step leads to, when the type gives a reason to look there. */
  ghost predicate Leads(schema: Schema, v: Value, t: Type, step: Step, v': Value, t': Type) {
    match step
    case InField(k) =>
      && v.Obj? && k in v.table.m && v' == v.table.m[k]
      && (|| (exists id ::
                && Unpointed(t, Struct(id)) && k in schema(id).fields && t' == schema(id).fields[k]
                && WorthSearching(schema, t'))
          || (exists e :: Unpointed(t, MapOf(e)) && Unpointed(e, t') && WorthSearching(schema, e)))
    case InIndex(i) =>
      && v.List? && i < |v.items| && v' == v.items[i]
      && (exists e :: t == Slice(e) && Unpointed(e, t')) && WorthSearching(schema, t')
  }

  /** The struct type, itself or by a struct that it embeds inline, has no such field. */
  ghost predicate HasNoField(schema: Schema, id: nat, key: Key) {
    key !in schema(id).fields && forall other :: other in schema(id).inlines ==> key !in schema(other).fields
  }

  /** Following `path` from `v` at type `t` reaches a struct that does not know `key`. */
  ghost predicate Unknown(schema: Schema, v: Value, t: Type, path: seq<Step>, key: Key)
    decreases |path|
  {
    if path == [] then
      v.Obj? && key in v.table.m && exists id :: Unpointed(t, Struct(id)) && HasNoField(schema, id, key)
    else
      exists v', t' :: Leads(schema, v, t, path[0], v', t') && Unknown(schema, v', t', path[1..], key)
  }

  lemma {:induction false} NestedIff(schema: Schema, t: Type)
    ensures IsNested(schema, t) <==> WorthSearching(schema, t)
  {
    if Deref(t).MapOf? {
      var e := Deref(t).elem;
      NestedIff(schema, e);
      if n: nat, u :| ThroughMaps(e, n, u) && HoldsStructs(schema, u) {
        assert ThroughMaps(t, n + 1, u);
      }
      if n: nat, u :| ThroughMaps(t, n, u) && HoldsStructs(schema, u) {
        assert ThroughMaps(e, n - 1, u);
      }
    } else {
      if IsNested(schema, t) {
        assert ThroughMaps(t, 0, t);
        assert t.Struct? || t.Slice? || t == Pointer(Deref(t));
      }
      if n: nat, u :| ThroughMaps(t, n, u) && HoldsStructs(schema, u) {
        assert n == 0;
      }
    }
  }

  /** The traversal's own account of one step. */
  ghost predicate Goes(schema: Schema, v: Value, t: Type, step: Step, v': Value, t': Type) {
    match step
    case InField(k) =>
      && v.Obj? && k in v.table.m && v' == v.table.m[k]
      && (match Deref(t)
          case Struct(id) => k in schema(id).fields && t' == schema(id).fields[k] && IsNested(schema, t')
          case MapOf(e) => IsNested(schema, e) && t' == Deref(e)
          case _ => false)
    case InIndex(i) =>
      && v.List? && i < |v.items| && v' == v.items[i]
      && t.Slice? && t' == Deref(t.elem) && IsNested(schema, t')
  }

  lemma DerefIff(t: Type, u: Type)
    ensures Unpointed(t, u) <==> Deref(t) == u
  {
  }

  lemma StructLeadsIff(schema: Schema, v: Value, t: Type, k: Key, w: Value, u: Type)
    requires Deref(t).Struct?
    ensures Leads(schema, v, t, InField(k), w, u) <==> Goes(schema, v, t, InField(k), w, u)
  {
    NestedIff(schema, u);
    DerefIff(t, Deref(t));
  }

  lemma MapLeadsIff(schema: Schema, v: Value, t: Type, k: Key, w: Value, u: Type)
    requires Deref(t).MapOf?
    ensures Leads(schema, v, t, InField(k), w, u) <==> Goes(schema, v, t, InField(k), w, u)
  {
    var e := Deref(t).elem;
    NestedIff(schema, e);
    DerefIff(t, MapOf(e));
    DerefIff(e, u);
  }

  lemma ItemLeadsIff(schema: Schema, v: Value, t: Type, i: nat, w: Value, u: Type)
    ensures Leads(schema, v, t, InIndex(i), w, u) <==> Goes(schema, v, t, InIndex(i), w, u)
  {
    NestedIff(schema, u);
    if t.Slice? {
      DerefIff(t.elem, u);
    }
  }

  lemma LeadsIff(schema: Schema, v: Value, t: Type, step: Step, w: Value, u: Type)
    ensures Leads(schema, v, t, step, w, u) <==> Goes(schema, v, t, step, w, u)
  {
    match step
    case InField(k) =>
      if Deref(t).Struct? {
        StructLeadsIff(schema, v, t, k, w, u);
      } else if Deref(t).MapOf? {
        MapLeadsIff(schema, v, t, k, w, u);
      }
    case InIndex(i) => ItemLeadsIff(schema, v, t, i, w, u);
  }

  lemma HasNoFieldIff(schema: Schema, id: nat, key: Key)
    ensures HasNoField(schema, id, key) <==> !Recognised(schema, id, key)
  {
    if other :| other in schema(id).inlines && key in schema(other).fields {
      var i :| 0 <= i < |schema(id).inlines| && schema(id).inlines[i] == other;
    }
  }

  // ---------------------------------------------------------------------------
  // What the traversal finds
  // ---------------------------------------------------------------------------

  ghost function Under(step: Step, xs: set<Position>): (ys: set<Position>) {
    set x | x in xs :: Position([step] + x.path, x.key)
  }

  /** Terminates on the size of the value, whatever the schema. */
  ghost function Found(schema: Schema, v: Value, t: Type): (xs: set<Position>)
    decreases v, 2
  {
    match v
    case Obj(table) =>
      (match Deref(t)
       case Struct(id) => StructFound(schema, table, id, table.m.Keys)
       case MapOf(e) => if IsNested(schema, e) then EntriesFound(schema, table, e, table.m.Keys) else {}
       case _ => {})
    case List(items) =>
      if t.Slice? && IsNested(schema, Deref(t.elem)) then ItemsFound(schema, items, Deref(t.elem), |items|) else {}
    case _ => {}
  }

  ghost function StructFound(schema: Schema, table: Table, id: nat, ks: set<Key>): (xs: set<Position>)
    decreases table, 1
  {
    set k, x | k in ks && k in table.m && x in FieldFound(schema, table, id, k) :: x
  }

  ghost function EntriesFound(schema: Schema, table: Table, e: Type, ks: set<Key>): (xs: set<Position>)
    decreases table, 1
  {
    set k, x | k in ks && k in table.m && x in EntryFound(schema, table, e, k) :: x
  }

  ghost function ItemsFound(schema: Schema, items: seq<Value>, u: Type, n: nat): (xs: set<Position>)
    requires n <= |items|
    decreases items, 1
  {
    set i, x | 0 <= i < n && x in Under(InIndex(i), Found(schema, items[i], u)) :: x
  }

  ghost function FieldFound(schema: Schema, table: Table, id: nat, k: Key): (xs: set<Position>)
    requires k in table.m
    decreases table, 0
  {
    if !Recognised(schema, id, k) then {Position([], k)}
    else if k in schema(id).fields && IsNested(schema, schema(id).fields[k])
    then Under(InField(k), Found(schema, table.m[k], schema(id).fields[k]))
    else {}
  }

  ghost function EntryFound(schema: Schema, table: Table, e: Type, k: Key): (xs: set<Position>)
    requires k in table.m
    decreases table, 0
  {
    Under(InField(k), Found(schema, table.m[k], Deref(e)))
  }

  /** Membership in what one step contributes. */
  lemma UnderIff(s: Step, xs: set<Position>, path: seq<Step>, key: Key)
    ensures Position(path, key) in Under(s, xs) <==> path != [] && s == path[0] && Position(path[1..], key) in xs
  {
    if path != [] {
      assert path == [path[0]] + path[1..];
    }
    if Position(path, key) in Under(s, xs) {
      var x :| x in xs && Position([s] + x.path, x.key) == Position(path, key);
      assert ([s] + x.path)[1..] == x.path;
    }
  }

  ghost predicate FoundByStep(schema: Schema, v: Value, t: Type, path: seq<Step>, key: Key) {
    path != [] &&
    exists w, u :: Goes(schema, v, t, path[0], w, u) && Position(path[1..], key) in Found(schema, w, u)
  }

  lemma StructIff(schema: Schema, v: Value, t: Type, path: seq<Step>, key: Key)
    requires v.Obj? && Deref(t).Struct?
    ensures Position(path, key) in Found(schema, v, t) <==>
            (path == [] && key in v.table.m && !Recognised(schema, Deref(t).id, key))
            || FoundByStep(schema, v, t, path, key)
  {
    var id, table, x := Deref(t).id, v.table, Position(path, key);
    forall k | k in table.m
      ensures x in FieldFound(schema, table, id, k) <==>
              if Recognised(schema, id, k)
              then path != [] && path[0] == InField(k) && FoundByStep(schema, v, t, path, key)
              else path == [] && key == k
    {
      if Recognised(schema, id, k) && k in schema(id).fields && IsNested(schema, schema(id).fields[k]) {
        var w, u := table.m[k], schema(id).fields[k];
        UnderIff(InField(k), Found(schema, w, u), path, key);
        assert Goes(schema, v, t, InField(k), w, u);
      }
    }
    if FoundByStep(schema, v, t, path, key) {
      var w, u :| Goes(schema, v, t, path[0], w, u) && Position(path[1..], key) in Found(schema, w, u);
      assert Recognised(schema, id, path[0].key);
      assert x in FieldFound(schema, table, id, path[0].key);
    }
    if path == [] && key in table.m && !Recognised(schema, id, key) {
      assert x in FieldFound(schema, table, id, key);
    }
  }

  lemma MapIff(schema: Schema, v: Value, t: Type, path: seq<Step>, key: Key)
    requires v.Obj? && Deref(t).MapOf? && IsNested(schema, Deref(t).elem)
    ensures Position(path, key) in Found(schema, v, t) <==> FoundByStep(schema, v, t, path, key)
  {
    var e, table, x := Deref(t).elem, v.table, Position(path, key);
    forall k | k in table.m
      ensures x in EntryFound(schema, table, e, k) <==>
              path != [] && path[0] == InField(k) && FoundByStep(schema, v, t, path, key)
    {
      UnderIff(InField(k), Found(schema, table.m[k], Deref(e)), path, key);
      assert Goes(schema, v, t, InField(k), table.m[k], Deref(e));
    }
    if FoundByStep(schema, v, t, path, key) {
      assert x in EntryFound(schema, table, e, path[0].key);
    }
  }

  lemma ListIff(schema: Schema, v: Value, t: Type, path: seq<Step>, key: Key)
    requires v.List?
    ensures Position(path, key) in Found(schema, v, t) <==> FoundByStep(schema, v, t, path, key)
  {
    var x := Position(path, key);
    if t.Slice? && IsNested(schema, Deref(t.elem)) {
      var u := Deref(t.elem);
      forall i | 0 <= i < |v.items|
        ensures x in Under(InIndex(i), Found(schema, v.items[i], u)) <==>
                path != [] && path[0] == InIndex(i) && FoundByStep(schema, v, t, path, key)
      {
        UnderIff(InIndex(i), Found(schema, v.items[i], u), path, key);
        assert Goes(schema, v, t, InIndex(i), v.items[i], u);
      }
      if FoundByStep(schema, v, t, path, key) {
        var i := path[0].index;
        assert x in Under(InIndex(i), Found(schema, v.items[i], u));
      }
    }
  }

  lemma FoundIff(schema: Schema, v: Value, t: Type, path: seq<Step>, key: Key)
    ensures Position(path, key) in Found(schema, v, t) <==>
            || (path == [] && v.Obj? && Deref(t).Struct? && key in v.table.m && !Recognised(schema, Deref(t).id, key))
            || FoundByStep(schema, v, t, path, key)
  {
    if v.Obj? && Deref(t).Struct? {
      StructIff(schema, v, t, path, key);
    } else if v.Obj? && Deref(t).MapOf? && IsNested(schema, Deref(t).elem) {
      MapIff(schema, v, t, path, key);
    } else if v.List? {
      ListIff(schema, v, t, path, key);
    }
  }

  lemma FoundHereIff(schema: Schema, v: Value, t: Type, key: Key)
    ensures Position([], key) in Found(schema, v, t) <==> Unknown(schema, v, t, [], key)
  {
    FoundIff(schema, v, t, [], key);
    if Deref(t).Struct? {
      HasNoFieldIff(schema, Deref(t).id, key);
      DerefIff(t, Struct(Deref(t).id));
    }
  }

  /** The traversal finds precisely the keys that path following says are unknown. */
  lemma {:induction false} FoundIffUnknown(schema: Schema, v: Value, t: Type, path: seq<Step>, key: Key)
    ensures Position(path, key) in Found(schema, v, t) <==> Unknown(schema, v, t, path, key)
    decreases |path|
  {
    if path == [] {
      FoundHereIff(schema, v, t, key);
    } else {
      FoundIff(schema, v, t, path, key);
      forall w, u ensures Leads(schema, v, t, path[0], w, u) <==> Goes(schema, v, t, path[0], w, u) {
        LeadsIff(schema, v, t, path[0], w, u);
      }
      forall w, u ensures Position(path[1..], key) in Found(schema, w, u) <==> Unknown(schema, w, u, path[1..], key) {
        FoundIffUnknown(schema, w, u, path[1..], key);
      }
    }
  }

  // ---------------------------------------------------------------------------
  // A table of tables
  // ---------------------------------------------------------------------------

  const ALIVE := Other("alive")
  const MISSPELLED := Other("intervall")

  /** A config type with one section: a table of structs that know the key `interval`. */
  function ChecksSchema(): (schema: Schema) {
    (id: nat) => if id == 0 then StructInfo(false, map[Checks := MapOf(Pointer(Struct(1)))], [])
                 else StructInfo(false, map[Interval := Scalar], [])
  }

  /** A misspelled key of a check in the table of checks is found. */
  lemma MisspelledIsFound(v: Value)
    ensures var checks := Obj(Table(map[ALIVE := Obj(Table(map[MISSPELLED := v]))]));
            Position([InField(ALIVE)], MISSPELLED) in Found(ChecksSchema(), checks, MapOf(Pointer(Struct(1))))
  {
    var s, t, u := ChecksSchema(), MapOf(Pointer(Struct(1))), Struct(1);
    var check := Obj(Table(map[MISSPELLED := v]));
    var checks, path := Obj(Table(map[ALIVE := check])), [InField(ALIVE)];
    FoundIffUnknown(s, checks, t, path, MISSPELLED);
    assert !s(1).builtin;
    assert ThroughMaps(Pointer(u), 0, Pointer(u)) && HoldsStructs(s, Pointer(u));
    assert Unpointed(t, MapOf(Pointer(u))) && Unpointed(Pointer(u), u);
    assert Leads(s, checks, t, path[0], check, u);
    assert Unpointed(u, Struct(1)) && HasNoField(s, 1, MISSPELLED);
    assert Unknown(s, check, u, path[1..], MISSPELLED);
  }
}
