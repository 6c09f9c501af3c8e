/** The strict validation traversal, accumulating into one shared result. */
module StrictReport {
  import opened Prelude
  import opened Values
  import opened StrictValidation

  /** How keys and indexes are spelled in section names. */
  datatype Naming = Naming(key: Key -> string, index: nat -> string)

  function Extend(n: Naming, section: string, step: Step): (s: string) {
    match step
    case InField(k) => section + "." + n.key(k)
    case InIndex(i) => section + "[" + n.index(i) + "]"
  }

  /** The section name of a path; the first step of a path is a top level key. */
  function Render(n: Naming, path: seq<Step>): (s: string) {
    if path == [] then ""
    else if |path| == 1 && path[0].InField? then n.key(path[0].key)
    else Extend(n, Render(n, path[..|path| - 1]), path[|path| - 1])
  }

  lemma RenderExtend(n: Naming, path: seq<Step>, step: Step)
    requires path != []
    ensures Render(n, path + [step]) == Extend(n, Render(n, path), step)
  {
    assert (path + [step])[..|path|] == path;
  }

  /** What each step adds to a section name, left to right. */
  function Spelling(n: Naming, path: seq<Step>): (s: string) {
    if path == [] then ""
    else
      var here := if path[0].InField? then "." + n.key(path[0].key) else "[" + n.index(path[0].index) + "]";
      here + Spelling(n, path[1..])
  }

  lemma {:induction false} SpellingSnoc(n: Naming, path: seq<Step>, step: Step)
    ensures Spelling(n, path + [step]) == Spelling(n, path) + Spelling(n, [step])
  {
    if path == [] {
      assert path + [step] == [step];
    } else {
      assert (path + [step])[1..] == path[1..] + [step];
      SpellingSnoc(n, path[1..], step);
    }
  }

  lemma ExtendAppends(n: Naming, section: string, step: Step)
    ensures Extend(n, section, step) == section + Spelling(n, [step])
  {
    assert [step][1..] == [];
    var here := if step.InField? then "." + n.key(step.key) else "[" + n.index(step.index) + "]";
    assert Spelling(n, [step]) == here + "" == here;
    assert Extend(n, section, step) == section + here;
  }

  lemma SpelledOneStep(n: Naming, k: Key, path: seq<Step>, step: Step)
    requires Render(n, [InField(k)] + path) == n.key(k) + Spelling(n, path)
    ensures Render(n, [InField(k)] + (path + [step])) == n.key(k) + Spelling(n, path + [step])
  {
    var section := Render(n, [InField(k)] + path);
    SpellingSnoc(n, path, step);
    Assoc([InField(k)], path, [step]);
    RenderExtend(n, [InField(k)] + path, step);
    ExtendAppends(n, section, step);
    Assoc(n.key(k), Spelling(n, path), Spelling(n, [step]));
  }

  /** A section is named by its top level key, then a dot and a key or an index in brackets for every step below. */
  lemma {:induction false} SectionsAreSpelled(n: Naming, k: Key, path: seq<Step>)
    ensures Render(n, [InField(k)] + path) == n.key(k) + Spelling(n, path)
    decreases |path|
  {
    if path == [] {
      assert [InField(k)] + path == [InField(k)];
    } else {
      var m := |path| - 1;
      SectionsAreSpelled(n, k, path[..m]);
      SpelledOneStep(n, k, path[..m], path[m]);
      assert path == path[..m] + [path[m]];
    }
  }

  ghost function Prefixed(at: seq<Step>, xs: set<Position>): (ys: set<Position>) {
    set x | x in xs :: Position(at + x.path, x.key)
  }

  lemma PrefixedUnder(at: seq<Step>, step: Step, xs: set<Position>)
    ensures Prefixed(at + [step], xs) == Prefixed(at, Under(step, xs))
  {
    forall x | x in xs ensures at + [step] + x.path == at + ([step] + x.path) {
    }
    forall y | y in Prefixed(at, Under(step, xs)) ensures y in Prefixed(at + [step], xs) {
      var u :| u in Under(step, xs) && y == Position(at + u.path, u.key);
      var x :| x in xs && u == Position([step] + x.path, x.key);
      assert y == Position(at + [step] + x.path, x.key);
    }
    forall y | y in Prefixed(at + [step], xs) ensures y in Prefixed(at, Under(step, xs)) {
      var x :| x in xs && y == Position(at + [step] + x.path, x.key);
      assert Position([step] + x.path, x.key) in Under(step, xs);
    }
  }

  lemma PrefixedHere(at: seq<Step>, k: Key)
    ensures Prefixed(at, {Position([], k)}) == {Position(at, k)}
  {
    assert at + [] == at;
    var x := Position([], k);
    assert Position(at + x.path, x.key) in Prefixed(at, {x});
  }

  lemma PrefixedUnion(at: seq<Step>, xs: set<Position>, ys: set<Position>)
    ensures Prefixed(at, xs + ys) == Prefixed(at, xs) + Prefixed(at, ys)
  {
  }

  lemma StructOneMore(schema: Schema, table: Table, id: nat, ks: set<Key>, k: Key)
    requires k in table.m
    ensures StructFound(schema, table, id, ks + {k}) ==
            StructFound(schema, table, id, ks) + FieldFound(schema, table, id, k)
  {
  }

  lemma EntriesOneMore(schema: Schema, table: Table, e: Type, ks: set<Key>, k: Key)
    requires k in table.m
    ensures EntriesFound(schema, table, e, ks + {k}) ==
            EntriesFound(schema, table, e, ks) + EntryFound(schema, table, e, k)
  {
  }

  lemma ItemsOneMore(schema: Schema, items: seq<Value>, u: Type, n: nat)
    requires n < |items|
    ensures ItemsFound(schema, items, u, n + 1) ==
            ItemsFound(schema, items, u, n) + Under(InIndex(n), Found(schema, items[n], u))
  {
  }

  /** `xs` holds nothing that a visit of `step` could find at `at`, nor a finding about key `k` there. */
  ghost predicate Clear(xs: set<Position>, at: seq<Step>, step: Step, k: Key) {
    forall x :: x in xs ==> !(at + [step] <= x.path) && x != Position(at, k)
  }

  /** Findings that start elsewhere stay clear. */
  lemma ClearOfOthers(xs: set<Position>, at: seq<Step>, fs: set<Position>, step: Step, k: Key)
    requires NoneBelow(xs, at)
    requires forall f :: f in fs ==> if f.path == [] then f.key != k else f.path[0] != step
    ensures Clear(xs + Prefixed(at, fs), at, step, k)
  {
    forall x | x in Prefixed(at, fs) ensures !(at + [step] <= x.path) && x != Position(at, k) {
      var f :| f in fs && x == Position(at + f.path, f.key);
      if f.path == [] {
        assert at + f.path == at;
      } else {
        assert (at + f.path)[|at|] == f.path[0];
        assert (at + [step])[|at|] == step;
      }
    }
    forall x | x in xs ensures !(at + [step] <= x.path) && x != Position(at, k) {
      assert at <= at + [step];
    }
  }

  lemma StructStarts(schema: Schema, table: Table, id: nat, ks: set<Key>, k: Key)
    requires k !in ks
    ensures forall f :: f in StructFound(schema, table, id, ks) ==>
                          if f.path == [] then f.key != k else f.path[0] != InField(k)
  {
  }

  lemma EntriesStart(schema: Schema, table: Table, e: Type, ks: set<Key>, k: Key)
    requires k !in ks
    ensures forall f :: f in EntriesFound(schema, table, e, ks) ==> f.path != [] && f.path[0] != InField(k)
  {
  }

  /** No position at or below `at`. */
  ghost predicate NoneBelow(xs: set<Position>, at: seq<Step>) {
    forall x :: x in xs ==> !(at <= x.path)
  }

  function Listed(keys: map<string, seq<Key>>, section: string, k: Key): (n: nat) {
    if section in keys then multiset(keys[section])[k] else 0
  }

  ghost function Spelled(n: Naming, xs: set<Position>, section: string, k: Key): (ys: set<Position>) {
    set x | x in xs && x.key == k && Render(n, x.path) == section
  }

  lemma SpelledOneMore(n: Naming, xs: set<Position>, x: Position, section: string, k: Key)
    requires x !in xs
    ensures |Spelled(n, xs + {x}, section, k)| ==
            |Spelled(n, xs, section, k)| + if x.key == k && Render(n, x.path) == section then 1 else 0
  {
    if x.key == k && Render(n, x.path) == section {
      assert Spelled(n, xs + {x}, section, k) == Spelled(n, xs, section, k) + {x};
    } else {
      assert Spelled(n, xs + {x}, section, k) == Spelled(n, xs, section, k);
    }
  }

  class Report {
    const names: Naming
    var sections: seq<Key>
    var keys: map<string, seq<Key>>
    ghost var found: set<Position>

    /** Each section lists a key as often as there are found positions spelled that way. */
    ghost predicate Valid()
      reads this
    {
      forall section, k :: Listed(keys, section, k) == |Spelled(names, found, section, k)|
    }

    constructor (names: Naming)
      ensures Valid() && this.names == names && sections == [] && keys == map[] && found == {}
    {
      this.names := names;
      sections := [];
      keys := map[];
      found := {};
      new;
      forall section, k ensures Listed(keys, section, k) == |Spelled(names, found, section, k)| {
        assert Spelled(names, {}, section, k) == {};
      }
    }

    method Add(section: string, ghost at: seq<Step>, k: Key)
      requires Valid() && section == Render(names, at) && Position(at, k) !in found
      modifies `keys, `found
      ensures Valid() && found == old(found) + {Position(at, k)}
    {
      if section !in keys {
        keys := keys[section := []];
      }
      keys := keys[section := keys[section] + [k]];
      found := found + {Position(at, k)};
      forall s, j ensures Listed(keys, s, j) == |Spelled(names, found, s, j)| {
        SpelledOneMore(names, old(found), Position(at, k), s, j);
        assert Listed(keys, s, j) == old(Listed(keys, s, j)) + if s == section && j == k then 1 else 0;
      }
    }

    method ValidateNested(schema: Schema, section: string, ghost at: seq<Step>, v: Value, t: Type)
      requires Valid() && at != [] && section == Render(names, at) && NoneBelow(found, at)
      modifies `keys, `found
      ensures Valid() && found == old(found) + Prefixed(at, Found(schema, v, t))
      decreases v, 1
    {
      if v.Obj? {
        var u := Deref(t);
        if u.Struct? {
          ValidateStruct(schema, section, at, v.table, u.id);
          return;
        }
        if u.MapOf? && IsNested(schema, u.elem) {
          ValidateEntries(schema, section, at, v.table, u.elem);
          return;
        }
      }
      if v.List? && t.Slice? && IsNested(schema, Deref(t.elem)) {
        ValidateItems(schema, section, at, v.items, Deref(t.elem));
        return;
      }
      assert Found(schema, v, t) == {};
    }

    method ValidateItems(schema: Schema, section: string, ghost at: seq<Step>, items: seq<Value>, u: Type)
      requires Valid() && at != [] && section == Render(names, at) && NoneBelow(found, at)
      modifies `keys, `found
      ensures Valid()
      ensures found == old(found) + Prefixed(at, ItemsFound(schema, items, u, |items|))
      decreases items, 0
    {
      for i := 0 to |items|
        invariant Valid() && found == old(found) + Prefixed(at, ItemsFound(schema, items, u, i))
      {
        ghost var step := InIndex(i);
        ClearOfOthers(old(found), at, ItemsFound(schema, items, u, i), step, Env);
        RenderExtend(names, at, step);
        ValidateNested(schema, Extend(names, section, InIndex(i)), at + [step], items[i], u);
        PrefixedUnder(at, step, Found(schema, items[i], u));
        ItemsOneMore(schema, items, u, i);
        PrefixedUnion(at, ItemsFound(schema, items, u, i), Under(step, Found(schema, items[i], u)));
      }
    }

    method ValidateEntries(schema: Schema, section: string, ghost at: seq<Step>, table: Table, e: Type)
      requires Valid() && at != [] && section == Render(names, at) && NoneBelow(found, at)
      modifies `keys, `found
      ensures Valid()
      ensures found == old(found) + Prefixed(at, EntriesFound(schema, table, e, table.m.Keys))
      decreases table, 0
    {
      var todo := table.m.Keys;
      ghost var done: set<Key> := {};
      while todo != {}
        invariant todo <= table.m.Keys && done == table.m.Keys - todo
        invariant Valid() && found == old(found) + Prefixed(at, EntriesFound(schema, table, e, done))
        decreases todo
      {
        var k :| k in todo;
        EntriesStart(schema, table, e, done, k);
        ClearOfOthers(old(found), at, EntriesFound(schema, table, e, done), InField(k), k);
        RenderExtend(names, at, InField(k));
        ValidateNested(schema, Extend(names, section, InField(k)), at + [InField(k)], table.m[k], Deref(e));
        PrefixedUnder(at, InField(k), Found(schema, table.m[k], Deref(e)));
        EntriesOneMore(schema, table, e, done, k);
        PrefixedUnion(at, EntriesFound(schema, table, e, done), EntryFound(schema, table, e, k));
        todo, done := todo - {k}, done + {k};
      }
    }

    method ValidateStruct(schema: Schema, section: string, ghost at: seq<Step>, table: Table, id: nat)
      requires Valid() && at != [] && section == Render(names, at) && NoneBelow(found, at)
      modifies `keys, `found
      ensures Valid()
      ensures found == old(found) + Prefixed(at, StructFound(schema, table, id, table.m.Keys))
      decreases table, 1
    {
      var todo := table.m.Keys;
      ghost var done: set<Key> := {};
      while todo != {}
        invariant todo <= table.m.Keys && done == table.m.Keys - todo
        invariant Valid() && found == old(found) + Prefixed(at, StructFound(schema, table, id, done))
        decreases todo
      {
        var k :| k in todo;
        StructStarts(schema, table, id, done, k);
        ClearOfOthers(old(found), at, StructFound(schema, table, id, done), InField(k), k);
        ValidateField(schema, section, at, table, id, k);
        StructOneMore(schema, table, id, done, k);
        PrefixedUnion(at, StructFound(schema, table, id, done), FieldFound(schema, table, id, k));
        todo, done := todo - {k}, done + {k};
      }
    }

    /** One key of a struct: reported when unknown, followed when its field is itself structured. */
    method ValidateField(schema: Schema, section: string, ghost at: seq<Step>, table: Table, id: nat, k: Key)
      requires Valid() && at != [] && section == Render(names, at) && k in table.m
      requires Clear(found, at, InField(k), k)
      modifies `keys, `found
      ensures Valid() && found == old(found) + Prefixed(at, FieldFound(schema, table, id, k))
      decreases table, 0
    {
      var known := LooksKnown(schema, id, k);
      if !known {
        Add(section, at, k);
        PrefixedHere(at, k);
      } else if k in schema(id).fields && IsNested(schema, schema(id).fields[k]) && table.m[k] != Nil {
        var u := schema(id).fields[k];
        RenderExtend(names, at, InField(k));
        ValidateNested(schema, Extend(names, section, InField(k)), at + [InField(k)], table.m[k], u);
        PrefixedUnder(at, InField(k), Found(schema, table.m[k], u));
      } else {
        assert FieldFound(schema, table, id, k) == {};
      }
    }

    /** The inline structs are searched only when the key is not a field. */
    method LooksKnown(schema: Schema, id: nat, k: Key) returns (known: bool)
      ensures known <==> Recognised(schema, id, k)
    {
      known := k in schema(id).fields;
      if !known {
        var inlines := schema(id).inlines;
        for i := 0 to |inlines|
          invariant forall j :: 0 <= j < i ==> k !in schema(inlines[j]).fields
        {
          if k in schema(inlines[i]).fields {
            return true;
          }
        }
      }
    }
  }

  /** What strict validation finds below the recognised top level keys. */
  ghost function TopFound(schema: Schema, root: nat, config: Fields, ks: set<Key>): (xs: set<Position>) {
    set k, x | k in ks && k in config && x in TopKeyFound(schema, root, config, k) :: x
  }

  ghost function TopKeyFound(schema: Schema, root: nat, config: Fields, k: Key): (xs: set<Position>)
    requires k in config
  {
    if k in schema(root).fields && IsNested(schema, schema(root).fields[k])
    then Under(InField(k), Found(schema, config[k], schema(root).fields[k])) else {}
  }

  lemma TopKeyFoundBelow(schema: Schema, root: nat, config: Fields, k: Key, x: Position)
    requires k in config && x in TopKeyFound(schema, root, config, k)
    ensures x.path != [] && x.path[0] == InField(k)
  {
  }

  lemma PrefixedAtTop(k: Key, xs: set<Position>)
    ensures Prefixed([InField(k)], xs) == Under(InField(k), xs)
  {
  }

  lemma TopFoundIff(schema: Schema, root: nat, config: Fields, path: seq<Step>, key: Key)
    ensures Position(path, key) in TopFound(schema, root, config, config.Keys) <==>
            && path != [] && path[0].InField? && path[0].key in config && path[0].key in schema(root).fields
            && IsNested(schema, schema(root).fields[path[0].key])
            && Position(path[1..], key) in Found(schema, config[path[0].key], schema(root).fields[path[0].key])
  {
    var x := Position(path, key);
    forall k | k in config
      ensures x in TopKeyFound(schema, root, config, k) <==>
              && path != [] && path[0] == InField(k) && k in schema(root).fields
              && IsNested(schema, schema(root).fields[k])
              && Position(path[1..], key) in Found(schema, config[k], schema(root).fields[k])
    {
      if k in schema(root).fields && IsNested(schema, schema(root).fields[k]) {
        UnderIff(InField(k), Found(schema, config[k], schema(root).fields[k]), path, key);
      }
    }
  }

  /** What is found below the sections of a config is what following a path from the whole config says is unknown. */
  lemma TopFoundIffUnknown(schema: Schema, root: nat, config: Fields, path: seq<Step>, key: Key)
    ensures Position(path, key) in TopFound(schema, root, config, config.Keys) <==>
            path != [] && Unknown(schema, Obj(Table(config)), Struct(root), path, key)
  {
    TopFoundIff(schema, root, config, path, key);
    if path != [] {
      forall w, u
        ensures Leads(schema, Obj(Table(config)), Struct(root), path[0], w, u) <==>
                Goes(schema, Obj(Table(config)), Struct(root), path[0], w, u)
      {
        LeadsIff(schema, Obj(Table(config)), Struct(root), path[0], w, u);
      }
      if path[0].InField? && path[0].key in config && path[0].key in schema(root).fields {
        FoundIffUnknown(schema, config[path[0].key], schema(root).fields[path[0].key], path[1..], key);
        var k := path[0].key;
        assert Goes(schema, Obj(Table(config)), Struct(root), path[0], config[k], schema(root).fields[k])
          <==> IsNested(schema, schema(root).fields[k]);
      }
    }
  }

  /**
   * Every unknown top level key is listed exactly once, and every other unknown key exactly once under the name of its
   * section, in whatever order the maps are visited.
   */
  method StrictValidate(names: Naming, schema: Schema, root: nat, config: Fields) returns (report: Report)
    ensures fresh(report) && report.names == names && report.Valid()
    ensures multiset(report.sections) == multiset(UnknownAmong(schema, root, config.Keys))
    ensures report.found == TopFound(schema, root, config, config.Keys)
    ensures forall path, key :: Position(path, key) in report.found <==>
              path != [] && Unknown(schema, Obj(Table(config)), Struct(root), path, key)
  {
    report := new Report(names);
    var todo := config.Keys;
    ghost var done: set<Key> := {};
    while todo != {}
      invariant fresh(report) && report.names == names && report.Valid()
      invariant todo <= config.Keys && done == config.Keys - todo
      invariant multiset(report.sections) == multiset(UnknownAmong(schema, root, done))
      invariant report.found == TopFound(schema, root, config, done)
      decreases todo
    {
      var k :| k in todo;
      TopStarts(schema, root, config, done, k);
      VisitTopKey(report, schema, root, config, k);
      TopOneMore(schema, root, config, done, k);
      UnknownOneMore(schema, root, done, k);
      todo, done := todo - {k}, done + {k};
    }
    forall path, key
      ensures Position(path, key) in report.found <==>
              path != [] && Unknown(schema, Obj(Table(config)), Struct(root), path, key)
    {
      TopFoundIffUnknown(schema, root, config, path, key);
    }
  }

  function UnknownAmong(schema: Schema, root: nat, ks: set<Key>): (us: set<Key>) {
    set k | k in ks && k !in schema(root).fields
  }

  lemma UnknownOneMore(schema: Schema, root: nat, ks: set<Key>, k: Key)
    requires k !in ks
    ensures multiset(UnknownAmong(schema, root, ks + {k})) ==
            multiset(UnknownAmong(schema, root, ks)) + if k in schema(root).fields then multiset{} else multiset{k}
  {
    var us := UnknownAmong(schema, root, ks);
    assert UnknownAmong(schema, root, ks + {k}) == if k in schema(root).fields then us else us + {k};
  }

  method VisitTopKey(report: Report, schema: Schema, root: nat, config: Fields, k: Key)
    requires report.Valid() && k in config && NoneBelow(report.found, [InField(k)])
    modifies report
    ensures report.Valid()
    ensures report.found == old(report.found) + TopKeyFound(schema, root, config, k)
    ensures multiset(report.sections) ==
            multiset(old(report.sections)) + if k in schema(root).fields then multiset{} else multiset{k}
  {
    var fields := schema(root).fields;
    if k !in fields {
      report.sections := report.sections + [k];
    } else if IsNested(schema, fields[k]) && config[k] != Nil {
      report.ValidateNested(schema, report.names.key(k), [InField(k)], config[k], fields[k]);
      PrefixedAtTop(k, Found(schema, config[k], fields[k]));
    }
  }

  lemma TopOneMore(schema: Schema, root: nat, config: Fields, ks: set<Key>, k: Key)
    requires k in config
    ensures TopFound(schema, root, config, ks + {k}) ==
            TopFound(schema, root, config, ks) + TopKeyFound(schema, root, config, k)
  {
  }

  lemma TopStarts(schema: Schema, root: nat, config: Fields, ks: set<Key>, k: Key)
    requires k !in ks
    ensures NoneBelow(TopFound(schema, root, config, ks), [InField(k)])
  {
    forall x | x in TopFound(schema, root, config, ks) ensures !([InField(k)] <= x.path) {
      var j :| j in ks && j in config && x in TopKeyFound(schema, root, config, j);
      TopKeyFoundBelow(schema, root, config, j, x);
    }
  }
}
