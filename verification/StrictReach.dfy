/** What strict validation of the patched config says about the file as the user wrote it. */
module StrictReach {
  import opened Prelude
  import opened Values
  import opened Patches
  import opened NormalForm
  import opened Repatching
  import opened Migration
  import opened StrictValidation
  import opened StrictReport
  import opened StrictOnPatched

  /** Following `path` from `v` comes to a table that has `key`. */
  ghost predicate HasKeyAt(v: Value, path: seq<Step>, key: Key) {
    var w := ValueAt(v, path);
    w.Some? && w.value.Obj? && key in w.value.table.m
  }

  ghost predicate HasKey(c: Fields, path: seq<Step>, key: Key) {
    path != [] && path[0].InField? && path[0].key in c && HasKeyAt(c[path[0].key], path[1..], key)
  }

  lemma FoundNeedsKey(schema: Schema, v: Value, t: Type, path: seq<Step>, key: Key, w: Value)
    requires HasKeyAt(v, path, key) == HasKeyAt(w, path, key)
    ensures Position(path, key) in Found(schema, v, t) <==> Position(path, key) in Found(schema, w, t)
  {
    FoundIffAt(schema, v, t, path, key);
    FoundIffAt(schema, w, t, path, key);
  }

  lemma FoundHasKey(schema: Schema, v: Value, t: Type, path: seq<Step>, key: Key)
    ensures Position(path, key) in Found(schema, v, t) ==> HasKeyAt(v, path, key)
  {
    FoundIffAt(schema, v, t, path, key);
  }

  /** What is reported of a key depends on the config only in whether the key is there. */
  lemma ReportNeedsKey(schema: Schema, root: nat, c: Fields, r: Fields, path: seq<Step>, key: Key)
    requires HasKey(c, path, key) == HasKey(r, path, key)
    ensures Position(path, key) in TopFound(schema, root, c, c.Keys) <==>
            Position(path, key) in TopFound(schema, root, r, r.Keys)
  {
    TopFoundIff(schema, root, c, path, key);
    TopFoundIff(schema, root, r, path, key);
    if path != [] && path[0].InField? && path[0].key in schema(root).fields {
      var k, rest, t := path[0].key, path[1..], schema(root).fields[path[0].key];
      if k in c {
        FoundHasKey(schema, c[k], t, rest, key);
      }
      if k in r {
        FoundHasKey(schema, r[k], t, rest, key);
      }
      if k in c && k in r {
        FoundNeedsKey(schema, c[k], t, rest, key, r[k]);
      }
    }
  }

  // ---------------------------------------------------------------------------
  // Places that the patches keep
  // ---------------------------------------------------------------------------

  const REWRITTEN := {Env, Services, Processes, Experimental, Checks, Compute, Computes, Vm, Mount, Mounts, Metric,
                      Metrics, KillTimeout, Build}

  /** In a check: any key but headers, and what is below a key that is neither headers nor a duration. */
  ghost predicate KeptInCheck(path: seq<Step>, key: Key) {
    if path == [] then key != Headers
    else path[0].InField? && path[0].key != Headers && !TimeKey(path[0].key)
  }

  ghost predicate KeptInChecks(path: seq<Step>, key: Key) {
    path == [] || (path[0].InField? && KeptInCheck(path[1..], key))
  }

  /** Any key, and what is below a key that holds no command. */
  ghost predicate KeptInExperimental(path: seq<Step>, key: Key) {
    path == [] || (path[0].InField? && path[0].key !in WORD_KEYS)
  }

  ghost predicate KeptInBuild(path: seq<Step>, key: Key) {
    if path == [] then key !in {OldBuildTarget, BuildTarget}
    else path[0].InField? && path[0].key !in {OldBuildTarget, BuildTarget}
  }

  /** The patches leave what is at this place of the user's config where it was. */
  ghost predicate Kept(c: Fields, path: seq<Step>, key: Key) {
    && path != [] && path[0].InField?
    && (var k, rest := path[0].key, path[1..];
        || k !in REWRITTEN
        || (k in c && c[k].Obj?
            && (|| k == Processes
                || (k == Checks && KeptInChecks(rest, key))
                || (k == Experimental && KeptInExperimental(rest, key))
                || (k == Build && KeptInBuild(rest, key)))))
  }

  lemma CheckKeeps(p: Prims, t: Table, path: seq<Step>, key: Key)
    requires PatchCheck(p, t).Some? && KeptInCheck(path, key)
    ensures HasKeyAt(Obj(t), path, key) == HasKeyAt(Obj(PatchCheck(p, t).value), path, key)
  {
    var u := PatchCheck(p, t).value;
    CheckFields(p, t);
    var k := if path == [] then key else path[0].key;
    assert Get(u.m, k) == CheckField(p, t.m, k);
  }

  lemma TableStep(m: Fields, path: seq<Step>, key: Key)
    requires path != [] && path[0].InField?
    ensures HasKeyAt(Obj(Table(m)), path, key) <==> path[0].key in m && HasKeyAt(m[path[0].key], path[1..], key)
  {
  }

  lemma ChecksKeep(p: Prims, t: Table, path: seq<Step>, key: Key)
    requires PatchCheckTable(p, t).Some? && KeptInChecks(path, key)
    ensures HasKeyAt(Obj(t), path, key) == HasKeyAt(Obj(Table(PatchCheckTable(p, t).value)), path, key)
  {
    var m := PatchCheckTable(p, t).value;
    assert m.Keys == t.m.Keys;
    if path != [] {
      TableStep(t.m, path, key);
      TableStep(m, path, key);
      if path[0].key in t.m {
        CheckKeeps(p, t.m[path[0].key].table, path[1..], key);
      }
    }
  }

  lemma ExperimentalKeeps(t: Table, path: seq<Step>, key: Key)
    requires WordFields(t).Some? && KeptInExperimental(path, key)
    ensures HasKeyAt(Obj(t), path, key) == HasKeyAt(Obj(Table(WordFields(t).value)), path, key)
  {
    var m := WordFields(t).value;
    assert m.Keys == t.m.Keys;
    if path != [] {
      TableStep(t.m, path, key);
      TableStep(m, path, key);
    }
  }

  lemma BuildKeeps(t: Table, path: seq<Step>, key: Key)
    requires KeptInBuild(path, key)
    ensures HasKeyAt(Obj(t), path, key) == HasKeyAt(Obj(Table(RenameTarget(t))), path, key)
  {
    var m := RenameTarget(t);
    if path != [] {
      TableStep(t.m, path, key);
      TableStep(m, path, key);
    }
  }

  lemma EmptyHasNothing(path: seq<Step>, key: Key)
    ensures !HasKeyAt(Obj(Table(map[])), path, key)
  {
    if path != [] {
      assert Child(Obj(Table(map[])), path[0]).None?;
    }
  }

  /** A section that is dropped when it is empty has as few keys as an empty one. */
  lemma DroppedIfEmpty(r: Fields, k: Key, m: Fields, path: seq<Step>, key: Key)
    requires Get(r, k) == NonEmpty(m)
    ensures HasKeyAt(Obj(Table(m)), path, key) == (k in r && HasKeyAt(r[k], path, key))
  {
    if m == map[] {
      EmptyHasNothing(path, key);
    }
  }

  lemma ChecksSectionKeeps(p: Prims, c: Fields, r: Fields, rest: seq<Step>, key: Key)
    requires Checks in c && c[Checks].Obj? && CheckSection(p, c[Checks]).Some? && KeptInChecks(rest, key)
    requires Get(r, Checks) == NonEmpty(CheckSection(p, c[Checks]).value)
    ensures HasKeyAt(c[Checks], rest, key) == (Checks in r && HasKeyAt(r[Checks], rest, key))
  {
    ChecksKeep(p, c[Checks].table, rest, key);
    DroppedIfEmpty(r, Checks, CheckSection(p, c[Checks]).value, rest, key);
  }

  lemma ExperimentalSectionKeeps(c: Fields, r: Fields, rest: seq<Step>, key: Key)
    requires Experimental in c && c[Experimental].Obj? && WordFields(c[Experimental].table).Some?
             && KeptInExperimental(rest, key)
    requires Get(r, Experimental) == NonEmpty(WordFields(c[Experimental].table).value)
    ensures HasKeyAt(c[Experimental], rest, key) == (Experimental in r && HasKeyAt(r[Experimental], rest, key))
  {
    ExperimentalKeeps(c[Experimental].table, rest, key);
    DroppedIfEmpty(r, Experimental, WordFields(c[Experimental].table).value, rest, key);
  }

  lemma BuildSectionKeeps(c: Fields, r: Fields, rest: seq<Step>, key: Key)
    requires Build in c && c[Build].Obj? && KeptInBuild(rest, key)
    requires Get(r, Build) == NonEmpty(RenameTarget(c[Build].table))
    ensures HasKeyAt(c[Build], rest, key) == (Build in r && HasKeyAt(r[Build], rest, key))
  {
    BuildKeeps(c[Build].table, rest, key);
    DroppedIfEmpty(r, Build, RenameTarget(c[Build].table), rest, key);
  }

  lemma KeptSections(p: Prims, c: Fields, r: Fields)
    requires Patched(p, c, r)
    ensures Checks in c ==>
              CheckSection(p, c[Checks]).Some? && Get(r, Checks) == NonEmpty(CheckSection(p, c[Checks]).value)
    ensures Experimental in c ==>
              c[Experimental].Obj? && WordFields(c[Experimental].table).Some?
              && Get(r, Experimental) == NonEmpty(WordFields(c[Experimental].table).value)
    ensures Build in c ==> c[Build].Obj? && Get(r, Build) == NonEmpty(RenameTarget(c[Build].table))
    ensures Processes in c && c[Processes].Obj? ==> Get(r, Processes) == Some(c[Processes])
  {
    assert Get(r, Checks) == Section(p, c, Checks);
    assert Get(r, Experimental) == Section(p, c, Experimental);
    assert Get(r, Build) == Section(p, c, Build);
    assert Get(r, Processes) == Section(p, c, Processes);
  }

  lemma KeptEntry(p: Prims, c: Fields, r: Fields, k: Key)
    requires Patched(p, c, r) && k !in REWRITTEN
    ensures Get(r, k) == Get(c, k)
  {
    assert Get(r, k) == Section(p, c, k);
    UntouchedSection(p, c, k);
  }

  lemma KeptKeys(p: Prims, c: Fields, r: Fields, path: seq<Step>, key: Key)
    requires Patched(p, c, r) && Kept(c, path, key)
    ensures HasKey(c, path, key) == HasKey(r, path, key)
  {
    var k := path[0].key;
    if k !in REWRITTEN {
      KeptEntry(p, c, r, k);
    } else {
      KeptSections(p, c, r);
      RewrittenKeeps(p, c, r, path, key);
    }
  }

  lemma RewrittenKeeps(p: Prims, c: Fields, r: Fields, path: seq<Step>, key: Key)
    requires Kept(c, path, key) && path[0].key in REWRITTEN
    requires Checks in c ==>
               CheckSection(p, c[Checks]).Some? && Get(r, Checks) == NonEmpty(CheckSection(p, c[Checks]).value)
    requires Experimental in c ==>
               c[Experimental].Obj? && WordFields(c[Experimental].table).Some?
               && Get(r, Experimental) == NonEmpty(WordFields(c[Experimental].table).value)
    requires Build in c ==> c[Build].Obj? && Get(r, Build) == NonEmpty(RenameTarget(c[Build].table))
    requires Processes in c && c[Processes].Obj? ==> Get(r, Processes) == Some(c[Processes])
    ensures HasKey(c, path, key) == HasKey(r, path, key)
  {
    var k, rest := path[0].key, path[1..];
    if k == Checks {
      ChecksSectionKeeps(p, c, r, rest, key);
    } else if k == Experimental {
      ExperimentalSectionKeeps(c, r, rest, key);
    } else if k == Build {
      BuildSectionKeeps(c, r, rest, key);
    }
  }

  /** In every place that the patches keep, a key of the user's file is reported exactly when it is unknown there. */
  lemma KeptKeyReportedIff(p: Prims, c: Fields, r: Fields, schema: Schema, root: nat, path: seq<Step>, key: Key)
    requires PatchRoot(p, c) == Some(r) && Kept(c, path, key)
    ensures Position(path, key) in TopFound(schema, root, r, r.Keys) <==>
            Position(path, key) in TopFound(schema, root, c, c.Keys)
  {
    RootIsSections(p, c);
    KeptKeys(p, c, r, path, key);
    ReportNeedsKey(schema, root, c, r, path, key);
  }

  /** Below these sections no key of the user's file is reported at all. */
  lemma RewrittenIsSilent(p: Prims, c: Fields, r: Fields, schema: Schema, root: nat, path: seq<Step>, key: Key)
    requires PatchRoot(p, c) == Some(r) && path != [] && path[0].InField?
    requires path[0].key in {Env, Services, Compute, Computes, Vm, Mount, Mounts, Metric, Metrics, KillTimeout}
    ensures Position(path, key) !in TopFound(schema, root, r, r.Keys)
  {
    PatchedIsNormal(p, c, r);
    TopFoundIff(schema, root, r, path, key);
    var k := path[0].key;
    if k in r {
      assert !r[k].Obj? && !r[k].List?;
    }
  }

  // ---------------------------------------------------------------------------
  // Every place of the user's file
  // ---------------------------------------------------------------------------

  /** A table or list that holds nothing. */
  predicate Empty(v: Value) {
    match v
    case Obj(t) => t.m == map[]
    case List(items) => items == []
    case ObjList(ts) => ts == []
    case _ => false
  }

  /** In a check: all but headers, when they are empty, and all below a key that is neither headers nor a duration. */
  ghost predicate StaysInCheck(t: Table, path: seq<Step>, key: Key) {
    if path == [] then key == Headers && Headers in t.m ==> !Empty(t.m[Headers])
    else KeptInCheck(path, key)
  }

  ghost predicate StaysInChecks(t: Table, path: seq<Step>, key: Key) {
    path == [] || (path[0].InField? && path[0].key in t.m && t.m[path[0].key].Obj?
                   && StaysInCheck(t.m[path[0].key].table, path[1..], key))
  }

  /** The old spelling of the build target goes, and takes the place of what the new one held. */
  ghost predicate StaysInBuild(t: Table, path: seq<Step>, key: Key) {
    if path == [] then key != OldBuildTarget
    else
      && path[0].InField? && path[0].key != OldBuildTarget
      && (path[0].key == BuildTarget && OldBuildTarget in t.m ==> HasKeyAt(t.m[OldBuildTarget], path[1..], key))
  }

  /** Some process of the section has a name; a table of processes is left alone. */
  ghost predicate SomeProcess(v: Value) {
    match v
    case Obj(_) => true
    case List(items) => exists i :: 0 <= i < |items| && items[i].Obj? && Name in items[i].table.m
    case ObjList(ts) => exists i :: 0 <= i < |ts| && Name in ts[i].m
    case _ => false
  }

  /** At the top of the file: older spellings go, and so do sections that hold nothing. */
  ghost predicate StaysAtTop(c: Fields, k: Key) {
    && k !in {Compute, Computes, Mount, Metric}
    && (k in {Experimental, Checks, Build} && k in c ==> !Empty(c[k]))
    && (k == Processes && k in c ==> SomeProcess(c[k]))
  }

  ghost predicate StaysBelow(c: Fields, k: Key, rest: seq<Step>, key: Key) {
    || k !in REWRITTEN
    || (k in c && c[k].Obj?
        && (|| k == Processes
            || (k == Checks && StaysInChecks(c[k].table, rest, key))
            || (k == Experimental && KeptInExperimental(rest, key))
            || (k == Build && StaysInBuild(c[k].table, rest, key))))
  }

  /**
   * The patches leave the key where it is, in a value that strict validation searches: told of the user's file alone.
   */
  ghost predicate Stays(c: Fields, path: seq<Step>, key: Key) {
    if path == [] then StaysAtTop(c, key)
    else path[0].InField? && StaysBelow(c, path[0].key, path[1..], key)
  }

  lemma TypedHasNothing(v: Value, path: seq<Step>, key: Key)
    requires !v.Obj? && !v.List?
    ensures !HasKeyAt(v, path, key)
  {
    if path != [] {
      assert Child(v, path[0]).None?;
    }
  }

  lemma EntryIsHeld<T>(m: map<Key, T>, k: Key)
    requires k in m
    ensures m != map[]
  {
  }

  lemma HeaderTablesEmptyIff(p: Prims, ts: seq<Table>)
    requires HeaderTables(p, ts).Some?
    ensures HeaderTables(p, ts) == Some(map[]) <==> ts == []
  {
    if ts != [] {
      EntryIsHeld(HeaderTables(p, ts).value, p.keyNamed(CastToString(p, ts[|ts| - 1].m[Name])));
    }
  }

  lemma HeadersEmptyIff(p: Prims, v: Value)
    requires HeadersOf(p, v).Some?
    ensures HeadersOf(p, v) == Some(map[]) <==> Empty(v)
  {
    match v
    case Obj(t) => assert TextFields(p, t).Keys == t.m.Keys;
    case List(items) => HeaderTablesEmptyIff(p, ObjsOf(items));
    case ObjList(ts) => HeaderTablesEmptyIff(p, ts);
  }

  lemma CheckStaysIff(p: Prims, t: Table, u: Table, path: seq<Step>, key: Key)
    requires PatchCheck(p, t) == Some(u) && HasKeyAt(Obj(t), path, key)
    ensures HasKeyAt(Obj(u), path, key) <==> StaysInCheck(t, path, key)
  {
    CheckFields(p, t);
    if path == [] {
      assert Get(u.m, key) == CheckField(p, t.m, key);
      if key == Headers {
        HeadersEmptyIff(p, t.m[Headers]);
      }
    } else {
      TableStep(t.m, path, key);
      TableStep(u.m, path, key);
      var k := path[0].key;
      assert Get(u.m, k) == CheckField(p, t.m, k);
      if k in u.m && (TimeKey(k) || k == Headers) {
        TypedHasNothing(u.m[k], path[1..], key);
      }
    }
  }

  lemma ChecksStayIff(p: Prims, t: Table, path: seq<Step>, key: Key)
    requires PatchCheckTable(p, t).Some? && HasKeyAt(Obj(t), path, key)
    ensures HasKeyAt(Obj(Table(PatchCheckTable(p, t).value)), path, key) <==> StaysInChecks(t, path, key)
  {
    var m := PatchCheckTable(p, t).value;
    assert m.Keys == t.m.Keys;
    if path != [] {
      TableStep(t.m, path, key);
      TableStep(m, path, key);
      var k := path[0].key;
      CheckStaysIff(p, t.m[k].table, PatchCheck(p, t.m[k].table).value, path[1..], key);
    }
  }

  lemma WordHasNothing(v: Value, w: Value, path: seq<Step>, key: Key)
    requires WordList(v) == Some(w)
    ensures !HasKeyAt(w, path, key)
  {
    assert w.StrList? || w.Nil?;
    TypedHasNothing(w, path, key);
  }

  lemma ExperimentalStaysIff(t: Table, path: seq<Step>, key: Key)
    requires WordFields(t).Some? && HasKeyAt(Obj(t), path, key)
    ensures HasKeyAt(Obj(Table(WordFields(t).value)), path, key) <==> KeptInExperimental(path, key)
  {
    var m := WordFields(t).value;
    assert m.Keys == t.m.Keys;
    if path != [] {
      TableStep(t.m, path, key);
      TableStep(m, path, key);
      if path[0].key in WORD_KEYS {
        WordHasNothing(t.m[path[0].key], m[path[0].key], path[1..], key);
      }
    }
  }

  lemma BuildStaysIff(t: Table, path: seq<Step>, key: Key)
    requires HasKeyAt(Obj(t), path, key)
    ensures HasKeyAt(Obj(Table(RenameTarget(t))), path, key) <==> StaysInBuild(t, path, key)
  {
    var m := RenameTarget(t);
    if path != [] {
      TableStep(t.m, path, key);
      TableStep(m, path, key);
    }
  }

  lemma RestIsSilent(p: Prims, c: Fields, r: Fields, path: seq<Step>, key: Key)
    requires Patched(p, c, r) && Normal(r) && path != [] && path[0].InField?
    requires path[0].key in {Env, Services, Compute, Computes, Vm, Mount, Mounts, Metric, Metrics, KillTimeout}
    ensures !HasKey(r, path, key)
  {
    var k := path[0].key;
    if k in r {
      TypedHasNothing(r[k], path[1..], key);
    }
  }

  lemma ProcessesStayIff(p: Prims, c: Fields, r: Fields, rest: seq<Step>, key: Key)
    requires Patched(p, c, r) && Processes in c && HasKeyAt(c[Processes], rest, key)
    ensures Processes in r && HasKeyAt(r[Processes], rest, key) <==> c[Processes].Obj?
  {
    assert Get(r, Processes) == Section(p, c, Processes);
    if !c[Processes].Obj? && Processes in r {
      TypedHasNothing(r[Processes], rest, key);
    }
  }

  lemma TablesHaveNoItems(t: Table, path: seq<Step>, key: Key)
    requires path != [] && !path[0].InField?
    ensures !HasKeyAt(Obj(t), path, key)
  {
    assert Child(Obj(t), path[0]).None?;
  }

  lemma ChecksSectionStaysIff(p: Prims, c: Fields, r: Fields, rest: seq<Step>, key: Key)
    requires Checks in c && CheckSection(p, c[Checks]).Some? && HasKeyAt(c[Checks], rest, key)
    requires Get(r, Checks) == NonEmpty(CheckSection(p, c[Checks]).value)
    ensures Checks in r && HasKeyAt(r[Checks], rest, key) <==>
            c[Checks].Obj? && StaysInChecks(c[Checks].table, rest, key)
  {
    DroppedIfEmpty(r, Checks, CheckSection(p, c[Checks]).value, rest, key);
    if c[Checks].Obj? {
      ChecksStayIff(p, c[Checks].table, rest, key);
    } else {
      TablesHaveNoItems(Table(CheckSection(p, c[Checks]).value), rest, key);
    }
  }

  lemma StaysIff(p: Prims, c: Fields, r: Fields, path: seq<Step>, key: Key)
    requires Patched(p, c, r) && Normal(r) && HasKey(c, path, key)
    ensures HasKey(r, path, key) <==> Stays(c, path, key)
  {
    var k, rest := path[0].key, path[1..];
    if k !in REWRITTEN {
      KeptEntry(p, c, r, k);
    } else if k == Processes {
      ProcessesStayIff(p, c, r, rest, key);
    } else if k in {Checks, Experimental, Build} {
      KeptSections(p, c, r);
      RewrittenStaysIff(p, c, r, path, key);
    } else {
      RestIsSilent(p, c, r, path, key);
    }
  }

  lemma RewrittenStaysIff(p: Prims, c: Fields, r: Fields, path: seq<Step>, key: Key)
    requires HasKey(c, path, key) && path[0].key in {Checks, Experimental, Build}
    requires Checks in c ==>
               CheckSection(p, c[Checks]).Some? && Get(r, Checks) == NonEmpty(CheckSection(p, c[Checks]).value)
    requires Experimental in c ==>
               c[Experimental].Obj? && WordFields(c[Experimental].table).Some?
               && Get(r, Experimental) == NonEmpty(WordFields(c[Experimental].table).value)
    requires Build in c ==> c[Build].Obj? && Get(r, Build) == NonEmpty(RenameTarget(c[Build].table))
    ensures HasKey(r, path, key) <==> Stays(c, path, key)
  {
    var k, rest := path[0].key, path[1..];
    if k == Checks {
      ChecksSectionStaysIff(p, c, r, rest, key);
    } else if k == Experimental {
      ExperimentalStaysIff(c[k].table, rest, key);
      DroppedIfEmpty(r, k, WordFields(c[k].table).value, rest, key);
    } else {
      BuildStaysIff(c[k].table, rest, key);
      DroppedIfEmpty(r, k, RenameTarget(c[k].table), rest, key);
    }
  }

  lemma ReportHasKey(schema: Schema, root: nat, r: Fields, path: seq<Step>, key: Key)
    requires Position(path, key) in TopFound(schema, root, r, r.Keys)
    ensures HasKey(r, path, key)
  {
    TopFoundIff(schema, root, r, path, key);
    FoundHasKey(schema, r[path[0].key], schema(root).fields[path[0].key], path[1..], key);
  }

  lemma NamedProcessesIff(p: Prims, ts: seq<Table>)
    ensures ProcessTables(p, ts) != map[] <==> exists i :: 0 <= i < |ts| && Name in ts[i].m
  {
    if ts != [] {
      var before, last := ts[..|ts| - 1], ts[|ts| - 1].m;
      NamedProcessesIff(p, before);
      if Name in last {
        EntryIsHeld(ProcessTables(p, ts), p.keyNamed(CastToString(p, last[Name])));
      } else if i :| 0 <= i < |ts| && Name in ts[i].m {
        assert Name in before[i].m;
      }
    }
  }

  lemma SomeProcessIff(p: Prims, v: Value)
    requires ProcessSection(p, v).Some?
    ensures ProcessSection(p, v).value.Some? <==> SomeProcess(v)
  {
    match v
    case Obj(_) =>
    case ObjList(ts) => NamedProcessesIff(p, ts);
    case List(items) =>
      NamedProcessesIff(p, OnlyObjs(items));
      OnlyObjsHold(items);
  }

  lemma OnlyObjsHold(items: seq<Value>)
    ensures (exists i :: 0 <= i < |OnlyObjs(items)| && Name in OnlyObjs(items)[i].m) <==>
            (exists i :: 0 <= i < |items| && items[i].Obj? && Name in items[i].table.m)
  {
    var objs, ts := Filter(items, (v: Value) => v.Obj?), OnlyObjs(items);
    if i :| 0 <= i < |items| && items[i].Obj? && Name in items[i].table.m {
      assert items[i] in objs;
      var j :| 0 <= j < |objs| && objs[j] == items[i];
      assert Name in ts[j].m;
    }
    if i :| 0 <= i < |ts| && Name in ts[i].m {
      assert objs[i] in objs && objs[i] in items;
    }
  }

  lemma CheckNamesIff(p: Prims, v: Value)
    requires CheckSection(p, v).Some?
    ensures CheckSection(p, v).value == map[] <==> Empty(v)
  {
    match v
    case Obj(t) => assert PatchCheckTable(p, t).value.Keys == t.m.Keys;
    case List(items) =>
      if items != [] {
        EntryIsHeld(PatchCheckItems(p, items).value, p.keyNamed(items[|items| - 1].table.m[Name].s));
      }
  }

  lemma NonEmptyStaysIff(r: Fields, k: Key, v: Value, m: Fields)
    requires Get(r, k) == NonEmpty(m) && (m == map[] <==> Empty(v))
    ensures k in r <==> !Empty(v)
  {
  }

  lemma WordFieldsEmptyIff(t: Table)
    requires WordFields(t).Some?
    ensures WordFields(t).value == map[] <==> Empty(Obj(t))
  {
    assert WordFields(t).value.Keys == t.m.Keys;
  }

  lemma RenamedEmptyIff(t: Table)
    ensures RenameTarget(t) == map[] <==> Empty(Obj(t))
  {
    if OldBuildTarget in t.m {
      EntryIsHeld(RenameTarget(t), BuildTarget);
    }
  }

  lemma DroppedSectionStaysIff(p: Prims, c: Fields, r: Fields, k: Key)
    requires Patched(p, c, r) && k in c && k in {Checks, Experimental, Build}
    ensures k in r <==> !Empty(c[k])
  {
    KeptSections(p, c, r);
    if k == Checks {
      CheckNamesIff(p, c[k]);
      NonEmptyStaysIff(r, k, c[k], CheckSection(p, c[k]).value);
    } else if k == Experimental {
      WordFieldsEmptyIff(c[k].table);
      NonEmptyStaysIff(r, k, c[k], WordFields(c[k].table).value);
    } else {
      RenamedEmptyIff(c[k].table);
      NonEmptyStaysIff(r, k, c[k], RenameTarget(c[k].table));
    }
  }

  lemma OtherSectionStaysIff(p: Prims, c: Fields, r: Fields, k: Key)
    requires Patched(p, c, r) && k in c && k in REWRITTEN && k !in {Checks, Experimental, Build, Processes}
    ensures k in r <==> k !in {Compute, Computes, Mount, Metric}
  {
    assert Get(r, k) == Section(p, c, k);
  }

  lemma ProcessSectionStaysIff(p: Prims, c: Fields, r: Fields)
    requires Patched(p, c, r) && Processes in c
    ensures Processes in r <==> SomeProcess(c[Processes])
  {
    assert Get(r, Processes) == Section(p, c, Processes);
    SomeProcessIff(p, c[Processes]);
  }

  lemma TopStaysIff(p: Prims, c: Fields, r: Fields, k: Key)
    requires Patched(p, c, r) && k in c
    ensures k in r <==> StaysAtTop(c, k)
  {
    if k !in REWRITTEN {
      KeptEntry(p, c, r, k);
    } else if k == Processes {
      ProcessSectionStaysIff(p, c, r);
    } else if k in {Checks, Experimental, Build} {
      DroppedSectionStaysIff(p, c, r, k);
    } else {
      OtherSectionStaysIff(p, c, r, k);
    }
  }

  ghost predicate IsKey(c: Fields, path: seq<Step>, key: Key) {
    if path == [] then key in c else HasKey(c, path, key)
  }

  /** StrictValidate lists the key: as a section of its own at the top of the file, or else below its section. */
  ghost predicate Reported(schema: Schema, root: nat, c: Fields, path: seq<Step>, key: Key) {
    if path == [] then key in UnknownAmong(schema, root, c.Keys)
    else Position(path, key) in TopFound(schema, root, c, c.Keys)
  }

  /**
   * Of all the keys of the user's file, wherever they are: one is reported on the patched map, in the place where the
   * user wrote it, exactly when it is unknown there and the patches leave it there, in a value that is searched.
   */
  lemma ReportedIff(p: Prims, c: Fields, r: Fields, schema: Schema, root: nat, path: seq<Step>, key: Key)
    requires PatchRoot(p, c) == Some(r) && IsKey(c, path, key)
    ensures Reported(schema, root, r, path, key) <==> Reported(schema, root, c, path, key) && Stays(c, path, key)
  {
    RootIsSections(p, c);
    if path == [] {
      TopStaysIff(p, c, r, key);
    } else {
      PatchedIsNormal(p, c, r);
      StaysIff(p, c, r, path, key);
      if HasKey(r, path, key) {
        ReportNeedsKey(schema, root, c, r, path, key);
      } else if Position(path, key) in TopFound(schema, root, r, r.Keys) {
        ReportHasKey(schema, root, r, path, key);
      }
    }
  }

  /** A key at the top of the file is listed as unknown in both, unless the patches rename or drop it. */
  lemma TopKeyStays(p: Prims, c: Fields, r: Fields, k: Key)
    requires PatchRoot(p, c) == Some(r) && k !in REWRITTEN
    ensures k in r <==> k in c
  {
    RootIsSections(p, c);
    KeptEntry(p, c, r, k);
  }
}
