/** The whole patched config: exactly the map that is described from the user's file, or none. */
module PatchedRoot {
  import opened Prelude
  import opened Values
  import opened Patches
  import opened NormalForm
  import opened Repatching
  import opened PatchedValues
  import opened PatchedSections

  ghost predicate TablesAt(c: Fields, k: Key, ts: seq<Table>) {
    if k in c then TablesFrom(c[k], ts) else ts == []
  }

  /** The value under `key` becomes a text. */
  ghost predicate TextUnder(p: Prims, key: Key, t: Table, u: Table) {
    && u.m.Keys == t.m.Keys
    && (key in t.m ==> u.m[key].Str? && TextFrom(p, t.m[key], u.m[key].s))
    && forall k :: k in t.m && k != key ==> u.m[k] == t.m[k]
  }

  ghost predicate TextsUnder(p: Prims, key: Key, ts: seq<Table>, us: seq<Table>) {
    |us| == |ts| && forall i :: 0 <= i < |ts| ==> TextUnder(p, key, ts[i], us[i])
  }

  /** The tables of all the spellings, the older ones first. */
  ghost predicate VmFrom(p: Prims, c: Fields, us: seq<Table>) {
    exists x, y, z ::
      TablesAt(c, Compute, x) && TablesAt(c, Computes, y) && TablesAt(c, Vm, z) && TextsUnder(p, Memory, x + y + z, us)
  }

  ghost predicate MountsFrom(p: Prims, c: Fields, us: seq<Table>) {
    exists x, y :: TablesAt(c, Mount, x) && TablesAt(c, Mounts, y) && TextsUnder(p, InitialSize, x + y, us)
  }

  ghost predicate HasExperimental(c: Fields, k: Key) {
    Experimental in c && c[Experimental].Obj? && k in c[Experimental].table.m
  }

  /** Port and path as the old experimental section gives them. */
  ghost predicate OldMetrics(c: Fields, m: Fields) {
    && m.Keys <= {Port, Path}
    && (Port in m <==> HasExperimental(c, MetricsPort)) && (Path in m <==> HasExperimental(c, MetricsPath))
    && (Port in m ==> m[Port] == c[Experimental].table.m[MetricsPort])
    && (Path in m ==> m[Path] == c[Experimental].table.m[MetricsPath])
  }

  /** The metrics section, or else what the experimental section has. */
  ghost predicate MetricTablesFrom(c: Fields, ts: seq<Table>) {
    if Metrics in c then TablesFrom(c[Metrics], ts)
    else exists m :: OldMetrics(c, m) && ts == if m == map[] then [] else [Table(m)]
  }

  ghost predicate MetricsFrom(c: Fields, us: seq<Table>) {
    exists x, y :: TablesAt(c, Metric, x) && MetricTablesFrom(c, y) && us == x + y
  }

  /** In seconds; the top level one, or else the experimental one. */
  ghost predicate KillTimeoutIs(p: Prims, c: Fields, b: Option<Value>) {
    if KillTimeout in c then b.Some? && DurationFrom(p, c[KillTimeout], 1_000_000_000, b.value)
    else if HasExperimental(c, KillTimeout)
    then b.Some? && DurationFrom(p, c[Experimental].table.m[KillTimeout], 1_000_000_000, b.value)
    else b.None?
  }

  /** The old spelling of the build target takes the place of the new one. */
  ghost predicate BuildFrom(v: Value, b: Option<Value>) {
    v.Obj? &&
    exists m: Fields ::
      && SectionLeft(m, b) && OldBuildTarget !in m
      && forall k :: k != OldBuildTarget ==>
           Get(m, k) ==
           if k == BuildTarget && OldBuildTarget in v.table.m then Get(v.table.m, OldBuildTarget) else Get(v.table.m, k)
  }

  /** What the patched config has under `k`. */
  ghost predicate EntryFrom(p: Prims, c: Fields, k: Key, b: Option<Value>) {
    match k
    case Env => if k in c then b.Some? && b.value.StrMap? && EnvFrom(p, c[k], b.value.strs) else b.None?
    case Services => if k in c then b.Some? && b.value.ObjList? && ServicesFrom(p, c[k], b.value.tables) else b.None?
    case Processes => if k in c then ProcessSectionFrom(p, c[k], b) else b.None?
    case Experimental => if k in c then ExperimentalFrom(c[k], b) else b.None?
    case Checks => if k in c then exists m :: ChecksFrom(p, c[k], m) && SectionLeft(m, b) else b.None?
    case Vm => b.Some? && b.value.ObjList? && VmFrom(p, c, b.value.tables)
    case Mounts => b.Some? && b.value.ObjList? && MountsFrom(p, c, b.value.tables)
    case Metrics => b.Some? && b.value.ObjList? && MetricsFrom(c, b.value.tables)
    case KillTimeout => KillTimeoutIs(p, c, b)
    case Build => if k in c then BuildFrom(c[k], b) else b.None?
    case _ => if k in {Compute, Computes, Mount, Metric} then b.None? else b == Get(c, k)
  }

  ghost predicate PatchedFrom(p: Prims, c: Fields, r: Fields) {
    forall k :: EntryFrom(p, c, k, Get(r, k))
  }

  // ---------------------------------------------------------------------------
  // One section at a time
  // ---------------------------------------------------------------------------

  lemma TablesAtIff(c: Fields, k: Key, ts: seq<Table>)
    ensures TablesAt(c, k, ts) <==> TablesOf(Get(c, k)) == Some(ts)
  {
    if k in c {
      TablesIff(c[k], ts);
    }
  }

  lemma TextUnderIff(p: Prims, key: Key, t: Table, u: Table)
    ensures TextUnder(p, key, t, u) <==> u == CastText(p, t, key)
  {
    if TextUnder(p, key, t, u) {
      if key in t.m {
        TextIff(p, t.m[key], u.m[key].s);
        assert u.m == t.m[key := u.m[key]];
      } else {
        assert u.m == t.m;
      }
    }
  }

  lemma TextsUnderIff(p: Prims, key: Key, ts: seq<Table>, us: seq<Table>)
    ensures TextsUnder(p, key, ts, us) <==> us == CastEach(p, ts, key)
  {
    forall t, u ensures TextUnder(p, key, t, u) <==> u == CastText(p, t, key) {
      TextUnderIff(p, key, t, u);
    }
  }

  lemma VmIff(p: Prims, c: Fields, us: seq<Table>)
    ensures VmFrom(p, c, us) <==> ComputeTables(c).Some? && us == CastEach(p, ComputeTables(c).value, Memory)
  {
    if x, y, z :|
      TablesAt(c, Compute, x) && TablesAt(c, Computes, y) && TablesAt(c, Vm, z) && TextsUnder(p, Memory, x + y + z, us)
    {
      TablesAtIff(c, Compute, x);
      TablesAtIff(c, Computes, y);
      TablesAtIff(c, Vm, z);
      TextsUnderIff(p, Memory, x + y + z, us);
    }
    if ComputeTables(c).Some? && us == CastEach(p, ComputeTables(c).value, Memory) {
      var x, y, z := TablesOf(Get(c, Compute)).value, TablesOf(Get(c, Computes)).value, TablesOf(Get(c, Vm)).value;
      TablesAtIff(c, Compute, x);
      TablesAtIff(c, Computes, y);
      TablesAtIff(c, Vm, z);
      TextsUnderIff(p, Memory, x + y + z, us);
    }
  }

  lemma MountsIff(p: Prims, c: Fields, us: seq<Table>)
    ensures MountsFrom(p, c, us) <==> MountTables(c).Some? && us == CastEach(p, MountTables(c).value, InitialSize)
  {
    if x, y :| TablesAt(c, Mount, x) && TablesAt(c, Mounts, y) && TextsUnder(p, InitialSize, x + y, us) {
      TablesAtIff(c, Mount, x);
      TablesAtIff(c, Mounts, y);
      TextsUnderIff(p, InitialSize, x + y, us);
    }
    if MountTables(c).Some? && us == CastEach(p, MountTables(c).value, InitialSize) {
      var x, y := TablesOf(Get(c, Mount)).value, TablesOf(Get(c, Mounts)).value;
      TablesAtIff(c, Mount, x);
      TablesAtIff(c, Mounts, y);
      TextsUnderIff(p, InitialSize, x + y, us);
    }
  }

  lemma OldMetricsIff(c: Fields, m: Fields)
    ensures OldMetrics(c, m) <==> m == MetricFields(ExperimentalTable(c))
  {
    if OldMetrics(c, m) {
      assert m.Keys == MetricFields(ExperimentalTable(c)).Keys;
    }
  }

  lemma MetricTablesIff(c: Fields, ts: seq<Table>)
    ensures MetricTablesFrom(c, ts) <==> TablesOf(MetricSource(c)) == Some(ts)
  {
    if Metrics in c {
      TablesIff(c[Metrics], ts);
    } else {
      OldMetricsIff(c, MetricFields(ExperimentalTable(c)));
      if m :| OldMetrics(c, m) && ts == if m == map[] then [] else [Table(m)] {
        OldMetricsIff(c, m);
      }
    }
  }

  lemma MetricsIff(c: Fields, us: seq<Table>)
    ensures MetricsFrom(c, us) <==> MetricTables(c) == Some(us)
  {
    if x, y :| TablesAt(c, Metric, x) && MetricTablesFrom(c, y) && us == x + y {
      TablesAtIff(c, Metric, x);
      MetricTablesIff(c, y);
    }
    if MetricTables(c) == Some(us) {
      TablesAtIff(c, Metric, TablesOf(Get(c, Metric)).value);
      MetricTablesIff(c, TablesOf(MetricSource(c)).value);
    }
  }

  lemma BuildIff(v: Value, b: Option<Value>)
    ensures BuildFrom(v, b) <==> v.Obj? && b == NonEmpty(RenameTarget(v.table))
  {
    if v.Obj? {
      var renamed := RenameTarget(v.table);
      if BuildFrom(v, b) {
        var m: Fields :|
          && SectionLeft(m, b) && OldBuildTarget !in m
          && forall k :: k != OldBuildTarget ==>
               Get(m, k) ==
               if k == BuildTarget && OldBuildTarget in v.table.m then Get(v.table.m, OldBuildTarget)
               else Get(v.table.m, k);
        forall k ensures Get(m, k) == Get(renamed, k) {
        }
        SameEntries(m, renamed);
      }
      if b == NonEmpty(renamed) {
        assert SectionLeft(renamed, b);
      }
    }
  }

  lemma ChecksEntryIff(p: Prims, v: Value, b: Option<Value>)
    ensures (exists m :: ChecksFrom(p, v, m) && SectionLeft(m, b)) <==>
            CheckSection(p, v).Some? && b == NonEmpty(CheckSection(p, v).value)
  {
    if m :| ChecksFrom(p, v, m) && SectionLeft(m, b) {
      ChecksIff(p, v, m);
    }
    if CheckSection(p, v).Some? && b == NonEmpty(CheckSection(p, v).value) {
      ChecksIff(p, v, CheckSection(p, v).value);
      assert SectionLeft(CheckSection(p, v).value, b);
    }
  }

  lemma KillTimeoutIff(p: Prims, c: Fields, b: Option<Value>)
    ensures KillTimeoutIs(p, c, b) <==>
            b == if KillTimeoutSource(c).Some? then Some(CastDuration(p, KillTimeoutSource(c).value, SECOND)) else None
  {
    if KillTimeoutSource(c).Some? && b.Some? {
      DurationIff(p, KillTimeoutSource(c).value, 1_000_000_000, b.value);
    }
  }

  /** The section under `k` is well formed. */
  ghost predicate EntryOk(p: Prims, c: Fields, k: Key) {
    match k
    case Env => k in c ==> EnvOf(p, c[k]).Some?
    case Services => k in c ==> ServiceSection(p, c[k]).Some?
    case Processes => k in c ==> ProcessSection(p, c[k]).Some?
    case Experimental => k in c ==> c[k].Obj? && WordFields(c[k].table).Some?
    case Checks => k in c ==> CheckSection(p, c[k]).Some?
    case Vm => ComputeTables(c).Some?
    case Mounts => MountTables(c).Some?
    case Metrics => MetricTables(c).Some?
    case Build => k in c ==> c[k].Obj?
    case _ => true
  }

  lemma EnvEntryIff(p: Prims, v: Value, b: Option<Value>)
    ensures b.Some? && b.value.StrMap? && EnvFrom(p, v, b.value.strs) <==>
            EnvOf(p, v).Some? && b == Some(StrMap(EnvOf(p, v).value))
  {
    if b.Some? && b.value.StrMap? {
      EnvIff(p, v, b.value.strs);
    }
  }

  lemma ServicesEntryIff(p: Prims, v: Value, b: Option<Value>)
    ensures b.Some? && b.value.ObjList? && ServicesFrom(p, v, b.value.tables) <==>
            ServiceSection(p, v).Some? && b == Some(ObjList(ServiceSection(p, v).value))
  {
    if b.Some? && b.value.ObjList? {
      ServicesIff(p, v, b.value.tables);
    }
  }

  lemma TableEntriesIff(p: Prims, c: Fields, b: Option<Value>)
    ensures EntryFrom(p, c, Vm, b) <==>
            ComputeTables(c).Some? && b == Some(ObjList(CastEach(p, ComputeTables(c).value, Memory)))
    ensures EntryFrom(p, c, Mounts, b) <==>
            MountTables(c).Some? && b == Some(ObjList(CastEach(p, MountTables(c).value, InitialSize)))
    ensures EntryFrom(p, c, Metrics, b) <==> MetricTables(c).Some? && b == Some(ObjList(MetricTables(c).value))
  {
    if b.Some? && b.value.ObjList? {
      VmIff(p, c, b.value.tables);
      MountsIff(p, c, b.value.tables);
      MetricsIff(c, b.value.tables);
    }
  }

  ghost predicate EntryToldBySection(p: Prims, c: Fields, k: Key, b: Option<Value>) {
    && (EntryFrom(p, c, k, b) ==> EntryOk(p, c, k))
    && (SectionsOk(p, c) ==> (EntryFrom(p, c, k, b) <==> b == Section(p, c, k)))
  }

  lemma EarlyEntryIff(p: Prims, c: Fields, k: Key, b: Option<Value>)
    requires k in {Env, Services, Processes}
    ensures EntryToldBySection(p, c, k, b)
  {
    if k in c {
      if k == Env {
        EnvEntryIff(p, c[k], b);
      } else if k == Services {
        ServicesEntryIff(p, c[k], b);
      } else {
        ProcessSectionIff(p, c[k], b);
      }
    }
  }

  lemma KeyedEntryIff(p: Prims, c: Fields, k: Key, b: Option<Value>)
    requires k in {Experimental, Checks, Build}
    ensures EntryToldBySection(p, c, k, b)
  {
    if k in c {
      if k == Experimental {
        ExperimentalIff(c[k], b);
      } else if k == Checks {
        ChecksEntryIff(p, c[k], b);
      } else {
        BuildIff(c[k], b);
      }
    }
  }

  lemma GatheredEntryIff(p: Prims, c: Fields, k: Key, b: Option<Value>)
    requires k in {Vm, Mounts, Metrics}
    ensures EntryToldBySection(p, c, k, b)
  {
    TableEntriesIff(p, c, b);
  }

  lemma KillTimeoutEntryIff(p: Prims, c: Fields, b: Option<Value>)
    ensures EntryToldBySection(p, c, KillTimeout, b)
  {
    KillTimeoutIff(p, c, b);
  }

  lemma GoneEntryIff(p: Prims, c: Fields, k: Key, b: Option<Value>)
    requires k in {Compute, Computes, Mount, Metric}
    ensures EntryToldBySection(p, c, k, b)
  {
  }

  predicate OtherKey(k: Key) {
    && k !in {Env, Services, Processes, Experimental, Checks, Build, Vm, Mounts, Metrics, KillTimeout}
    && k !in {Compute, Computes, Mount, Metric}
  }

  lemma OtherEntry(p: Prims, c: Fields, k: Key, b: Option<Value>)
    requires OtherKey(k)
    ensures EntryFrom(p, c, k, b) <==> b == Get(c, k)
  {
  }

  lemma OtherSection(p: Prims, c: Fields, k: Key)
    requires OtherKey(k) && SectionsOk(p, c)
    ensures Section(p, c, k) == Get(c, k)
  {
  }

  lemma OtherEntryOk(p: Prims, c: Fields, k: Key)
    requires OtherKey(k)
    ensures EntryOk(p, c, k)
  {
  }

  lemma OtherEntryIff(p: Prims, c: Fields, k: Key, b: Option<Value>)
    requires OtherKey(k)
    ensures EntryFrom(p, c, k, b) ==> EntryOk(p, c, k)
    ensures SectionsOk(p, c) ==> (EntryFrom(p, c, k, b) <==> b == Section(p, c, k))
  {
    OtherEntry(p, c, k, b);
    OtherEntryOk(p, c, k);
    if SectionsOk(p, c) {
      OtherSection(p, c, k);
    }
  }

  lemma EntryIff(p: Prims, c: Fields, k: Key, b: Option<Value>)
    ensures EntryToldBySection(p, c, k, b)
  {
    if k in {Env, Services, Processes} {
      EarlyEntryIff(p, c, k, b);
    } else if k in {Experimental, Checks, Build} {
      KeyedEntryIff(p, c, k, b);
    } else if k in {Vm, Mounts, Metrics} {
      GatheredEntryIff(p, c, k, b);
    } else if k == KillTimeout {
      KillTimeoutEntryIff(p, c, b);
    } else if k in {Compute, Computes, Mount, Metric} {
      GoneEntryIff(p, c, k, b);
    } else {
      OtherEntryIff(p, c, k, b);
    }
  }

  lemma AllEntriesOk(p: Prims, c: Fields)
    requires forall k :: EntryOk(p, c, k)
    ensures SectionsOk(p, c)
  {
    assert EntryOk(p, c, Env) && EntryOk(p, c, Services) && EntryOk(p, c, Processes) && EntryOk(p, c, Experimental);
    assert EntryOk(p, c, Checks) && EntryOk(p, c, Vm) && EntryOk(p, c, Mounts) && EntryOk(p, c, Metrics);
    assert EntryOk(p, c, Build);
  }

  /**
   * patchRoot succeeds exactly when there is a map that has, under every key, what is described above from the user's
   * file, and then gives that map.
   */
  lemma PatchedIff(p: Prims, c: Fields, r: Fields)
    ensures PatchRoot(p, c) == Some(r) <==> PatchedFrom(p, c, r)
  {
    RootIsSections(p, c);
    if PatchedFrom(p, c, r) {
      forall k ensures EntryOk(p, c, k) {
        EntryIff(p, c, k, Get(r, k));
      }
      AllEntriesOk(p, c);
      var s := PatchRoot(p, c).value;
      forall k ensures Get(r, k) == Get(s, k) {
        EntryIff(p, c, k, Get(r, k));
      }
      SameEntries(r, s);
    } else if PatchRoot(p, c) == Some(r) {
      forall k ensures EntryFrom(p, c, k, Get(r, k)) {
        EntryIff(p, c, k, Get(r, k));
      }
    }
  }
}
