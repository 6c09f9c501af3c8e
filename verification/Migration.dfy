/** The main results about patchRoot: the normal form, and when a second patching changes nothing. */
module Migration {
  import opened Prelude
  import opened Values
  import opened Patches
  import opened NormalForm
  import opened Repatching

  // ---------------------------------------------------------------------------
  // The normal form
  // ---------------------------------------------------------------------------

  predicate TextField(t: Table, k: Key) {
    k in t.m ==> t.m[k].Str?
  }

  predicate HasTextMemory(t: Table) {
    TextField(t, Memory)
  }

  predicate HasTextSize(t: Table) {
    TextField(t, InitialSize)
  }

  predicate NonEmptyService(t: Table) {
    t.m != map[] && NormalService(t)
  }

  predicate NormalWords(t: Table) {
    forall k :: k in t.m && k in WORD_KEYS ==> t.m[k].StrList? || t.m[k].Nil?
  }

  /** Every section has one spelling and one type. */
  predicate Normal(r: Fields) {
    && Compute !in r && Computes !in r && Mount !in r && Metric !in r
    && (Env in r ==> r[Env].StrMap?)
    && (Services in r ==> NormalTables(r[Services], NonEmptyService))
    && (Processes in r ==> NormalProcesses(r[Processes]))
    && (Experimental in r ==> NormalExperimental(r[Experimental]))
    && (Checks in r ==> NormalCheckTable(r[Checks]))
    && Vm in r && NormalTables(r[Vm], HasTextMemory)
    && Mounts in r && NormalTables(r[Mounts], HasTextSize)
    && Metrics in r && r[Metrics].ObjList?
    && (KillTimeout in r ==> r[KillTimeout].StrPtr?)
    && (Build in r ==> NormalBuild(r[Build]))
  }

  predicate NormalProcesses(v: Value) {
    v.Obj? || (v.StrMap? && v.strs != map[])
  }

  predicate NormalExperimental(v: Value) {
    v.Obj? && v.table.m != map[] && NormalWords(v.table)
  }

  predicate NormalBuild(v: Value) {
    v.Obj? && v.table.m != map[] && OldBuildTarget !in v.table.m
  }

  predicate NormalCheckTable(v: Value) {
    v.Obj? && v.table.m != map[] && forall k :: k in v.table.m ==> v.table.m[k].Obj? && NormalCheck(v.table.m[k].table)
  }

  lemma {:induction false} CheckItemsAreNormal(p: Prims, items: seq<Value>)
    requires PatchCheckItems(p, items).Some?
    ensures var m := PatchCheckItems(p, items).value; forall k :: k in m ==> m[k].Obj? && NormalCheck(m[k].table)
  {
    if items != [] {
      CheckItemsAreNormal(p, items[..|items| - 1]);
      CheckIsNormal(p, items[|items| - 1].table);
    }
  }

  lemma CheckSectionIsNormal(p: Prims, v: Value)
    requires CheckSection(p, v).Some?
    ensures var m := CheckSection(p, v).value; forall k :: k in m ==> m[k].Obj? && NormalCheck(m[k].table)
  {
    if v.Obj? {
      forall k | k in v.table.m { CheckIsNormal(p, v.table.m[k].table); }
    } else {
      CheckItemsAreNormal(p, v.items);
    }
  }

  lemma ServiceSectionIsNormal(p: Prims, v: Value)
    requires ServiceSection(p, v).Some?
    ensures forall t :: t in ServiceSection(p, v).value ==> t.m != map[] && NormalService(t)
  {
    var ts := EnsureTables(v).value;
    var us := Traverse(ts, t => PatchService(p, t)).value;
    forall t | t in ServiceSection(p, v).value ensures t.m != map[] && NormalService(t) {
      assert t in us;
      var i :| 0 <= i < |us| && us[i] == t;
      ServiceIsNormal(p, ts[i]);
    }
  }

  /** `r` holds, key by key, the sections that patchRoot makes of `c`. */
  ghost predicate Patched(p: Prims, c: Fields, r: Fields) {
    SectionsOk(p, c) && forall k :: Get(r, k) == Section(p, c, k)
  }

  lemma KeyedSectionsAreNormal(p: Prims, c: Fields, r: Fields)
    requires Patched(p, c, r)
    ensures Services in r ==> NormalTables(r[Services], NonEmptyService)
    ensures Checks in r ==> NormalCheckTable(r[Checks])
    ensures Experimental in r ==> NormalExperimental(r[Experimental])
  {
    ChecksAreNormal(p, c, r);
    assert Get(r, Services) == Section(p, c, Services);
    assert Get(r, Experimental) == Section(p, c, Experimental);
    if Services in c {
      ServiceTablesAreNormal(p, c[Services]);
    }
  }

  lemma ChecksAreNormal(p: Prims, c: Fields, r: Fields)
    requires Patched(p, c, r)
    ensures Checks in r ==> NormalCheckTable(r[Checks])
  {
    assert Get(r, Checks) == Section(p, c, Checks);
    if Checks in c {
      CheckSectionIsNormal(p, c[Checks]);
    }
  }

  lemma ServiceTablesAreNormal(p: Prims, v: Value)
    requires ServiceSection(p, v).Some?
    ensures NormalTables(ObjList(ServiceSection(p, v).value), NonEmptyService)
  {
    ServiceSectionIsNormal(p, v);
    var ts := ServiceSection(p, v).value;
    forall i | 0 <= i < |ts| ensures NonEmptyService(ts[i]) {
      assert ts[i] in ts;
    }
  }

  lemma SmallSectionsAreNormal(p: Prims, c: Fields, r: Fields)
    requires Patched(p, c, r)
    ensures Env in r ==> r[Env].StrMap?
    ensures Processes in r ==> NormalProcesses(r[Processes])
    ensures KillTimeout in r ==> r[KillTimeout].StrPtr?
    ensures Build in r ==> NormalBuild(r[Build])
  {
    assert Get(r, Env) == Section(p, c, Env);
    assert Get(r, Processes) == Section(p, c, Processes);
    assert Get(r, KillTimeout) == Section(p, c, KillTimeout);
    assert Get(r, Build) == Section(p, c, Build);
  }

  lemma TableSections(p: Prims, c: Fields, r: Fields)
    requires Patched(p, c, r)
    ensures Compute !in r && Computes !in r && Mount !in r && Metric !in r
    ensures Get(r, Vm) == Some(ObjList(CastEach(p, ComputeTables(c).value, Memory)))
    ensures Get(r, Mounts) == Some(ObjList(CastEach(p, MountTables(c).value, InitialSize)))
    ensures Get(r, Metrics) == Some(ObjList(MetricTables(c).value))
  {
    AliasesAreGone(p, c, r);
    assert Get(r, Vm) == Section(p, c, Vm) && Get(r, Mounts) == Section(p, c, Mounts)
           && Get(r, Metrics) == Section(p, c, Metrics);
  }

  lemma AliasesAreGone(p: Prims, c: Fields, r: Fields)
    requires Patched(p, c, r)
    ensures Compute !in r && Computes !in r && Mount !in r && Metric !in r
  {
    assert Get(r, Compute) == Get(r, Computes) == Get(r, Mount) == Get(r, Metric) == None;
  }

  /** A cast of one field leaves the rest of a table alone. */
  lemma CastTextFrame(p: Prims, t: Table, k: Key)
    ensures CastText(p, t, k).m.Keys == t.m.Keys
    ensures forall j :: j in t.m && j != k ==> CastText(p, t, k).m[j] == t.m[j]
    ensures TextField(CastText(p, t, k), k)
    ensures k in t.m && t.m[k].Str? ==> CastText(p, t, k) == t
  {
    if k in t.m && t.m[k].Str? {
      assert t.m[k := t.m[k]] == t.m;
    }
  }

  lemma CastEachIsText(p: Prims, ts: seq<Table>, k: Key)
    ensures forall i :: 0 <= i < |ts| ==> TextField(CastEach(p, ts, k)[i], k)
  {
    forall i | 0 <= i < |ts| { CastTextFrame(p, ts[i], k); }
  }

  lemma PatchedSectionsAreNormal(p: Prims, c: Fields, r: Fields)
    requires Patched(p, c, r)
    ensures Normal(r)
  {
    KeyedSectionsAreNormal(p, c, r);
    SmallSectionsAreNormal(p, c, r);
    TableSections(p, c, r);
    CastEachIsText(p, ComputeTables(c).value, Memory);
    CastEachIsText(p, MountTables(c).value, InitialSize);
  }

  /**
   * Every successful result is in normal form, and its compute, mount and metrics sections are all the entries of the
   * legacy spellings, in order, before those of the current one.
   */
  lemma PatchedIsNormal(p: Prims, c: Fields, r: Fields)
    requires PatchRoot(p, c) == Some(r)
    ensures Normal(r)
    ensures ComputeTables(c).Some? && r[Vm] == ObjList(CastEach(p, ComputeTables(c).value, Memory))
    ensures MountTables(c).Some? && r[Mounts] == ObjList(CastEach(p, MountTables(c).value, InitialSize))
    ensures MetricTables(c).Some? && r[Metrics] == ObjList(MetricTables(c).value)
  {
    RootIsSections(p, c);
    assert Patched(p, c, r);
    PatchedSectionsAreNormal(p, c, r);
    TableSections(p, c, r);
  }

  // ---------------------------------------------------------------------------
  // Patching the result again
  // ---------------------------------------------------------------------------

  function ReadBack(v: Option<Value>): (w: Option<Value>) {
    if v.Some? && !Omitted(Plain(v.value)) then Some(Plain(v.value)) else None
  }

  lemma RedecodedEntry(c: Fields, k: Key)
    ensures Get(Redecoded(c), k) == ReadBack(Get(c, k))
  {
  }

  lemma EnvSettles(p: Prims, m: map<Key, string>)
    ensures EnvOf(p, Plain(StrMap(m))) == Some(m)
  {
    PlainStrMap(p, m);
  }

  lemma ServicesSettle(p: Prims, v: Value)
    requires NormalTables(v, NonEmptyService)
    ensures ServiceSection(p, Plain(v)).Some?
    ensures Plain(ObjList(ServiceSection(p, Plain(v)).value)) == Plain(v)
  {
    EnsurePlain(v.tables);
    var ts := EnsureTables(Plain(v)).value;
    forall i | 0 <= i < |ts| ensures SettledTable(v.tables[i], PatchService(p, ts[i])) {
      ServiceSettles(p, v.tables[i]);
    }
    var us := Traverse(ts, t => PatchService(p, t)).value;
    SettledStayNonEmpty(v.tables, us);
    TablesSettle(v.tables, us);
  }

  lemma SettledStayNonEmpty(ts: seq<Table>, us: seq<Table>)
    requires |us| == |ts| && forall i :: 0 <= i < |ts| ==> ts[i].m != map[] && PlainTable(us[i]) == PlainTable(ts[i])
    ensures Filter(us, (t: Table) => t.m != map[]) == us
  {
    forall u | u in us ensures u.m != map[] {
      var i :| 0 <= i < |us| && us[i] == u;
      assert PlainTable(u).m.Keys == PlainTable(ts[i]).m.Keys;
      assert ts[i].m.Keys != {};
    }
    FilterAll(us, (t: Table) => t.m != map[]);
  }

  ghost predicate EntrySettles(v: Value, w: Value, f: Table -> Option<Table>) {
    w.Obj? && f(w.table).Some? && Plain(Obj(f(w.table).value)) == w
  }

  lemma EntryFromTable(v: Value, f: Table -> Option<Table>)
    requires v.Obj? && SettledTable(v.table, f(PlainTable(v.table)))
    ensures EntrySettles(v, Plain(v), f)
  {
  }

  lemma FieldsSettle(t: Table, u: Table, f: Table -> Option<Table>)
    requires u.m.Keys == t.m.Keys
    requires forall k :: k in u.m ==> EntrySettles(t.m[k], u.m[k], f)
    ensures TraverseFields(u, f).Some?
    ensures PlainTable(Table(TraverseFields(u, f).value)).m == u.m
  {
    forall k | k in u.m ensures f(u.m[k].table).Some? && u.m[k].Obj? {
      assert EntrySettles(t.m[k], u.m[k], f);
    }
    var m := TraverseFields(u, f).value;
    FieldsReadBack(t, u, m, f);
  }

  lemma FieldsReadBack(t: Table, u: Table, m: Fields, f: Table -> Option<Table>)
    requires u.m.Keys == t.m.Keys == m.Keys
    requires forall k :: k in u.m ==> EntrySettles(t.m[k], u.m[k], f) && m[k] == Obj(f(u.m[k].table).value)
    ensures PlainTable(Table(m)).m == u.m
  {
    forall k | k in u.m ensures Plain(m[k]) == u.m[k] {
      assert EntrySettles(t.m[k], u.m[k], f);
    }
    PlainFieldsAre(m, u.m);
  }

  lemma PlainFieldsAre(m: Fields, u: Fields)
    requires m.Keys == u.Keys && forall k :: k in u ==> Plain(m[k]) == u[k]
    ensures PlainTable(Table(m)).m == u
  {
    assert PlainTable(Table(m)).m.Keys == u.Keys;
  }

  lemma NonEmptyKeys(a: Fields, b: Fields)
    requires a.Keys == b.Keys && b != map[]
    ensures a != map[]
  {
    assert b.Keys != {};
  }

  lemma ChecksSettle(p: Prims, v: Value)
    requires NormalCheckTable(v)
    ensures CheckSection(p, Plain(v)).Some?
    ensures NonEmpty(CheckSection(p, Plain(v)).value).Some?
    ensures Plain(NonEmpty(CheckSection(p, Plain(v)).value).value) == Plain(v)
  {
    var u := PlainTable(v.table);
    ChecksTraversed(p, v, u);
    assert Plain(v) == Obj(u);
    NonEmptyPlain(v, CheckSection(p, Obj(u)).value);
  }

  lemma ChecksTraversed(p: Prims, v: Value, u: Table)
    requires NormalCheckTable(v) && u == PlainTable(v.table)
    ensures CheckSection(p, Obj(u)).Some? && PlainTable(Table(CheckSection(p, Obj(u)).value)).m == u.m
  {
    var f := (t: Table) => PatchCheck(p, t);
    forall k | k in u.m ensures EntrySettles(v.table.m[k], u.m[k], f) {
      CheckEntrySettles(p, v, k);
    }
    FieldsSettle(v.table, u, f);
    CheckSectionTraverses(p, u);
  }

  lemma CheckSectionTraverses(p: Prims, u: Table)
    ensures CheckSection(p, Obj(u)) == TraverseFields(u, (t: Table) => PatchCheck(p, t))
  {
  }

  lemma CheckEntrySettles(p: Prims, v: Value, k: Key)
    requires NormalCheckTable(v) && k in v.table.m
    ensures k in PlainTable(v.table).m
    ensures EntrySettles(v.table.m[k], PlainTable(v.table).m[k], (t: Table) => PatchCheck(p, t))
  {
    CheckSettles(p, v.table.m[k].table);
    EntryFromTable(v.table.m[k], (t: Table) => PatchCheck(p, t));
    assert PlainTable(v.table).m[k] == Plain(v.table.m[k]);
  }

  lemma NonEmptyPlain(v: Value, m: Fields)
    requires v.Obj? && v.table.m != map[] && PlainTable(Table(m)).m == PlainTable(v.table).m
    ensures NonEmpty(m).Some? && Plain(NonEmpty(m).value) == Plain(v)
  {
    assert m.Keys == v.table.m.Keys;
    NonEmptyKeys(m, v.table.m);
    assert Plain(Obj(Table(m))) == Obj(PlainTable(Table(m)));
    assert PlainTable(Table(m)) == PlainTable(v.table);
  }

  lemma WordSettles(v: Value)
    requires v.StrList? || v.Nil?
    ensures WordList(Plain(v)).Some? && Plain(WordList(Plain(v)).value) == Plain(v)
  {
  }

  lemma ExperimentalSettles(v: Value)
    requires NormalExperimental(v)
    ensures WordFields(Plain(v).table).Some?
    ensures NonEmpty(WordFields(Plain(v).table).value).Some?
    ensures Plain(NonEmpty(WordFields(Plain(v).table).value).value) == Plain(v)
  {
    var t := PlainTable(v.table);
    forall k | k in t.m
      ensures k in WORD_KEYS ==> WordList(t.m[k]).Some? && Plain(WordList(t.m[k]).value) == t.m[k]
      ensures Plain(t.m[k]) == t.m[k]
    {
      PlainTwice(v.table.m[k]);
      if k in WORD_KEYS {
        WordSettles(v.table.m[k]);
      }
    }
    WordsReadBack(t);
    assert t.m.Keys == v.table.m.Keys;
    NonEmptyPlain(v, WordFields(t).value);
  }

  lemma WordsReadBack(t: Table)
    requires forall k :: k in t.m && k in WORD_KEYS ==>
                           WordList(t.m[k]).Some? && Plain(WordList(t.m[k]).value) == t.m[k]
    requires forall k :: k in t.m ==> Plain(t.m[k]) == t.m[k]
    ensures WordFields(t).Some? && PlainTable(Table(WordFields(t).value)).m == t.m
  {
    var m := WordFields(t).value;
    assert m.Keys == t.m.Keys;
    forall k | k in t.m ensures Plain(m[k]) == t.m[k] {
    }
  }

  lemma CastSettles(p: Prims, ts: seq<Table>, k: Key)
    requires forall i :: 0 <= i < |ts| ==> TextField(ts[i], k)
    ensures var back := EnsureTables(Plain(ObjList(ts))).value;
            Plain(ObjList(CastEach(p, back, k))) == Plain(ObjList(ts))
  {
    EnsurePlain(ts);
    var back := EnsureTables(Plain(ObjList(ts))).value;
    forall i | 0 <= i < |ts| ensures PlainTable(CastEach(p, back, k)[i]) == PlainTable(ts[i]) {
      CastTextFrame(p, back[i], k);
      PlainTableTwice(ts[i]);
    }
    TablesSettle(ts, CastEach(p, back, k));
  }

  lemma TablesReadBack(ts: seq<Table>)
    ensures ReadBack(Some(ObjList(ts))).None? <==> ts == []
    ensures ts != [] ==> ReadBack(Some(ObjList(ts))) == Some(Plain(ObjList(ts)))
    ensures ts != [] ==> TablesOf(ReadBack(Some(ObjList(ts)))).Some?
    ensures ts != [] ==> Plain(ObjList(TablesOf(ReadBack(Some(ObjList(ts)))).value)) == Plain(ObjList(ts))
  {
    EnsurePlain(ts);
    if ts != [] {
      var back := EnsureTables(Plain(ObjList(ts))).value;
      forall i | 0 <= i < |ts| { PlainTableTwice(ts[i]); }
      TablesSettle(ts, back);
      assert |Plain(ObjList(ts)).items| == |ts|;
    }
  }

  /** A given but empty metrics section hides the old experimental metrics only until the config is read back. */
  predicate MetricsTrap(c: Fields) {
    MetricTables(c) == Some([]) && MetricFields(ExperimentalTable(c)) != map[]
  }

  /** A given but unusable kill timeout hides a usable experimental one only until the config is read back. */
  predicate KillTimeoutTrap(p: Prims, c: Fields) {
    && KillTimeout in c && CastDuration(p, c[KillTimeout], SECOND) == StrPtr(None)
    && KillTimeout in ExperimentalTable(c).m
    && CastDuration(p, ExperimentalTable(c).m[KillTimeout], SECOND) != StrPtr(None)
  }

  /** `r` is `c` patched, and `d` is `r` read back. */
  ghost predicate PatchedAndReadBack(p: Prims, c: Fields, r: Fields, d: Fields) {
    Patched(p, c, r) && forall k :: Get(d, k) == ReadBack(Get(r, k))
  }

  lemma FromRoot(p: Prims, c: Fields)
    requires PatchRoot(p, c).Some?
    ensures PatchedAndReadBack(p, c, PatchRoot(p, c).value, Redecoded(PatchRoot(p, c).value))
  {
    RootIsSections(p, c);
    forall k { RedecodedEntry(PatchRoot(p, c).value, k); }
  }

  /** The experimental section read back has the same keys, with plain values. */
  lemma ExperimentalReadBack(p: Prims, c: Fields, r: Fields, d: Fields)
    requires PatchedAndReadBack(p, c, r, d)
    ensures ExperimentalTable(d).m.Keys == ExperimentalTable(c).m.Keys
    ensures KillTimeout in ExperimentalTable(c).m ==>
              ExperimentalTable(d).m[KillTimeout] == Plain(ExperimentalTable(c).m[KillTimeout])
  {
    assert Get(r, Experimental) == Section(p, c, Experimental);
    assert Get(d, Experimental) == ReadBack(Get(r, Experimental));
    if Experimental in c {
      WordFieldsKeys(c[Experimental].table);
    }
  }

  lemma WordFieldsKeys(t: Table)
    requires WordFields(t).Some?
    ensures var v := NonEmpty(WordFields(t).value);
            && (v.None? ==> t.m.Keys == {})
            && (v.Some? ==> v.value.Obj? && v.value.table.m.Keys == t.m.Keys && Plain(v.value).Obj?
                            && Plain(v.value).table.m.Keys == t.m.Keys
                            && (KillTimeout in t.m ==> Plain(v.value).table.m[KillTimeout] == Plain(t.m[KillTimeout])))
  {
    var m := WordFields(t).value;
    assert m.Keys == t.m.Keys;
    assert m == map[] ==> m.Keys == {};
  }

  lemma MetricFieldsEmptyIff(t: Table)
    ensures MetricFields(t) != map[] <==> MetricsPort in t.m || MetricsPath in t.m
  {
    if MetricsPort in t.m { assert Port in MetricFields(t); }
    if MetricsPath in t.m { assert Path in MetricFields(t); }
  }

  lemma TableSectionsSettle(p: Prims, c: Fields, r: Fields, d: Fields)
    requires PatchedAndReadBack(p, c, r, d)
    ensures ComputeTables(d).Some? && ReadBack(Some(ObjList(CastEach(p, ComputeTables(d).value, Memory)))) == Get(d, Vm)
    ensures MountTables(d).Some?
            && ReadBack(Some(ObjList(CastEach(p, MountTables(d).value, InitialSize)))) == Get(d, Mounts)
    ensures Get(d, Compute) == Get(d, Computes) == Get(d, Mount) == Get(d, Metric) == None
  {
    TableSections(p, c, r);
    assert Get(r, Compute) == Get(r, Computes) == Get(r, Mount) == Get(r, Metric) == None;
    assert Get(d, Vm) == ReadBack(Get(r, Vm)) && Get(d, Mounts) == ReadBack(Get(r, Mounts));
    CastEachIsText(p, ComputeTables(c).value, Memory);
    CastEachIsText(p, MountTables(c).value, InitialSize);
    AliasSettles(p, CastEach(p, ComputeTables(c).value, Memory), Memory);
    AliasSettles(p, CastEach(p, MountTables(c).value, InitialSize), InitialSize);
    var vm, mounts := TablesOf(Get(d, Vm)).value, TablesOf(Get(d, Mounts)).value;
    assert [] + [] + vm == vm && [] + mounts == mounts;
  }

  lemma AliasSettles(p: Prims, ts: seq<Table>, k: Key)
    requires forall i :: 0 <= i < |ts| ==> TextField(ts[i], k)
    ensures var v := ReadBack(Some(ObjList(ts)));
            && TablesOf(v).Some?
            && ReadBack(Some(ObjList(CastEach(p, TablesOf(v).value, k)))) == v
  {
    TablesReadBack(ts);
    if ts == [] {
      assert CastEach(p, [], k) == [];
    } else {
      CastSettles(p, ts, k);
      var back := EnsureTables(Plain(ObjList(ts))).value;
      TablesReadBack(CastEach(p, back, k));
      EnsurePlain(ts);
    }
  }

  lemma MetricsSettleIff(p: Prims, c: Fields, r: Fields, d: Fields)
    requires PatchedAndReadBack(p, c, r, d)
    ensures MetricTables(d).Some?
    ensures ReadBack(Some(ObjList(MetricTables(d).value))) == Get(d, Metrics) <==> !MetricsTrap(c)
    ensures !MetricsTrap(d)
  {
    TableSections(p, c, r);
    TableSectionsSettle(p, c, r, d);
    assert Get(d, Metrics) == ReadBack(Get(r, Metrics));
    var ts := MetricTables(c).value;
    TablesReadBack(ts);
    ExperimentalReadBack(p, c, r, d);
    MetricFieldsEmptyIff(ExperimentalTable(c));
    MetricFieldsEmptyIff(ExperimentalTable(d));
    assert TablesOf(Get(d, Metric)) == Some([]);
    var source := TablesOf(MetricSource(d)).value;
    assert [] + source == source;
    TablesReadBack(source);
  }

  function KillTimeoutOf(p: Prims, c: Fields): (v: Option<Value>) {
    var source := KillTimeoutSource(c);
    if source.Some? then Some(CastDuration(p, source.value, SECOND)) else None
  }

  lemma DurationReadBack(p: Prims, v: Value)
    ensures ReadBack(Some(CastDuration(p, v, SECOND))).None? <==> CastDuration(p, v, SECOND) == StrPtr(None)
    ensures ReadBack(Some(CastDuration(p, v, SECOND))).Some? ==>
              var w := ReadBack(Some(CastDuration(p, v, SECOND)));
              w.value.Str? && w.value.s != "" && ReadBack(Some(CastDuration(p, w.value, SECOND))) == w
  {
    var d := CastDuration(p, v, SECOND);
    match d.p
    case None =>
    case Some(s) =>
  }

  lemma KillTimeoutSettlesIff(p: Prims, c: Fields, r: Fields, d: Fields)
    requires PatchedAndReadBack(p, c, r, d)
    ensures ReadBack(KillTimeoutOf(p, d)) == Get(d, KillTimeout) <==> !KillTimeoutTrap(p, c)
    ensures !KillTimeoutTrap(p, d)
  {
    KillTimeoutIsRead(p, c, r, d);
    ExperimentalReadBack(p, c, r, d);
    KillTimeoutFromSources(p, c, d);
  }

  lemma KillTimeoutIsRead(p: Prims, c: Fields, r: Fields, d: Fields)
    requires PatchedAndReadBack(p, c, r, d)
    ensures Get(d, KillTimeout) == ReadBack(KillTimeoutOf(p, c))
  {
    assert Get(r, KillTimeout) == Section(p, c, KillTimeout);
    assert Get(d, KillTimeout) == ReadBack(Get(r, KillTimeout));
  }

  lemma KillTimeoutFromSources(p: Prims, c: Fields, d: Fields)
    requires Get(d, KillTimeout) == ReadBack(KillTimeoutOf(p, c))
    requires ExperimentalTable(d).m.Keys == ExperimentalTable(c).m.Keys
    requires KillTimeout in ExperimentalTable(c).m ==>
               ExperimentalTable(d).m[KillTimeout] == Plain(ExperimentalTable(c).m[KillTimeout])
    ensures ReadBack(KillTimeoutOf(p, d)) == Get(d, KillTimeout) <==> !KillTimeoutTrap(p, c)
    ensures !KillTimeoutTrap(p, d)
  {
    if KillTimeoutSource(c).Some? {
      DurationReadBack(p, KillTimeoutSource(c).value);
    }
    if KillTimeout in ExperimentalTable(c).m {
      var v := ExperimentalTable(c).m[KillTimeout];
      CastPlain(p, v, SECOND);
      DurationReadBack(p, v);
      DurationReadBack(p, Plain(v));
    }
  }

  lemma BuildSettles(v: Value)
    requires NormalBuild(v)
    ensures Plain(v).Obj? && NonEmpty(RenameTarget(Plain(v).table)) == Some(Plain(v))
    ensures Plain(Plain(v)) == Plain(v)
  {
    PlainTwice(v);
    assert v.table.m.Keys != {};
    assert PlainTable(v.table).m.Keys != {};
  }

  lemma ProcessesSettle(p: Prims, v: Value)
    requires NormalProcesses(v)
    ensures ProcessSection(p, Plain(v)) == Some(Some(Plain(v))) && Plain(Plain(v)) == Plain(v)
  {
    PlainTwice(v);
  }

  /** Every section of a config read back is well formed again. */
  lemma ReadBackIsWellFormed(p: Prims, c: Fields, r: Fields, d: Fields)
    requires PatchedAndReadBack(p, c, r, d)
    ensures SectionsOk(p, d)
  {
    TableSectionsSettle(p, c, r, d);
    MetricsSettleIff(p, c, r, d);
    SmallSectionsWellFormed(p, c, r, d);
    KeyedSectionsWellFormed(p, c, r, d);
  }

  lemma SmallSectionsWellFormed(p: Prims, c: Fields, r: Fields, d: Fields)
    requires PatchedAndReadBack(p, c, r, d)
    ensures Env in d ==> EnvOf(p, d[Env]).Some?
    ensures Processes in d ==> ProcessSection(p, d[Processes]).Some?
    ensures Build in d ==> d[Build].Obj?
  {
    SmallSectionsAreNormal(p, c, r);
    assert Get(d, Env) == ReadBack(Get(r, Env));
    assert Get(d, Processes) == ReadBack(Get(r, Processes));
    assert Get(d, Build) == ReadBack(Get(r, Build));
    if Env in r { EnvSettles(p, r[Env].strs); }
    if Processes in r { ProcessesSettle(p, r[Processes]); }
    if Build in r { BuildSettles(r[Build]); }
  }

  lemma KeyedSectionsWellFormed(p: Prims, c: Fields, r: Fields, d: Fields)
    requires PatchedAndReadBack(p, c, r, d)
    ensures Services in d ==> ServiceSection(p, d[Services]).Some?
    ensures Experimental in d ==> d[Experimental].Obj? && WordFields(d[Experimental].table).Some?
    ensures Checks in d ==> CheckSection(p, d[Checks]).Some?
  {
    KeyedSectionsAreNormal(p, c, r);
    assert Get(d, Services) == ReadBack(Get(r, Services));
    assert Get(d, Experimental) == ReadBack(Get(r, Experimental));
    assert Get(d, Checks) == ReadBack(Get(r, Checks));
    if Services in r { ServicesSettle(p, r[Services]); }
    if Experimental in r { ExperimentalSettles(r[Experimental]); }
    if Checks in r { ChecksSettle(p, r[Checks]); }
  }

  lemma SmallSectionsSettle(p: Prims, c: Fields, r: Fields, d: Fields, k: Key)
    requires PatchedAndReadBack(p, c, r, d) && SectionsOk(p, d) && k in {Env, Processes, Build}
    ensures ReadBack(Section(p, d, k)) == Get(d, k)
  {
    SmallSectionsAreNormal(p, c, r);
    assert Get(d, k) == ReadBack(Get(r, k));
    if k in r {
      match k
      case Env => EnvSettles(p, r[Env].strs); PlainStrMap(p, r[Env].strs);
      case Processes => ProcessesSettle(p, r[Processes]);
      case Build => BuildSettles(r[Build]);
    }
  }

  lemma KeyedSectionsSettle(p: Prims, c: Fields, r: Fields, d: Fields, k: Key)
    requires PatchedAndReadBack(p, c, r, d) && SectionsOk(p, d) && k in {Services, Experimental, Checks}
    ensures ReadBack(Section(p, d, k)) == Get(d, k)
  {
    KeyedSectionsAreNormal(p, c, r);
    assert Get(d, k) == ReadBack(Get(r, k));
    if k in r {
      match k
      case Services => ServicesReadBack(p, r[Services]);
      case Experimental => ExperimentalSettles(r[Experimental]);
      case Checks => ChecksSettle(p, r[Checks]);
    }
  }

  lemma UntouchedSettles(p: Prims, c: Fields, r: Fields, d: Fields, k: Key)
    requires PatchedAndReadBack(p, c, r, d) && SectionsOk(p, d)
    requires Section(p, d, k) == Get(d, k)
    ensures ReadBack(Section(p, d, k)) == Get(d, k)
  {
    assert Get(d, k) == ReadBack(Get(r, k));
    if k in r {
      PlainTwice(r[k]);
    }
  }

  /** Away from metrics and kill timeout, a second patching gives back the entry that was read. */
  lemma OtherSectionsSettle(p: Prims, c: Fields, r: Fields, d: Fields, k: Key)
    requires PatchedAndReadBack(p, c, r, d) && SectionsOk(p, d) && k != Metrics && k != KillTimeout
    ensures ReadBack(Section(p, d, k)) == Get(d, k)
  {
    if k in {Env, Processes, Build} {
      SmallSectionsSettle(p, c, r, d, k);
    } else if k in {Services, Experimental, Checks} {
      KeyedSectionsSettle(p, c, r, d, k);
    } else if k in {Vm, Mounts, Compute, Computes, Mount, Metric} {
      TableEntrySettles(p, c, r, d, k);
    } else {
      UntouchedSection(p, d, k);
      UntouchedSettles(p, c, r, d, k);
    }
  }

  lemma TableEntrySettles(p: Prims, c: Fields, r: Fields, d: Fields, k: Key)
    requires PatchedAndReadBack(p, c, r, d) && SectionsOk(p, d) && k in {Vm, Mounts, Compute, Computes, Mount, Metric}
    ensures ReadBack(Section(p, d, k)) == Get(d, k)
  {
    TableSectionsSettle(p, c, r, d);
  }

  lemma UntouchedSection(p: Prims, d: Fields, k: Key)
    requires SectionsOk(p, d) && k !in {Env, Processes, Build, Services, Experimental, Checks, Metrics, KillTimeout}
    requires k !in {Vm, Mounts, Compute, Computes, Mount, Metric}
    ensures Section(p, d, k) == Get(d, k)
  {
  }

  lemma ServicesReadBack(p: Prims, v: Value)
    requires NormalTables(v, NonEmptyService)
    ensures ServiceSection(p, Plain(v)).Some?
    ensures ReadBack(Some(v)).Some? ==> ReadBack(Some(ObjList(ServiceSection(p, Plain(v)).value))) == Some(Plain(v))
  {
    ServicesSettle(p, v);
  }

  /** Patching the result again, once it has been read back, always succeeds. */
  lemma RepatchingSucceeds(p: Prims, c: Fields)
    requires PatchRoot(p, c).Some?
    ensures PatchRoot(p, Redecoded(PatchRoot(p, c).value)).Some?
  {
    var r := PatchRoot(p, c).value;
    var d := Redecoded(r);
    FromRoot(p, c);
    ReadBackIsWellFormed(p, c, r, d);
    RootIsSections(p, d);
  }

  lemma AgainEntry(p: Prims, d: Fields, s: Fields, e: Fields, k: Key)
    requires PatchedAndReadBack(p, d, s, e)
    ensures Get(e, k) == ReadBack(Section(p, d, k))
  {
    assert Get(e, k) == ReadBack(Get(s, k));
    assert Get(s, k) == Section(p, d, k);
  }

  lemma AgainMetrics(p: Prims, d: Fields, s: Fields, e: Fields)
    requires PatchedAndReadBack(p, d, s, e)
    ensures MetricTables(d).Some?
    ensures Get(e, Metrics) == ReadBack(Some(ObjList(MetricTables(d).value)))
  {
    TableSections(p, d, s);
    assert Get(e, Metrics) == ReadBack(Get(s, Metrics));
  }

  lemma MetricsEntry(p: Prims, c: Fields, r: Fields, d: Fields, s: Fields, e: Fields)
    requires PatchedAndReadBack(p, c, r, d) && PatchedAndReadBack(p, d, s, e)
    ensures Get(e, Metrics) == Get(d, Metrics) <==> !MetricsTrap(c)
  {
    MetricsSettleIff(p, c, r, d);
    AgainMetrics(p, d, s, e);
  }

  lemma KillTimeoutEntry(p: Prims, c: Fields, r: Fields, d: Fields, s: Fields, e: Fields)
    requires PatchedAndReadBack(p, c, r, d) && PatchedAndReadBack(p, d, s, e)
    ensures Get(e, KillTimeout) == Get(d, KillTimeout) <==> !KillTimeoutTrap(p, c)
  {
    KillTimeoutSettlesIff(p, c, r, d);
    KillTimeoutIsRead(p, d, s, e);
  }

  lemma SettlesIff(p: Prims, c: Fields, r: Fields, d: Fields, s: Fields, e: Fields)
    requires PatchedAndReadBack(p, c, r, d) && PatchedAndReadBack(p, d, s, e)
    ensures e == d <==> !MetricsTrap(c) && !KillTimeoutTrap(p, c)
  {
    MetricsEntry(p, c, r, d, s, e);
    KillTimeoutEntry(p, c, r, d, s, e);
    if !MetricsTrap(c) && !KillTimeoutTrap(p, c) {
      forall k ensures Get(e, k) == Get(d, k) {
        if k != Metrics && k != KillTimeout {
          AgainEntry(p, d, s, e, k);
          OtherSectionsSettle(p, c, r, d, k);
        }
      }
      SameEntries(e, d);
    }
  }

  /** It changes nothing exactly when neither trap is set. */
  lemma RepatchingSettlesIff(p: Prims, c: Fields, d: Fields, e: Fields)
    requires PatchRoot(p, c).Some? && d == Redecoded(PatchRoot(p, c).value)
    requires PatchRoot(p, d).Some? && e == Redecoded(PatchRoot(p, d).value)
    ensures e == d <==> !MetricsTrap(c) && !KillTimeoutTrap(p, c)
  {
    FromRoot(p, c);
    FromRoot(p, d);
    SettlesIff(p, c, PatchRoot(p, c).value, d, PatchRoot(p, d).value, e);
  }

  /** Two patchings always reach a fixed point. */
  lemma SecondPatchingIsFinal(p: Prims, c: Fields, d: Fields, e: Fields)
    requires PatchRoot(p, c).Some? && d == Redecoded(PatchRoot(p, c).value)
    requires PatchRoot(p, d).Some? && e == Redecoded(PatchRoot(p, d).value)
    ensures PatchRoot(p, e).Some? && Redecoded(PatchRoot(p, e).value) == e
  {
    RepatchingSucceeds(p, d);
    FromRoot(p, c);
    MetricsSettleIff(p, c, PatchRoot(p, c).value, d);
    KillTimeoutSettlesIff(p, c, PatchRoot(p, c).value, d);
    RepatchingSettlesIff(p, d, e, Redecoded(PatchRoot(p, e).value));
  }

  /** Both traps are real: an empty metrics list, or an empty kill timeout, beside the old experimental keys. */
  lemma MetricsTrapExists(p: Prims)
    ensures var c := map[Metrics := List([]), Experimental := Obj(Table(map[MetricsPort := Int(I64, 9091)]))];
            PatchRoot(p, c).Some? && MetricsTrap(c)
  {
    var c := map[Metrics := List([]), Experimental := Obj(Table(map[MetricsPort := Int(I64, 9091)]))];
    assert TablesOf(Get(c, Metrics)) == Some([]);
    assert TablesOf(Get(c, Metric)) == Some([]);
    var none: seq<Table> := [];
    assert none + none == none;
    assert MetricTables(c) == Some([]);
    MetricFieldsEmptyIff(ExperimentalTable(c));
    assert SectionsOk(p, c);
    RootIsSections(p, c);
  }

  lemma KillTimeoutTrapExists(p: Prims)
    ensures var c := map[KillTimeout := Str(""), Experimental := Obj(Table(map[KillTimeout := Str("5s")]))];
            PatchRoot(p, c).Some? && KillTimeoutTrap(p, c)
  {
    var t := Table(map[KillTimeout := Str("5s")]);
    var c := map[KillTimeout := Str(""), Experimental := Obj(t)];
    assert ExperimentalTable(c) == t;
    MetricFieldsEmptyIff(t);
    assert SectionsOk(p, c);
    RootIsSections(p, c);
  }
}
