/** The normal form that the patches reach, and when patching again changes nothing. */
module NormalForm {
  import opened Prelude
  import opened Values
  import opened Patches

  // ---------------------------------------------------------------------------
  // What patchRoot computes, section by section
  // ---------------------------------------------------------------------------

  function ExperimentalTable(c: Fields): (t: Table) {
    if Experimental in c && c[Experimental].Obj? then c[Experimental].table else Table(map[])
  }

  /** The metrics section: the one given, or else the one taken from the old experimental keys. */
  function MetricSource(c: Fields): (v: Option<Value>) {
    if Metrics in c then Some(c[Metrics])
    else if MetricFields(ExperimentalTable(c)) != map[] then Some(Obj(Table(MetricFields(ExperimentalTable(c)))))
    else None
  }

  function TablesOf(v: Option<Value>): (ts: Option<seq<Table>>) {
    if v.None? then Some([]) else EnsureTables(v.value)
  }

  function Both(a: Option<seq<Table>>, b: Option<seq<Table>>): (ts: Option<seq<Table>>) {
    if a.None? || b.None? then None else Some(a.value + b.value)
  }

  /** The tables of a section and of its legacy aliases, the aliases first. */
  function ComputeTables(c: Fields): (ts: Option<seq<Table>>) {
    Both(Both(TablesOf(Get(c, Compute)), TablesOf(Get(c, Computes))), TablesOf(Get(c, Vm)))
  }

  function MountTables(c: Fields): (ts: Option<seq<Table>>) {
    Both(TablesOf(Get(c, Mount)), TablesOf(Get(c, Mounts)))
  }

  function MetricTables(c: Fields): (ts: Option<seq<Table>>) {
    Both(TablesOf(Get(c, Metric)), TablesOf(MetricSource(c)))
  }

  /** The kill timeout: the top level one, or else the old experimental one. */
  function KillTimeoutSource(c: Fields): (v: Option<Value>) {
    if KillTimeout in c then Some(c[KillTimeout]) else Get(ExperimentalTable(c).m, KillTimeout)
  }

  predicate SectionsOk(p: Prims, c: Fields) {
    && (Env in c ==> EnvOf(p, c[Env]).Some?)
    && (Services in c ==> ServiceSection(p, c[Services]).Some?)
    && (Processes in c ==> ProcessSection(p, c[Processes]).Some?)
    && (Experimental in c ==> c[Experimental].Obj? && WordFields(c[Experimental].table).Some?)
    && (Checks in c ==> CheckSection(p, c[Checks]).Some?)
    && ComputeTables(c).Some?
    && MountTables(c).Some?
    && MetricTables(c).Some?
    && (Build in c ==> c[Build].Obj?)
  }

  function NonEmpty(m: Fields): (o: Option<Value>) {
    if m == map[] then None else Some(Obj(Table(m)))
  }

  /** The entry that patchRoot leaves under `k`. */
  function Section(p: Prims, c: Fields, k: Key): (v: Option<Value>)
    requires SectionsOk(p, c)
  {
    match k
    case Env => if Env in c then Some(StrMap(EnvOf(p, c[Env]).value)) else None
    case Services => if Services in c then Some(ObjList(ServiceSection(p, c[Services]).value)) else None
    case Processes => if Processes in c then ProcessSection(p, c[Processes]).value else None
    case Experimental => if Experimental in c then NonEmpty(WordFields(c[Experimental].table).value) else None
    case Checks => if Checks in c then NonEmpty(CheckSection(p, c[Checks]).value) else None
    case Compute => None
    case Computes => None
    case Vm => Some(ObjList(CastEach(p, ComputeTables(c).value, Memory)))
    case Mount => None
    case Mounts => Some(ObjList(CastEach(p, MountTables(c).value, InitialSize)))
    case Metric => None
    case Metrics => Some(ObjList(MetricTables(c).value))
    case KillTimeout =>
      var source := KillTimeoutSource(c);
      if source.Some? then Some(CastDuration(p, source.value, SECOND)) else None
    case Build => if Build in c then NonEmpty(RenameTarget(c[Build].table)) else None
    case _ => Get(c, k)
  }

  lemma GatherIsBoth(c: Fields, x: Key, y: Key, z: Key)
    ensures Gather(c, [x, y]) == Both(TablesOf(Get(c, x)), TablesOf(Get(c, y)))
    ensures Gather(c, [x, y, z]) == Both(Both(TablesOf(Get(c, x)), TablesOf(Get(c, y))), TablesOf(Get(c, z)))
  {
    assert [x, y, z][..2] == [x, y];
    assert [x, y][..1] == [x];
    assert [x][..0] == [];
    assert Gather(c, []) == Some([]);
    assert Gather(c, [x]) == TablesOf(Get(c, x)) by {
      if TablesOf(Get(c, x)).Some? {
        assert [] + TablesOf(Get(c, x)).value == TablesOf(Get(c, x)).value;
      }
    }
  }

  ghost predicate HalfOk(p: Prims, c: Fields) {
    && (Env in c ==> EnvOf(p, c[Env]).Some?)
    && (Services in c ==> ServiceSection(p, c[Services]).Some?)
    && (Processes in c ==> ProcessSection(p, c[Processes]).Some?)
  }

  ghost predicate HalfDone(p: Prims, c: Fields, d: Fields)
    requires HalfOk(p, c)
  {
    forall k :: Get(d, k) ==
                if k == Env && Env in c then Some(StrMap(EnvOf(p, c[Env]).value))
                else if k == Services && Services in c then Some(ObjList(ServiceSection(p, c[Services]).value))
                else if k == Processes && Processes in c then ProcessSection(p, c[Processes]).value
                else Get(c, k)
  }

  ghost function Half(p: Prims, c: Fields): (r: Option<Fields>) {
    Then(Then(PatchEnv(p, c), d => PatchServices(p, d)), d => PatchProcesses(p, d))
  }

  lemma EnvAndServicesSteps(p: Prims, c: Fields)
    ensures var r := Then(PatchEnv(p, c), d => PatchServices(p, d));
            && (r.Some? <==>
                (Env in c ==> EnvOf(p, c[Env]).Some?) && (Services in c ==> ServiceSection(p, c[Services]).Some?))
            && (r.Some? ==> forall k ::
                  Get(r.value, k) ==
                  if k == Env && Env in c then Some(StrMap(EnvOf(p, c[Env]).value))
                  else if k == Services && Services in c then Some(ObjList(ServiceSection(p, c[Services]).value))
                  else Get(c, k))
  {
  }

  lemma ProcessesStep(p: Prims, c: Fields)
    ensures var r := PatchProcesses(p, c);
            && (r.Some? <==> (Processes in c ==> ProcessSection(p, c[Processes]).Some?))
            && (r.Some? ==> forall k ::
                  Get(r.value, k) ==
                  if k == Processes && Processes in c then ProcessSection(p, c[Processes]).value else Get(c, k))
  {
  }

  lemma HalfSteps(p: Prims, c: Fields)
    ensures Half(p, c).Some? <==> HalfOk(p, c)
    ensures Half(p, c).Some? ==> HalfDone(p, c, Half(p, c).value)
  {
    EnvAndServicesSteps(p, c);
    var r := Then(PatchEnv(p, c), d => PatchServices(p, d));
    if r.Some? {
      assert Get(r.value, Processes) == Get(c, Processes);
      ProcessesStep(p, r.value);
    }
  }

  lemma ExperimentalStep(p: Prims, c: Fields)
    ensures var r := PatchExperimental(p, c);
            && (r.Some? <==> Experimental in c ==> c[Experimental].Obj? && WordFields(c[Experimental].table).Some?)
            && (r.Some? ==>
                  && Get(r.value, Metrics) == MetricSource(c)
                  && (KillTimeout in r.value <==> KillTimeoutSource(c).Some?)
                  && (KillTimeout in r.value ==>
                        CastDuration(p, r.value[KillTimeout], SECOND) ==
                        CastDuration(p, KillTimeoutSource(c).value, SECOND))
                  && Get(r.value, Experimental) ==
                     (if Experimental in c then NonEmpty(WordFields(c[Experimental].table).value) else None)
                  && forall k :: k !in {Metrics, KillTimeout, Experimental} ==> Get(r.value, k) == Get(c, k))
  {
  }

  const FRONT_KEYS := {Env, Services, Processes, Experimental, Metrics, KillTimeout}

  /** Outside `ks`, the two maps hold the same entries. */
  ghost predicate SameOutside(c: Fields, d: Fields, ks: set<Key>) {
    forall k :: k !in ks ==> Get(d, k) == Get(c, k)
  }

  lemma ChecksStep(p: Prims, c: Fields)
    ensures var r := PatchTopLevelChecks(p, c);
            && (r.Some? <==> (Checks in c ==> CheckSection(p, c[Checks]).Some?))
            && (r.Some? ==>
                 && SameOutside(c, r.value, {Checks})
                 && Get(r.value, Checks) == if Checks in c then NonEmpty(CheckSection(p, c[Checks]).value) else None)
  {
  }

  lemma ComputeStep(p: Prims, c: Fields)
    ensures var r := PatchCompute(p, c);
            && (r.Some? <==> ComputeTables(c).Some?)
            && (r.Some? ==>
                 && SameOutside(c, r.value, {Compute, Computes, Vm})
                 && Get(r.value, Compute) == Get(r.value, Computes) == None
                 && Get(r.value, Vm) == Some(ObjList(CastEach(p, ComputeTables(c).value, Memory))))
  {
    GatherIsBoth(c, Compute, Computes, Vm);
  }

  lemma MountsStep(p: Prims, c: Fields)
    ensures var r := PatchMounts(p, c);
            && (r.Some? <==> MountTables(c).Some?)
            && (r.Some? ==>
                 && SameOutside(c, r.value, {Mount, Mounts})
                 && Get(r.value, Mount) == None
                 && Get(r.value, Mounts) == Some(ObjList(CastEach(p, MountTables(c).value, InitialSize))))
  {
    GatherIsBoth(c, Mount, Mounts, Vm);
  }

  ghost predicate MiddleOk(p: Prims, c: Fields) {
    && (Checks in c ==> CheckSection(p, c[Checks]).Some?)
    && ComputeTables(c).Some?
    && MountTables(c).Some?
  }

  ghost function Middle(p: Prims, c: Fields): (r: Option<Fields>) {
    Then(Then(PatchTopLevelChecks(p, c), d => PatchCompute(p, d)), d => PatchMounts(p, d))
  }

  ghost predicate MiddleDone(p: Prims, c: Fields, d: Fields)
    requires MiddleOk(p, c)
  {
    && SameOutside(c, d, {Checks, Compute, Computes, Vm, Mount, Mounts})
    && Get(d, Checks) == (if Checks in c then NonEmpty(CheckSection(p, c[Checks]).value) else None)
    && Get(d, Compute) == Get(d, Computes) == Get(d, Mount) == None
    && Get(d, Vm) == Some(ObjList(CastEach(p, ComputeTables(c).value, Memory)))
    && Get(d, Mounts) == Some(ObjList(CastEach(p, MountTables(c).value, InitialSize)))
  }

  lemma MiddleSteps(p: Prims, c: Fields)
    ensures Middle(p, c).Some? <==> MiddleOk(p, c)
    ensures Middle(p, c).Some? ==> MiddleDone(p, c, Middle(p, c).value)
  {
    ChecksStep(p, c);
    var r5 := PatchTopLevelChecks(p, c);
    if r5.Some? {
      assert ComputeTables(r5.value) == ComputeTables(c);
      ComputeStep(p, r5.value);
      var r6 := PatchCompute(p, r5.value);
      if r6.Some? {
        assert SameOutside(c, r6.value, {Checks, Compute, Computes, Vm});
        assert MountTables(r6.value) == MountTables(c);
        MountsStep(p, r6.value);
      }
    }
  }

  ghost predicate BackOk(p: Prims, c: Fields) {
    TablesOf(Get(c, Metric)).Some? && TablesOf(Get(c, Metrics)).Some? && (Build in c ==> c[Build].Obj?)
  }

  ghost function Back(p: Prims, c: Fields): (r: Option<Fields>) {
    Then(Then(PatchMetrics(p, c), d => PatchTopFields(p, d)), d => PatchBuild(p, d))
  }

  ghost predicate BackDone(p: Prims, c: Fields, d: Fields)
    requires BackOk(p, c)
  {
    && SameOutside(c, d, {Metric, Metrics, KillTimeout, Build})
    && Get(d, Metric) == None
    && Get(d, Metrics) == Some(ObjList(TablesOf(Get(c, Metric)).value + TablesOf(Get(c, Metrics)).value))
    && Get(d, KillTimeout) == (if KillTimeout in c then Some(CastDuration(p, c[KillTimeout], SECOND)) else None)
    && Get(d, Build) == (if Build in c then NonEmpty(RenameTarget(c[Build].table)) else None)
  }

  lemma BackSteps(p: Prims, c: Fields)
    ensures Back(p, c).Some? <==> BackOk(p, c)
    ensures Back(p, c).Some? ==> BackDone(p, c, Back(p, c).value)
  {
    GatherIsBoth(c, Metric, Metrics, Vm);
  }

  ghost function Front(p: Prims, c: Fields): (r: Option<Fields>) {
    Then(Half(p, c), d => PatchExperimental(p, d))
  }

  ghost predicate FrontOk(p: Prims, c: Fields) {
    && HalfOk(p, c)
    && (Experimental in c ==> c[Experimental].Obj? && WordFields(c[Experimental].table).Some?)
  }

  ghost predicate KillTimeoutFrom(p: Prims, c: Fields, e: Fields) {
    && (KillTimeout in e <==> KillTimeoutSource(c).Some?)
    && (KillTimeout in e ==>
          CastDuration(p, e[KillTimeout], SECOND) == CastDuration(p, KillTimeoutSource(c).value, SECOND))
  }

  ghost predicate FrontDone(p: Prims, c: Fields, d: Fields)
    requires FrontOk(p, c)
  {
    && SameOutside(c, d, FRONT_KEYS)
    && Get(d, Env) == (if Env in c then Some(StrMap(EnvOf(p, c[Env]).value)) else None)
    && Get(d, Services) == (if Services in c then Some(ObjList(ServiceSection(p, c[Services]).value)) else None)
    && Get(d, Processes) == (if Processes in c then ProcessSection(p, c[Processes]).value else None)
    && Get(d, Experimental) == (if Experimental in c then NonEmpty(WordFields(c[Experimental].table).value) else None)
    && Get(d, Metrics) == MetricSource(c)
    && KillTimeoutFrom(p, c, d)
  }

  lemma SourcesAfterHalf(p: Prims, c: Fields, d: Fields)
    requires HalfOk(p, c) && HalfDone(p, c, d)
    ensures Get(d, Experimental) == Get(c, Experimental)
    ensures MetricSource(d) == MetricSource(c) && KillTimeoutSource(d) == KillTimeoutSource(c)
  {
    assert Get(d, Metrics) == Get(c, Metrics) && Get(d, KillTimeout) == Get(c, KillTimeout);
    assert Get(d, Experimental) == Get(c, Experimental);
    assert ExperimentalTable(d) == ExperimentalTable(c);
  }

  lemma FrontFromHalf(p: Prims, c: Fields, d: Fields)
    requires HalfOk(p, c) && HalfDone(p, c, d)
    ensures PatchExperimental(p, d).Some? <==> FrontOk(p, c)
    ensures PatchExperimental(p, d).Some? ==> FrontDone(p, c, PatchExperimental(p, d).value)
  {
    SourcesAfterHalf(p, c, d);
    ExperimentalStep(p, d);
    if PatchExperimental(p, d).Some? {
      HalfSurvives(p, c, d, PatchExperimental(p, d).value);
    }
  }

  lemma HalfSurvives(p: Prims, c: Fields, d: Fields, e: Fields)
    requires HalfOk(p, c) && HalfDone(p, c, d) && SameOutside(d, e, {Metrics, KillTimeout, Experimental})
    ensures SameOutside(c, e, FRONT_KEYS)
    ensures Get(e, Env) == (if Env in c then Some(StrMap(EnvOf(p, c[Env]).value)) else None)
    ensures Get(e, Services) == (if Services in c then Some(ObjList(ServiceSection(p, c[Services]).value)) else None)
    ensures Get(e, Processes) == (if Processes in c then ProcessSection(p, c[Processes]).value else None)
  {
    assert Get(e, Env) == Get(d, Env) && Get(e, Services) == Get(d, Services) && Get(e, Processes) == Get(d, Processes);
    forall k | k !in FRONT_KEYS ensures Get(e, k) == Get(c, k) {
      assert Get(e, k) == Get(d, k);
    }
  }

  lemma FrontSteps(p: Prims, c: Fields)
    ensures Front(p, c).Some? <==> FrontOk(p, c)
    ensures Front(p, c).Some? ==> FrontDone(p, c, Front(p, c).value)
  {
    HalfSteps(p, c);
    if Half(p, c).Some? {
      FrontFromHalf(p, c, Half(p, c).value);
    }
  }

  lemma RootInThree(p: Prims, c: Fields)
    ensures PatchRoot(p, c) == Then(Then(Front(p, c), d => Middle(p, d)), d => Back(p, d))
  {
  }

  /** What the later stages require, told of the original map. */
  lemma MiddleOkAfterFront(p: Prims, c: Fields, d: Fields)
    requires SameOutside(c, d, FRONT_KEYS)
    ensures MiddleOk(p, d) <==> MiddleOk(p, c)
  {
    assert Get(d, Checks) == Get(c, Checks);
    assert ComputeTables(d) == ComputeTables(c) && MountTables(d) == MountTables(c);
  }

  lemma BackOkAfterMiddle(p: Prims, c: Fields, d: Fields, e: Fields)
    requires SameOutside(c, d, FRONT_KEYS) && Get(d, Metrics) == MetricSource(c)
    requires SameOutside(d, e, {Checks, Compute, Computes, Vm, Mount, Mounts})
    ensures BackOk(p, e) <==> MetricTables(c).Some? && (Build in c ==> c[Build].Obj?)
  {
    assert Get(e, Metric) == Get(d, Metric) == Get(c, Metric);
    assert Get(e, Metrics) == Get(d, Metrics);
    assert Get(e, Build) == Get(d, Build) == Get(c, Build);
  }

  /** An entry untouched by the later stages. */
  lemma CarriedThrough(p: Prims, d: Fields, e: Fields, f: Fields, k: Key)
    requires MiddleOk(p, d) && MiddleDone(p, d, e) && BackOk(p, e) && BackDone(p, e, f)
    ensures k !in {Metric, Metrics, KillTimeout, Build} ==> Get(f, k) == Get(e, k)
    ensures k !in {Checks, Compute, Computes, Vm, Mount, Mounts} ==> Get(e, k) == Get(d, k)
  {
  }

  lemma LateTables(p: Prims, c: Fields, e: Fields, f: Fields)
    requires SectionsOk(p, c) && BackOk(p, e) && BackDone(p, e, f)
    requires Get(e, Metric) == Get(c, Metric) && Get(e, Metrics) == MetricSource(c) && Get(e, Build) == Get(c, Build)
    ensures Get(f, Metric) == Section(p, c, Metric) && Get(f, Metrics) == Section(p, c, Metrics)
    ensures Get(f, Build) == Section(p, c, Build)
  {
  }

  lemma LateKillTimeout(p: Prims, c: Fields, e: Fields, f: Fields)
    requires SectionsOk(p, c) && KillTimeoutFrom(p, c, e) && BackOk(p, e) && BackDone(p, e, f)
    ensures Get(f, KillTimeout) == Section(p, c, KillTimeout)
  {
  }

  lemma LateInputs(p: Prims, c: Fields, d: Fields, e: Fields)
    requires FrontOk(p, c) && FrontDone(p, c, d)
    requires SameOutside(d, e, {Checks, Compute, Computes, Vm, Mount, Mounts})
    ensures Get(e, Metric) == Get(c, Metric) && Get(e, Metrics) == MetricSource(c) && Get(e, Build) == Get(c, Build)
    ensures KillTimeoutFrom(p, c, e)
  {
    assert Get(e, Metric) == Get(d, Metric) == Get(c, Metric) && Get(e, Build) == Get(d, Build) == Get(c, Build);
    assert Get(e, Metrics) == Get(d, Metrics) && Get(e, KillTimeout) == Get(d, KillTimeout);
  }

  lemma ChecksAndVmFromGiven(p: Prims, c: Fields, d: Fields, e: Fields)
    requires SectionsOk(p, c) && MiddleOk(p, d) && MiddleDone(p, d, e)
    requires Get(d, Checks) == Get(c, Checks) && ComputeTables(d) == ComputeTables(c)
    ensures Get(e, Checks) == Section(p, c, Checks) && Get(e, Vm) == Section(p, c, Vm)
    ensures Get(e, Compute) == Section(p, c, Compute) && Get(e, Computes) == Section(p, c, Computes)
  {
  }

  lemma MountsFromGiven(p: Prims, c: Fields, d: Fields, e: Fields)
    requires SectionsOk(p, c) && MiddleOk(p, d) && MiddleDone(p, d, e) && MountTables(d) == MountTables(c)
    ensures Get(e, Mount) == Section(p, c, Mount) && Get(e, Mounts) == Section(p, c, Mounts)
  {
  }

  lemma MiddleSections(p: Prims, c: Fields, d: Fields, e: Fields, k: Key)
    requires SectionsOk(p, c) && MiddleOk(p, d) && MiddleDone(p, d, e)
    requires SameOutside(c, d, FRONT_KEYS)
    requires k in {Checks, Compute, Computes, Vm, Mount, Mounts}
    ensures Get(e, k) == Section(p, c, k)
  {
    assert Get(d, Checks) == Get(c, Checks);
    assert ComputeTables(d) == ComputeTables(c) && MountTables(d) == MountTables(c);
    ChecksAndVmFromGiven(p, c, d, e);
    MountsFromGiven(p, c, d, e);
  }

  lemma EarlySections(p: Prims, c: Fields, d: Fields, k: Key)
    requires SectionsOk(p, c) && FrontOk(p, c) && FrontDone(p, c, d)
    requires k !in {Checks, Compute, Computes, Vm, Mount, Mounts, Metric, Metrics, KillTimeout, Build}
    ensures Get(d, k) == Section(p, c, k)
  {
    assert k !in {Env, Services, Processes, Experimental} ==> Get(d, k) == Get(c, k);
  }

  lemma StagesGiveSections(p: Prims, c: Fields, d: Fields, e: Fields, f: Fields, k: Key)
    requires SectionsOk(p, c) && FrontOk(p, c) && FrontDone(p, c, d) && MiddleOk(p, d) && MiddleDone(p, d, e)
    requires BackOk(p, e) && BackDone(p, e, f)
    ensures Get(f, k) == Section(p, c, k)
  {
    CarriedThrough(p, d, e, f, k);
    if k in {Metric, Metrics, KillTimeout, Build} {
      LateInputs(p, c, d, e);
      LateTables(p, c, e, f);
      LateKillTimeout(p, c, e, f);
    } else if k in {Checks, Compute, Computes, Vm, Mount, Mounts} {
      MiddleSections(p, c, d, e, k);
    } else {
      EarlySections(p, c, d, k);
    }
  }

  /** patchRoot succeeds exactly when every section is well formed, and then each key holds its section. */
  lemma RootIsSections(p: Prims, c: Fields)
    ensures PatchRoot(p, c).Some? <==> SectionsOk(p, c)
    ensures PatchRoot(p, c).Some? ==> forall k :: Get(PatchRoot(p, c).value, k) == Section(p, c, k)
  {
    var front := Front(p, c);
    FrontSteps(p, c);
    RootInThree(p, c);
    if front.Some? {
      var d := front.value;
      MiddleOkAfterFront(p, c, d);
      var middle := Middle(p, d);
      MiddleSteps(p, d);
      if middle.Some? {
        var e := middle.value;
        var back := Back(p, e);
        BackSteps(p, e);
        BackOkAfterMiddle(p, c, d, e);
        assert PatchRoot(p, c) == back;
        if back.Some? {
          forall k ensures Get(back.value, k) == Section(p, c, k) {
            StagesGiveSections(p, c, d, e, back.value, k);
          }
        }
      }
    }
  }
}
