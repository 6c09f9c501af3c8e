/** Migration of old config maps to the current format (internal/appconfig/patches.go). */
module Patches {
  import opened Prelude
  import opened Values

  /** Code the patches call but this project does not define: every theorem holds for any choice of it. */
  datatype Prims = Prims(
    show: Value -> string,              // fmt.Sprintf("%v")
    atoi: string -> Option<int>,        // strconv.Atoi
    duration: (Value, int) -> Text,     // time.Duration(v) * shift, printed
    keyNamed: string -> Key)            // the key spelled so

  const MILLISECOND := 1_000_000
  const SECOND := 1_000_000_000

  // ---------------------------------------------------------------------------
  // Casts
  // ---------------------------------------------------------------------------

  function CastToString(p: Prims, v: Value): (s: string) {
    if v.Str? then v.s else p.show(v)
  }

  function Truncate(r: real): (n: int) {
    if r >= 0.0 then r.Floor else -(-r).Floor
  }

  function CastToInt(p: Prims, v: Value): (n: Option<int>) {
    match v
    case Str(s) => p.atoi(s)
    case Float(_, r) => Some(Truncate(r))
    case Int(U64, n) => Some(if n >= 0x8000_0000_0000_0000 then n - 0x1_0000_0000_0000_0000 else n)
    case Int(U, n) => Some(if n >= 0x8000_0000_0000_0000 then n - 0x1_0000_0000_0000_0000 else n)
    case Int(_, n) => Some(n)
    case _ => None
  }

  function CastDuration(p: Prims, v: Value, shift: int): (d: Value)
    ensures d.StrPtr?
  {
    match v
    case StrPtr(_) => v
    case Str(s) => StrPtr(if s == "" then None else Some(s))
    case Float(F64, _) => StrPtr(Some(p.duration(v, shift)))
    case Int(I64, _) => StrPtr(Some(p.duration(v, shift)))
    case _ => StrPtr(None)
  }

  function ObjsOf(items: seq<Value>): (ts: seq<Table>)
    requires forall i :: 0 <= i < |items| ==> items[i].Obj?
    ensures |ts| == |items|
    ensures forall i :: 0 <= i < |ts| ==> ts[i] == items[i].table
  {
    seq(|items|, i requires 0 <= i < |items| => items[i].table)
  }

  function EnsureTables(v: Value): (ts: Option<seq<Table>>) {
    match v
    case List(items) =>
      if forall i :: 0 <= i < |items| ==> items[i].Obj? then Some(ObjsOf(items)) else None
    case ObjList(ts) => Some(ts)
    case Obj(t) => Some([t])
    case _ => None
  }

  function WordList(v: Value): (w: Option<Value>) {
    match v
    case Nil => Some(Nil)
    case StrList(_) => Some(v)
    case Str(s) => Some(StrList([s]))
    case List(items) =>
      if forall i :: 0 <= i < |items| ==> items[i].Str?
      then Some(StrList(seq(|items|, i requires 0 <= i < |items| => items[i].s))) else None
    case _ => None
  }

  /** Rewrite every table, failing when one fails. */
  function Traverse(ts: seq<Table>, f: Table -> Option<Table>): (us: Option<seq<Table>>)
    ensures us.Some? <==> forall i :: 0 <= i < |ts| ==> f(ts[i]).Some?
    ensures us.Some? ==> |us.value| == |ts| && forall i :: 0 <= i < |ts| ==> us.value[i] == f(ts[i]).value
  {
    if forall i :: 0 <= i < |ts| ==> f(ts[i]).Some?
    then Some(seq(|ts|, i requires 0 <= i < |ts| => f(ts[i]).value)) else None
  }

  /** Rewrite the table under every key, failing when one is not a table or fails. */
  function TraverseFields(t: Table, f: Table -> Option<Table>): (r: Option<Fields>) {
    if forall k :: k in t.m ==> t.m[k].Obj? && f(t.m[k].table).Some?
    then Some(map k | k in t.m :: Obj(f(t.m[k].table).value)) else None
  }

  // ---------------------------------------------------------------------------
  // [env]
  // ---------------------------------------------------------------------------

  function EnvOf(p: Prims, v: Value): (env: Option<map<Key, string>>)
    decreases v, 1
  {
    match v
    case ObjList(ts) => EnvOfTables(p, ts)
    case List(items) => EnvOfItems(p, items)
    case StrMap(m) => Some(m)
    case Obj(t) => Some(TextFields(p, t))
    case _ => None
  }

  function TextFields(p: Prims, t: Table): (m: map<Key, string>) {
    map k | k in t.m :: CastToString(p, t.m[k])
  }

  /** Later entries win. */
  function EnvOfItems(p: Prims, items: seq<Value>): (env: Option<map<Key, string>>)
    decreases items, 0
  {
    if items == [] then Some(map[])
    else
      var n := |items| - 1;
      var before, last := EnvOfItems(p, items[..n]), EnvOf(p, items[n]);
      if before.Some? && last.Some? then Some(before.value + last.value) else None
  }

  function EnvOfTables(p: Prims, ts: seq<Table>): (env: Option<map<Key, string>>)
    ensures env.Some?
  {
    if ts == [] then Some(map[])
    else Some(EnvOfTables(p, ts[..|ts| - 1]).value + TextFields(p, ts[|ts| - 1]))
  }

  function PatchEnv(p: Prims, c: Fields): (r: Option<Fields>) {
    if Env !in c then Some(c)
    else
      match EnvOf(p, c[Env])
      case None => None
      case Some(env) => Some(c[Env := StrMap(env)])
  }

  // ---------------------------------------------------------------------------
  // Checks
  // ---------------------------------------------------------------------------

  function CastField(p: Prims, c: Fields, k: Key, shift: int): (d: Fields) {
    if k in c then c[k := CastDuration(p, c[k], shift)] else c
  }

  /** Entries {name, value}; later entries win. */
  function HeaderTables(p: Prims, ts: seq<Table>): (h: Option<map<Key, string>>) {
    if ts == [] then Some(map[])
    else
      var t := ts[|ts| - 1].m;
      var before := HeaderTables(p, ts[..|ts| - 1]);
      if before.None? || Name !in t then None
      else
        var value := if ValueKey in t then CastToString(p, t[ValueKey]) else "";
        Some(before.value[p.keyNamed(CastToString(p, t[Name])) := value])
  }

  function HeadersOf(p: Prims, v: Value): (h: Option<map<Key, string>>) {
    match v
    case List(items) =>
      if forall i :: 0 <= i < |items| ==> items[i].Obj? then HeaderTables(p, ObjsOf(items)) else None
    case ObjList(ts) => HeaderTables(p, ts)
    case Obj(t) => Some(TextFields(p, t))
    case _ => None
  }

  function PatchHeaders(p: Prims, c: Fields): (r: Option<Fields>) {
    if Headers !in c then Some(c)
    else
      match HeadersOf(p, c[Headers])
      case None => None
      case Some(h) => Some(if h != map[] then c[Headers := StrMap(h)] else c - {Headers})
  }

  function CastTimes(p: Prims, c: Fields): (d: Fields) {
    CastField(p, CastField(p, CastField(p, c, Interval, MILLISECOND), Timeout, MILLISECOND), GracePeriod, MILLISECOND)
  }

  function PatchCheck(p: Prims, t: Table): (r: Option<Table>) {
    match PatchHeaders(p, CastTimes(p, t.m))
    case None => None
    case Some(m) => Some(Table(m))
  }

  function PatchCheckTable(p: Prims, t: Table): (r: Option<Fields>) {
    TraverseFields(t, u => PatchCheck(p, u))
  }

  /** A list of checks, each with a string name; later entries win. */
  function PatchCheckItems(p: Prims, items: seq<Value>): (r: Option<Fields>) {
    if items == [] then Some(map[])
    else
      var v := items[|items| - 1];
      var before := PatchCheckItems(p, items[..|items| - 1]);
      if before.None? || !v.Obj? || Name !in v.table.m || !v.table.m[Name].Str?
         || PatchCheck(p, v.table).None?
      then None
      else Some(before.value[p.keyNamed(v.table.m[Name].s) := Obj(PatchCheck(p, v.table).value)])
  }

  function CheckSection(p: Prims, v: Value): (r: Option<Fields>) {
    match v
    case Obj(t) => PatchCheckTable(p, t)
    case List(items) => PatchCheckItems(p, items)
    case _ => None
  }

  function PatchTopLevelChecks(p: Prims, c: Fields): (r: Option<Fields>) {
    if Checks !in c then Some(c)
    else
      match CheckSection(p, c[Checks])
      case None => None
      case Some(checks) => Some(if checks == map[] then c - {Checks} else c[Checks := Obj(Table(checks))])
  }

  // ---------------------------------------------------------------------------
  // [[services]]
  // ---------------------------------------------------------------------------

  /** The text before and after the first comma. */
  function Cut(s: string): (r: Option<(string, string)>)
    ensures r.Some? <==> ',' in s
    ensures r.Some? ==> s == r.value.0 + "," + r.value.1 && ',' !in r.value.0
  {
    if s == "" then None
    else if s[0] == ',' then Some(("", s[1..]))
    else
      match Cut(s[1..])
      case None => None
      case Some((left, right)) => Some(([s[0]] + left, right))
  }

  function LimitsOf(p: Prims, s: string): (v: Option<Value>) {
    match Cut(s)
    case None => None
    case Some((left, right)) =>
      if p.atoi(left).None? || p.atoi(right).None? then None
      else Some(Obj(Table(map[TypeKey := Str("requests"), HardLimit := Int(GoInt, p.atoi(right).value),
                              SoftLimit := Int(GoInt, p.atoi(left).value)])))
  }

  function PatchConcurrency(p: Prims, c: Fields): (r: Option<Fields>) {
    if Concurrency !in c || c[Concurrency].Obj? then Some(c)
    else if c[Concurrency].Str? then
      match LimitsOf(p, c[Concurrency].s)
      case None => None
      case Some(v) => Some(c[Concurrency := v])
    else None
  }

  function CastIntField(p: Prims, c: Fields, k: Key): (r: Option<Fields>) {
    if k !in c then Some(c)
    else
      match CastToInt(p, c[k])
      case None => None
      case Some(n) => Some(c[k := Int(GoInt, n)])
  }

  function PatchPort(p: Prims, t: Table): (r: Option<Table>) {
    match CastIntField(p, t.m, Port)
    case None => None
    case Some(m) => Some(Table(m))
  }

  function PatchPorts(p: Prims, c: Fields): (r: Option<Fields>) {
    if Ports !in c then Some(c)
    else
      var ts := EnsureTables(c[Ports]);
      if ts.None? then None
      else
        match Traverse(ts.value, t => PatchPort(p, t))
        case None => None
        case Some(ports) => Some(c[Ports := ObjList(ports)])
  }

  function PatchServiceChecks(p: Prims, c: Fields, k: Key): (r: Option<Fields>) {
    if k !in c then Some(c)
    else
      var ts := EnsureTables(c[k]);
      if ts.None? then None
      else
        match Traverse(ts.value, t => PatchCheck(p, t))
        case None => None
        case Some(checks) => Some(if checks != [] then c[k := ObjList(checks)] else c - {k})
  }

  function Then(r: Option<Fields>, f: Fields -> Option<Fields>): (s: Option<Fields>) {
    match r
    case None => None
    case Some(c) => f(c)
  }

  function PatchServiceFields(p: Prims, c: Fields): (r: Option<Fields>) {
    var r1 := PatchConcurrency(p, c);
    var r2 := Then(r1, d => PatchPorts(p, d));
    var r3 := Then(r2, d => PatchServiceChecks(p, d, TcpChecks));
    var r4 := Then(r3, d => PatchServiceChecks(p, d, HttpChecks));
    Then(r4, d => CastIntField(p, d, InternalPort))
  }

  function PatchService(p: Prims, t: Table): (r: Option<Table>) {
    match PatchServiceFields(p, t.m)
    case None => None
    case Some(m) => Some(Table(m))
  }

  function ServiceSection(p: Prims, v: Value): (ts: Option<seq<Table>>) {
    var ts := EnsureTables(v);
    if ts.None? then None
    else
      match Traverse(ts.value, t => PatchService(p, t))
      case None => None
      case Some(us) => Some(Filter(us, (t: Table) => t.m != map[]))
  }

  function PatchServices(p: Prims, c: Fields): (r: Option<Fields>) {
    if Services !in c then Some(c)
    else
      match ServiceSection(p, c[Services])
      case None => None
      case Some(ts) => Some(c[Services := ObjList(ts)])
  }

  // ---------------------------------------------------------------------------
  // [processes], [experimental], [build]
  // ---------------------------------------------------------------------------

  function OnlyObjs(items: seq<Value>): (ts: seq<Table>) {
    var objs := Filter(items, (v: Value) => v.Obj?);
    assert forall v :: v in objs ==> v.Obj?;
    ObjsOf(objs)
  }

  /** Entries {name, command}; entries without a name are dropped and later entries win. */
  function ProcessTables(p: Prims, ts: seq<Table>): (m: map<Key, string>) {
    if ts == [] then map[]
    else
      var t := ts[|ts| - 1].m;
      var before := ProcessTables(p, ts[..|ts| - 1]);
      if Name in t
      then before[p.keyNamed(CastToString(p, t[Name])) := if Command in t then CastToString(p, t[Command]) else ""]
      else before
  }

  /** The new value of the section: absent when no process is left. */
  function ProcessSection(p: Prims, v: Value): (r: Option<Option<Value>>) {
    match v
    case Obj(_) => Some(Some(v))
    case ObjList(ts) => Some(ProcessMap(ProcessTables(p, ts)))
    case List(items) => Some(ProcessMap(ProcessTables(p, OnlyObjs(items))))
    case _ => None
  }

  function ProcessMap(m: map<Key, string>): (v: Option<Value>) {
    if m != map[] then Some(StrMap(m)) else None
  }

  function PatchProcesses(p: Prims, c: Fields): (r: Option<Fields>) {
    if Processes !in c then Some(c)
    else
      match ProcessSection(p, c[Processes])
      case None => None
      case Some(None) => Some(c - {Processes})
      case Some(Some(v)) => Some(c[Processes := v])
  }

  const WORD_KEYS := {Cmd, Entrypoint, Exec}

  function WordFields(t: Table): (r: Option<Fields>) {
    if forall k :: k in t.m && k in WORD_KEYS ==> WordList(t.m[k]).Some?
    then Some(map k | k in t.m :: if k in WORD_KEYS then WordList(t.m[k]).value else t.m[k]) else None
  }

  function MetricFields(t: Table): (m: Fields) {
    (if MetricsPort in t.m then map[Port := t.m[MetricsPort]] else map[]) +
    (if MetricsPath in t.m then map[Path := t.m[MetricsPath]] else map[])
  }

  function PatchExperimental(p: Prims, c: Fields): (r: Option<Fields>) {
    if Experimental !in c then Some(c)
    else if !c[Experimental].Obj? then None
    else
      var t := c[Experimental].table;
      match WordFields(t)
      case None => None
      case Some(fields) =>
        var c1 := if KillTimeout in t.m && KillTimeout !in c
                  then c[KillTimeout := CastDuration(p, t.m[KillTimeout], SECOND)] else c;
        var c2 := if fields == map[] then c1 - {Experimental} else c1[Experimental := Obj(Table(fields))];
        var metrics := MetricFields(t);
        Some(if Metrics !in c2 && metrics != map[] then c2[Metrics := Obj(Table(metrics))] else c2)
  }

  function RenameTarget(t: Table): (m: Fields) {
    if OldBuildTarget in t.m then t.m[BuildTarget := t.m[OldBuildTarget]] - {OldBuildTarget} else t.m
  }

  function PatchBuild(p: Prims, c: Fields): (r: Option<Fields>) {
    if Build !in c then Some(c)
    else if !c[Build].Obj? then None
    else
      var m := RenameTarget(c[Build].table);
      Some(if m == map[] then c - {Build} else c[Build := Obj(Table(m))])
  }

  // ---------------------------------------------------------------------------
  // Sections gathered from several aliases
  // ---------------------------------------------------------------------------

  /** The tables under each alias, in the order of the aliases. */
  function Gather(c: Fields, aliases: seq<Key>): (ts: Option<seq<Table>>) {
    if aliases == [] then Some([])
    else
      var n := |aliases| - 1;
      var before := Gather(c, aliases[..n]);
      var here := if aliases[n] in c then EnsureTables(c[aliases[n]]) else Some([]);
      if before.None? || here.None? then None else Some(before.value + here.value)
  }

  function CastText(p: Prims, t: Table, k: Key): (u: Table) {
    if k in t.m then Table(t.m[k := Str(CastToString(p, t.m[k]))]) else t
  }

  function CastEach(p: Prims, ts: seq<Table>, k: Key): (us: seq<Table>)
    ensures |us| == |ts|
    ensures forall i :: 0 <= i < |ts| ==> us[i] == CastText(p, ts[i], k)
  {
    Map(ts, (t: Table) => CastText(p, t, k))
  }

  function PatchCompute(p: Prims, c: Fields): (r: Option<Fields>) {
    match Gather(c, [Compute, Computes, Vm])
    case None => None
    case Some(ts) => Some((c - {Compute, Computes})[Vm := ObjList(CastEach(p, ts, Memory))])
  }

  function PatchMounts(p: Prims, c: Fields): (r: Option<Fields>) {
    match Gather(c, [Mount, Mounts])
    case None => None
    case Some(ts) => Some((c - {Mount})[Mounts := ObjList(CastEach(p, ts, InitialSize))])
  }

  function PatchMetrics(p: Prims, c: Fields): (r: Option<Fields>) {
    match Gather(c, [Metric, Metrics])
    case None => None
    case Some(ts) => Some((c - {Metric})[Metrics := ObjList(ts)])
  }

  function PatchTopFields(p: Prims, c: Fields): (r: Option<Fields>) {
    Some(CastField(p, c, KillTimeout, SECOND))
  }

  function PatchRoot(p: Prims, c: Fields): (r: Option<Fields>) {
    var r1 := PatchEnv(p, c);
    var r2 := Then(r1, d => PatchServices(p, d));
    var r3 := Then(r2, d => PatchProcesses(p, d));
    var r4 := Then(r3, d => PatchExperimental(p, d));
    var r5 := Then(r4, d => PatchTopLevelChecks(p, d));
    var r6 := Then(r5, d => PatchCompute(p, d));
    var r7 := Then(r6, d => PatchMounts(p, d));
    var r8 := Then(r7, d => PatchMetrics(p, d));
    var r9 := Then(r8, d => PatchTopFields(p, d));
    Then(r9, d => PatchBuild(p, d))
  }
}
