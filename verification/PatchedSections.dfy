/** The patched config, section by section, told of the user's file (patchRoot, internal/appconfig/patches.go). */
module PatchedSections {
  import opened Prelude
  import opened Values
  import opened Patches
  import opened NormalForm
  import opened Repatching
  import opened PatchedValues

  // ---------------------------------------------------------------------------
  // [[services]]
  // ---------------------------------------------------------------------------

  ghost predicate LimitsFrom(p: Prims, s: string, soft: string, hard: string, w: Value) {
    && s == soft + "," + hard && ',' !in soft && p.atoi(soft).Some? && p.atoi(hard).Some?
    && w == Obj(Table(map[TypeKey := Str("requests"), HardLimit := Int(GoInt, p.atoi(hard).value),
                          SoftLimit := Int(GoInt, p.atoi(soft).value)]))
  }

  /** An old limit is written "soft,hard"; a table stays. */
  ghost predicate ConcurrencyFrom(p: Prims, v: Value, w: Value) {
    || (v.Obj? && w == v)
    || (v.Str? && exists soft, hard :: LimitsFrom(p, v.s, soft, hard, w))
  }

  ghost predicate PortNumberFrom(p: Prims, v: Value, w: Value) {
    w.Int? && w.intKind == GoInt && NumberFrom(p, v, w.n)
  }

  ghost predicate PortFrom(p: Prims, t: Table, u: Table) {
    && u.m.Keys == t.m.Keys
    && (Port in t.m ==> PortNumberFrom(p, t.m[Port], u.m[Port]))
    && forall k :: k in t.m && k != Port ==> u.m[k] == t.m[k]
  }

  ghost predicate PortsFrom(p: Prims, v: Value, us: seq<Table>) {
    exists ts :: TablesFrom(v, ts) && |us| == |ts| && forall i :: 0 <= i < |ts| ==> PortFrom(p, ts[i], us[i])
  }

  ghost predicate CheckListFrom(p: Prims, v: Value, us: seq<Table>) {
    exists ts :: TablesFrom(v, ts) && |us| == |ts| && forall i :: 0 <= i < |ts| ==> CheckFrom(p, ts[i], us[i])
  }

  ghost predicate ServiceFieldFrom(p: Prims, k: Key, a: Option<Value>, b: Option<Value>) {
    if a.None? then b.None?
    else if k == Concurrency then b.Some? && ConcurrencyFrom(p, a.value, b.value)
    else if k == InternalPort then b.Some? && PortNumberFrom(p, a.value, b.value)
    else if k == Ports then b.Some? && b.value.ObjList? && PortsFrom(p, a.value, b.value.tables)
    else if k in {TcpChecks, HttpChecks} then
      if b.None? then CheckListFrom(p, a.value, [])
      else b.value.ObjList? && b.value.tables != [] && CheckListFrom(p, a.value, b.value.tables)
    else b == a
  }

  ghost predicate ServiceFrom(p: Prims, t: Table, u: Table) {
    forall k :: ServiceFieldFrom(p, k, Get(t.m, k), Get(u.m, k))
  }

  /** The services in order, but for those of which nothing is left. */
  ghost predicate ServicesFrom(p: Prims, v: Value, us: seq<Table>) {
    exists all :: EachService(p, v, all) && us == Filter(all, (u: Table) => u.m != map[])
  }

  lemma {:induction false} OneComma(left: string, right: string, left': string, right': string)
    requires left + "," + right == left' + "," + right' && ',' !in left && ',' !in left'
    ensures left == left' && right == right'
  {
    var s, s' := left + "," + right, left' + "," + right';
    assert s[0] == s'[0];
    if left != "" && left' != "" {
      assert s[1..] == left[1..] + "," + right && s'[1..] == left'[1..] + "," + right';
      OneComma(left[1..], right, left'[1..], right');
    } else {
      assert s[1..] == right && s'[1..] == right';
    }
  }

  lemma CutIff(s: string, left: string, right: string)
    ensures Cut(s) == Some((left, right)) <==> s == left + "," + right && ',' !in left
  {
    if s == left + "," + right && ',' !in left {
      assert s[|left|] == ',';
      OneComma(left, right, Cut(s).value.0, Cut(s).value.1);
    }
  }

  lemma LimitsIff(p: Prims, s: string, w: Value)
    ensures LimitsOf(p, s) == Some(w) <==> exists soft, hard :: LimitsFrom(p, s, soft, hard, w)
  {
    if soft, hard :| LimitsFrom(p, s, soft, hard, w) {
      CutIff(s, soft, hard);
    }
    if LimitsOf(p, s) == Some(w) {
      var (soft, hard) := Cut(s).value;
      CutIff(s, soft, hard);
      assert LimitsFrom(p, s, soft, hard, w);
    }
  }

  lemma ConcurrencyIff(p: Prims, v: Value, w: Value)
    ensures ConcurrencyFrom(p, v, w) <==> (v.Obj? && w == v) || (v.Str? && LimitsOf(p, v.s) == Some(w))
  {
    if v.Str? {
      LimitsIff(p, v.s, w);
    }
  }

  lemma PortNumberIff(p: Prims, v: Value, w: Value)
    ensures PortNumberFrom(p, v, w) <==> CastToInt(p, v).Some? && w == Int(GoInt, CastToInt(p, v).value)
  {
    if w.Int? {
      NumberIff(p, v, w.n);
    }
    if CastToInt(p, v).Some? {
      NumberIff(p, v, CastToInt(p, v).value);
    }
  }

  lemma PortIff(p: Prims, t: Table, u: Table)
    ensures PatchPort(p, t) == Some(u) <==> PortFrom(p, t, u)
  {
    if Port in t.m {
      if Port in u.m {
        PortNumberIff(p, t.m[Port], u.m[Port]);
      }
      if PortFrom(p, t, u) {
        assert u.m == t.m[Port := u.m[Port]];
      }
    } else if PortFrom(p, t, u) {
      assert u.m == t.m;
    }
  }

  /** Rewriting every table, told of one table. */
  lemma TraverseIff(ts: seq<Table>, f: Table -> Option<Table>, from: (Table, Table) -> bool, us: seq<Table>)
    requires forall t, u :: f(t) == Some(u) <==> from(t, u)
    ensures Traverse(ts, f) == Some(us) <==> |us| == |ts| && forall i :: 0 <= i < |ts| ==> from(ts[i], us[i])
  {
    if |us| == |ts| && forall i :: 0 <= i < |ts| ==> from(ts[i], us[i]) {
      forall i | 0 <= i < |ts| ensures f(ts[i]) == Some(us[i]) {
      }
      assert Traverse(ts, f).value == us;
    }
  }

  lemma PortsIff(p: Prims, v: Value, us: seq<Table>)
    ensures PortsFrom(p, v, us) <==>
            EnsureTables(v).Some? && Traverse(EnsureTables(v).value, t => PatchPort(p, t)) == Some(us)
  {
    forall t, u ensures PatchPort(p, t) == Some(u) <==> PortFrom(p, t, u) {
      PortIff(p, t, u);
    }
    if EnsureTables(v).Some? {
      TablesIff(v, EnsureTables(v).value);
      TraverseIff(EnsureTables(v).value, t => PatchPort(p, t), (t, u) => PortFrom(p, t, u), us);
    }
    if PortsFrom(p, v, us) {
      var ts :| TablesFrom(v, ts) && |us| == |ts| && forall i :: 0 <= i < |ts| ==> PortFrom(p, ts[i], us[i]);
      TablesIff(v, ts);
    }
  }

  lemma CheckListIff(p: Prims, v: Value, us: seq<Table>)
    ensures CheckListFrom(p, v, us) <==>
            EnsureTables(v).Some? && Traverse(EnsureTables(v).value, t => PatchCheck(p, t)) == Some(us)
  {
    forall t, u ensures PatchCheck(p, t) == Some(u) <==> CheckFrom(p, t, u) {
      CheckIff(p, t, u);
    }
    if EnsureTables(v).Some? {
      TablesIff(v, EnsureTables(v).value);
      TraverseIff(EnsureTables(v).value, t => PatchCheck(p, t), (t, u) => CheckFrom(p, t, u), us);
    }
    if CheckListFrom(p, v, us) {
      var ts :| TablesFrom(v, ts) && |us| == |ts| && forall i :: 0 <= i < |ts| ==> CheckFrom(p, ts[i], us[i]);
      TablesIff(v, ts);
    }
  }

  lemma CheckListFieldIff(p: Prims, c: Fields, k: Key, b: Option<Value>)
    requires k in {TcpChecks, HttpChecks}
    ensures ServiceFieldFrom(p, k, Get(c, k), b) <==> ChecksFieldOk(p, c, k) && b == ChecksField(p, c, k)
  {
    if k in c {
      CheckListIff(p, c[k], []);
      if b.Some? && b.value.ObjList? {
        CheckListIff(p, c[k], b.value.tables);
      }
    }
  }

  lemma PortsFieldIff(p: Prims, c: Fields, b: Option<Value>)
    ensures ServiceFieldFrom(p, Ports, Get(c, Ports), b) <==> PortsOk(p, c) && b == PortsField(p, c)
  {
    if Ports in c && b.Some? && b.value.ObjList? {
      PortsIff(p, c[Ports], b.value.tables);
    }
  }

  ghost predicate FieldOk(p: Prims, c: Fields, k: Key) {
    match k
    case Concurrency => ConcurrencyOk(p, c)
    case Ports => PortsOk(p, c)
    case TcpChecks => ChecksFieldOk(p, c, k)
    case HttpChecks => ChecksFieldOk(p, c, k)
    case InternalPort => InternalPort in c ==> CastToInt(p, c[InternalPort]).Some?
    case _ => true
  }

  lemma ServiceFieldNeedsOk(p: Prims, c: Fields, k: Key, b: Option<Value>)
    requires ServiceFieldFrom(p, k, Get(c, k), b)
    ensures FieldOk(p, c, k)
  {
    if k == Ports {
      PortsFieldIff(p, c, b);
    } else if k in {TcpChecks, HttpChecks} {
      CheckListFieldIff(p, c, k, b);
    } else if k in c && k == Concurrency {
      ConcurrencyIff(p, c[k], b.value);
    } else if k in c && k == InternalPort {
      PortNumberIff(p, c[k], b.value);
    }
  }

  lemma ConcurrencyFieldIff(p: Prims, c: Fields, b: Option<Value>)
    requires ServiceOk(p, c)
    ensures ServiceFieldFrom(p, Concurrency, Get(c, Concurrency), b) <==> b == ServiceField(p, c, Concurrency)
  {
    if Concurrency in c && b.Some? {
      ConcurrencyIff(p, c[Concurrency], b.value);
    }
  }

  lemma InternalPortFieldIff(p: Prims, c: Fields, b: Option<Value>)
    requires ServiceOk(p, c)
    ensures ServiceFieldFrom(p, InternalPort, Get(c, InternalPort), b) <==> b == ServiceField(p, c, InternalPort)
  {
    if InternalPort in c && b.Some? {
      PortNumberIff(p, c[InternalPort], b.value);
    }
  }

  lemma OtherFieldIff(p: Prims, c: Fields, k: Key, b: Option<Value>)
    requires ServiceOk(p, c) && k !in {Concurrency, InternalPort, Ports, TcpChecks, HttpChecks}
    ensures ServiceFieldFrom(p, k, Get(c, k), b) <==> b == ServiceField(p, c, k)
  {
  }

  lemma ServiceFieldIff(p: Prims, c: Fields, k: Key, b: Option<Value>)
    requires ServiceOk(p, c)
    ensures ServiceFieldFrom(p, k, Get(c, k), b) <==> b == ServiceField(p, c, k)
  {
    if k == Ports {
      PortsFieldIff(p, c, b);
    } else if k in {TcpChecks, HttpChecks} {
      CheckListFieldIff(p, c, k, b);
    } else if k == Concurrency {
      ConcurrencyFieldIff(p, c, b);
    } else if k == InternalPort {
      InternalPortFieldIff(p, c, b);
    } else {
      OtherFieldIff(p, c, k, b);
    }
  }

  lemma FieldsOkThenServiceOk(p: Prims, c: Fields)
    requires forall k :: FieldOk(p, c, k)
    ensures ServiceOk(p, c)
  {
    assert FieldOk(p, c, Concurrency) && FieldOk(p, c, Ports) && FieldOk(p, c, TcpChecks);
    assert FieldOk(p, c, HttpChecks) && FieldOk(p, c, InternalPort);
  }

  lemma ServiceOkIfFrom(p: Prims, t: Table, u: Table)
    requires ServiceFrom(p, t, u)
    ensures ServiceOk(p, t.m)
  {
    forall k ensures FieldOk(p, t.m, k) {
      ServiceFieldNeedsOk(p, t.m, k, Get(u.m, k));
    }
    FieldsOkThenServiceOk(p, t.m);
  }

  lemma ServiceIff(p: Prims, t: Table, u: Table)
    ensures PatchService(p, t) == Some(u) <==> ServiceFrom(p, t, u)
  {
    ServiceFields(p, t.m);
    if ServiceFrom(p, t, u) {
      ServiceOkIfFrom(p, t, u);
      var w := PatchService(p, t).value;
      forall k ensures Get(u.m, k) == Get(w.m, k) {
        ServiceFieldIff(p, t.m, k, Get(u.m, k));
      }
      SameEntries(u.m, w.m);
    } else if PatchService(p, t) == Some(u) {
      forall k ensures ServiceFieldFrom(p, k, Get(t.m, k), Get(u.m, k)) {
        ServiceFieldIff(p, t.m, k, Get(u.m, k));
      }
    }
  }

  ghost predicate EachService(p: Prims, v: Value, all: seq<Table>) {
    exists ts :: TablesFrom(v, ts) && |all| == |ts| && forall i :: 0 <= i < |ts| ==> ServiceFrom(p, ts[i], all[i])
  }

  lemma EachServiceIff(p: Prims, v: Value, all: seq<Table>)
    ensures EachService(p, v, all) <==>
            EnsureTables(v).Some? && Traverse(EnsureTables(v).value, t => PatchService(p, t)) == Some(all)
  {
    forall t, u ensures PatchService(p, t) == Some(u) <==> ServiceFrom(p, t, u) {
      ServiceIff(p, t, u);
    }
    if EnsureTables(v).Some? {
      TablesIff(v, EnsureTables(v).value);
      TraverseIff(EnsureTables(v).value, t => PatchService(p, t), (t, u) => ServiceFrom(p, t, u), all);
    }
    if EachService(p, v, all) {
      var ts :| TablesFrom(v, ts) && |all| == |ts| && forall i :: 0 <= i < |ts| ==> ServiceFrom(p, ts[i], all[i]);
      TablesIff(v, ts);
    }
  }

  lemma ServicesIff(p: Prims, v: Value, us: seq<Table>)
    ensures ServiceSection(p, v) == Some(us) <==> ServicesFrom(p, v, us)
  {
    if ServicesFrom(p, v, us) {
      var all :| EachService(p, v, all) && us == Filter(all, (u: Table) => u.m != map[]);
      EachServiceIff(p, v, all);
    }
    if ServiceSection(p, v) == Some(us) {
      EachServiceIff(p, v, Traverse(EnsureTables(v).value, t => PatchService(p, t)).value);
    }
  }

  // ---------------------------------------------------------------------------
  // The other sections
  // ---------------------------------------------------------------------------

  ghost predicate ProcessPartFrom(p: Prims, v: Value, part: map<Key, string>) {
    if v.Obj? && Name in v.table.m then NamedText(p, v.table, Command, part) else part == map[]
  }

  /** Each named entry gives a command; the last of its name wins, and entries without a name are passed over. */
  ghost predicate ProcessesFrom(p: Prims, items: seq<Value>, m: map<Key, string>) {
    exists parts: seq<map<Key, string>> ::
      && |parts| == |items| && (forall i :: 0 <= i < |items| ==> ProcessPartFrom(p, items[i], parts[i]))
      && LastWins(parts, m)
  }

  ghost function AsItems(ts: seq<Table>): (items: seq<Value>)
    ensures |items| == |ts| && forall i :: 0 <= i < |ts| ==> items[i] == Obj(ts[i])
  {
    seq(|ts|, i requires 0 <= i < |ts| => Obj(ts[i]))
  }

  ghost predicate ProcessSectionFrom(p: Prims, v: Value, b: Option<Value>) {
    match v
    case Obj(_) => b == Some(v)
    case List(items) => exists m :: ProcessesFrom(p, items, m) && b == if m == map[] then None else Some(StrMap(m))
    case ObjList(ts) =>
      exists m :: ProcessesFrom(p, AsItems(ts), m) && b == if m == map[] then None else Some(StrMap(m))
    case _ => false
  }

  ghost function ProcessPart(p: Prims, v: Value): (part: Option<map<Key, string>>) {
    if v.Obj? && Name in v.table.m then NamedPart(p, v.table, Command) else Some(map[])
  }

  lemma AsItemsSnoc(ts: seq<Table>, t: Table)
    ensures AsItems(ts + [t]) == AsItems(ts) + [Obj(t)]
  {
  }

  lemma OnlyObjsSnoc(items: seq<Value>, v: Value)
    ensures OnlyObjs(items + [v]) == if v.Obj? then OnlyObjs(items) + [v.table] else OnlyObjs(items)
  {
    FilterSnoc(items, v, (v: Value) => v.Obj?);
  }

  lemma ProcessPartAdded(p: Prims, m: map<Key, string>, t: Table)
    ensures var next := if Name in t.m
                        then var text := if Command in t.m then CastToString(p, t.m[Command]) else "";
                             m[p.keyNamed(CastToString(p, t.m[Name])) := text]
                        else m;
            ProcessPart(p, Obj(t)).Some? && next == m + ProcessPart(p, Obj(t)).value
  {
    if Name in t.m {
      var text := if Command in t.m then CastToString(p, t.m[Command]) else "";
      PutIsMerge(m, p.keyNamed(CastToString(p, t.m[Name])), text);
    }
  }

  lemma {:induction false} ProcessesMerged(p: Prims, ts: seq<Table>)
    ensures Some(ProcessTables(p, ts)) == Merged(AsItems(ts), v => ProcessPart(p, v))
  {
    if ts != [] {
      var n := |ts| - 1;
      ProcessesMerged(p, ts[..n]);
      assert ts == ts[..n] + [ts[n]];
      AsItemsSnoc(ts[..n], ts[n]);
      MergedSnoc(AsItems(ts[..n]), Obj(ts[n]), v => ProcessPart(p, v));
      ProcessPartAdded(p, ProcessTables(p, ts[..n]), ts[n]);
    }
  }

  lemma {:induction false} OthersArePassedOver(p: Prims, items: seq<Value>)
    ensures Merged(items, v => ProcessPart(p, v)) == Merged(AsItems(OnlyObjs(items)), v => ProcessPart(p, v))
  {
    if items != [] {
      var n := |items| - 1;
      var before, v := items[..n], items[n];
      OthersArePassedOver(p, before);
      ProcessesMerged(p, OnlyObjs(before));
      assert items == before + [v];
      OneMoreItem(p, before, v);
    }
  }

  lemma OneMoreItem(p: Prims, items: seq<Value>, v: Value)
    requires Merged(items, v => ProcessPart(p, v)) == Merged(AsItems(OnlyObjs(items)), v => ProcessPart(p, v))
    requires Merged(items, v => ProcessPart(p, v)).Some?
    ensures Merged(items + [v], v => ProcessPart(p, v)) ==
            Merged(AsItems(OnlyObjs(items + [v])), v => ProcessPart(p, v))
  {
    MergedSnoc(items, v, v => ProcessPart(p, v));
    OnlyObjsSnoc(items, v);
    if v.Obj? {
      AsItemsSnoc(OnlyObjs(items), v.table);
      MergedSnoc(AsItems(OnlyObjs(items)), v, v => ProcessPart(p, v));
    } else {
      var m := Merged(items, v => ProcessPart(p, v)).value;
      assert m + map[] == m;
    }
  }

  lemma ProcessesIff(p: Prims, items: seq<Value>, m: map<Key, string>)
    ensures Merged(items, v => ProcessPart(p, v)) == Some(m) <==> ProcessesFrom(p, items, m)
  {
    forall v, q ensures ProcessPart(p, v) == Some(q) <==> ProcessPartFrom(p, v, q) {
      if v.Obj? {
        NamedPartIff(p, v.table, Command, q);
      }
    }
    MergedIff(items, v => ProcessPart(p, v), (v, q) => ProcessPartFrom(p, v, q), m);
  }

  lemma ProcessListIff(p: Prims, items: seq<Value>, m: map<Key, string>, b: Option<Value>)
    requires Merged(items, v => ProcessPart(p, v)) == Some(m)
    ensures (exists n :: ProcessesFrom(p, items, n) && b == if n == map[] then None else Some(StrMap(n))) <==>
            b == ProcessMap(m)
  {
    ProcessesIff(p, items, m);
    if n :| ProcessesFrom(p, items, n) && b == if n == map[] then None else Some(StrMap(n)) {
      ProcessesIff(p, items, n);
    }
  }

  lemma ProcessSectionIff(p: Prims, v: Value, b: Option<Value>)
    ensures ProcessSection(p, v) == Some(b) <==> ProcessSectionFrom(p, v, b)
  {
    match v
    case List(items) =>
      OthersArePassedOver(p, items);
      ProcessesMerged(p, OnlyObjs(items));
      ProcessListIff(p, items, ProcessTables(p, OnlyObjs(items)), b);
    case ObjList(ts) =>
      ProcessesMerged(p, ts);
      ProcessListIff(p, AsItems(ts), ProcessTables(p, ts), b);
    case _ =>
  }

  /** A command written as one word, or as a list of words. */
  ghost predicate WordsFrom(v: Value, w: Value) {
    || ((v.Nil? || v.StrList?) && w == v)
    || (v.Str? && w == StrList([v.s]))
    || (v.List? && w.StrList? && |w.words| == |v.items|
        && forall i :: 0 <= i < |v.items| ==> v.items[i] == Str(w.words[i]))
  }

  ghost predicate SectionLeft(m: Fields, b: Option<Value>) {
    b == if m == map[] then None else Some(Obj(Table(m)))
  }

  ghost predicate ExperimentalFrom(v: Value, b: Option<Value>) {
    v.Obj? &&
    exists m: Fields ::
      && m.Keys == v.table.m.Keys && SectionLeft(m, b)
      && forall k :: k in m ==>
           if k in {Cmd, Entrypoint, Exec} then WordsFrom(v.table.m[k], m[k]) else m[k] == v.table.m[k]
  }

  lemma WordsIff(v: Value, w: Value)
    ensures WordList(v) == Some(w) <==> WordsFrom(v, w)
  {
    if v.List? && WordsFrom(v, w) {
      assert forall i :: 0 <= i < |v.items| ==> v.items[i].Str?;
      assert WordList(v).value.words == w.words;
    }
  }

  lemma ExperimentalIff(v: Value, b: Option<Value>)
    ensures v.Obj? && WordFields(v.table).Some? && b == NonEmpty(WordFields(v.table).value) <==> ExperimentalFrom(v, b)
  {
    if ExperimentalFrom(v, b) {
      var m: Fields :|
        && m.Keys == v.table.m.Keys && SectionLeft(m, b)
        && forall k :: k in m ==>
             if k in {Cmd, Entrypoint, Exec} then WordsFrom(v.table.m[k], m[k]) else m[k] == v.table.m[k];
      forall k | k in m && k in WORD_KEYS ensures WordList(v.table.m[k]) == Some(m[k]) {
        WordsIff(v.table.m[k], m[k]);
      }
      assert WordFields(v.table).value == m;
    }
    if v.Obj? && WordFields(v.table).Some? && b == NonEmpty(WordFields(v.table).value) {
      var m := WordFields(v.table).value;
      forall k | k in m && k in WORD_KEYS ensures WordsFrom(v.table.m[k], m[k]) {
        WordsIff(v.table.m[k], m[k]);
      }
      assert SectionLeft(m, b);
    }
  }

  /** A check of a list: its name is a string. */
  ghost predicate NamedCheckFrom(p: Prims, v: Value, part: Fields) {
    v.Obj? && Name in v.table.m && v.table.m[Name].Str? &&
    exists u :: CheckFrom(p, v.table, u) && part == map[p.keyNamed(v.table.m[Name].s) := Obj(u)]
  }

  ghost predicate ChecksFrom(p: Prims, v: Value, m: Fields) {
    match v
    case Obj(t) =>
      && m.Keys == t.m.Keys
      && forall k :: k in m ==> t.m[k].Obj? && m[k].Obj? && CheckFrom(p, t.m[k].table, m[k].table)
    case List(items) =>
      exists parts: seq<Fields> ::
        && |parts| == |items| && (forall i :: 0 <= i < |items| ==> NamedCheckFrom(p, items[i], parts[i]))
        && LastWins(parts, m)
    case _ => false
  }

  ghost function CheckPart(p: Prims, v: Value): (part: Option<Fields>) {
    if v.Obj? && Name in v.table.m && v.table.m[Name].Str? && PatchCheck(p, v.table).Some?
    then Some(map[p.keyNamed(v.table.m[Name].s) := Obj(PatchCheck(p, v.table).value)]) else None
  }

  lemma CheckPartIff(p: Prims, v: Value, part: Fields)
    ensures CheckPart(p, v) == Some(part) <==> NamedCheckFrom(p, v, part)
  {
    if v.Obj? && Name in v.table.m && v.table.m[Name].Str? {
      if PatchCheck(p, v.table).Some? {
        CheckIff(p, v.table, PatchCheck(p, v.table).value);
      }
      if u :| CheckFrom(p, v.table, u) && part == map[p.keyNamed(v.table.m[Name].s) := Obj(u)] {
        CheckIff(p, v.table, u);
      }
    }
  }

  lemma PutEntryIsMerge(m: Fields, k: Key, v: Value)
    ensures m[k := v] == m + map[k := v]
  {
  }

  lemma {:induction false} CheckItemsMerged(p: Prims, items: seq<Value>)
    ensures PatchCheckItems(p, items) == Merged(items, v => CheckPart(p, v))
  {
    if items != [] {
      var n := |items| - 1;
      var v, before := items[n], PatchCheckItems(p, items[..n]);
      CheckItemsMerged(p, items[..n]);
      if before.Some? && CheckPart(p, v).Some? {
        PutEntryIsMerge(before.value, p.keyNamed(v.table.m[Name].s), Obj(PatchCheck(p, v.table).value));
      }
    }
  }

  lemma CheckTableIff(p: Prims, t: Table, m: Fields)
    ensures PatchCheckTable(p, t) == Some(m) <==> ChecksFrom(p, Obj(t), m)
  {
    if ChecksFrom(p, Obj(t), m) {
      forall k | k in t.m ensures t.m[k].Obj? && m[k].Obj? && PatchCheck(p, t.m[k].table) == Some(m[k].table) {
        CheckIff(p, t.m[k].table, m[k].table);
      }
      assert PatchCheckTable(p, t).value == m;
    }
    if PatchCheckTable(p, t) == Some(m) {
      forall k | k in m ensures t.m[k].Obj? && m[k].Obj? && CheckFrom(p, t.m[k].table, m[k].table) {
        CheckIff(p, t.m[k].table, m[k].table);
      }
    }
  }

  lemma ChecksIff(p: Prims, v: Value, m: Fields)
    ensures CheckSection(p, v) == Some(m) <==> ChecksFrom(p, v, m)
  {
    match v
    case Obj(t) => CheckTableIff(p, t, m);
    case List(items) =>
      CheckItemsMerged(p, items);
      forall w, q ensures CheckPart(p, w) == Some(q) <==> NamedCheckFrom(p, w, q) {
        CheckPartIff(p, w, q);
      }
      MergedIff(items, w => CheckPart(p, w), (w, q) => NamedCheckFrom(p, w, q), m);
    case _ =>
  }
}
