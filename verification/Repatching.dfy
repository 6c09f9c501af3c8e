/** Patched configs are in normal form; patching one again after re-decoding settles, with two exact exceptions. */
module Repatching {
  import opened Prelude
  import opened Values
  import opened Patches
  import opened NormalForm

  // ---------------------------------------------------------------------------
  // One check, one service: fields of the result
  // ---------------------------------------------------------------------------

  predicate TimeKey(k: Key) {
    k == Interval || k == Timeout || k == GracePeriod
  }

  ghost predicate CheckOk(p: Prims, c: Fields) {
    Headers in c ==> HeadersOf(p, c[Headers]).Some?
  }

  ghost function CheckField(p: Prims, c: Fields, k: Key): (v: Option<Value>)
    requires CheckOk(p, c)
  {
    if k !in c then None
    else if TimeKey(k) then Some(CastDuration(p, c[k], MILLISECOND))
    else if k == Headers then
      var h := HeadersOf(p, c[k]).value;
      if h != map[] then Some(StrMap(h)) else None
    else Some(c[k])
  }

  lemma CastTimesFields(p: Prims, c: Fields, k: Key)
    ensures Get(CastTimes(p, c), k) ==
            if k in c && TimeKey(k) then Some(CastDuration(p, c[k], MILLISECOND)) else Get(c, k)
  {
  }

  lemma CheckFields(p: Prims, t: Table)
    ensures PatchCheck(p, t).Some? <==> CheckOk(p, t.m)
    ensures PatchCheck(p, t).Some? ==> forall k :: Get(PatchCheck(p, t).value.m, k) == CheckField(p, t.m, k)
  {
    var c := CastTimes(p, t.m);
    CastTimesFields(p, t.m, Headers);
    if PatchCheck(p, t).Some? {
      forall k ensures Get(PatchCheck(p, t).value.m, k) == CheckField(p, t.m, k) {
        CastTimesFields(p, t.m, k);
      }
    }
  }

  predicate NormalCheck(t: Table) {
    && (forall k :: k in t.m && TimeKey(k) ==> t.m[k].StrPtr?)
    && (Headers in t.m ==> t.m[Headers].StrMap? && t.m[Headers].strs != map[])
  }

  lemma CheckIsNormal(p: Prims, t: Table)
    requires PatchCheck(p, t).Some?
    ensures NormalCheck(PatchCheck(p, t).value)
  {
    CheckFields(p, t);
    var u := PatchCheck(p, t).value;
    forall k | k in u.m && (TimeKey(k) || k == Headers)
      ensures Get(u.m, k).Some? && (TimeKey(k) ==> u.m[k].StrPtr?)
              && (k == Headers ==> u.m[k].StrMap? && u.m[k].strs != map[])
    {
      assert Get(u.m, k) == Some(u.m[k]);
    }
  }

  /** Casting a duration read back gives the same duration. */
  lemma CastPlain(p: Prims, v: Value, shift: int)
    ensures CastDuration(p, Plain(v), shift) == CastDuration(p, v, shift)
  {
    match v
    case StrPtr(None) =>
    case StrPtr(Some(s)) =>
    case _ =>
  }

  lemma PlainStrMap(p: Prims, m: map<Key, string>)
    ensures Plain(StrMap(m)).Obj?
    ensures TextFields(p, Plain(StrMap(m)).table) == m
    ensures Plain(Plain(StrMap(m))) == Plain(StrMap(m))
  {
    PlainTwice(StrMap(m));
  }

  ghost predicate SettledTable(t: Table, r: Option<Table>) {
    r.Some? && PlainTable(r.value) == PlainTable(t)
  }

  lemma HeadersSettle(p: Prims, m: map<Key, string>)
    ensures HeadersOf(p, Plain(StrMap(m))) == Some(m)
  {
    PlainStrMap(p, m);
  }

  lemma TimeSettles(p: Prims, v: Value)
    requires v.StrPtr?
    ensures Plain(CastDuration(p, Plain(v), MILLISECOND)) == Plain(v)
  {
    CastPlain(p, v, MILLISECOND);
  }

  lemma CheckFieldSettles(p: Prims, t: Table, k: Key)
    requires NormalCheck(t)
    ensures CheckOk(p, PlainTable(t).m)
    ensures k !in t.m ==> CheckField(p, PlainTable(t).m, k) == None
    ensures k in t.m ==>
            CheckField(p, PlainTable(t).m, k).Some? && Plain(CheckField(p, PlainTable(t).m, k).value) == Plain(t.m[k])
  {
    var c := PlainTable(t).m;
    if Headers in t.m {
      assert c[Headers] == Plain(t.m[Headers]);
      HeadersSettle(p, t.m[Headers].strs);
    }
    if k in t.m {
      assert c[k] == Plain(t.m[k]);
      if TimeKey(k) {
        TimeSettles(p, t.m[k]);
      } else if k != Headers {
        PlainTwice(t.m[k]);
      }
    }
  }

  lemma CheckSettles(p: Prims, t: Table)
    requires NormalCheck(t)
    ensures SettledTable(t, PatchCheck(p, PlainTable(t)))
  {
    var u := PlainTable(t);
    CheckFieldSettles(p, t, Headers);
    CheckFields(p, u);
    var w := PatchCheck(p, u).value;
    forall k ensures Get(PlainTable(w).m, k) == Get(u.m, k) {
      assert Get(w.m, k) == CheckField(p, u.m, k);
      CheckFieldSettles(p, t, k);
    }
    SameEntries(PlainTable(w).m, u.m);
  }

  lemma SameEntries(a: Fields, b: Fields)
    requires forall k :: Get(a, k) == Get(b, k)
    ensures a == b
  {
    forall k ensures k in a <==> k in b { assert Get(a, k) == Get(b, k); }
    forall k | k in a ensures a[k] == b[k] { assert Get(a, k) == Get(b, k); }
  }

  lemma EnsurePlain(ts: seq<Table>)
    ensures EnsureTables(Plain(ObjList(ts))).Some?
    ensures |EnsureTables(Plain(ObjList(ts))).value| == |ts|
    ensures forall i :: 0 <= i < |ts| ==> EnsureTables(Plain(ObjList(ts))).value[i] == PlainTable(ts[i])
  {
  }

  /** A list of tables settles when each table does. */
  lemma TablesSettle(ts: seq<Table>, us: seq<Table>)
    requires |us| == |ts| && forall i :: 0 <= i < |ts| ==> PlainTable(us[i]) == PlainTable(ts[i])
    ensures Plain(ObjList(us)) == Plain(ObjList(ts))
  {
  }

  // ---------------------------------------------------------------------------
  // Services
  // ---------------------------------------------------------------------------

  ghost predicate ChecksFieldOk(p: Prims, c: Fields, k: Key) {
    k in c ==> EnsureTables(c[k]).Some? && Traverse(EnsureTables(c[k]).value, t => PatchCheck(p, t)).Some?
  }

  ghost function ChecksField(p: Prims, c: Fields, k: Key): (v: Option<Value>)
    requires ChecksFieldOk(p, c, k)
  {
    if k !in c then None
    else
      var checks := Traverse(EnsureTables(c[k]).value, t => PatchCheck(p, t)).value;
      if checks != [] then Some(ObjList(checks)) else None
  }

  ghost predicate PortsOk(p: Prims, c: Fields) {
    Ports in c ==> EnsureTables(c[Ports]).Some? && Traverse(EnsureTables(c[Ports]).value, t => PatchPort(p, t)).Some?
  }

  ghost function PortsField(p: Prims, c: Fields): (v: Option<Value>)
    requires PortsOk(p, c)
  {
    if Ports !in c then None else Some(ObjList(Traverse(EnsureTables(c[Ports]).value, t => PatchPort(p, t)).value))
  }

  ghost predicate ConcurrencyOk(p: Prims, c: Fields) {
    Concurrency in c ==> c[Concurrency].Obj? || (c[Concurrency].Str? && LimitsOf(p, c[Concurrency].s).Some?)
  }

  ghost predicate ServiceOk(p: Prims, c: Fields) {
    && ConcurrencyOk(p, c) && PortsOk(p, c) && ChecksFieldOk(p, c, TcpChecks) && ChecksFieldOk(p, c, HttpChecks)
    && (InternalPort in c ==> CastToInt(p, c[InternalPort]).Some?)
  }

  ghost function ServiceField(p: Prims, c: Fields, k: Key): (v: Option<Value>)
    requires ServiceOk(p, c)
  {
    match k
    case TcpChecks => ChecksField(p, c, k)
    case HttpChecks => ChecksField(p, c, k)
    case Concurrency => if k !in c || c[k].Obj? then Get(c, k) else LimitsOf(p, c[k].s)
    case Ports => PortsField(p, c)
    case InternalPort => if k !in c then None else Some(Int(GoInt, CastToInt(p, c[k]).value))
    case _ => Get(c, k)
  }

  lemma ConcurrencyStep(p: Prims, c: Fields)
    ensures PatchConcurrency(p, c).Some? <==> ConcurrencyOk(p, c)
    ensures PatchConcurrency(p, c).Some? ==>
              && SameOutside(c, PatchConcurrency(p, c).value, {Concurrency})
              && Get(PatchConcurrency(p, c).value, Concurrency) ==
                 if Concurrency !in c || c[Concurrency].Obj? then Get(c, Concurrency) else LimitsOf(p, c[Concurrency].s)
  {
  }

  lemma PortsStep(p: Prims, c: Fields)
    ensures PatchPorts(p, c).Some? <==> PortsOk(p, c)
    ensures PatchPorts(p, c).Some? ==>
              SameOutside(c, PatchPorts(p, c).value, {Ports}) && Get(PatchPorts(p, c).value, Ports) == PortsField(p, c)
  {
  }

  lemma ChecksFieldStep(p: Prims, c: Fields, k: Key)
    ensures PatchServiceChecks(p, c, k).Some? <==> ChecksFieldOk(p, c, k)
    ensures PatchServiceChecks(p, c, k).Some? ==>
              SameOutside(c, PatchServiceChecks(p, c, k).value, {k}) &&
              Get(PatchServiceChecks(p, c, k).value, k) == ChecksField(p, c, k)
  {
  }

  lemma InternalPortStep(p: Prims, c: Fields, k: Key)
    ensures CastIntField(p, c, k).Some? <==> (k in c ==> CastToInt(p, c[k]).Some?)
    ensures CastIntField(p, c, k).Some? ==>
              && SameOutside(c, CastIntField(p, c, k).value, {k})
              && Get(CastIntField(p, c, k).value, k) ==
                 if k !in c then None else Some(Int(GoInt, CastToInt(p, c[k]).value))
  {
  }

  /** The fields after the five steps, told of the fields before them. */
  lemma ServiceFields(p: Prims, c: Fields)
    ensures PatchServiceFields(p, c).Some? <==> ServiceOk(p, c)
    ensures PatchServiceFields(p, c).Some? ==>
            forall k :: Get(PatchServiceFields(p, c).value, k) == ServiceField(p, c, k)
  {
    var r1 := PatchConcurrency(p, c);
    ConcurrencyStep(p, c);
    if r1.Some? {
      var c1 := r1.value;
      assert Get(c1, Ports) == Get(c, Ports);
      var r2 := PatchPorts(p, c1);
      PortsStep(p, c1);
      if r2.Some? {
        var c2 := r2.value;
        assert Get(c2, TcpChecks) == Get(c1, TcpChecks) == Get(c, TcpChecks);
        var r3 := PatchServiceChecks(p, c2, TcpChecks);
        ChecksFieldStep(p, c2, TcpChecks);
        if r3.Some? {
          var c3 := r3.value;
          assert Get(c3, HttpChecks) == Get(c2, HttpChecks) == Get(c1, HttpChecks) == Get(c, HttpChecks);
          var r4 := PatchServiceChecks(p, c3, HttpChecks);
          ChecksFieldStep(p, c3, HttpChecks);
          if r4.Some? {
            ServiceTail(p, c, c1, c2, c3, r4.value);
          }
        }
      }
    }
  }

  lemma ServiceTail(p: Prims, c: Fields, c1: Fields, c2: Fields, c3: Fields, c4: Fields)
    requires ConcurrencyOk(p, c) && PortsOk(p, c) && ChecksFieldOk(p, c, TcpChecks) && ChecksFieldOk(p, c, HttpChecks)
    requires SameOutside(c, c1, {Concurrency})
    requires Get(c1, Concurrency) ==
             if Concurrency !in c || c[Concurrency].Obj? then Get(c, Concurrency) else LimitsOf(p, c[Concurrency].s)
    requires SameOutside(c1, c2, {Ports})
    requires Get(c2, Ports) == PortsField(p, c)
    requires SameOutside(c2, c3, {TcpChecks}) && Get(c3, TcpChecks) == ChecksField(p, c, TcpChecks)
    requires SameOutside(c3, c4, {HttpChecks}) && Get(c4, HttpChecks) == ChecksField(p, c, HttpChecks)
    ensures var r5 := CastIntField(p, c4, InternalPort);
            && (r5.Some? <==> ServiceOk(p, c))
            && (r5.Some? ==> forall k :: Get(r5.value, k) == ServiceField(p, c, k))
  {
    var r5 := CastIntField(p, c4, InternalPort);
    InternalPortStep(p, c4, InternalPort);
    Chain(c, c1, c2, c3, c4, InternalPort);
    if r5.Some? {
      forall k ensures Get(r5.value, k) == ServiceField(p, c, k) {
        Chain(c, c1, c2, c3, c4, k);
        assert k != InternalPort ==> Get(r5.value, k) == Get(c4, k);
      }
    }
  }

  lemma Chain(c: Fields, c1: Fields, c2: Fields, c3: Fields, c4: Fields, k: Key)
    requires SameOutside(c, c1, {Concurrency}) && SameOutside(c1, c2, {Ports})
    requires SameOutside(c2, c3, {TcpChecks}) && SameOutside(c3, c4, {HttpChecks})
    ensures Get(c4, k) == match k
                          case HttpChecks => Get(c4, k)
                          case TcpChecks => Get(c3, k)
                          case Ports => Get(c2, k)
                          case Concurrency => Get(c1, k)
                          case _ => Get(c, k)
  {
  }

  predicate NormalTables(v: Value, normal: Table -> bool) {
    v.ObjList? && forall i :: 0 <= i < |v.tables| ==> normal(v.tables[i])
  }

  predicate NormalPort(t: Table) {
    Port in t.m ==> t.m[Port].Int? && t.m[Port].intKind == GoInt
  }

  predicate NormalChecks(v: Value) {
    NormalTables(v, NormalCheck) && v.tables != []
  }

  predicate NormalService(t: Table) {
    && (Concurrency in t.m ==> t.m[Concurrency].Obj?)
    && (Ports in t.m ==> NormalTables(t.m[Ports], NormalPort))
    && (TcpChecks in t.m ==> NormalChecks(t.m[TcpChecks]))
    && (HttpChecks in t.m ==> NormalChecks(t.m[HttpChecks]))
    && (InternalPort in t.m ==> t.m[InternalPort].Int? && t.m[InternalPort].intKind == GoInt)
  }

  lemma ServiceIsNormal(p: Prims, t: Table)
    requires PatchService(p, t).Some?
    ensures NormalService(PatchService(p, t).value)
  {
    var u := PatchService(p, t).value;
    ServiceFields(p, t.m);
    forall k ensures Get(u.m, k) == ServiceField(p, t.m, k) {
    }
    NormalFromFields(p, t.m, u);
  }

  lemma NormalFromFields(p: Prims, c: Fields, u: Table)
    requires ServiceOk(p, c) && forall k :: Get(u.m, k) == ServiceField(p, c, k)
    ensures NormalService(u)
  {
    assert Get(u.m, Concurrency) == ServiceField(p, c, Concurrency);
    assert Get(u.m, InternalPort) == ServiceField(p, c, InternalPort);
    assert Get(u.m, Ports) == PortsField(p, c);
    assert Get(u.m, TcpChecks) == ChecksField(p, c, TcpChecks);
    assert Get(u.m, HttpChecks) == ChecksField(p, c, HttpChecks);
    ChecksFieldIsNormal(p, c, TcpChecks);
    ChecksFieldIsNormal(p, c, HttpChecks);
    PortsFieldIsNormal(p, c);
  }

  lemma PortsFieldIsNormal(p: Prims, c: Fields)
    requires PortsOk(p, c)
    ensures PortsField(p, c).Some? ==> NormalTables(PortsField(p, c).value, NormalPort)
  {
  }

  lemma ChecksFieldIsNormal(p: Prims, c: Fields, k: Key)
    requires ChecksFieldOk(p, c, k)
    ensures ChecksField(p, c, k).Some? ==> NormalChecks(ChecksField(p, c, k).value)
  {
    if ChecksField(p, c, k).Some? {
      var ts := EnsureTables(c[k]).value;
      forall i | 0 <= i < |ts| ensures NormalCheck(ChecksField(p, c, k).value.tables[i]) {
        CheckIsNormal(p, ts[i]);
      }
    }
  }

  lemma ChecksFieldSettles(p: Prims, v: Value, c: Fields, k: Key)
    requires NormalChecks(v) && k in c && c[k] == Plain(v)
    ensures ChecksFieldOk(p, c, k)
    ensures ChecksField(p, c, k).Some? && Plain(ChecksField(p, c, k).value) == Plain(v)
  {
    EnsurePlain(v.tables);
    var ts := EnsureTables(c[k]).value;
    forall i | 0 <= i < |ts| ensures SettledTable(v.tables[i], PatchCheck(p, ts[i])) {
      CheckSettles(p, v.tables[i]);
    }
    TablesSettle(v.tables, ChecksField(p, c, k).value.tables);
  }

  lemma PortsSettle(p: Prims, v: Value, c: Fields)
    requires NormalTables(v, NormalPort) && Ports in c && c[Ports] == Plain(v)
    ensures PortsOk(p, c)
    ensures PortsField(p, c).Some? && Plain(PortsField(p, c).value) == Plain(v)
  {
    EnsurePlain(v.tables);
    var ts := EnsureTables(c[Ports]).value;
    forall i | 0 <= i < |ts| ensures SettledTable(v.tables[i], PatchPort(p, ts[i])) {
      PlainTableTwice(v.tables[i]);
      assert ts[i] == PlainTable(v.tables[i]);
      assert PatchPort(p, ts[i]) == Some(ts[i]) by {
        if Port in ts[i].m {
          assert ts[i].m[Port] == v.tables[i].m[Port];
          assert ts[i].m[Port := ts[i].m[Port]] == ts[i].m;
        }
      }
    }
    TablesSettle(v.tables, Traverse(ts, t => PatchPort(p, t)).value);
  }

  lemma ServiceOkPlain(p: Prims, t: Table, c: Fields)
    requires NormalService(t) && c == PlainTable(t).m
    ensures ServiceOk(p, c)
    ensures Ports in t.m ==> PortsField(p, c).Some? && Plain(PortsField(p, c).value) == Plain(t.m[Ports])
    ensures TcpChecks in t.m ==>
            ChecksField(p, c, TcpChecks).Some? && Plain(ChecksField(p, c, TcpChecks).value) == Plain(t.m[TcpChecks])
    ensures HttpChecks in t.m ==>
            ChecksField(p, c, HttpChecks).Some? && Plain(ChecksField(p, c, HttpChecks).value) == Plain(t.m[HttpChecks])
  {
    if Ports in t.m { PortsSettle(p, t.m[Ports], c); }
    if TcpChecks in t.m { ChecksFieldSettles(p, t.m[TcpChecks], c, TcpChecks); }
    if HttpChecks in t.m { ChecksFieldSettles(p, t.m[HttpChecks], c, HttpChecks); }
    if Concurrency in t.m { assert c[Concurrency] == Plain(t.m[Concurrency]); }
    if InternalPort in t.m { assert c[InternalPort] == Plain(t.m[InternalPort]); }
  }

  lemma ServiceFieldAbsent(p: Prims, c: Fields, k: Key)
    requires ServiceOk(p, c) && k !in c
    ensures ServiceField(p, c, k) == None
  {
  }

  lemma PlainEntry(t: Table, k: Key)
    requires k in t.m
    ensures var c := PlainTable(t).m; k in c && c[k] == Plain(t.m[k]) && Plain(c[k]) == c[k]
  {
    PlainTwice(t.m[k]);
  }

  /** A service field that is already in its final form is left as it is. */
  lemma FinalFieldStays(p: Prims, c: Fields, k: Key)
    requires ServiceOk(p, c) && k in c && k !in {Ports, TcpChecks, HttpChecks}
    requires k == Concurrency ==> c[k].Obj?
    requires k == InternalPort ==> c[k].Int? && c[k].intKind == GoInt
    ensures ServiceField(p, c, k).Some?
    ensures Plain(ServiceField(p, c, k).value) == Plain(c[k])
  {
  }

  lemma OtherFieldSettles(p: Prims, t: Table, c: Fields, k: Key)
    requires NormalService(t) && c == PlainTable(t).m && ServiceOk(p, c) && k in t.m
             && k !in {Ports, TcpChecks, HttpChecks}
    ensures ServiceField(p, c, k).Some? && Plain(ServiceField(p, c, k).value) == Plain(t.m[k])
  {
    PlainEntry(t, k);
    FinalFieldStays(p, c, k);
  }

  lemma ServiceFieldSettles(p: Prims, t: Table, c: Fields, k: Key)
    requires NormalService(t) && c == PlainTable(t).m
    ensures ServiceOk(p, c)
    ensures k !in t.m ==> ServiceField(p, c, k) == None
    ensures k in t.m ==> ServiceField(p, c, k).Some? && Plain(ServiceField(p, c, k).value) == Plain(t.m[k])
  {
    ServiceOkPlain(p, t, c);
    if k !in t.m {
      ServiceFieldAbsent(p, c, k);
    } else if k !in {Ports, TcpChecks, HttpChecks} {
      OtherFieldSettles(p, t, c, k);
    }
  }

  lemma ServiceSettles(p: Prims, t: Table)
    requires NormalService(t)
    ensures SettledTable(t, PatchService(p, PlainTable(t)))
  {
    var u := PlainTable(t);
    ServiceFieldSettles(p, t, u.m, Ports);
    ServiceFields(p, u.m);
    var w := PatchService(p, u).value;
    forall k ensures Get(PlainTable(w).m, k) == Get(u.m, k) {
      assert Get(w.m, k) == ServiceField(p, u.m, k);
      ServiceFieldSettles(p, t, u.m, k);
    }
    SameEntries(PlainTable(w).m, u.m);
  }
}
