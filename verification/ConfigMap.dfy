/** The patches as the source runs them: a config map rewritten in place, one section after another. */
module ConfigMap {
  import opened Prelude
  import opened Values
  import opened Patches

  /** Environment tables merge in order, whatever the nesting of lists. */
  method ReadEnv(p: Prims, v: Value) returns (r: Option<map<Key, string>>)
    ensures r == EnvOf(p, v)
    decreases v
  {
    var env: map<Key, string> := map[];
    match v {
      case ObjList(ts) =>
        for i := 0 to |ts|
          invariant EnvOfTables(p, ts[..i]) == Some(env)
        {
          assert ts[..i + 1][..i] == ts[..i];
          env := env + TextFields(p, ts[i]);
        }
        assert ts[..|ts|] == ts;
      case List(items) =>
        for i := 0 to |items|
          invariant EnvOfItems(p, items[..i]) == Some(env)
        {
          assert items[..i + 1][..i] == items[..i];
          var one := ReadEnv(p, items[i]);
          if one.None? {
            EnvFailsOnce(p, items, i);
            return None;
          }
          env := env + one.value;
        }
        assert items[..|items|] == items;
      case StrMap(m) =>
        env := m;
      case Obj(t) =>
        env := TextFields(p, t);
      case _ =>
        return None;
    }
    r := Some(env);
  }

  lemma {:induction false} EnvFailsOnce(p: Prims, items: seq<Value>, i: nat)
    requires i < |items| && EnvOf(p, items[i]).None?
    ensures EnvOfItems(p, items).None?
  {
    var n := |items| - 1;
    if i < n {
      EnvFailsOnce(p, items[..n], i);
    }
  }

  method ReadProcesses(p: Prims, ts: seq<Table>) returns (out: map<Key, string>)
    ensures out == ProcessTables(p, ts)
  {
    out := map[];
    for i := 0 to |ts|
      invariant out == ProcessTables(p, ts[..i])
    {
      assert ts[..i + 1][..i] == ts[..i];
      var t := ts[i].m;
      if Name in t {
        var k := p.keyNamed(CastToString(p, t[Name]));
        if Command in t {
          out := out[k := CastToString(p, t[Command])];
        } else {
          out := out[k := ""];
        }
      }
    }
    assert ts[..|ts|] == ts;
  }

  lemma {:induction false} HeadersFailOnce(p: Prims, ts: seq<Table>, i: nat)
    requires i < |ts| && Name !in ts[i].m
    ensures HeaderTables(p, ts).None?
  {
    if i < |ts| - 1 {
      HeadersFailOnce(p, ts[..|ts| - 1], i);
    }
  }

  method ReadHeaderTables(p: Prims, ts: seq<Table>) returns (r: Option<map<Key, string>>)
    ensures r == HeaderTables(p, ts)
  {
    var out: map<Key, string> := map[];
    for i := 0 to |ts|
      invariant HeaderTables(p, ts[..i]) == Some(out)
    {
      assert ts[..i + 1][..i] == ts[..i];
      var t := ts[i].m;
      if Name !in t {
        HeadersFailOnce(p, ts, i);
        return None;
      }
      out := out[p.keyNamed(CastToString(p, t[Name])) := if ValueKey in t then CastToString(p, t[ValueKey]) else ""];
    }
    assert ts[..|ts|] == ts;
    r := Some(out);
  }

  method ReadHeaders(p: Prims, v: Value) returns (r: Option<map<Key, string>>)
    ensures r == HeadersOf(p, v)
  {
    match v {
      case List(items) =>
        var tables := EnsureTables(v);
        if tables.None? {
          return None;
        }
        r := ReadHeaderTables(p, tables.value);
      case ObjList(ts) =>
        r := ReadHeaderTables(p, ts);
      case Obj(t) =>
        r := Some(TextFields(p, t));
      case _ =>
        r := None;
    }
  }

  method RewriteCheck(p: Prims, t: Table) returns (r: Option<Table>)
    ensures r == PatchCheck(p, t)
  {
    var c := t.m;
    var attrs := [Interval, Timeout, GracePeriod];
    for i := 0 to |attrs|
      invariant c == if i == 0 then t.m
                     else if i == 1 then CastField(p, t.m, Interval, MILLISECOND)
                     else if i == 2 then CastField(p, CastField(p, t.m, Interval, MILLISECOND), Timeout, MILLISECOND)
                     else CastTimes(p, t.m)
    {
      if attrs[i] in c {
        c := c[attrs[i] := CastDuration(p, c[attrs[i]], MILLISECOND)];
      }
    }
    if Headers in c {
      var headers := ReadHeaders(p, c[Headers]);
      if headers.None? {
        return None;
      }
      if headers.value != map[] {
        c := c[Headers := StrMap(headers.value)];
      } else {
        c := c - {Headers};
      }
    }
    r := Some(Table(c));
  }

  method RewriteChecks(p: Prims, ts: seq<Table>) returns (r: Option<seq<Table>>)
    ensures r == Traverse(ts, t => PatchCheck(p, t))
  {
    var out := ts;
    for i := 0 to |ts|
      invariant |out| == |ts|
      invariant forall j :: 0 <= j < i ==> PatchCheck(p, ts[j]) == Some(out[j])
      invariant forall j :: i <= j < |ts| ==> out[j] == ts[j]
    {
      var one := RewriteCheck(p, out[i]);
      if one.None? {
        return None;
      }
      out := out[i := one.value];
    }
    assert out == Traverse(ts, t => PatchCheck(p, t)).value;
    r := Some(out);
  }

  method RewritePorts(p: Prims, ts: seq<Table>) returns (r: Option<seq<Table>>)
    ensures r == Traverse(ts, t => PatchPort(p, t))
  {
    var out := ts;
    for i := 0 to |ts|
      invariant |out| == |ts|
      invariant forall j :: 0 <= j < i ==> PatchPort(p, ts[j]) == Some(out[j])
      invariant forall j :: i <= j < |ts| ==> out[j] == ts[j]
    {
      var one := PatchPort(p, out[i]);
      if one.None? {
        return None;
      }
      out := out[i := one.value];
    }
    assert out == Traverse(ts, t => PatchPort(p, t)).value;
    r := Some(out);
  }

  method RewriteServiceChecks(p: Prims, c: Fields, k: Key) returns (r: Option<Fields>)
    ensures r == PatchServiceChecks(p, c, k)
  {
    if k !in c {
      return Some(c);
    }
    var ts := EnsureTables(c[k]);
    if ts.None? {
      return None;
    }
    var checks := RewriteChecks(p, ts.value);
    if checks.None? {
      return None;
    }
    r := Some(if checks.value != [] then c[k := ObjList(checks.value)] else c - {k});
  }

  method RewriteService(p: Prims, t: Table) returns (r: Option<Table>)
    ensures r == PatchService(p, t)
  {
    var c1 := PatchConcurrency(p, t.m);
    if c1.None? {
      return None;
    }
    var c2 := c1;
    if Ports in c1.value {
      var ts := EnsureTables(c1.value[Ports]);
      if ts.None? {
        return None;
      }
      var ports := RewritePorts(p, ts.value);
      if ports.None? {
        return None;
      }
      c2 := Some(c1.value[Ports := ObjList(ports.value)]);
    }
    assert c2 == PatchPorts(p, c1.value);
    var c3 := RewriteServiceChecks(p, c2.value, TcpChecks);
    if c3.None? {
      return None;
    }
    var c4 := RewriteServiceChecks(p, c3.value, HttpChecks);
    if c4.None? {
      return None;
    }
    var c5 := CastIntField(p, c4.value, InternalPort);
    if c5.None? {
      return None;
    }
    r := Some(Table(c5.value));
  }

  method RewriteServices(p: Prims, ts: seq<Table>) returns (r: Option<seq<Table>>)
    ensures r == match Traverse(ts, t => PatchService(p, t))
                 case None => None
                 case Some(us) => Some(Filter(us, (t: Table) => t.m != map[]))
  {
    ghost var f := (t: Table) => PatchService(p, t);
    var out: seq<Table> := [];
    ghost var done: seq<Table> := [];
    for i := 0 to |ts|
      invariant Traverse(ts[..i], f) == Some(done)
      invariant out == Filter(done, (t: Table) => t.m != map[])
    {
      var one := RewriteService(p, ts[i]);
      TraverseOneMore(ts, f, i, done);
      if one.None? {
        return None;
      }
      FilterSnoc(done, one.value, (t: Table) => t.m != map[]);
      if one.value.m != map[] {
        out := out + [one.value];
      }
      done := done + [one.value];
    }
    assert ts[..|ts|] == ts;
    r := Some(out);
  }

  lemma TraverseOneMore(ts: seq<Table>, f: Table -> Option<Table>, i: nat, done: seq<Table>)
    requires i < |ts| && Traverse(ts[..i], f) == Some(done)
    ensures f(ts[i]).None? ==> Traverse(ts, f).None?
    ensures f(ts[i]).Some? ==> Traverse(ts[..i + 1], f) == Some(done + [f(ts[i]).value])
  {
    var more := ts[..i + 1];
    if f(ts[i]).Some? {
      forall j | 0 <= j < |more| ensures f(more[j]).Some? {
        assert j < i ==> more[j] == ts[..i][j];
      }
      assert Traverse(more, f).value == done + [f(ts[i]).value];
    }
  }

  /** A config map under migration. */
  class ConfigMap {
    var m: Fields

    constructor (m: Fields)
      ensures this.m == m
    {
      this.m := m;
    }

    method MigrateEnv(p: Prims) returns (ok: bool)
      modifies this
      ensures ok <==> PatchEnv(p, old(m)).Some?
      ensures ok ==> m == PatchEnv(p, old(m)).value
    {
      if Env !in m {
        return true;
      }
      var env := ReadEnv(p, m[Env]);
      if env.None? {
        return false;
      }
      m := m[Env := StrMap(env.value)];
      ok := true;
    }

    method MigrateServices(p: Prims) returns (ok: bool)
      modifies this
      ensures ok <==> PatchServices(p, old(m)).Some?
      ensures ok ==> m == PatchServices(p, old(m)).value
    {
      if Services in m {
        var ts := EnsureTables(m[Services]);
        if ts.None? {
          return false;
        }
        var services := RewriteServices(p, ts.value);
        if services.None? {
          return false;
        }
        m := m[Services := ObjList(services.value)];
      }
      ok := true;
    }

    method MigrateProcesses(p: Prims) returns (ok: bool)
      modifies this
      ensures ok <==> PatchProcesses(p, old(m)).Some?
      ensures ok ==> m == PatchProcesses(p, old(m)).value
    {
      ok := true;
      if Processes in m {
        var raw := m[Processes];
        if raw.List? || raw.ObjList? {
          var processes := ReadProcesses(p, if raw.List? then OnlyObjs(raw.items) else raw.tables);
          if processes != map[] {
            m := m[Processes := StrMap(processes)];
          } else {
            m := m - {Processes};
          }
        } else if raw.Obj? {
          m := m[Processes := raw];
        } else {
          ok := false;
        }
      }
    }

    method MigrateExperimental(p: Prims) returns (ok: bool)
      modifies this
      ensures ok <==> PatchExperimental(p, old(m)).Some?
      ensures ok ==> m == PatchExperimental(p, old(m)).value
    {
      if Experimental !in m {
        return true;
      }
      if !m[Experimental].Obj? {
        return false;
      }
      var t := m[Experimental].table;
      var fields := WordFields(t);
      if fields.None? {
        return false;
      }
      if KillTimeout in t.m && KillTimeout !in m {
        m := m[KillTimeout := CastDuration(p, t.m[KillTimeout], SECOND)];
      }
      if fields.value == map[] {
        m := m - {Experimental};
      } else {
        m := m[Experimental := Obj(Table(fields.value))];
      }
      var metrics := MetricFields(t);
      if Metrics !in m && metrics != map[] {
        m := m[Metrics := Obj(Table(metrics))];
      }
      ok := true;
    }

    method MigrateChecks(p: Prims) returns (ok: bool)
      modifies this
      ensures ok <==> PatchTopLevelChecks(p, old(m)).Some?
      ensures ok ==> m == PatchTopLevelChecks(p, old(m)).value
    {
      if Checks !in m {
        return true;
      }
      var checks := CheckSection(p, m[Checks]);
      if checks.None? {
        return false;
      }
      if checks.value == map[] {
        m := m - {Checks};
      } else {
        m := m[Checks := Obj(Table(checks.value))];
      }
      ok := true;
    }

    /** Moves the tables under `aliases`, in order, out of the map; a failure leaves the map half emptied. */
    method TakeTables(aliases: seq<Key>) returns (r: Option<seq<Table>>)
      requires forall i, j :: 0 <= i < j < |aliases| ==> aliases[i] != aliases[j]
      modifies this
      ensures r == Gather(old(m), aliases)
      ensures r.Some? ==> m == old(m) - set k | k in aliases
    {
      var out: seq<Table> := [];
      for i := 0 to |aliases|
        invariant Gather(old(m), aliases[..i]) == Some(out)
        invariant m == old(m) - set k | k in aliases[..i]
      {
        assert aliases[..i + 1][..i] == aliases[..i];
        var k := aliases[i];
        assert k !in aliases[..i];
        if k in m {
          var cast := EnsureTables(m[k]);
          if cast.None? {
            GatherFailsOnce(old(m), aliases, i);
            return None;
          }
          m := m - {k};
          out := out + cast.value;
        } else {
          assert out + [] == out;
        }
      }
      assert aliases[..|aliases|] == aliases;
      r := Some(out);
    }

    method MigrateCompute(p: Prims) returns (ok: bool)
      modifies this
      ensures ok <==> PatchCompute(p, old(m)).Some?
      ensures ok ==> m == PatchCompute(p, old(m)).value
    {
      var compute := TakeTables([Compute, Computes, Vm]);
      if compute.None? {
        return false;
      }
      var tables := CastTables(p, compute.value, Memory);
      m := m[Vm := ObjList(tables)] - {Compute, Computes};
      ok := true;
    }

    method MigrateMounts(p: Prims) returns (ok: bool)
      modifies this
      ensures ok <==> PatchMounts(p, old(m)).Some?
      ensures ok ==> m == PatchMounts(p, old(m)).value
    {
      var mounts := TakeTables([Mount, Mounts]);
      if mounts.None? {
        return false;
      }
      var tables := CastTables(p, mounts.value, InitialSize);
      m := m[Mounts := ObjList(tables)] - {Mount};
      ok := true;
    }

    method MigrateMetrics(p: Prims) returns (ok: bool)
      modifies this
      ensures ok <==> PatchMetrics(p, old(m)).Some?
      ensures ok ==> m == PatchMetrics(p, old(m)).value
    {
      var metrics := Gather(m, [Metric, Metrics]);
      if metrics.None? {
        return false;
      }
      m := m[Metrics := ObjList(metrics.value)] - {Metric};
      ok := true;
    }

    method MigrateBuild(p: Prims) returns (ok: bool)
      modifies this
      ensures ok <==> PatchBuild(p, old(m)).Some?
      ensures ok ==> m == PatchBuild(p, old(m)).value
    {
      if Build !in m {
        return true;
      }
      if !m[Build].Obj? {
        return false;
      }
      var cast := RenameTarget(m[Build].table);
      if cast == map[] {
        m := m - {Build};
      } else {
        m := m[Build := Obj(Table(cast))];
      }
      ok := true;
    }

    /** All patches in their order, stopping at the first failure. */
    method Migrate(p: Prims) returns (ok: bool)
      modifies this
      ensures ok <==> PatchRoot(p, old(m)).Some?
      ensures ok ==> m == PatchRoot(p, old(m)).value
    {
      ok := MigrateEnv(p);
      if !ok { return; }
      ok := MigrateServices(p);
      if !ok { return; }
      ok := MigrateProcesses(p);
      if !ok { return; }
      ok := MigrateExperimental(p);
      if !ok { return; }
      ok := MigrateChecks(p);
      if !ok { return; }
      ok := MigrateCompute(p);
      if !ok { return; }
      ok := MigrateMounts(p);
      if !ok { return; }
      ok := MigrateMetrics(p);
      if !ok { return; }
      m := CastField(p, m, KillTimeout, SECOND);
      ok := MigrateBuild(p);
    }
  }

  lemma {:induction false} GatherFailsOnce(c: Fields, aliases: seq<Key>, i: nat)
    requires i < |aliases| && aliases[i] in c && EnsureTables(c[aliases[i]]).None?
    ensures Gather(c, aliases).None?
  {
    var n := |aliases| - 1;
    if i < n {
      GatherFailsOnce(c, aliases[..n], i);
    }
  }

  method CastTables(p: Prims, ts: seq<Table>, k: Key) returns (us: seq<Table>)
    ensures us == CastEach(p, ts, k)
  {
    us := ts;
    for i := 0 to |ts|
      invariant |us| == |ts|
      invariant forall j :: 0 <= j < i ==> us[j] == CastText(p, ts[j], k)
      invariant forall j :: i <= j < |ts| ==> us[j] == ts[j]
    {
      if k in us[i].m {
        us := us[i := Table(us[i].m[k := Str(CastToString(p, us[i].m[k]))])];
      }
    }
  }
}
