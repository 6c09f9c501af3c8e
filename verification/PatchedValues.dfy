/** The values that the patches leave, told of the values in the user's file (internal/appconfig/patches.go). */
module PatchedValues {
  import opened Prelude
  import opened Values
  import opened Patches
  import opened NormalForm
  import opened Repatching

  // ---------------------------------------------------------------------------
  // Single values
  // ---------------------------------------------------------------------------

  /** A string as it is, anything else as it is printed. */
  ghost predicate TextFrom(p: Prims, v: Value, s: string) {
    (v.Str? && s == v.s) || (!v.Str? && s == p.show(v))
  }

  /** `n` is `r` without its fraction. */
  ghost predicate TowardsZero(r: real, n: int) {
    if r >= 0.0 then n as real <= r < n as real + 1.0 else n as real - 1.0 < r <= n as real
  }

  const INT_LIMIT := 0x8000_0000_0000_0000

  /** The number read from a string or cut from a float; an integer as it is, if it fits in 64 bits with its sign. */
  ghost predicate NumberFrom(p: Prims, v: Value, n: int) {
    || (v.Str? && p.atoi(v.s) == Some(n))
    || (v.Float? && TowardsZero(v.r, n))
    || (v.Int? && v.n < INT_LIMIT && n == v.n)
    || (v.Int? && v.n >= INT_LIMIT && n == if v.intKind in {U, U64} then v.n - 2 * INT_LIMIT else v.n)
  }

  /** A text stays, but for an empty one; a decoded number counts units; anything else is lost. */
  ghost predicate DurationFrom(p: Prims, v: Value, unit: int, d: Value) {
    || (v.StrPtr? && d == v)
    || (v.Str? && v.s != "" && d == StrPtr(Some(v.s)))
    || (((v.Float? && v.floatKind == F64) || (v.Int? && v.intKind == I64))
        && d == StrPtr(Some(p.duration(v, unit))))
    || (!v.StrPtr? && (v.Str? ==> v.s == "") && (v.Float? ==> v.floatKind == F32) && (v.Int? ==> v.intKind != I64)
        && d == StrPtr(None))
  }

  lemma TextIff(p: Prims, v: Value, s: string)
    ensures CastToString(p, v) == s <==> TextFrom(p, v, s)
  {
  }

  lemma NumberIff(p: Prims, v: Value, n: int)
    ensures CastToInt(p, v) == Some(n) <==> NumberFrom(p, v, n)
  {
    if v.Float? {
      TruncateIff(v.r, n);
    }
  }

  lemma TruncateIff(r: real, n: int)
    ensures Truncate(r) == n <==> TowardsZero(r, n)
  {
    if r < 0.0 {
      assert (-r).Floor as real <= -r < (-r).Floor as real + 1.0;
    }
  }

  lemma DurationIff(p: Prims, v: Value, unit: int, d: Value)
    ensures CastDuration(p, v, unit) == d <==> DurationFrom(p, v, unit, d)
  {
  }

  // ---------------------------------------------------------------------------
  // Entries given one after the other
  // ---------------------------------------------------------------------------

  /** `m` has the keys of all the parts, each with the value of the last part that has it. */
  ghost predicate LastWins<T>(parts: seq<map<Key, T>>, m: map<Key, T>) {
    && (forall k :: k in m <==> exists i :: 0 <= i < |parts| && k in parts[i])
    && (forall i, k :: 0 <= i < |parts| && k in parts[i] && (forall j :: i < j < |parts| ==> k !in parts[j]) ==>
          k in m && m[k] == parts[i][k])
  }

  lemma LastHolder<T>(parts: seq<map<Key, T>>, k: Key) returns (i: nat)
    requires exists j :: 0 <= j < |parts| && k in parts[j]
    ensures i < |parts| && k in parts[i] && forall j :: i < j < |parts| ==> k !in parts[j]
  {
    i := |parts| - 1;
    if k !in parts[i] {
      var before := parts[..i];
      var j :| 0 <= j < |parts| && k in parts[j];
      assert k in before[j];
      i := LastHolder(before, k);
    }
  }

  lemma OneMerge<T>(parts: seq<map<Key, T>>, m: map<Key, T>, n: map<Key, T>)
    requires LastWins(parts, m) && LastWins(parts, n)
    ensures m == n
  {
    forall k | k in m ensures k in n && m[k] == n[k] {
      var i := LastHolder(parts, k);
      assert k in parts[i];
    }
  }

  lemma MergeOneMore<T>(parts: seq<map<Key, T>>, m: map<Key, T>, part: map<Key, T>)
    requires LastWins(parts, m)
    ensures LastWins(parts + [part], m + part)
  {
    var all := parts + [part];
    forall k ensures k in m + part <==> exists i :: 0 <= i < |all| && k in all[i] {
      if k in part {
        assert k in all[|parts|];
      } else if k in m {
        var i := LastHolder(parts, k);
        assert k in all[i];
      }
    }
    forall i, k | 0 <= i < |all| && k in all[i] && forall j :: i < j < |all| ==> k !in all[j]
      ensures k in m + part && (m + part)[k] == all[i][k]
    {
      if i < |parts| {
        assert k in parts[i] && k !in all[|parts|];
        forall j | i < j < |parts| ensures k !in parts[j] {
          assert k !in all[j];
        }
      }
    }
  }

  /** The parts of the items put together, when every item has one. */
  ghost function Merged<X, T>(xs: seq<X>, part: X -> Option<map<Key, T>>): (m: Option<map<Key, T>>) {
    if xs == [] then Some(map[])
    else
      var before, last := Merged(xs[..|xs| - 1], part), part(xs[|xs| - 1]);
      if before.Some? && last.Some? then Some(before.value + last.value) else None
  }

  lemma MergedSnoc<X, T>(xs: seq<X>, x: X, part: X -> Option<map<Key, T>>)
    ensures Merged(xs + [x], part) ==
            if Merged(xs, part).Some? && part(x).Some? then Some(Merged(xs, part).value + part(x).value) else None
  {
    assert (xs + [x])[..|xs|] == xs;
  }

  ghost predicate PartsOf<X, T>(xs: seq<X>, part: X -> Option<map<Key, T>>, parts: seq<map<Key, T>>) {
    |parts| == |xs| && forall i :: 0 <= i < |xs| ==> part(xs[i]) == Some(parts[i])
  }

  lemma {:induction false} MergedGives<X, T>(xs: seq<X>, part: X -> Option<map<Key, T>>, parts: seq<map<Key, T>>)
    requires PartsOf(xs, part, parts)
    ensures Merged(xs, part).Some? && LastWins(parts, Merged(xs, part).value)
  {
    if xs != [] {
      var n := |xs| - 1;
      MergedGives(xs[..n], part, parts[..n]);
      assert parts == parts[..n] + [parts[n]];
      MergeOneMore(parts[..n], Merged(xs[..n], part).value, parts[n]);
    }
  }

  lemma {:induction false} MergedHasParts<X, T>(xs: seq<X>, part: X -> Option<map<Key, T>>)
    returns (parts: seq<map<Key, T>>)
    requires Merged(xs, part).Some?
    ensures PartsOf(xs, part, parts)
  {
    parts := [];
    if xs != [] {
      var n := |xs| - 1;
      var before := MergedHasParts(xs[..n], part);
      parts := before + [part(xs[n]).value];
    }
  }

  lemma MergedIff<X, T>(
    xs: seq<X>, part: X -> Option<map<Key, T>>, from: (X, map<Key, T>) -> bool, m: map<Key, T>)
    requires forall x, q :: x in xs ==> (part(x) == Some(q) <==> from(x, q))
    ensures Merged(xs, part) == Some(m) <==>
            exists parts: seq<map<Key, T>> ::
              |parts| == |xs| && (forall i :: 0 <= i < |xs| ==> from(xs[i], parts[i])) && LastWins(parts, m)
  {
    if Merged(xs, part).Some? {
      var parts := MergedHasParts(xs, part);
      MergedGives(xs, part, parts);
      forall i | 0 <= i < |xs| ensures from(xs[i], parts[i]) {
        assert part(xs[i]) == Some(parts[i]);
      }
    }
    if parts: seq<map<Key, T>> :|
      |parts| == |xs| && (forall i :: 0 <= i < |xs| ==> from(xs[i], parts[i])) && LastWins(parts, m)
    {
      forall i | 0 <= i < |xs| ensures part(xs[i]) == Some(parts[i]) {
        assert xs[i] in xs;
      }
      MergedGives(xs, part, parts);
      OneMerge(parts, m, Merged(xs, part).value);
    }
  }

  // ---------------------------------------------------------------------------
  // Lists of tables
  // ---------------------------------------------------------------------------

  /** One table, or a list of nothing but tables. */
  ghost predicate TablesFrom(v: Value, ts: seq<Table>) {
    || (v.Obj? && ts == [v.table])
    || (v.ObjList? && ts == v.tables)
    || (v.List? && |ts| == |v.items| && forall i :: 0 <= i < |ts| ==> v.items[i] == Obj(ts[i]))
  }

  lemma TablesIff(v: Value, ts: seq<Table>)
    ensures EnsureTables(v) == Some(ts) <==> TablesFrom(v, ts)
  {
    if v.List? && TablesFrom(v, ts) {
      assert forall i :: 0 <= i < |v.items| ==> v.items[i].Obj?;
      assert ObjsOf(v.items) == ts;
    }
  }

  ghost predicate TextTable(p: Prims, t: Table, m: map<Key, string>) {
    m.Keys == t.m.Keys && forall k :: k in t.m ==> TextFrom(p, t.m[k], m[k])
  }

  lemma TextTableIff(p: Prims, t: Table, m: map<Key, string>)
    ensures TextFields(p, t) == m <==> TextTable(p, t, m)
  {
    forall k | k in t.m && k in m {
      TextIff(p, t.m[k], m[k]);
    }
  }

  // ---------------------------------------------------------------------------
  // [env]
  // ---------------------------------------------------------------------------

  /** A table gives the texts of its values; in a list of such, nested or not, the last one that has a key wins. */
  ghost predicate EnvFrom(p: Prims, v: Value, m: map<Key, string>) {
    match v
    case StrMap(strs) => m == strs
    case Obj(t) => TextTable(p, t, m)
    case ObjList(ts) =>
      exists parts: seq<map<Key, string>> ::
        |parts| == |ts| && (forall i :: 0 <= i < |ts| ==> TextTable(p, ts[i], parts[i])) && LastWins(parts, m)
    case List(items) =>
      exists parts: seq<map<Key, string>> ::
        |parts| == |items| && (forall i :: 0 <= i < |items| ==> EnvFrom(p, items[i], parts[i])) && LastWins(parts, m)
    case _ => false
  }

  lemma {:induction false} EnvItemsMerged(p: Prims, items: seq<Value>)
    ensures EnvOfItems(p, items) == Merged(items, v => EnvOf(p, v))
  {
    if items != [] {
      EnvItemsMerged(p, items[..|items| - 1]);
    }
  }

  lemma {:induction false} EnvTablesMerged(p: Prims, ts: seq<Table>)
    ensures EnvOfTables(p, ts) == Merged(ts, t => Some(TextFields(p, t)))
  {
    if ts != [] {
      EnvTablesMerged(p, ts[..|ts| - 1]);
    }
  }

  lemma EnvTablesIff(p: Prims, ts: seq<Table>, m: map<Key, string>)
    ensures EnvOfTables(p, ts) == Some(m) <==> EnvFrom(p, ObjList(ts), m)
  {
    EnvTablesMerged(p, ts);
    forall t, q ensures Some(TextFields(p, t)) == Some(q) <==> TextTable(p, t, q) {
      TextTableIff(p, t, q);
    }
    MergedIff(ts, t => Some(TextFields(p, t)), (t, q) => TextTable(p, t, q), m);
  }

  lemma {:induction false} EnvIff(p: Prims, v: Value, m: map<Key, string>)
    ensures EnvOf(p, v) == Some(m) <==> EnvFrom(p, v, m)
    decreases v
  {
    match v
    case Obj(t) => TextTableIff(p, t, m);
    case ObjList(ts) => EnvTablesIff(p, ts, m);
    case List(items) =>
      forall w, q | w in items ensures EnvOf(p, w) == Some(q) <==> EnvFrom(p, w, q) {
        EnvIff(p, w, q);
      }
      EnvListIff(p, items, m);
    case _ =>
  }

  lemma EnvListIff(p: Prims, items: seq<Value>, m: map<Key, string>)
    requires forall w, q :: w in items ==> (EnvOf(p, w) == Some(q) <==> EnvFrom(p, w, q))
    ensures EnvOfItems(p, items) == Some(m) <==> EnvFrom(p, List(items), m)
  {
    EnvItemsMerged(p, items);
    MergedIff(items, w => EnvOf(p, w), (w, q) => EnvFrom(p, w, q), m);
  }

  // ---------------------------------------------------------------------------
  // Checks
  // ---------------------------------------------------------------------------

  /** The text of the value under `k`, or none. */
  ghost predicate TextAt(p: Prims, t: Table, k: Key, s: string) {
    if k in t.m then TextFrom(p, t.m[k], s) else s == ""
  }

  /** The text under `valueKey`, if any, named by the text of the name. */
  ghost predicate NamedText(p: Prims, t: Table, valueKey: Key, part: map<Key, string>) {
    Name in t.m &&
    exists name, text ::
      TextAt(p, t, Name, name) && TextAt(p, t, valueKey, text) && part == map[p.keyNamed(name) := text]
  }

  ghost predicate HeaderListFrom(p: Prims, ts: seq<Table>, h: map<Key, string>) {
    exists parts: seq<map<Key, string>> ::
      |parts| == |ts| && (forall i :: 0 <= i < |ts| ==> NamedText(p, ts[i], ValueKey, parts[i])) && LastWins(parts, h)
  }

  ghost predicate HeadersFrom(p: Prims, v: Value, h: map<Key, string>) {
    if v.Obj? then TextTable(p, v.table, h) else exists ts :: TablesFrom(v, ts) && HeaderListFrom(p, ts, h)
  }

  ghost function NamedPart(p: Prims, t: Table, valueKey: Key): (part: Option<map<Key, string>>) {
    if Name !in t.m then None
    else
      var text := if valueKey in t.m then CastToString(p, t.m[valueKey]) else "";
      Some(map[p.keyNamed(CastToString(p, t.m[Name])) := text])
  }

  lemma NamedPartIff(p: Prims, t: Table, valueKey: Key, part: map<Key, string>)
    ensures NamedPart(p, t, valueKey) == Some(part) <==> NamedText(p, t, valueKey, part)
  {
    if Name in t.m {
      var name := CastToString(p, t.m[Name]);
      var text := if valueKey in t.m then CastToString(p, t.m[valueKey]) else "";
      TextAtIff(p, t, Name, name);
      TextAtIff(p, t, valueKey, text);
      if n, x :| TextAt(p, t, Name, n) && TextAt(p, t, valueKey, x) && part == map[p.keyNamed(n) := x] {
        TextAtIff(p, t, Name, n);
        TextAtIff(p, t, valueKey, x);
      }
    }
  }

  lemma TextAtIff(p: Prims, t: Table, k: Key, s: string)
    ensures TextAt(p, t, k, s) <==> s == if k in t.m then CastToString(p, t.m[k]) else ""
  {
    if k in t.m {
      TextIff(p, t.m[k], s);
    }
  }

  lemma PutIsMerge(m: map<Key, string>, k: Key, s: string)
    ensures m[k := s] == m + map[k := s]
  {
  }

  lemma {:induction false} HeadersMerged(p: Prims, ts: seq<Table>)
    ensures HeaderTables(p, ts) == Merged(ts, t => NamedPart(p, t, ValueKey))
  {
    if ts != [] {
      var n := |ts| - 1;
      var t, before := ts[n].m, HeaderTables(p, ts[..n]);
      HeadersMerged(p, ts[..n]);
      if before.Some? && Name in t {
        var text := if ValueKey in t then CastToString(p, t[ValueKey]) else "";
        PutIsMerge(before.value, p.keyNamed(CastToString(p, t[Name])), text);
      }
    }
  }

  lemma HeaderListIff(p: Prims, ts: seq<Table>, h: map<Key, string>)
    ensures HeaderTables(p, ts) == Some(h) <==> HeaderListFrom(p, ts, h)
  {
    HeadersMerged(p, ts);
    forall t, q ensures NamedPart(p, t, ValueKey) == Some(q) <==> NamedText(p, t, ValueKey, q) {
      NamedPartIff(p, t, ValueKey, q);
    }
    MergedIff(ts, t => NamedPart(p, t, ValueKey), (t, q) => NamedText(p, t, ValueKey, q), h);
  }

  lemma HeadersIff(p: Prims, v: Value, h: map<Key, string>)
    ensures HeadersOf(p, v) == Some(h) <==> HeadersFrom(p, v, h)
  {
    if v.Obj? {
      TextTableIff(p, v.table, h);
    } else {
      if HeadersFrom(p, v, h) {
        var ts :| TablesFrom(v, ts) && HeaderListFrom(p, ts, h);
        TablesIff(v, ts);
        HeaderListIff(p, ts, h);
      }
      if HeadersOf(p, v) == Some(h) {
        var ts := EnsureTables(v).value;
        TablesIff(v, ts);
        HeaderListIff(p, ts, h);
      }
    }
  }

  /** Times are milliseconds; headers become texts, and go when there are none; the rest stays. */
  ghost predicate CheckFieldFrom(p: Prims, k: Key, a: Option<Value>, b: Option<Value>) {
    match a
    case None => b.None?
    case Some(v) =>
      if k in {Interval, Timeout, GracePeriod} then b.Some? && DurationFrom(p, v, 1_000_000, b.value)
      else if k == Headers then
        exists h :: HeadersFrom(p, v, h) && b == if h == map[] then None else Some(StrMap(h))
      else b == a
  }

  ghost predicate CheckFrom(p: Prims, t: Table, u: Table) {
    forall k :: CheckFieldFrom(p, k, Get(t.m, k), Get(u.m, k))
  }

  lemma CheckHeadersIff(p: Prims, v: Value, b: Option<Value>)
    ensures CheckFieldFrom(p, Headers, Some(v), b) <==>
            HeadersOf(p, v).Some?
            && b == if HeadersOf(p, v).value == map[] then None else Some(StrMap(HeadersOf(p, v).value))
  {
    if HeadersOf(p, v).Some? {
      HeadersIff(p, v, HeadersOf(p, v).value);
    }
    if CheckFieldFrom(p, Headers, Some(v), b) {
      var h :| HeadersFrom(p, v, h) && b == if h == map[] then None else Some(StrMap(h));
      HeadersIff(p, v, h);
    }
  }

  lemma CheckFieldIff(p: Prims, t: Table, k: Key, b: Option<Value>)
    ensures CheckFieldFrom(p, Headers, Get(t.m, Headers), b) ==> CheckOk(p, t.m)
    ensures CheckOk(p, t.m) ==> (CheckFieldFrom(p, k, Get(t.m, k), b) <==> b == CheckField(p, t.m, k))
  {
    if Headers in t.m {
      CheckHeadersIff(p, t.m[Headers], b);
    }
    if k in t.m && b.Some? {
      DurationIff(p, t.m[k], 1_000_000, b.value);
    }
  }

  lemma CheckIff(p: Prims, t: Table, u: Table)
    ensures PatchCheck(p, t) == Some(u) <==> CheckFrom(p, t, u)
  {
    CheckFields(p, t);
    if CheckFrom(p, t, u) {
      CheckFieldIff(p, t, Headers, Get(u.m, Headers));
      var w := PatchCheck(p, t).value;
      forall k ensures Get(u.m, k) == Get(w.m, k) {
        CheckFieldIff(p, t, k, Get(u.m, k));
      }
      SameEntries(u.m, w.m);
    } else if PatchCheck(p, t) == Some(u) {
      forall k ensures CheckFieldFrom(p, k, Get(t.m, k), Get(u.m, k)) {
        CheckFieldIff(p, t, k, Get(u.m, k));
      }
    }
  }
}
