/** Decoded configuration values, as Go's `any` holds them. */
module Values {
  import opened Prelude

  /** The keys that the patches mention, and every other key. */
  datatype Key =
    | Env | Services | Processes | Experimental | Checks | Compute | Computes | Vm | Mount | Mounts | Metric | Metrics
    | KillTimeout | Build | OldBuildTarget | BuildTarget | Name | Command | Cmd | Entrypoint | Exec
    | MetricsPort | MetricsPath | Port | Path | Memory | InitialSize | Concurrency | Ports | TcpChecks | HttpChecks
    | InternalPort | Interval | Timeout | GracePeriod | Headers | ValueKey | TypeKey | HardLimit | SoftLimit
    | Other(name: string)

  datatype IntKind = GoInt | I32 | I64 | U | U32 | U64
  datatype FloatKind = F32 | F64

  /** What a *string made by the patches can point to: never the empty string. */
  type Text = s: string | s != "" witness "0s"

  datatype Value =
    | Nil
    | Bool(b: bool)
    | Str(s: string)
    | StrPtr(p: Option<Text>)            // *string
    | Int(intKind: IntKind, n: int)
    | Float(floatKind: FloatKind, r: real)
    | List(items: seq<Value>)            // []any
    | Obj(table: Table)                  // map[string]any
    | ObjList(tables: seq<Table>)        // []map[string]any
    | StrMap(strs: map<Key, string>)     // map[string]string
    | StrList(words: seq<string>)        // []string

  datatype Table = Table(m: Fields)

  type Fields = map<Key, Value>

  function Get(c: Fields, k: Key): (v: Option<Value>) {
    if k in c then Some(c[k]) else None
  }

  // ---------------------------------------------------------------------------
  // Generic re-decoding: every typed container becomes its plain form
  // ---------------------------------------------------------------------------

  function PlainTable(t: Table): (u: Table)
    ensures u.m.Keys == t.m.Keys
  {
    Table(map k | k in t.m :: Plain(t.m[k]))
  }

  function Plain(v: Value): (w: Value) {
    match v
    case StrPtr(None) => Nil
    case StrPtr(Some(s)) => Str(s)
    case List(items) => List(seq(|items|, i requires 0 <= i < |items| => Plain(items[i])))
    case Obj(t) => Obj(PlainTable(t))
    case ObjList(ts) => List(seq(|ts|, i requires 0 <= i < |ts| => Obj(PlainTable(ts[i]))))
    case StrMap(m) => Obj(Table(map k | k in m :: Str(m[k])))
    case StrList(words) => List(seq(|words|, i requires 0 <= i < |words| => Str(words[i])))
    case _ => v
  }

  lemma {:induction false} PlainTwice(v: Value)
    ensures Plain(Plain(v)) == Plain(v)
  {
    match v
    case List(items) =>
      forall i | 0 <= i < |items| { PlainTwice(items[i]); }
    case Obj(t) =>
      PlainTableTwice(t);
    case ObjList(ts) =>
      forall i | 0 <= i < |ts| { PlainTableTwice(ts[i]); }
    case StrMap(m) =>
      assert PlainTable(Table(map k | k in m :: Str(m[k]))).m == map k | k in m :: Str(m[k]);
    case StrPtr(p) =>
      if p.Some? {}
    case _ =>
  }

  lemma {:induction false} PlainTableTwice(t: Table)
    ensures PlainTable(PlainTable(t)) == PlainTable(t)
  {
    forall k | k in t.m { PlainTwice(t.m[k]); }
  }

  /** A top level entry that a written config omits: null or an empty list. */
  predicate Omitted(v: Value) {
    v == Nil || v == List([])
  }

  /** A config read back generically: plain values, empty entries gone. */
  function Redecoded(c: Fields): (d: Fields) {
    map k | k in c && !Omitted(Plain(c[k])) :: Plain(c[k])
  }
}
