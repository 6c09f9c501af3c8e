/** What --port flags do to the ports of one service (internal/command/command_run.go, within DetermineServices). */
module PortFlags {
  import opened Prelude

  /** The service a flag or a service is about. */
  datatype Key = Key(internalPort: int, protocol: string)

  datatype Edge = Single(port: int) | Range(start: int, end: int)

  /** A parsed flag: the parser sets either a port, or a start port and an end port. */
  datatype Flag = Flag(key: Key, edge: Edge, handlers: seq<string>)

  datatype Port = Port(port: Option<int>, start: Option<int>, end: Option<int>, handlers: seq<string>)

  /** A dash in place of the handlers takes all the ports of the service away. */
  predicate Removes(f: Flag) {
    f.handlers == ["-"]
  }

  predicate Matches(x: Port, f: Flag) {
    match f.edge
    case Single(p) => x.port == Some(p)
    case Range(s, _) => x.start == Some(s)
  }

  function Touch(x: Port, f: Flag): (y: Port) {
    if !Matches(x, f) then x
    else if f.edge.Single? then x.(handlers := f.handlers)
    else x.(handlers := f.handlers, end := Some(f.edge.end))
  }

  function New(f: Flag): (x: Port) {
    match f.edge
    case Single(p) => Port(Some(p), None, None, f.handlers)
    case Range(s, e) => Port(None, Some(s), Some(e), f.handlers)
  }

  predicate Found(ports: seq<Port>, f: Flag) {
    exists i :: 0 <= i < |ports| && Matches(ports[i], f)
  }

  function TouchEach(ports: seq<Port>, f: Flag): (r: seq<Port>) {
    Map(ports, x => Touch(x, f))
  }

  function Expose(ports: seq<Port>, f: Flag): (r: seq<Port>) {
    if Removes(f) then []
    else if Found(ports, f) then TouchEach(ports, f)
    else TouchEach(ports, f) + [New(f)]
  }

  function ExposeAll(ports: seq<Port>, fs: seq<Flag>): (r: seq<Port>) {
    if fs == [] then ports else Expose(ExposeAll(ports, fs[..|fs| - 1]), fs[|fs| - 1])
  }

  predicate EndsRemoved(fs: seq<Flag>) {
    fs != [] && Removes(fs[|fs| - 1])
  }

  /** Nothing is left exactly when the last flag removes, or there was nothing and no flag. */
  lemma NothingLeftIff(ports: seq<Port>, fs: seq<Flag>)
    ensures ExposeAll(ports, fs) == [] <==> EndsRemoved(fs) || (fs == [] && ports == [])
  {
    if fs != [] && !EndsRemoved(fs) {
      var before := ExposeAll(ports, fs[..|fs| - 1]);
      assert Found(before, fs[|fs| - 1]) ==> before != [];
    }
  }

  // ---------------------------------------------------------------------------
  // Repeating the flags
  // ---------------------------------------------------------------------------

  function TouchAll(x: Port, fs: seq<Flag>): (y: Port) {
    if fs == [] then x else Touch(TouchAll(x, fs[..|fs| - 1]), fs[|fs| - 1])
  }

  /** Whatever happens in between, a flag overwrites what it wrote before. */
  lemma {:induction false} LastFlagWins(x: Port, y: Port, f: Flag, fs: seq<Flag>)
    requires x.port == y.port && x.start == y.start && Touch(x, f) == Touch(y, f)
    ensures var a, b := TouchAll(x, fs), TouchAll(y, fs);
            a.port == x.port && b.port == x.port && a.start == x.start && b.start == x.start
            && Touch(a, f) == Touch(b, f)
  {
    if fs != [] {
      LastFlagWins(x, y, f, fs[..|fs| - 1]);
    }
  }

  lemma {:induction false} NewPortIsRestored(f: Flag, fs: seq<Flag>)
    ensures var a := TouchAll(New(f), fs);
            a.port == New(f).port && a.start == New(f).start && Touch(a, f) == New(f)
  {
    if fs != [] {
      NewPortIsRestored(f, fs[..|fs| - 1]);
    }
  }

  ghost predicate Settled(ports: seq<Port>, fs: seq<Flag>) {
    && (forall i :: 0 <= i < |ports| ==> TouchAll(ports[i], fs) == ports[i])
    && (forall j :: 0 <= j < |fs| ==> Found(ports, fs[j]))
  }

  predicate NoneRemoves(fs: seq<Flag>) {
    forall j :: 0 <= j < |fs| ==> !Removes(fs[j])
  }

  lemma StaysFound(ports: seq<Port>, f: Flag, g: Flag)
    requires Found(ports, g) && !Removes(f)
    ensures Found(Expose(ports, f), g)
  {
    var i :| 0 <= i < |ports| && Matches(ports[i], g);
    assert Matches(Expose(ports, f)[i], g);
  }

  lemma NowFound(ports: seq<Port>, f: Flag)
    requires !Removes(f)
    ensures Found(Expose(ports, f), f)
  {
    if Found(ports, f) {
      StaysFound(ports, f, f);
    } else {
      assert Matches(Expose(ports, f)[|ports|], f);
    }
  }

  lemma {:induction false} Settles(ports: seq<Port>, fs: seq<Flag>)
    requires NoneRemoves(fs)
    ensures Settled(ExposeAll(ports, fs), fs)
  {
    if fs != [] {
      var n := |fs| - 1;
      var before, f := fs[..n], fs[n];
      Settles(ports, before);
      var q, r := ExposeAll(ports, before), ExposeAll(ports, fs);
      forall i | 0 <= i < |r| ensures TouchAll(r[i], fs) == r[i] {
        if i < |q| {
          assert r[i] == Touch(q[i], f);
          LastFlagWins(r[i], q[i], f, before);
        } else {
          NewPortIsRestored(f, before);
        }
      }
      forall j | 0 <= j < |fs| ensures Found(r, fs[j]) {
        if j < n {
          assert before[j] == fs[j];
          StaysFound(q, f, fs[j]);
        } else {
          NowFound(q, f);
        }
      }
    }
  }

  lemma {:induction false} TouchesOnly(ports: seq<Port>, fs: seq<Flag>)
    requires NoneRemoves(fs) && forall j :: 0 <= j < |fs| ==> Found(ports, fs[j])
    ensures ExposeAll(ports, fs) == Map(ports, x => TouchAll(x, fs))
  {
    if fs != [] {
      var n := |fs| - 1;
      var before, f := fs[..n], fs[n];
      forall j | 0 <= j < n ensures Found(ports, before[j]) {
        assert before[j] == fs[j];
      }
      TouchesOnly(ports, before);
      var q := ExposeAll(ports, before);
      var i :| 0 <= i < |ports| && Matches(ports[i], f);
      SameIdentity(ports[i], before);
      assert Matches(q[i], f);
      assert Found(q, f);
    }
  }

  lemma {:induction false} SameIdentity(x: Port, fs: seq<Flag>)
    ensures TouchAll(x, fs).port == x.port && TouchAll(x, fs).start == x.start
  {
    if fs != [] {
      SameIdentity(x, fs[..|fs| - 1]);
    }
  }

  /** After a removal it no longer matters which ports there were. */
  lemma {:induction false} RemovalForgets(ports: seq<Port>, others: seq<Port>, fs: seq<Flag>)
    requires !NoneRemoves(fs)
    ensures ExposeAll(ports, fs) == ExposeAll(others, fs)
  {
    var n := |fs| - 1;
    if !Removes(fs[n]) {
      var j :| 0 <= j < |fs| && Removes(fs[j]);
      assert fs[..n][j] == fs[j];
      RemovalForgets(ports, others, fs[..n]);
    }
  }

  /** Applying the same flags again changes nothing. */
  lemma ExposeAllTwice(ports: seq<Port>, fs: seq<Flag>)
    ensures ExposeAll(ExposeAll(ports, fs), fs) == ExposeAll(ports, fs)
  {
    var r := ExposeAll(ports, fs);
    if NoneRemoves(fs) {
      Settles(ports, fs);
      TouchesOnly(r, fs);
    } else {
      RemovalForgets(ports, r, fs);
    }
  }
}
