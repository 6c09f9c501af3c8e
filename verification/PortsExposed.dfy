/** The ports of a service after all the --port flags about it, told of the flags (internal/command/command_run.go). */
module PortsExposed {
  import opened Prelude
  import opened PortFlags

  /** The flag is about the port: by its number, or by the start of its range. */
  predicate About(f: Flag, x: Port) {
    (f.edge.Single? && x.port == Some(f.edge.port)) || (f.edge.Range? && x.start == Some(f.edge.start))
  }

  predicate SameEdge(f: Flag, g: Flag) {
    || (f.edge.Single? && g.edge.Single? && f.edge.port == g.edge.port)
    || (f.edge.Range? && g.edge.Range? && f.edge.start == g.edge.start)
  }

  ghost predicate LastAbout(fs: seq<Flag>, x: Port, j: int) {
    0 <= j < |fs| && About(fs[j], x) && forall k :: j < k < |fs| ==> !About(fs[k], x)
  }

  ghost predicate LastRangeAbout(fs: seq<Flag>, x: Port, j: int) {
    && 0 <= j < |fs| && fs[j].edge.Range? && About(fs[j], x)
    && forall k :: j < k < |fs| && fs[k].edge.Range? ==> !About(fs[k], x)
  }

  ghost predicate NoneAbout(fs: seq<Flag>, x: Port) {
    forall j :: 0 <= j < |fs| ==> !About(fs[j], x)
  }

  ghost predicate NoRangeAbout(fs: seq<Flag>, x: Port) {
    forall j :: 0 <= j < |fs| && fs[j].edge.Range? ==> !About(fs[j], x)
  }

  /** The port stays where it is; the last flag about it gives its handlers, and the last range its end. */
  ghost predicate FromPort(x: Port, fs: seq<Flag>, y: Port) {
    && y.port == x.port && y.start == x.start
    && (NoneAbout(fs, x) ==> y.handlers == x.handlers)
    && (forall j :: LastAbout(fs, x, j) ==> y.handlers == fs[j].handlers)
    && (NoRangeAbout(fs, x) ==> y.end == x.end)
    && (forall j :: LastRangeAbout(fs, x, j) ==> y.end == Some(fs[j].edge.end))
  }

  /** A port that has nothing but its number, or the start of its range. */
  function Blank(f: Flag): (x: Port) {
    if f.edge.Single? then Port(Some(f.edge.port), None, None, []) else Port(None, Some(f.edge.start), None, [])
  }

  /** No port has what the flag is about, nor has an earlier flag added it. */
  ghost predicate Adds(ports: seq<Port>, fs: seq<Flag>, j: int) {
    && 0 <= j < |fs| && (forall i :: 0 <= i < |ports| ==> !About(fs[j], ports[i]))
    && forall i :: 0 <= i < j ==> !SameEdge(fs[i], fs[j])
  }

  /** The flags that add a port, in order. */
  ghost predicate Adders(ports: seq<Port>, fs: seq<Flag>, at: seq<nat>) {
    (forall j :: j in at <==> Adds(ports, fs, j)) && forall i, j :: 0 <= i < j < |at| ==> at[i] < at[j]
  }

  ghost predicate OldPorts(ports: seq<Port>, fs: seq<Flag>, r: seq<Port>) {
    |ports| <= |r| && forall i :: 0 <= i < |ports| ==> FromPort(ports[i], fs, r[i])
  }

  ghost predicate NewPorts(at: seq<nat>, fs: seq<Flag>, r: seq<Port>) {
    |r| == |at| && forall i :: 0 <= i < |at| ==> at[i] < |fs| && FromPort(Blank(fs[at[i]]), fs, r[i])
  }

  /** The ports in their places, followed by one for each flag that adds one, in the order of the flags at `at`. */
  ghost predicate Exposed(ports: seq<Port>, fs: seq<Flag>, at: seq<nat>, r: seq<Port>) {
    Adders(ports, fs, at) && OldPorts(ports, fs, r) && NewPorts(at, fs, r[|ports|..])
  }

  lemma LastAboutSnoc(fs: seq<Flag>, f: Flag, x: Port, j: int)
    ensures NoneAbout(fs + [f], x) <==> NoneAbout(fs, x) && !About(f, x)
    ensures LastAbout(fs + [f], x, j) <==> if About(f, x) then j == |fs| else LastAbout(fs, x, j)
  {
    var all := fs + [f];
    assert all[|fs|] == f && forall i :: 0 <= i < |fs| ==> all[i] == fs[i];
  }

  lemma LastRangeSnoc(fs: seq<Flag>, f: Flag, x: Port, j: int)
    ensures NoRangeAbout(fs + [f], x) <==> NoRangeAbout(fs, x) && !(f.edge.Range? && About(f, x))
    ensures LastRangeAbout(fs + [f], x, j) <==>
            if f.edge.Range? && About(f, x) then j == |fs| else LastRangeAbout(fs, x, j)
  {
    var all := fs + [f];
    assert all[|fs|] == f && forall i :: 0 <= i < |fs| ==> all[i] == fs[i];
  }

  lemma TouchStep(x: Port, fs: seq<Flag>, y: Port, f: Flag)
    requires FromPort(x, fs, y)
    ensures FromPort(x, fs + [f], Touch(y, f))
  {
    var all := fs + [f];
    LastAboutSnoc(fs, f, x, 0);
    LastRangeSnoc(fs, f, x, 0);
    forall j | LastAbout(all, x, j) ensures Touch(y, f).handlers == all[j].handlers {
      LastAboutSnoc(fs, f, x, j);
    }
    forall j | LastRangeAbout(all, x, j) ensures Touch(y, f).end == Some(all[j].edge.end) {
      LastRangeSnoc(fs, f, x, j);
    }
  }

  lemma NewIsFromBlank(fs: seq<Flag>, f: Flag)
    requires forall i :: 0 <= i < |fs| ==> !SameEdge(fs[i], f)
    ensures FromPort(Blank(f), fs + [f], New(f))
  {
    var x := Blank(f);
    LastAboutSnoc(fs, f, x, 0);
    LastRangeSnoc(fs, f, x, 0);
    forall j | LastAbout(fs + [f], x, j) ensures j == |fs| {
      LastAboutSnoc(fs, f, x, j);
    }
    forall j | LastRangeAbout(fs + [f], x, j) ensures j == |fs| && f.edge.Range? {
      LastRangeSnoc(fs, f, x, j);
    }
  }

  /** The first flag that is about what `f` is about. */
  lemma {:induction false} FirstSame(fs: seq<Flag>, f: Flag, j: nat) returns (i: nat)
    requires j < |fs| && SameEdge(fs[j], f)
    ensures i < |fs| && SameEdge(fs[i], f) && forall k :: 0 <= k < i ==> !SameEdge(fs[k], f)
    decreases j
  {
    if k :| 0 <= k < j && SameEdge(fs[k], f) {
      i := FirstSame(fs, f, k);
    } else {
      i := j;
    }
  }

  lemma FoundHasFlag(ports: seq<Port>, fs: seq<Flag>, f: Flag, at: seq<nat>, q: seq<Port>, i: nat)
    requires Exposed(ports, fs, at, q) && i < |q| && Matches(q[i], f)
    ensures !Adds(ports, fs + [f], |fs|)
  {
    var all := fs + [f];
    assert all[|fs|] == f;
    if i < |ports| {
      assert About(f, ports[i]);
    } else {
      assert q[|ports|..][i - |ports|] == q[i];
      assert all[at[i - |ports|]] == fs[at[i - |ports|]] && SameEdge(all[at[i - |ports|]], f);
    }
  }

  lemma FlagIsFound(ports: seq<Port>, fs: seq<Flag>, f: Flag, at: seq<nat>, q: seq<Port>)
    requires Exposed(ports, fs, at, q) && !Adds(ports, fs + [f], |fs|)
    ensures Found(q, f)
  {
    var all := fs + [f];
    assert all[|fs|] == f && forall i :: 0 <= i < |fs| ==> all[i] == fs[i];
    if i :| 0 <= i < |ports| && About(f, ports[i]) {
      assert Matches(q[i], f);
    } else {
      var j :| 0 <= j < |fs| && SameEdge(fs[j], f);
      var i := FirstSame(fs, f, j);
      assert Adds(ports, fs, i);
      var n :| 0 <= n < |at| && at[n] == i;
      assert q[|ports| + n] == q[|ports|..][n] && Matches(q[|ports| + n], f);
    }
  }

  lemma FoundIff(ports: seq<Port>, fs: seq<Flag>, f: Flag, at: seq<nat>, q: seq<Port>)
    requires Exposed(ports, fs, at, q)
    ensures Found(q, f) <==> !Adds(ports, fs + [f], |fs|)
  {
    if Found(q, f) {
      var i :| 0 <= i < |q| && Matches(q[i], f);
      FoundHasFlag(ports, fs, f, at, q, i);
    } else if !Adds(ports, fs + [f], |fs|) {
      FlagIsFound(ports, fs, f, at, q);
    }
  }

  lemma AddersStay(ports: seq<Port>, fs: seq<Flag>, f: Flag, j: int)
    requires 0 <= j < |fs|
    ensures Adds(ports, fs + [f], j) <==> Adds(ports, fs, j)
  {
    var all := fs + [f];
    assert forall i :: 0 <= i < |fs| ==> all[i] == fs[i];
  }

  lemma AddersStep(ports: seq<Port>, fs: seq<Flag>, f: Flag, at: seq<nat>)
    requires Adders(ports, fs, at)
    ensures Adders(ports, fs + [f], if Adds(ports, fs + [f], |fs|) then at + [|fs|] else at)
  {
    var at' := if Adds(ports, fs + [f], |fs|) then at + [|fs|] else at;
    forall j ensures j in at' <==> Adds(ports, fs + [f], j) {
      if 0 <= j < |fs| {
        AddersStay(ports, fs, f, j);
      }
    }
    forall i | 0 <= i < |at| ensures at[i] < |fs| {
      assert at[i] in at;
    }
  }

  lemma OldPortsStep(ports: seq<Port>, fs: seq<Flag>, f: Flag, q: seq<Port>, r: seq<Port>)
    requires OldPorts(ports, fs, q) && |q| <= |r| && forall i :: 0 <= i < |q| ==> r[i] == Touch(q[i], f)
    ensures OldPorts(ports, fs + [f], r)
  {
    forall i | 0 <= i < |ports| ensures FromPort(ports[i], fs + [f], r[i]) {
      TouchStep(ports[i], fs, q[i], f);
    }
  }

  lemma NewPortsTouched(at: seq<nat>, fs: seq<Flag>, f: Flag, q: seq<Port>, r: seq<Port>)
    requires NewPorts(at, fs, q) && |r| == |q| && forall i :: 0 <= i < |q| ==> r[i] == Touch(q[i], f)
    ensures NewPorts(at, fs + [f], r)
  {
    forall i | 0 <= i < |at|
      ensures at[i] < |fs + [f]| && FromPort(Blank((fs + [f])[at[i]]), fs + [f], r[i])
    {
      assert (fs + [f])[at[i]] == fs[at[i]];
      TouchStep(Blank(fs[at[i]]), fs, q[i], f);
    }
  }

  lemma NewPortsAdded(at: seq<nat>, fs: seq<Flag>, r: seq<Port>, n: nat, x: Port)
    requires NewPorts(at, fs, r) && n < |fs| && FromPort(Blank(fs[n]), fs, x)
    ensures NewPorts(at + [n], fs, r + [x])
  {
  }

  lemma SamePortsStep(ports: seq<Port>, fs: seq<Flag>, f: Flag, at: seq<nat>, q: seq<Port>, r: seq<Port>)
    requires OldPorts(ports, fs, q) && NewPorts(at, fs, q[|ports|..])
    requires |r| == |q| && forall i :: 0 <= i < |q| ==> r[i] == Touch(q[i], f)
    ensures OldPorts(ports, fs + [f], r) && NewPorts(at, fs + [f], r[|ports|..])
  {
    OldPortsStep(ports, fs, f, q, r);
    NewPortsTouched(at, fs, f, q[|ports|..], r[|ports|..]);
  }

  lemma OneMorePort(ports: seq<Port>, fs: seq<Flag>, at: seq<nat>, r: seq<Port>, n: nat, x: Port)
    requires OldPorts(ports, fs, r) && NewPorts(at, fs, r[|ports|..]) && n < |fs| && FromPort(Blank(fs[n]), fs, x)
    ensures OldPorts(ports, fs, r + [x]) && NewPorts(at + [n], fs, (r + [x])[|ports|..])
  {
    NewPortsAdded(at, fs, r[|ports|..], n, x);
    assert (r + [x])[|ports|..] == r[|ports|..] + [x];
    assert forall i :: 0 <= i < |ports| ==> (r + [x])[i] == r[i];
  }

  lemma FoundStep(ports: seq<Port>, fs: seq<Flag>, f: Flag, at: seq<nat>, q: seq<Port>)
    requires Exposed(ports, fs, at, q) && Found(q, f)
    ensures Exposed(ports, fs + [f], at, TouchEach(q, f))
  {
    FoundIff(ports, fs, f, at, q);
    AddersStep(ports, fs, f, at);
    SamePortsStep(ports, fs, f, at, q, TouchEach(q, f));
  }

  lemma NewStep(ports: seq<Port>, fs: seq<Flag>, f: Flag, at: seq<nat>, q: seq<Port>, touched: seq<Port>)
    requires Exposed(ports, fs, at, q) && !Found(q, f) && touched == TouchEach(q, f)
    ensures Exposed(ports, fs + [f], at + [|fs|], touched + [New(f)])
  {
    FoundIff(ports, fs, f, at, q);
    AddersStep(ports, fs, f, at);
    SamePortsStep(ports, fs, f, at, q, touched);
    NewAdder(ports, fs, f);
    assert (fs + [f])[|fs|] == f;
    OneMorePort(ports, fs + [f], at, touched, |fs|, New(f));
  }

  lemma ExposeStep(ports: seq<Port>, fs: seq<Flag>, f: Flag, at: seq<nat>, q: seq<Port>) returns (at': seq<nat>)
    requires Exposed(ports, fs, at, q) && !Removes(f)
    ensures Exposed(ports, fs + [f], at', Expose(q, f))
  {
    if Found(q, f) {
      at' := at;
      FoundStep(ports, fs, f, at, q);
    } else {
      at' := at + [|fs|];
      NewStep(ports, fs, f, at, q, TouchEach(q, f));
    }
  }

  lemma NewAdder(ports: seq<Port>, fs: seq<Flag>, f: Flag)
    requires Adds(ports, fs + [f], |fs|)
    ensures FromPort(Blank(f), fs + [f], New(f))
  {
    var all := fs + [f];
    assert all[|fs|] == f && forall i :: 0 <= i < |fs| ==> all[i] == fs[i];
    NewIsFromBlank(fs, f);
  }

  lemma NothingExposed(ports: seq<Port>)
    ensures Exposed(ports, [], [], ports)
  {
  }

  lemma {:induction false} ExposedByAll(ports: seq<Port>, fs: seq<Flag>) returns (at: seq<nat>)
    requires NoneRemoves(fs)
    ensures Exposed(ports, fs, at, ExposeAll(ports, fs))
    decreases |fs|, 1
  {
    if fs == [] {
      at := [];
      NothingExposed(ports);
    } else {
      at := OneMoreExposed(ports, fs, fs[..|fs| - 1], fs[|fs| - 1]);
    }
  }

  lemma OneMoreExposed(ports: seq<Port>, fs: seq<Flag>, before: seq<Flag>, f: Flag) returns (at: seq<nat>)
    requires NoneRemoves(fs) && fs == before + [f]
    ensures Exposed(ports, fs, at, ExposeAll(ports, fs))
    decreases |fs|, 0
  {
    assert fs[|before|] == f && fs[..|before|] == before;
    assert NoneRemoves(before) by {
      forall j | 0 <= j < |before| ensures !Removes(before[j]) {
        assert before[j] == fs[j];
      }
    }
    var earlier := ExposedByAll(ports, before);
    at := ExposeStep(ports, before, f, earlier, ExposeAll(ports, before));
  }

  lemma {:induction false} SinceRemoval(ports: seq<Port>, fs: seq<Flag>, k: nat)
    requires 0 < k <= |fs| && Removes(fs[k - 1])
    ensures ExposeAll(ports, fs) == ExposeAll([], fs[k..])
    decreases |fs|
  {
    var n := |fs| - 1;
    if k < |fs| {
      SinceRemoval(ports, fs[..n], k);
      assert fs[k..][..|fs[k..]| - 1] == fs[..n][k..];
    }
  }

  /**
   * What any flags make of the ports of a service: the last one with a dash for its handlers takes all the ports away.
   * From then on, or from the start, each port stays and new ones follow, as `Exposed` tells.
   */
  lemma PortsAfterFlags(ports: seq<Port>, fs: seq<Flag>, k: nat) returns (at: seq<nat>)
    requires k <= |fs| && (k > 0 ==> fs[k - 1].handlers == ["-"])
    requires forall j :: k <= j < |fs| ==> fs[j].handlers != ["-"]
    ensures Exposed(if k > 0 then [] else ports, fs[k..], at, ExposeAll(ports, fs))
  {
    assert NoneRemoves(fs[k..]);
    if k > 0 {
      SinceRemoval(ports, fs, k);
      at := ExposedByAll([], fs[k..]);
    } else {
      assert fs[0..] == fs;
      at := ExposedByAll(ports, fs);
    }
  }
}
