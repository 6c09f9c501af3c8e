/** Merging --port flags into the services of a machine (DetermineServices, internal/command/command_run.go). */
module Services {
  import opened Prelude
  import opened PortFlags

  /** `others` stands for the settings of a service that flags never touch; a service made for a flag has none. */
  datatype Service = Service(key: Key, ports: seq<Port>, others: map<string, string>)

  /** The last service with key `k`; -1 if there is none. A map built from the list points at this one. */
  function LastIndex(ss: seq<Service>, k: Key): (i: int)
    ensures -1 <= i < |ss|
    ensures i >= 0 ==> ss[i].key == k
    ensures forall j :: i < j < |ss| ==> ss[j].key != k
  {
    if ss == [] then -1
    else if ss[|ss| - 1].key == k then |ss| - 1
    else LastIndex(ss[..|ss| - 1], k)
  }

  function ApplyFlag(ss: seq<Service>, f: Flag): (r: seq<Service>) {
    var i := LastIndex(ss, f.key);
    if i < 0 then ss + [Service(f.key, Expose([], f), map[])]
    else ss[i := ss[i].(ports := Expose(ss[i].ports, f))]
  }

  function Applied(ss: seq<Service>, fs: seq<Flag>): (r: seq<Service>) {
    if fs == [] then ss else ApplyFlag(Applied(ss, fs[..|fs| - 1]), fs[|fs| - 1])
  }

  predicate Exposed(s: Service) {
    s.ports != []
  }

  function Determined(ss: seq<Service>, fs: seq<Flag>): (r: seq<Service>) {
    Filter(Applied(ss, fs), Exposed)
  }

  // ---------------------------------------------------------------------------
  // The algorithm: one list and one map over the same objects
  // ---------------------------------------------------------------------------

  class Svc {
    const key: Key
    const others: map<string, string>
    var ports: seq<Port>
    ghost const place: nat     // in the list of references

    constructor (s: Service, ghost place: nat)
      ensures Value() == s && this.place == place
    {
      key, ports, others := s.key, s.ports, s.others;
      this.place := place;
    }

    function Value(): (s: Service)
      reads this
    {
      Service(key, ports, others)
    }

    /** Finds the port of the flag and updates it, or appends it. */
    method ExposeFlag(f: Flag)
      modifies this
      ensures ports == Expose(old(ports), f)
    {
      if f.handlers == ["-"] {
        ports := [];
        return;
      }
      var found := false;
      for i := 0 to |ports|
        invariant |ports| == |old(ports)|
        invariant forall j :: 0 <= j < i ==> ports[j] == Touch(old(ports)[j], f)
        invariant forall j :: i <= j < |ports| ==> ports[j] == old(ports)[j]
        invariant found <==> exists j :: 0 <= j < i && Matches(old(ports)[j], f)
      {
        if f.edge.Single? && ports[i].port == Some(f.edge.port) {
          found := true;
          ports := ports[i := ports[i].(handlers := f.handlers)];
        }
        if f.edge.Range? && ports[i].start == Some(f.edge.start) {
          found := true;
          ports := ports[i := ports[i].(handlers := f.handlers, end := Some(f.edge.end))];
        }
      }
      assert ports == TouchEach(old(ports), f);
      if !found {
        ports := ports + [New(f)];
      }
    }
  }

  /** The objects of the list hold the services `ss`; each has its own place, so they are distinct. */
  ghost predicate Holds(refs: seq<Svc>, ss: seq<Service>)
    reads refs
  {
    && |refs| == |ss|
    && (forall i :: 0 <= i < |refs| ==> refs[i].place == i && refs[i].Value() == ss[i])
  }

  /** The map points into the list: at the last object of each key, and at nothing else. */
  ghost predicate Indexes(byKey: map<Key, Svc>, refs: seq<Svc>, ss: seq<Service>) {
    && |refs| == |ss|
    && (forall k :: k in byKey <==> LastIndex(ss, k) >= 0)
    && (forall k :: k in byKey ==> byKey[k] == refs[LastIndex(ss, k)])
  }

  ghost predicate Linked(refs: seq<Svc>, byKey: map<Key, Svc>, ss: seq<Service>)
    reads refs
  {
    Holds(refs, ss) && Indexes(byKey, refs, ss)
  }

  method MakeRefs(services: seq<Service>) returns (refs: seq<Svc>)
    ensures Holds(refs, services) && forall i :: 0 <= i < |refs| ==> fresh(refs[i])
  {
    refs := [];
    for i := 0 to |services|
      invariant Holds(refs, services[..i]) && forall j :: 0 <= j < |refs| ==> fresh(refs[j])
    {
      var r := new Svc(services[i], i);
      refs := refs + [r];
    }
    assert services[..|services|] == services;
  }

  method IndexRefs(refs: seq<Svc>, ghost services: seq<Service>) returns (byKey: map<Key, Svc>)
    requires Holds(refs, services)
    ensures Indexes(byKey, refs, services)
  {
    byKey := map[];
    for i := 0 to |refs|
      invariant Indexes(byKey, refs[..i], services[..i])
    {
      var r := refs[i];
      assert r.Value() == services[i];
      byKey := byKey[r.key := r];
      assert services[..i + 1][..i] == services[..i];
    }
    assert services[..|refs|] == services && refs[..|refs|] == refs;
  }

  /** All the objects of the list are among `owned`. */
  ghost predicate Among(refs: seq<Svc>, owned: set<Svc>) {
    forall i :: 0 <= i < |refs| ==> refs[i] in owned
  }

  /** One round of the loop over the flags: the object found through the map is the one in the list. */
  method MergeFlag(refs: seq<Svc>, byKey: map<Key, Svc>, f: Flag, ghost ss: seq<Service>, ghost owned: set<Svc>)
    returns (refs': seq<Svc>, byKey': map<Key, Svc>, ghost owned': set<Svc>)
    requires Linked(refs, byKey, ss) && Among(refs, owned)
    modifies if f.key in byKey then {byKey[f.key]} else {}
    ensures Linked(refs', byKey', ApplyFlag(ss, f)) && Among(refs', owned')
    ensures refs <= refs' && owned <= owned' && fresh(owned' - owned)
  {
    refs', byKey', owned' := refs, byKey, owned;
    if f.key in byKey {
      var i := LastIndex(ss, f.key);
      var svc := byKey[f.key];
      assert svc == refs[i];
      svc.ExposeFlag(f);
      SameKeysSameIndex(ss, ApplyFlag(ss, f));
    } else {
      var svc := new Svc(Service(f.key, [], map[]), |refs|);
      refs' := refs' + [svc];
      owned' := owned' + {svc};
      byKey' := byKey'[f.key := svc];
      svc.ExposeFlag(f);
      assert ApplyFlag(ss, f)[..|ss|] == ss;
    }
  }

  lemma IndexedIsAmong(refs: seq<Svc>, byKey: map<Key, Svc>, ss: seq<Service>, owned: set<Svc>, k: Key)
    requires Indexes(byKey, refs, ss) && Among(refs, owned) && k in byKey
    ensures byKey[k] in owned
  {
    assert byKey[k] == refs[LastIndex(ss, k)];
  }

  method MergeOwned(refs: seq<Svc>, byKey: map<Key, Svc>, f: Flag, ghost ss: seq<Service>, ghost owned: set<Svc>)
    returns (refs': seq<Svc>, byKey': map<Key, Svc>, ghost owned': set<Svc>)
    requires Linked(refs, byKey, ss) && Among(refs, owned)
    modifies owned
    ensures Linked(refs', byKey', ApplyFlag(ss, f)) && Among(refs', owned')
    ensures owned <= owned' && fresh(owned' - owned)
  {
    if f.key in byKey {
      IndexedIsAmong(refs, byKey, ss, owned, f.key);
    }
    refs', byKey', owned' := MergeFlag(refs, byKey, f, ss, owned);
  }

  /** How many flags can be parsed before the first that cannot. */
  function ParsedCount(flags: seq<Option<Flag>>): (n: nat)
    ensures n <= |flags|
    ensures n < |flags| ==> flags[n].None?
    ensures n == |flags| <==> None !in flags
  {
    if flags == [] || flags[0].None? then 0 else ParsedCount(flags[1..]) + 1
  }

  /** The loop over the flags; it stops at one that cannot be parsed (None). */
  method MergeFlags(
    refs: seq<Svc>, byKey: map<Key, Svc>, flags: seq<Option<Flag>>, ghost services: seq<Service>, ghost owned: set<Svc>)
    returns (ok: bool, refs': seq<Svc>)
    requires Linked(refs, byKey, services) && Among(refs, owned)
    modifies owned
    ensures ok <==> None !in flags
    ensures ok ==> Holds(refs', Applied(services, Parsed(flags)))
  {
    refs' := refs;
    var byKey' := byKey;
    ghost var ss, owned' := services, owned;
    for i := 0 to |flags|
      invariant i <= ParsedCount(flags)
      invariant ss == Applied(services, Parsed(flags[..i]))
      invariant Linked(refs', byKey', ss) && Among(refs', owned')
      invariant owned <= owned' && fresh(owned' - owned)
    {
      if flags[i].None? {
        return false, refs';
      }
      assert i < ParsedCount(flags);
      AppliedOneMore(services, flags, i);
      refs', byKey', owned' := MergeOwned(refs', byKey', flags[i].value, ss, owned');
      ss := ApplyFlag(ss, flags[i].value);
    }
    assert flags[..|flags|] == flags;
    ok := true;
  }

  lemma AppliedOneMore(services: seq<Service>, flags: seq<Option<Flag>>, i: nat)
    requires i < |flags| && flags[i].Some?
    ensures Applied(services, Parsed(flags[..i + 1])) ==
            ApplyFlag(Applied(services, Parsed(flags[..i])), flags[i].value)
  {
    var before := Parsed(flags[..i]);
    assert flags[..i + 1][..i] == flags[..i];
    assert (before + [flags[i].value])[..|before|] == before;
  }

  method KeepExposed(refs: seq<Svc>, ghost ss: seq<Service>) returns (kept: seq<Service>)
    requires Holds(refs, ss)
    ensures kept == Filter(ss, Exposed)
  {
    kept := [];
    for i := 0 to |refs|
      invariant kept == Filter(ss[..i], Exposed)
    {
      if |refs[i].ports| > 0 {
        kept := kept + [refs[i].Value()];
      }
      assert ss[..i + 1] == ss[..i] + [ss[i]] && refs[i].Value() == ss[i];
      FilterSnoc(ss[..i], ss[i], Exposed);
    }
    assert ss[..|refs|] == ss;
  }

  method DetermineServices(services: seq<Service>, flags: seq<Option<Flag>>) returns (r: Result<seq<Service>, ()>)
    ensures r.Err? <==> None in flags
    ensures r.Ok? ==> r.value == Determined(services, Parsed(flags))
  {
    var refs := MakeRefs(services);
    var byKey := IndexRefs(refs, services);
    ghost var owned := set i | 0 <= i < |refs| :: refs[i];
    var ok, merged := MergeFlags(refs, byKey, flags, services, owned);
    if !ok {
      return Err(());
    }
    var kept := KeepExposed(merged, Applied(services, Parsed(flags)));
    r := Ok(kept);
  }

  function Parsed(flags: seq<Option<Flag>>): (fs: seq<Flag>) {
    if flags == [] then []
    else if flags[|flags| - 1].None? then Parsed(flags[..|flags| - 1])
    else Parsed(flags[..|flags| - 1]) + [flags[|flags| - 1].value]
  }

  lemma {:induction false} SameKeysSameIndex(ss: seq<Service>, ts: seq<Service>)
    requires |ss| == |ts| && forall i :: 0 <= i < |ss| ==> ss[i].key == ts[i].key
    ensures forall k :: LastIndex(ss, k) == LastIndex(ts, k)
  {
  }

  // ---------------------------------------------------------------------------
  // What the flags leave, service by service
  // ---------------------------------------------------------------------------

  function FlagsFor(fs: seq<Flag>, k: Key): (r: seq<Flag>) {
    Filter(fs, (f: Flag) => f.key == k)
  }

  predicate IsLast(ss: seq<Service>, i: int) {
    0 <= i < |ss| && LastIndex(ss, ss[i].key) == i
  }

  lemma FlagsForSnoc(fs: seq<Flag>, f: Flag, k: Key)
    ensures FlagsFor(fs + [f], k) == if f.key == k then FlagsFor(fs, k) + [f] else FlagsFor(fs, k)
  {
    FilterAppend(fs, [f], (f: Flag) => f.key == k);
  }

  lemma ExposeAllSnoc(ports: seq<Port>, fs: seq<Flag>, f: Flag)
    ensures ExposeAll(ports, fs + [f]) == Expose(ExposeAll(ports, fs), f)
  {
    assert (fs + [f])[..|fs|] == fs;
  }

  /**
   * The service at position `i` after the flags: an earlier duplicate is left alone, a new service starts from nothing.
   */
  function After(ss: seq<Service>, fs: seq<Flag>, i: nat, k: Key): (s: Service)
    requires i < |ss| ==> ss[i].key == k
  {
    if i >= |ss| then Service(k, ExposeAll([], FlagsFor(fs, k)), map[])
    else if IsLast(ss, i) then ss[i].(ports := ExposeAll(ss[i].ports, FlagsFor(fs, k)))
    else ss[i]
  }

  /** The services given keep their places; new ones follow, one for each new key. */
  ghost predicate PlacesAfter(ss: seq<Service>, r: seq<Service>) {
    && |ss| <= |r|
    && (forall i :: 0 <= i < |ss| ==> r[i].key == ss[i].key)
    && (forall i :: |ss| <= i < |r| ==> LastIndex(ss, r[i].key) == -1 && LastIndex(r, r[i].key) == i)
  }

  ghost predicate KeysAfter(ss: seq<Service>, fs: seq<Flag>, r: seq<Service>) {
    && (forall k :: FlagsFor(fs, k) != [] ==> LastIndex(r, k) >= 0)
    && (forall k :: LastIndex(r, k) >= |ss| ==> FlagsFor(fs, k) != [])
  }

  /** Flags act on each key by themselves. */
  ghost predicate Separate(ss: seq<Service>, fs: seq<Flag>, r: seq<Service>) {
    PlacesAfter(ss, r) && KeysAfter(ss, fs, r) && forall i :: 0 <= i < |r| ==> r[i] == After(ss, fs, i, r[i].key)
  }

  lemma {:induction false} FlagsActSeparately(ss: seq<Service>, fs: seq<Flag>)
    ensures Separate(ss, fs, Applied(ss, fs))
  {
    if fs != [] {
      var before, f := fs[..|fs| - 1], fs[|fs| - 1];
      var q := Applied(ss, before);
      FlagsActSeparately(ss, before);
      assert fs == before + [f];
      OneMoreFlagPlaces(ss, f, q);
      OneMoreFlagKeys(ss, before, f, q);
      forall i | 0 <= i < |Applied(ss, fs)| ensures Applied(ss, fs)[i] == After(ss, fs, i, Applied(ss, fs)[i].key) {
        OneMoreFlagAt(ss, before, f, q, i);
      }
    }
  }

  lemma OneMoreFlagKeys(ss: seq<Service>, fs: seq<Flag>, f: Flag, q: seq<Service>)
    requires |ss| <= |q| && KeysAfter(ss, fs, q)
    ensures KeysAfter(ss, fs + [f], ApplyFlag(q, f))
  {
    var r := ApplyFlag(q, f);
    forall k | FlagsFor(fs + [f], k) != [] ensures LastIndex(r, k) >= 0 {
      LastIndexAfter(q, f, k);
      FlagsForSnoc(fs, f, k);
    }
    forall k | LastIndex(r, k) >= |ss| ensures FlagsFor(fs + [f], k) != [] {
      LastIndexAfter(q, f, k);
      FlagsForSnoc(fs, f, k);
    }
  }

  lemma OneMoreFlagPlaces(ss: seq<Service>, f: Flag, q: seq<Service>)
    requires PlacesAfter(ss, q)
    ensures PlacesAfter(ss, ApplyFlag(q, f))
  {
    var r := ApplyFlag(q, f);
    forall i | |ss| <= i < |r| ensures LastIndex(ss, r[i].key) == -1 && LastIndex(r, r[i].key) == i {
      LastIndexAfter(q, f, r[i].key);
      if i < |q| {
        assert r[i].key == q[i].key;
      } else {
        AbsentBefore(ss, q, f.key);
      }
    }
  }

  lemma AbsentBefore(ss: seq<Service>, q: seq<Service>, k: Key)
    requires |ss| <= |q| && (forall i :: 0 <= i < |ss| ==> q[i].key == ss[i].key) && LastIndex(q, k) < 0
    ensures LastIndex(ss, k) == -1
  {
    forall i | 0 <= i < |ss| ensures ss[i].key != k {
      assert q[i].key == ss[i].key;
    }
  }

  lemma LastIndexAfter(q: seq<Service>, f: Flag, k: Key)
    ensures LastIndex(ApplyFlag(q, f), k) == if k == f.key && LastIndex(q, k) < 0 then |q| else LastIndex(q, k)
  {
    var r := ApplyFlag(q, f);
    if LastIndex(q, f.key) < 0 {
      assert r[..|q|] == q;
    } else {
      SameKeysSameIndex(q, r);
    }
  }

  lemma LastIsKept(ss: seq<Service>, r: seq<Service>, i: nat)
    requires PlacesAfter(ss, r) && i < |ss|
    ensures IsLast(ss, i) <==> IsLast(r, i)
  {
    var k := ss[i].key;
    var j := LastIndex(r, k);
    assert r[i].key == k;
    assert j < |ss| by {
      assert j >= |ss| ==> LastIndex(ss, r[j].key) == -1;
    }
    assert ss[j].key == k;
  }

  lemma OneMoreFlagAt(ss: seq<Service>, fs: seq<Flag>, f: Flag, q: seq<Service>, i: nat)
    requires Separate(ss, fs, q) && i < |ApplyFlag(q, f)|
    ensures var r := ApplyFlag(q, f);
            (i < |ss| ==> r[i].key == ss[i].key) && r[i] == After(ss, fs + [f], i, r[i].key)
  {
    var r := ApplyFlag(q, f);
    var k := r[i].key;
    FlagsForSnoc(fs, f, k);
    if i < |q| {
      assert q[i].key == k && q[i] == After(ss, fs, i, k);
    }
    if k == f.key {
      var mine := FlagsFor(fs, k);
      if i < |ss| {
        LastIsKept(ss, q, i);
        ExposeAllSnoc(ss[i].ports, mine, f);
      } else {
        ExposeAllSnoc([], mine, f);
        if i == |q| {
          assert mine == [];
        }
      }
    }
  }

  // ---------------------------------------------------------------------------
  // The result as a list
  // ---------------------------------------------------------------------------

  predicate UniqueKeys(ss: seq<Service>) {
    forall i, j :: 0 <= i < j < |ss| ==> ss[i].key != ss[j].key
  }

  lemma UniqueAfter(ss: seq<Service>, fs: seq<Flag>)
    requires UniqueKeys(ss)
    ensures UniqueKeys(Applied(ss, fs))
  {
    FlagsActSeparately(ss, fs);
    var r := Applied(ss, fs);
    forall i, j | 0 <= i < j < |r| ensures r[i].key != r[j].key {
      if j >= |ss| {
        assert LastIndex(ss, r[j].key) == -1 && LastIndex(r, r[j].key) == j;
        assert if i < |ss| then r[i].key == ss[i].key else LastIndex(r, r[i].key) == i;
      }
    }
  }

  /**
   * With unique keys the result has unique keys, every service in it has a port, and what was given and is still there
   * keeps its order and comes first: each result is the service at an ascending position, with its own flags applied.
   */
  lemma ResultIsOrderedMerge(ss: seq<Service>, fs: seq<Flag>)
    requires UniqueKeys(ss)
    ensures var r, all := Determined(ss, fs), Applied(ss, fs);
            var at := Positions(all, Exposed);
            && UniqueKeys(r) && |r| == |at| && |ss| <= |all|
            && (forall i :: 0 <= i < |r| ==> r[i] == all[at[i]] && r[i].ports != [])
            && (forall k :: 0 <= k < |all| && all[k].ports != [] ==> k in at)
            && (forall i, j :: 0 <= i < j < |r| ==> at[i] < at[j])
            && (forall i :: 0 <= i < |r| && at[i] < |ss| ==>
                  r[i] == ss[at[i]].(ports := ExposeAll(ss[at[i]].ports, FlagsFor(fs, ss[at[i]].key))))
  {
    var r, all := Determined(ss, fs), Applied(ss, fs);
    var at := Positions(all, Exposed);
    UniqueAfter(ss, fs);
    FlagsActSeparately(ss, fs);
    FilterByPosition(all, Exposed);
    forall i | 0 <= i < |r| && at[i] < |ss|
      ensures r[i] == ss[at[i]].(ports := ExposeAll(ss[at[i]].ports, FlagsFor(fs, ss[at[i]].key)))
    {
      assert IsLast(ss, at[i]);
    }
  }

  // ---------------------------------------------------------------------------
  // Applying the flags to the result
  // ---------------------------------------------------------------------------

  /**
   * An earlier service with the key of `ss[i]`, hidden behind a later one, comes to light when the later one is
   * removed.
   */
  predicate Uncovers(ss: seq<Service>, fs: seq<Flag>) {
    exists i :: 0 <= i < |ss| && ss[i].ports != [] && !IsLast(ss, i) && EndsRemoved(FlagsFor(fs, ss[i].key))
  }

  lemma LastPorts(ss: seq<Service>, fs: seq<Flag>, k: Key) returns (start: seq<Port>)
    requires LastIndex(Applied(ss, fs), k) >= 0
    ensures var all := Applied(ss, fs); all[LastIndex(all, k)].ports == ExposeAll(start, FlagsFor(fs, k))
  {
    FlagsActSeparately(ss, fs);
    var all := Applied(ss, fs);
    var j := LastIndex(all, k);
    assert all[j] == After(ss, fs, j, k);
    if j < |ss| {
      LastIsKept(ss, all, j);
      start := ss[j].ports;
    } else {
      start := [];
    }
  }

  lemma ExposedIsKept(all: seq<Service>, j: nat)
    requires j < |all| && all[j].ports != []
    ensures LastIndex(Filter(all, Exposed), all[j].key) >= 0
  {
    var out := Filter(all, Exposed);
    assert Exposed(all[j]) && all[j] in all;
    assert all[j] in out;
  }

  lemma MissingWasRemoved(ss: seq<Service>, fs: seq<Flag>, k: Key)
    requires FlagsFor(fs, k) != [] && LastIndex(Determined(ss, fs), k) < 0
    ensures EndsRemoved(FlagsFor(fs, k))
  {
    FlagsActSeparately(ss, fs);
    var all := Applied(ss, fs);
    var j := LastIndex(all, k);
    var start := LastPorts(ss, fs, k);
    if all[j].ports != [] {
      ExposedIsKept(all, j);
    }
    NothingLeftIff(start, FlagsFor(fs, k));
  }

  lemma NewOneVanishes(ss: seq<Service>, fs: seq<Flag>, i: nat)
    requires |Determined(ss, fs)| <= i < |Applied(Determined(ss, fs), fs)|
    ensures Applied(Determined(ss, fs), fs)[i].ports == []
  {
    var out := Determined(ss, fs);
    var again := Applied(out, fs);
    var k := again[i].key;
    FlagsActSeparately(out, fs);
    assert again[i] == After(out, fs, i, k);
    MissingWasRemoved(ss, fs, k);
    NothingLeftIff([], FlagsFor(fs, k));
  }

  lemma NewOnesVanish(ss: seq<Service>, fs: seq<Flag>)
    ensures var out := Determined(ss, fs); var again := Applied(out, fs);
            |out| <= |again| && Filter(again, Exposed) == Filter(again[..|out|], Exposed)
  {
    var out := Determined(ss, fs);
    var again := Applied(out, fs);
    assert |out| <= |again| by {
      FlagsActSeparately(out, fs);
    }
    forall i | |out| <= i < |again| ensures again[i].ports == [] {
      NewOneVanishes(ss, fs, i);
    }
    FilterPrefix(again, |out|);
  }

  lemma FilterPrefix(xs: seq<Service>, n: nat)
    requires n <= |xs| && forall i :: n <= i < |xs| ==> xs[i].ports == []
    ensures Filter(xs, Exposed) == Filter(xs[..n], Exposed)
  {
    FilterNone(xs[n..], Exposed);
    FilterAppend(xs[..n], xs[n..], Exposed);
    assert xs == xs[..n] + xs[n..];
  }

  lemma LaterSurvivor(all: seq<Service>, i: nat, l: nat)
    requires i < |Filter(all, Exposed)| == |Positions(all, Exposed)|
    requires Positions(all, Exposed)[i] < l < |all| && all[l].ports != [] && all[l].key == Filter(all, Exposed)[i].key
    ensures !IsLast(Filter(all, Exposed), i)
  {
    FilterByPosition(all, Exposed);
    var out, at := Filter(all, Exposed), Positions(all, Exposed);
    assert Exposed(all[l]);
    var m :| 0 <= m < |at| && at[m] == l;
    assert m > i;
    assert out[m].key == out[i].key;
  }

  /** Either the last service of a key in the result was the last one before, or that one has lost its ports. */
  lemma LastOfResult(all: seq<Service>, i: nat)
    requires i < |Filter(all, Exposed)| && IsLast(Filter(all, Exposed), i)
    ensures |Positions(all, Exposed)| == |Filter(all, Exposed)|
    ensures var j := Positions(all, Exposed)[i];
            && all[j] == Filter(all, Exposed)[i]
            && (IsLast(all, j) || all[LastIndex(all, all[j].key)].ports == [])
  {
    FilterByPosition(all, Exposed);
    var j := Positions(all, Exposed)[i];
    var l := LastIndex(all, all[j].key);
    if l > j && all[l].ports != [] {
      LaterSurvivor(all, i, l);
    }
  }

  lemma SettledUnlessUncovered(ss: seq<Service>, fs: seq<Flag>, i: nat)
    requires !Uncovers(ss, fs) && i < |Determined(ss, fs)| && IsLast(Determined(ss, fs), i)
    ensures var s := Determined(ss, fs)[i]; ExposeAll(s.ports, FlagsFor(fs, s.key)) == s.ports
  {
    var all := Applied(ss, fs);
    var s := Determined(ss, fs)[i];
    var mine := FlagsFor(fs, s.key);
    FlagsActSeparately(ss, fs);
    LastOfResult(all, i);
    var j := Positions(all, Exposed)[i];
    assert all[j] == s && s.ports != [];
    var l := LastIndex(all, s.key);
    var start := LastPorts(ss, fs, s.key);
    if IsLast(all, j) {
      ExposeAllTwice(start, mine);
    } else {
      NothingLeftIff(start, mine);
      assert j < |ss|;
      LastIsKept(ss, all, j);
      assert all[j] == After(ss, fs, j, s.key);
      assert ss[j] == s;
    }
  }

  /** Applying the flags to the result once more changes nothing, unless they uncover a duplicate. */
  lemma FlagsTwice(ss: seq<Service>, fs: seq<Flag>)
    requires !Uncovers(ss, fs)
    ensures Determined(Determined(ss, fs), fs) == Determined(ss, fs)
  {
    var out := Determined(ss, fs);
    var again := Applied(out, fs);
    FlagsActSeparately(out, fs);
    NewOnesVanish(ss, fs);
    forall i | 0 <= i < |out| ensures again[i] == out[i] {
      assert again[i] == After(out, fs, i, out[i].key);
      if IsLast(out, i) {
        SettledUnlessUncovered(ss, fs, i);
      }
    }
    assert again[..|out|] == out;
    FilterAll(out, Exposed);
  }

  lemma {:induction false} FilterShortens(xs: seq<Service>, i: nat)
    requires i < |xs| && !Exposed(xs[i])
    ensures |Filter(xs, Exposed)| < |xs|
  {
    FilterAppend(xs[..i], xs[i..], Exposed);
    assert xs == xs[..i] + xs[i..];
  }

  lemma UncoveringChangesMore(ss: seq<Service>, fs: seq<Flag>)
    requires Uncovers(ss, fs)
    ensures Determined(Determined(ss, fs), fs) != Determined(ss, fs)
  {
    var i :| 0 <= i < |ss| && ss[i].ports != [] && !IsLast(ss, i) && EndsRemoved(FlagsFor(fs, ss[i].key));
    HiddenStaysExposed(ss, fs, i);
    RemovedAgain(ss, fs, ss[i].key);
  }

  lemma HiddenStaysExposed(ss: seq<Service>, fs: seq<Flag>, i: nat)
    requires i < |ss| && ss[i].ports != [] && !IsLast(ss, i)
    ensures LastIndex(Determined(ss, fs), ss[i].key) >= 0
  {
    FlagsActSeparately(ss, fs);
    assert Applied(ss, fs)[i] == After(ss, fs, i, ss[i].key);
    ExposedIsKept(Applied(ss, fs), i);
  }

  lemma RemovedAgain(ss: seq<Service>, fs: seq<Flag>, k: Key)
    requires EndsRemoved(FlagsFor(fs, k)) && LastIndex(Determined(ss, fs), k) >= 0
    ensures Determined(Determined(ss, fs), fs) != Determined(ss, fs)
  {
    var out := Determined(ss, fs);
    var again := Applied(out, fs);
    var m := LastIndex(out, k);
    FlagsActSeparately(out, fs);
    NewOnesVanish(ss, fs);
    assert again[m] == After(out, fs, m, k);
    NothingLeftIff(out[m].ports, FlagsFor(fs, k));
    assert again[..|out|][m] == again[m];
    FilterShortens(again[..|out|], m);
  }

  /** The exact condition, for all services and flags. */
  lemma FlagsTwiceIff(ss: seq<Service>, fs: seq<Flag>)
    ensures Determined(Determined(ss, fs), fs) == Determined(ss, fs) <==> !Uncovers(ss, fs)
    ensures UniqueKeys(ss) ==> !Uncovers(ss, fs)
  {
    if Uncovers(ss, fs) {
      UncoveringChangesMore(ss, fs);
    } else {
      FlagsTwice(ss, fs);
    }
  }

  /** Two services for one port: removing it once leaves the first of them, removing it again takes that too. */
  lemma DuplicateNeedsTwoRemovals()
    ensures var k := Key(5432, "tcp");
            var s := Service(k, [Port(Some(80), None, None, [])], map[]);
            Uncovers([s, s], [Flag(k, Single(5432), ["-"])])
  {
    var k := Key(5432, "tcp");
    var s := Service(k, [Port(Some(80), None, None, [])], map[]);
    var ss := [s, s];
    var fs := [Flag(k, Single(5432), ["-"])];
    assert FlagsFor(fs, k) == fs;
    assert ss[0].ports != [] && !IsLast(ss, 0);
  }
}
