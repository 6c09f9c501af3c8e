/** Giving volumes to --volume flags (DetermineMounts, internal/command/command_run.go). */
module Mounts {
  import opened Prelude

  datatype Volume = Volume(id: string, name: string)

  datatype Mount = Mount(volume: string, path: string, others: map<string, string>)

  /** A flag "volume:path[:options]"; a flag with no path is malformed and modelled by None. */
  datatype Flag = Flag(volume: string, path: string)

  /** A flag asks for a volume by name unless it gives an id. */
  predicate ByName(f: Flag) {
    !("vol_" <= f.volume)
  }

  /** An id is told by its first four characters. */
  lemma ByNameIff(f: Flag)
    ensures ByName(f) <==> |f.volume| < 4 || f.volume[..4] != ['v', 'o', 'l', '_']
  {
    if |f.volume| >= 4 && f.volume[..4] == ['v', 'o', 'l', '_'] {
      assert f.volume[..4] == "vol_";
    }
  }

  predicate Asks(f: Option<Flag>, name: string) {
    f.Some? && ByName(f.value) && f.value.volume == name
  }

  function Demand(flags: seq<Option<Flag>>, name: string): (n: nat) {
    if flags == [] then 0
    else Demand(flags[..|flags| - 1], name) + if Asks(flags[|flags| - 1], name) then 1 else 0
  }

  /** The unattached volumes of a name, in the order they are listed. */
  function Named(volumes: seq<Volume>, name: string): (vs: seq<Volume>) {
    Filter(volumes, (v: Volume) => v.name == name)
  }

  // ---------------------------------------------------------------------------
  // What a caller can expect
  // ---------------------------------------------------------------------------

  /**
   * Every flag is well formed and no name is asked for more often than there are volumes (`None`: they cannot be
   * listed).
   */
  ghost predicate Satisfiable(flags: seq<Option<Flag>>, volumes: Option<seq<Volume>>) {
    && (forall i :: 0 <= i < |flags| ==> flags[i].Some?)
    && (forall name :: Demand(flags, name) > 0 ==> volumes.Some? && Demand(flags, name) <= |Named(volumes.value, name)|)
  }

  lemma {:induction false} DemandGrows(flags: seq<Option<Flag>>, i: nat, name: string)
    requires i <= |flags|
    ensures Demand(flags[..i], name) <= Demand(flags, name)
    decreases |flags|
  {
    if i == |flags| {
      assert flags[..i] == flags;
    } else {
      assert flags[..|flags| - 1][..i] == flags[..i];
      DemandGrows(flags[..|flags| - 1], i, name);
    }
  }

  /** The volume of flag `i`: its own id, or the next volume of its name that no earlier flag took. */
  function VolumeFor(flags: seq<Option<Flag>>, volumes: Option<seq<Volume>>, i: nat): (id: string)
    requires i < |flags| && Satisfiable(flags, volumes)
  {
    var f := flags[i].value;
    if !ByName(f) then f.volume
    else
      TakesOne(flags, i);
      Named(volumes.value, f.volume)[Demand(flags[..i], f.volume)].id
  }

  lemma TakesOne(flags: seq<Option<Flag>>, i: nat)
    requires i < |flags| && flags[i].Some? && ByName(flags[i].value)
    ensures Demand(flags[..i], flags[i].value.volume) < Demand(flags, flags[i].value.volume)
  {
    DemandGrows(flags, i + 1, flags[i].value.volume);
    assert flags[..i + 1][..i] == flags[..i];
  }

  ghost predicate DistinctIds(volumes: seq<Volume>) {
    forall i, j :: 0 <= i < j < |volumes| ==> volumes[i].id != volumes[j].id
  }

  lemma NamedDistinct(volumes: seq<Volume>, name: string, other: string, i: nat, j: nat)
    requires DistinctIds(volumes)
    requires i < |Named(volumes, name)| && j < |Named(volumes, other)| && (name == other ==> i != j)
    ensures Named(volumes, name)[i].id != Named(volumes, other)[j].id
  {
    var p, q := (v: Volume) => v.name == name, (v: Volume) => v.name == other;
    FilterByPosition(volumes, p);
    FilterByPosition(volumes, q);
    var a, b := Positions(volumes, p)[i], Positions(volumes, q)[j];
    assert Named(volumes, name) == Filter(volumes, p) && Named(volumes, other) == Filter(volumes, q);
    assert volumes[a].name == name && volumes[b].name == other;
    if name == other {
      NamedAscending(volumes, name, i, j);
    }
    assert a != b;
  }

  lemma NamedAscending(volumes: seq<Volume>, name: string, i: nat, j: nat)
    requires var at := Positions(volumes, (v: Volume) => v.name == name); i < |at| && j < |at| && i != j
    ensures var at := Positions(volumes, (v: Volume) => v.name == name); at[i] != at[j]
  {
  }

  /** Volumes drawn by name come from the list of unattached volumes and are pairwise distinct. */
  lemma DrawnAreDistinct(flags: seq<Option<Flag>>, volumes: seq<Volume>, i: nat, j: nat)
    requires Satisfiable(flags, Some(volumes)) && DistinctIds(volumes)
    requires i < j < |flags| && ByName(flags[i].value) && ByName(flags[j].value)
    ensures VolumeFor(flags, Some(volumes), i) != VolumeFor(flags, Some(volumes), j)
    ensures exists v :: v in volumes && v.id == VolumeFor(flags, Some(volumes), i) && v.name == flags[i].value.volume
  {
    var f, g := flags[i].value, flags[j].value;
    TakesOne(flags, i);
    TakesOne(flags, j);
    if f.volume == g.volume {
      assert flags[..j][..i] == flags[..i];
      TakesOne(flags[..j], i);
    }
    var v := Named(volumes, f.volume)[Demand(flags[..i], f.volume)];
    assert v in Named(volumes, f.volume);
    NamedDistinct(volumes, f.volume, g.volume, Demand(flags[..i], f.volume), Demand(flags[..j], g.volume));
  }

  /** Two flags are given one volume. */
  ghost predicate Shares(flags: seq<Option<Flag>>, volumes: Option<seq<Volume>>)
    requires Satisfiable(flags, volumes)
  {
    exists i, j :: 0 <= i < j < |flags| && VolumeFor(flags, volumes, i) == VolumeFor(flags, volumes, j)
  }

  ghost predicate SameIdTwice(flags: seq<Option<Flag>>)
    requires forall i :: 0 <= i < |flags| ==> flags[i].Some?
  {
    exists i, j :: 0 <= i < j < |flags| && !ByName(flags[i].value) && !ByName(flags[j].value)
                   && flags[i].value.volume == flags[j].value.volume
  }

  /** `id` is that of one of the first volumes of `name`, as many as the flags ask for. */
  ghost predicate Among(flags: seq<Option<Flag>>, volumes: Option<seq<Volume>>, id: string, name: string)
    requires Satisfiable(flags, volumes)
  {
    exists k :: 0 <= k < Demand(flags, name) && Named(volumes.value, name)[k].id == id
  }

  ghost predicate IdIsDrawnToo(flags: seq<Option<Flag>>, volumes: Option<seq<Volume>>)
    requires Satisfiable(flags, volumes)
  {
    exists i, name :: 0 <= i < |flags| && !ByName(flags[i].value) && Among(flags, volumes, flags[i].value.volume, name)
  }

  /** The flag that takes volume `k` of a name. */
  lemma {:induction false} Taker(flags: seq<Option<Flag>>, name: string, k: nat) returns (i: nat)
    requires k < Demand(flags, name)
    ensures i < |flags| && Asks(flags[i], name) && Demand(flags[..i], name) == k
    decreases |flags|
  {
    var n := |flags| - 1;
    if k < Demand(flags[..n], name) {
      i := Taker(flags[..n], name, k);
      assert flags[..n][..i] == flags[..i];
    } else {
      i := n;
    }
  }

  lemma DrawnIsAmong(flags: seq<Option<Flag>>, volumes: Option<seq<Volume>>, i: nat)
    requires Satisfiable(flags, volumes) && i < |flags| && ByName(flags[i].value)
    ensures Among(flags, volumes, VolumeFor(flags, volumes, i), flags[i].value.volume)
  {
    TakesOne(flags, i);
    var name := flags[i].value.volume;
    assert Named(volumes.value, name)[Demand(flags[..i], name)].id == VolumeFor(flags, volumes, i);
  }

  lemma SharedThenListed(flags: seq<Option<Flag>>, volumes: Option<seq<Volume>>, i: nat, j: nat)
    requires Satisfiable(flags, volumes) && (volumes.Some? ==> DistinctIds(volumes.value))
    requires i < j < |flags| && VolumeFor(flags, volumes, i) == VolumeFor(flags, volumes, j)
    ensures SameIdTwice(flags) || IdIsDrawnToo(flags, volumes)
  {
    var f, g := flags[i].value, flags[j].value;
    if ByName(f) && ByName(g) {
      TakesOne(flags, i);
      DrawnAreDistinct(flags, volumes.value, i, j);
    } else if ByName(f) {
      DrawnIsAmong(flags, volumes, i);
    } else if ByName(g) {
      DrawnIsAmong(flags, volumes, j);
    }
  }

  lemma ListedThenShared(flags: seq<Option<Flag>>, volumes: Option<seq<Volume>>, i: nat, name: string)
    requires Satisfiable(flags, volumes) && i < |flags| && !ByName(flags[i].value)
    requires Among(flags, volumes, flags[i].value.volume, name)
    ensures Shares(flags, volumes)
  {
    var k :| 0 <= k < Demand(flags, name) && Named(volumes.value, name)[k].id == flags[i].value.volume;
    var j := Taker(flags, name, k);
    assert VolumeFor(flags, volumes, j) == VolumeFor(flags, volumes, i);
    if i < j {
      assert 0 <= i < j < |flags|;
    } else {
      assert 0 <= j < i < |flags|;
    }
  }

  /**
   * A volume given by id is not taken out of the pool. So no two flags get one volume exactly when no id is given twice
   * and no id given is that of a volume which the flags draw by its name.
   */
  lemma SharesIff(flags: seq<Option<Flag>>, volumes: Option<seq<Volume>>)
    requires Satisfiable(flags, volumes) && (volumes.Some? ==> DistinctIds(volumes.value))
    ensures Shares(flags, volumes) <==> SameIdTwice(flags) || IdIsDrawnToo(flags, volumes)
  {
    if Shares(flags, volumes) {
      var i, j :| 0 <= i < j < |flags| && VolumeFor(flags, volumes, i) == VolumeFor(flags, volumes, j);
      SharedThenListed(flags, volumes, i, j);
    }
    if SameIdTwice(flags) {
      var i, j :| 0 <= i < j < |flags| && !ByName(flags[i].value) && !ByName(flags[j].value)
                  && flags[i].value.volume == flags[j].value.volume;
      assert VolumeFor(flags, volumes, i) == VolumeFor(flags, volumes, j);
    }
    if IdIsDrawnToo(flags, volumes) {
      var i, name :| 0 <= i < |flags| && !ByName(flags[i].value) && Among(flags, volumes, flags[i].value.volume, name);
      ListedThenShared(flags, volumes, i, name);
    }
  }

  /** It happens: the id of the only volume of a name, and then that name. */
  lemma IdThenNameCanShare()
    ensures var flags := [Some(Flag("vol_1", "/a")), Some(Flag("data", "/b"))];
            var volumes := Some([Volume("vol_1", "data")]);
            Satisfiable(flags, volumes) && VolumeFor(flags, volumes, 0) == VolumeFor(flags, volumes, 1)
  {
    var flags := [Some(Flag("vol_1", "/a")), Some(Flag("data", "/b"))];
    var volumes := Some([Volume("vol_1", "data")]);
    assert flags[..1] == [Some(Flag("vol_1", "/a"))];
    assert !ByName(Flag("vol_1", "/a"));
    assert "data"[0] != "vol_"[0];
    assert ByName(Flag("data", "/b"));
    assert Named(volumes.value, "data") == volumes.value;
    forall name ensures Demand(flags, name) == if name == "data" then 1 else 0 {
      assert Demand(flags[..1], name) == Demand([], name);
    }
  }

  // ---------------------------------------------------------------------------
  // Where the volumes are mounted
  // ---------------------------------------------------------------------------

  datatype Assignment = Assignment(volume: string, path: string)

  function Assignments(flags: seq<Option<Flag>>, volumes: Option<seq<Volume>>): (r: seq<Assignment>)
    requires Satisfiable(flags, volumes)
  {
    seq(|flags|, i requires 0 <= i < |flags| => Assignment(VolumeFor(flags, volumes, i), flags[i].value.path))
  }

  /** The last mount at `path`; -1 if there is none. */
  function LastAt(mounts: seq<Mount>, path: string): (i: int)
    ensures -1 <= i < |mounts|
    ensures i >= 0 ==> mounts[i].path == path
    ensures forall j :: i < j < |mounts| ==> mounts[j].path != path
  {
    if mounts == [] then -1
    else if mounts[|mounts| - 1].path == path then |mounts| - 1
    else LastAt(mounts[..|mounts| - 1], path)
  }

  function MountOne(given: seq<Mount>, mounts: seq<Mount>, a: Assignment): (r: seq<Mount>)
    requires |given| <= |mounts|
    ensures |given| <= |r|
  {
    var i := LastAt(given, a.path);
    if i >= 0 then mounts[i := mounts[i].(volume := a.volume)]
    else mounts + [Mount(a.volume, a.path, map[])]
  }

  function Mounted(given: seq<Mount>, chosen: seq<Assignment>): (r: seq<Mount>)
    ensures |given| <= |r|
  {
    if chosen == [] then given
    else MountOne(given, Mounted(given, chosen[..|chosen| - 1]), chosen[|chosen| - 1])
  }

  /** The last volume assigned to a path. */
  function LastFor(chosen: seq<Assignment>, path: string, otherwise: string): (volume: string) {
    if chosen == [] then otherwise
    else if chosen[|chosen| - 1].path == path then chosen[|chosen| - 1].volume
    else LastFor(chosen[..|chosen| - 1], path, otherwise)
  }

  function Added(given: seq<Mount>, chosen: seq<Assignment>): (r: seq<Assignment>) {
    Filter(chosen, (a: Assignment) => LastAt(given, a.path) < 0)
  }

  /** A mount that was given keeps its place and its other settings, and has the volume assigned last to its path. */
  lemma {:induction false} GivenMounts(given: seq<Mount>, chosen: seq<Assignment>)
    ensures var r := Mounted(given, chosen);
            forall i :: 0 <= i < |given| ==>
              r[i] == if LastAt(given, given[i].path) == i
                      then given[i].(volume := LastFor(chosen, given[i].path, given[i].volume)) else given[i]
  {
    if chosen != [] {
      GivenMounts(given, chosen[..|chosen| - 1]);
    }
  }

  /** Each flag for a path that was not given adds a mount, in order, even if an earlier flag has added that path. */
  lemma {:induction false} AddedMounts(given: seq<Mount>, chosen: seq<Assignment>)
    ensures var r := Mounted(given, chosen); var added := Added(given, chosen);
            && |r| == |given| + |added|
            && (forall i :: 0 <= i < |added| ==> r[|given| + i] == Mount(added[i].volume, added[i].path, map[]))
  {
    if chosen != [] {
      var n := |chosen| - 1;
      AddedMounts(given, chosen[..n]);
      assert chosen == chosen[..n] + [chosen[n]];
      FilterSnoc(chosen[..n], chosen[n], (a: Assignment) => LastAt(given, a.path) < 0);
      OneMoreMount(given, Mounted(given, chosen[..n]), chosen[n], Added(given, chosen[..n]));
    }
  }

  lemma OneMoreMount(given: seq<Mount>, before: seq<Mount>, a: Assignment, added: seq<Assignment>)
    requires |before| == |given| + |added|
    requires forall i :: 0 <= i < |added| ==> before[|given| + i] == Mount(added[i].volume, added[i].path, map[])
    ensures var r := MountOne(given, before, a);
            var all := if LastAt(given, a.path) < 0 then added + [a] else added;
            && |r| == |given| + |all|
            && (forall i :: 0 <= i < |all| ==> r[|given| + i] == Mount(all[i].volume, all[i].path, map[]))
  {
  }

  predicate UniquePaths(mounts: seq<Mount>) {
    forall i, j :: 0 <= i < j < |mounts| ==> mounts[i].path != mounts[j].path
  }

  /** The index of paths is not updated for added mounts, so flags that add a path twice leave two mounts there. */
  lemma UniquePathsIff(given: seq<Mount>, chosen: seq<Assignment>)
    requires UniquePaths(given)
    ensures UniquePaths(Mounted(given, chosen)) <==>
            (var added := Added(given, chosen); forall i, j :: 0 <= i < j < |added| ==> added[i].path != added[j].path)
  {
    GivenMounts(given, chosen);
    AddedMounts(given, chosen);
    var r, added := Mounted(given, chosen), Added(given, chosen);
    var n := |given|;
    forall i | 0 <= i < n ensures r[i].path == given[i].path {
    }
    forall j | n <= j < |r| ensures r[j].path == added[j - n].path && LastAt(given, r[j].path) < 0 {
      assert added[j - n] in added && r[n + (j - n)] == r[j];
    }
    forall i, j | 0 <= i < j < |added| ensures added[i].path == added[j].path ==> !UniquePaths(r) {
      assert r[n + i].path == added[i].path && r[n + j].path == added[j].path;
    }
  }

  // ---------------------------------------------------------------------------
  // One volume in two mounts
  // ---------------------------------------------------------------------------

  /** What a mount of the result has its volume from: the mount as given, or a flag. */
  datatype Source = Given(i: nat) | Chosen(k: nat)

  /** The last flag for `path`; -1 if there is none. */
  function LastChosen(chosen: seq<Assignment>, path: string): (k: int)
    ensures -1 <= k < |chosen|
    ensures k >= 0 ==> chosen[k].path == path
    ensures forall l :: k < l < |chosen| ==> chosen[l].path != path
  {
    if chosen == [] then -1
    else if chosen[|chosen| - 1].path == path then |chosen| - 1
    else LastChosen(chosen[..|chosen| - 1], path)
  }

  lemma {:induction false} LastForIsLastChosen(chosen: seq<Assignment>, path: string, otherwise: string)
    ensures var k := LastChosen(chosen, path);
            LastFor(chosen, path, otherwise) == if k < 0 then otherwise else chosen[k].volume
  {
    if chosen != [] {
      LastForIsLastChosen(chosen[..|chosen| - 1], path, otherwise);
    }
  }

  /** The mount as given that no flag overwrites, or the flag that no later one overwrites: told of the input alone. */
  predicate Stands(given: seq<Mount>, chosen: seq<Assignment>, x: Source) {
    match x
    case Given(i) => i < |given| && (LastAt(given, given[i].path) == i ==> LastChosen(chosen, given[i].path) < 0)
    case Chosen(k) => k < |chosen| && (LastAt(given, chosen[k].path) < 0 || LastChosen(chosen, chosen[k].path) == k)
  }

  function VolumeOf(given: seq<Mount>, chosen: seq<Assignment>, x: Source): (volume: string)
    requires Stands(given, chosen, x)
  {
    match x
    case Given(i) => given[i].volume
    case Chosen(k) => chosen[k].volume
  }

  /** The positions of the flags that add a mount. */
  function AddedAt(given: seq<Mount>, chosen: seq<Assignment>): (ks: seq<nat>) {
    Positions(chosen, (a: Assignment) => LastAt(given, a.path) < 0)
  }

  function SourceOf(given: seq<Mount>, chosen: seq<Assignment>, j: nat): (x: Source)
    requires j < |given| + |AddedAt(given, chosen)|
  {
    if j >= |given| then Chosen(AddedAt(given, chosen)[j - |given|])
    else
      var k := LastChosen(chosen, given[j].path);
      if LastAt(given, given[j].path) == j && k >= 0 then Chosen(k) else Given(j)
  }

  lemma SourceStands(given: seq<Mount>, chosen: seq<Assignment>, j: nat)
    requires j < |given| + |AddedAt(given, chosen)|
    ensures Stands(given, chosen, SourceOf(given, chosen, j))
  {
  }

  lemma AddedByPosition(given: seq<Mount>, chosen: seq<Assignment>)
    ensures var added, ks := Added(given, chosen), AddedAt(given, chosen);
            && |added| == |ks| && (forall i :: 0 <= i < |ks| ==> added[i] == chosen[ks[i]])
            && (forall k :: 0 <= k < |chosen| && LastAt(given, chosen[k].path) < 0 ==> k in ks)
  {
    FilterByPosition(chosen, (a: Assignment) => LastAt(given, a.path) < 0);
  }

  lemma SourceHasVolume(given: seq<Mount>, chosen: seq<Assignment>, j: nat)
    requires j < |given| + |AddedAt(given, chosen)|
    ensures |Mounted(given, chosen)| == |given| + |AddedAt(given, chosen)|
    ensures Stands(given, chosen, SourceOf(given, chosen, j))
    ensures Mounted(given, chosen)[j].volume == VolumeOf(given, chosen, SourceOf(given, chosen, j))
  {
    SourceStands(given, chosen, j);
    AddedByPosition(given, chosen);
    AddedMounts(given, chosen);
    if j < |given| {
      GivenMounts(given, chosen);
      LastForIsLastChosen(chosen, given[j].path, given[j].volume);
    } else {
      var i := j - |given|;
      assert Mounted(given, chosen)[|given| + i].volume == Added(given, chosen)[i].volume;
    }
  }

  lemma SourcesDiffer(given: seq<Mount>, chosen: seq<Assignment>, i: nat, j: nat)
    requires i < j < |given| + |AddedAt(given, chosen)|
    ensures SourceOf(given, chosen, i) != SourceOf(given, chosen, j)
  {
  }

  lemma PlaceOf(ks: seq<nat>, k: nat) returns (i: nat)
    requires k in ks
    ensures i < |ks| && ks[i] == k
  {
    i :| i < |ks| && ks[i] == k;
  }

  lemma AddsAMount(given: seq<Mount>, chosen: seq<Assignment>, k: nat)
    requires k < |chosen| && LastAt(given, chosen[k].path) < 0
    ensures k in AddedAt(given, chosen)
  {
    PositionsComplete(chosen, (a: Assignment) => LastAt(given, a.path) < 0, k);
  }

  lemma ChosenIsMounted(given: seq<Mount>, chosen: seq<Assignment>, k: nat) returns (j: nat)
    requires k < |chosen| && LastAt(given, chosen[k].path) < 0
    ensures |given| <= j < |given| + |AddedAt(given, chosen)| && AddedAt(given, chosen)[j - |given|] == k
  {
    AddsAMount(given, chosen, k);
    var i := PlaceOf(AddedAt(given, chosen), k);
    j := |given| + i;
  }

  lemma SourceIsMounted(given: seq<Mount>, chosen: seq<Assignment>, x: Source) returns (j: nat)
    requires Stands(given, chosen, x)
    ensures j < |given| + |AddedAt(given, chosen)| && SourceOf(given, chosen, j) == x
  {
    match x
    case Given(i) => j := i;
    case Chosen(k) =>
      if LastAt(given, chosen[k].path) >= 0 {
        j := LastAt(given, chosen[k].path);
      } else {
        j := ChosenIsMounted(given, chosen, k);
      }
  }

  ghost predicate HoldsTwice(mounts: seq<Mount>) {
    exists i, j :: 0 <= i < j < |mounts| && mounts[i].volume == mounts[j].volume
  }

  ghost predicate TwoStand(given: seq<Mount>, chosen: seq<Assignment>) {
    exists x, y :: x != y && Stands(given, chosen, x) && Stands(given, chosen, y)
                   && VolumeOf(given, chosen, x) == VolumeOf(given, chosen, y)
  }

  lemma MountedTwice(given: seq<Mount>, chosen: seq<Assignment>, i: nat, j: nat)
    requires i < j < |Mounted(given, chosen)| && Mounted(given, chosen)[i].volume == Mounted(given, chosen)[j].volume
    ensures TwoStand(given, chosen)
  {
    AddedByPosition(given, chosen);
    AddedMounts(given, chosen);
    SourceHasVolume(given, chosen, i);
    SourceHasVolume(given, chosen, j);
    SourcesDiffer(given, chosen, i, j);
  }

  lemma SourcesMountTwice(given: seq<Mount>, chosen: seq<Assignment>, x: Source, y: Source)
    requires x != y && Stands(given, chosen, x) && Stands(given, chosen, y)
    requires VolumeOf(given, chosen, x) == VolumeOf(given, chosen, y)
    ensures HoldsTwice(Mounted(given, chosen))
  {
    var r := Mounted(given, chosen);
    var i := SourceIsMounted(given, chosen, x);
    var j := SourceIsMounted(given, chosen, y);
    SourceHasVolume(given, chosen, i);
    SourceHasVolume(given, chosen, j);
    if i < j {
      assert r[i].volume == r[j].volume;
    } else {
      assert r[j].volume == r[i].volume;
    }
  }

  /** The result holds a volume twice exactly when two of the mounts and flags that are not overwritten have it. */
  lemma HoldsTwiceIff(given: seq<Mount>, chosen: seq<Assignment>)
    ensures HoldsTwice(Mounted(given, chosen)) <==> TwoStand(given, chosen)
  {
    var r := Mounted(given, chosen);
    if HoldsTwice(r) {
      var i, j :| 0 <= i < j < |r| && r[i].volume == r[j].volume;
      MountedTwice(given, chosen, i, j);
    }
    if TwoStand(given, chosen) {
      var x, y :| x != y && Stands(given, chosen, x) && Stands(given, chosen, y)
                  && VolumeOf(given, chosen, x) == VolumeOf(given, chosen, y);
      SourcesMountTwice(given, chosen, x, y);
    }
  }

  /** The flag draws its volume by name. */
  predicate Draws(flags: seq<Option<Flag>>, x: Source) {
    x.Chosen? && x.k < |flags| && flags[x.k].Some? && ByName(flags[x.k].value)
  }

  /** Two that stand have one volume, and one of them at least is a mount as given or a flag with an id. */
  ghost predicate TwoStandUndrawn(given: seq<Mount>, flags: seq<Option<Flag>>, chosen: seq<Assignment>) {
    exists x, y :: x != y && Stands(given, chosen, x) && Stands(given, chosen, y)
                   && VolumeOf(given, chosen, x) == VolumeOf(given, chosen, y) && !(Draws(flags, x) && Draws(flags, y))
  }

  /**
   * The mounts that are left hold one volume twice exactly when it is that of two mounts and flags which are not
   * overwritten, and not both of these are flags that drew it by name.
   */
  lemma MountsHoldTwiceIff(given: seq<Mount>, flags: seq<Option<Flag>>, volumes: Option<seq<Volume>>)
    requires Satisfiable(flags, volumes) && (volumes.Some? ==> DistinctIds(volumes.value))
    ensures var chosen := Assignments(flags, volumes);
            HoldsTwice(Mounted(given, chosen)) <==> TwoStandUndrawn(given, flags, chosen)
  {
    var chosen := Assignments(flags, volumes);
    HoldsTwiceIff(given, chosen);
    forall x, y | x != y && Stands(given, chosen, x) && Stands(given, chosen, y) && Draws(flags, x) && Draws(flags, y)
      ensures VolumeOf(given, chosen, x) != VolumeOf(given, chosen, y)
    {
      TakesOne(flags, x.k);
      if x.k < y.k {
        DrawnAreDistinct(flags, volumes.value, x.k, y.k);
      } else {
        DrawnAreDistinct(flags, volumes.value, y.k, x.k);
      }
    }
  }

  // ---------------------------------------------------------------------------
  // The algorithm
  // ---------------------------------------------------------------------------

  method GroupByName(volumes: seq<Volume>) returns (pool: map<string, seq<Volume>>)
    ensures forall name :: name in pool <==> Named(volumes, name) != []
    ensures forall name :: name in pool ==> pool[name] == Named(volumes, name)
  {
    pool := map[];
    for i := 0 to |volumes|
      invariant forall name :: name in pool <==> Named(volumes[..i], name) != []
      invariant forall name :: name in pool ==> pool[name] == Named(volumes[..i], name)
    {
      var v := volumes[i];
      forall name
        ensures Named(volumes[..i + 1], name) == Named(volumes[..i], name) + (if v.name == name then [v] else [])
      {
        assert volumes[..i + 1] == volumes[..i] + [v];
        FilterAppend(volumes[..i], [v], (v: Volume) => v.name == name);
      }
      pool := pool[v.name := (if v.name in pool then pool[v.name] else []) + [v]];
    }
    assert volumes[..|volumes|] == volumes;
  }

  method IndexPaths(mounts: seq<Mount>) returns (index: map<string, nat>)
    ensures forall p :: p in index <==> LastAt(mounts, p) >= 0
    ensures forall p :: p in index ==> index[p] == LastAt(mounts, p)
  {
    index := map[];
    for i := 0 to |mounts|
      invariant forall p :: p in index <==> LastAt(mounts[..i], p) >= 0
      invariant forall p :: p in index ==> index[p] == LastAt(mounts[..i], p)
    {
      index := index[mounts[i].path := i];
      assert mounts[..i + 1][..i] == mounts[..i];
    }
    assert mounts[..|mounts|] == mounts;
  }

  /**
   * What is in the pool: for every name the volumes no flag has taken; nothing is loaded before a name is asked for.
   */
  ghost predicate PoolAfter(flags: seq<Option<Flag>>, volumes: Option<seq<Volume>>, pool: map<string, seq<Volume>>,
                             loads: nat)
  {
    if loads == 0 then pool == map[] && forall name :: Demand(flags, name) == 0
    else
      && loads == 1 && pool != map[] && volumes.Some?
      && (forall name :: name in pool <==> Named(volumes.value, name) != [])
      && (forall name :: name in pool ==>
            Demand(flags, name) <= |Named(volumes.value, name)|
            && pool[name] == Named(volumes.value, name)[Demand(flags, name)..])
      && (exists name :: Demand(flags, name) > 0)
  }

  lemma DemandSnoc(flags: seq<Option<Flag>>, i: nat, name: string)
    requires i < |flags|
    ensures Demand(flags[..i + 1], name) == Demand(flags[..i], name) + if Asks(flags[i], name) then 1 else 0
  {
    assert flags[..i + 1][..i] == flags[..i];
  }

  lemma Unsatisfied(flags: seq<Option<Flag>>, volumes: Option<seq<Volume>>, i: nat)
    requires i < |flags| && flags[i].Some? && ByName(flags[i].value)
    requires volumes.None? || |Named(volumes.value, flags[i].value.volume)| <= Demand(flags[..i], flags[i].value.volume)
    ensures !Satisfiable(flags, volumes)
  {
    TakesOne(flags, i);
  }

  /** One draw: load the pool the first time, then take the first volume of the name. */
  method Draw(flags: seq<Option<Flag>>, volumes: Option<seq<Volume>>, i: nat, pool: map<string, seq<Volume>>,
              loads: nat)
    returns (id: Option<string>, pool': map<string, seq<Volume>>, loads': nat)
    requires i < |flags| && flags[i].Some? && ByName(flags[i].value)
    requires Satisfiable(flags[..i], volumes) && PoolAfter(flags[..i], volumes, pool, loads)
    ensures id.None? ==> !Satisfiable(flags, volumes) && loads' <= 1
    ensures id.Some? ==>
              && volumes.Some?
              && Demand(flags[..i], flags[i].value.volume) < |Named(volumes.value, flags[i].value.volume)|
              && id.value == Named(volumes.value, flags[i].value.volume)[Demand(flags[..i], flags[i].value.volume)].id
              && PoolAfter(flags[..i + 1], volumes, pool', loads')
  {
    var name := flags[i].value.volume;
    pool', loads' := pool, loads;
    if |pool'| == 0 {
      loads' := loads' + 1;
      if volumes.None? || volumes.value == [] {
        Unsatisfied(flags, volumes, i);
        return None, pool', loads';
      }
      pool' := GroupByName(volumes.value);
      assert volumes.value[0] in Named(volumes.value, volumes.value[0].name);
      assert volumes.value[0].name in pool';
    }
    if name !in pool' || pool'[name] == [] {
      Unsatisfied(flags, volumes, i);
      return None, pool', loads';
    }
    id := Some(pool'[name][0].id);
    pool' := pool'[name := pool'[name][1..]];
    forall n ensures Demand(flags[..i + 1], n) == Demand(flags[..i], n) + if n == name then 1 else 0 {
      DemandSnoc(flags, i, n);
    }
  }

  lemma AssignmentsSnoc(flags: seq<Option<Flag>>, volumes: Option<seq<Volume>>, i: nat)
    requires i < |flags| && Satisfiable(flags[..i], volumes) && Satisfiable(flags[..i + 1], volumes)
    ensures Assignments(flags[..i + 1], volumes)
         == Assignments(flags[..i], volumes) + [Assignment(VolumeFor(flags[..i + 1], volumes, i), flags[i].value.path)]
  {
    var more, before := flags[..i + 1], flags[..i];
    forall j | 0 <= j < i ensures more[..j] == before[..j] && more[j] == before[j] {
    }
  }

  lemma SatisfiableSnoc(flags: seq<Option<Flag>>, volumes: Option<seq<Volume>>, i: nat)
    requires i < |flags| && Satisfiable(flags[..i], volumes) && flags[i].Some?
    requires ByName(flags[i].value) ==>
               volumes.Some?
               && Demand(flags[..i], flags[i].value.volume) < |Named(volumes.value, flags[i].value.volume)|
    ensures Satisfiable(flags[..i + 1], volumes)
  {
    forall n ensures Demand(flags[..i + 1], n) == Demand(flags[..i], n) + if Asks(flags[i], n) then 1 else 0 {
      DemandSnoc(flags, i, n);
    }
    var more := flags[..i + 1];
    forall j | 0 <= j < |more| ensures more[j].Some? {
      assert j < i ==> more[j] == flags[..i][j];
    }
  }

  /** The choice for flag `i`, and the pool after it. */
  method Choose(flags: seq<Option<Flag>>, volumes: Option<seq<Volume>>, i: nat, pool: map<string, seq<Volume>>,
                loads: nat)
    returns (id: Option<string>, pool': map<string, seq<Volume>>, loads': nat)
    requires i < |flags| && flags[i].Some?
    requires Satisfiable(flags[..i], volumes) && PoolAfter(flags[..i], volumes, pool, loads)
    ensures id.None? ==> !Satisfiable(flags, volumes) && loads' <= 1
    ensures id.Some? ==>
              && Satisfiable(flags[..i + 1], volumes) && id.value == VolumeFor(flags[..i + 1], volumes, i)
              && PoolAfter(flags[..i + 1], volumes, pool', loads')
  {
    assert flags[..i + 1][..i] == flags[..i];
    if ByName(flags[i].value) {
      id, pool', loads' := Draw(flags, volumes, i, pool, loads);
      if id.Some? {
        SatisfiableSnoc(flags, volumes, i);
      }
    } else {
      id, pool', loads' := Some(flags[i].value.volume), pool, loads;
      SatisfiableSnoc(flags, volumes, i);
      forall n ensures Demand(flags[..i + 1], n) == Demand(flags[..i], n) {
        DemandSnoc(flags, i, n);
      }
    }
  }

  /**
   * It succeeds exactly when the flags can be satisfied. The volumes are listed at most once, and what is left in the
   * pool, after what the flags took, makes up the volumes of each name.
   */
  method DetermineMounts(given: seq<Mount>, flags: seq<Option<Flag>>, volumes: Option<seq<Volume>>)
    returns (r: Result<seq<Mount>, ()>, left: map<string, seq<Volume>>, loads: nat)
    ensures r.Ok? <==> Satisfiable(flags, volumes)
    ensures r.Ok? ==> r.value == Mounted(given, Assignments(flags, volumes)) && PoolAfter(flags, volumes, left, loads)
    ensures loads <= 1
  {
    var index := IndexPaths(given);
    var mounts := given;
    left, loads := map[], 0;
    for i := 0 to |flags|
      invariant Satisfiable(flags[..i], volumes) && PoolAfter(flags[..i], volumes, left, loads)
      invariant mounts == Mounted(given, Assignments(flags[..i], volumes))
    {
      if flags[i].None? {
        return Err(()), left, loads;
      }
      var id;
      id, left, loads := Choose(flags, volumes, i, left, loads);
      if id.None? {
        return Err(()), left, loads;
      }
      var path := flags[i].value.path;
      ghost var before, after := Assignments(flags[..i], volumes), Assignments(flags[..i + 1], volumes);
      AssignmentsSnoc(flags, volumes, i);
      assert after[..|after| - 1] == before;
      if path in index {
        mounts := mounts[index[path] := mounts[index[path]].(volume := id.value)];
      } else {
        mounts := mounts + [Mount(id.value, path, map[])];
      }
    }
    assert flags[..|flags|] == flags;
    r := Ok(mounts);
  }
}
