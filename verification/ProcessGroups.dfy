/** Projection of an app config onto one process group (internal/appconfig/processgroups.go). */
module ProcessGroups {
  import opened Prelude
  import opened AppConfig
  import Names

  // ---------------------------------------------------------------------------
  // The projection as a function
  // ---------------------------------------------------------------------------

  function Retagged<T>(x: Tagged<T>, g: string): (y: Tagged<T>) {
    Tagged(x.body, [g])
  }

  function Owned<T>(c: Config, g: string, xs: seq<Tagged<T>>): (ys: seq<Tagged<T>>) {
    Filter(xs, (x: Tagged<T>) => c.GroupsMatch(g, x.processes))
  }

  /** The sections of a list that belong to `g`, each now naming `g` only. */
  function Project<T>(c: Config, g: string, xs: seq<Tagged<T>>): (ys: seq<Tagged<T>>) {
    Map(Owned(c, g, xs), (x: Tagged<T>) => Retagged(x, g))
  }

  /** lo.MaxBy: a later item replaces the best so far when it names `g`. */
  function MostSpecific(xs: seq<Tagged<Compute>>, g: string): (best: Option<Tagged<Compute>>)
    ensures best.Some? <==> xs != []
    ensures best.Some? ==> best.value in xs
  {
    if xs == [] then None
    else
      var n := |xs| - 1;
      if n == 0 || g in xs[n].processes then Some(xs[n]) else MostSpecific(xs[..n], g)
  }

  function ComputeForGroup(c: Config, group: string): (best: Option<Tagged<Compute>>) {
    var g := c.Resolve(group);
    MostSpecific(Filter(c.compute, (x: Tagged<Compute>) => x.processes == [] || c.GroupsMatch(g, x.processes)), g)
  }

  function KeptProcesses(c: Config, g: string): (ps: map<string, string>) {
    var named := c.(defaultGroupName := g);
    map k | k in c.processes && named.GroupMatches(g, k) :: c.processes[k]
  }

  function KeptChecks(c: Config, g: string): (cs: map<string, Tagged<TopCheck>>) {
    map k | k in c.checks && c.GroupsMatch(g, c.checks[k].processes) :: Retagged(c.checks[k], g)
  }

  function KeptHttpService(c: Config, g: string): (h: Option<Tagged<HttpService>>) {
    if c.httpService.Some? && c.GroupsMatch(g, c.httpService.value.processes)
    then Some(Retagged(c.httpService.value, g)) else None
  }

  /** The sections of `c` for group `g`, before the compute section is chosen. */
  function FlattenSections(c: Config, g: string): (dst: Config) {
    c.(configFilePath := FLATTEN_PATH,
       defaultGroupName := g,
       processes := KeptProcesses(c, g),
       checks := KeptChecks(c, g),
       httpService := KeptHttpService(c, g),
       services := Project(c, g, c.services),
       mounts := Project(c, g, c.mounts),
       files := Project(c, g, c.files),
       metrics := Project(c, g, c.metrics),
       restart := Project(c, g, c.restart))
  }

  function ChooseCompute(dst: Config, g: string): (out: Config) {
    match ComputeForGroup(dst, g)
    case None => dst.(compute := [])
    case Some(best) =>
      var guest := best.body.guest;
      var hostId := if guest.Some? && guest.value.hostDedicationId != ""
                    then guest.value.hostDedicationId else dst.hostDedicationId;
      dst.(hostDedicationId := hostId, compute := [Retagged(best, g)])
  }

  function Flattened(c: Config, group: string): (dst: Config) {
    var g := c.Resolve(group);
    ChooseCompute(FlattenSections(c, g), g)
  }

  // ---------------------------------------------------------------------------
  // The projection as the source performs it
  // ---------------------------------------------------------------------------

  /** Filter a list section, then rename the groups of what is left, item by item. */
  method KeepOwned<T>(c: Config, g: string, xs: seq<Tagged<T>>) returns (ys: seq<Tagged<T>>)
    ensures ys == Project(c, g, xs)
  {
    var kept := Owned(c, g, xs);
    ys := kept;
    for i := 0 to |kept|
      invariant |ys| == |kept|
      invariant forall j :: 0 <= j < i ==> ys[j] == Retagged(kept[j], g)
      invariant forall j :: i <= j < |kept| ==> ys[j] == kept[j]
    {
      ys := ys[i := ys[i].(processes := [g])];
    }
  }

  /** The same for the check table, whose keys come in any order. */
  method KeepChecks(c: Config, g: string) returns (out: map<string, Tagged<TopCheck>>)
    ensures out == KeptChecks(c, g)
  {
    var kept := map k | k in c.checks && c.GroupsMatch(g, c.checks[k].processes) :: c.checks[k];
    out := kept;
    var todo := kept.Keys;
    while todo != {}
      invariant todo <= kept.Keys == out.Keys
      invariant forall k :: k in kept ==> out[k] == if k in todo then kept[k] else Retagged(kept[k], g)
      decreases todo
    {
      var k :| k in todo;
      out := out[k := out[k].(processes := [g])];
      todo := todo - {k};
    }
  }

  method Flatten(c: Config, group: string) returns (r: Result<Config, string>)
    ensures c.unmarshalFailed ==> r.Err?
    ensures !c.unmarshalFailed ==> r == Ok(Flattened(c, group))
  {
    if c.unmarshalFailed {
      return Err("can not flatten an invalid v2 application config");
    }
    var g := if group == "" then c.DefaultProcessName() else group;
    var dst := KeepSections(c, g);
    dst := KeepCompute(dst, g);
    r := Ok(dst);
  }

  method KeepSections(c: Config, g: string) returns (dst: Config)
    ensures dst == FlattenSections(c, g)
  {
    dst := c.(configFilePath := FLATTEN_PATH, defaultGroupName := g);
    dst := dst.(processes := KeptProcesses(c, g));
    var checks := KeepChecks(c, g);
    dst := dst.(checks := checks);
    if dst.httpService.Some? {
      if c.GroupsMatch(g, dst.httpService.value.processes) {
        dst := dst.(httpService := Some(dst.httpService.value.(processes := [g])));
      } else {
        dst := dst.(httpService := None);
      }
    }
    assert dst.httpService == KeptHttpService(c, g);
    var services := KeepOwned(c, g, c.services);
    dst := dst.(services := services);
    var mounts := KeepOwned(c, g, c.mounts);
    dst := dst.(mounts := mounts);
    var files := KeepOwned(c, g, c.files);
    dst := dst.(files := files);
    var metrics := KeepOwned(c, g, c.metrics);
    dst := dst.(metrics := metrics);
    var restart := KeepOwned(c, g, c.restart);
    dst := dst.(restart := restart);
  }

  method KeepCompute(c: Config, g: string) returns (dst: Config)
    ensures dst == ChooseCompute(c, g)
  {
    var best := ComputeForGroup(c, g);
    dst := c.(compute := []);
    if best.Some? {
      var guest := best.value.body.guest;
      if guest.Some? && guest.value.hostDedicationId != "" {
        dst := dst.(hostDedicationId := guest.value.hostDedicationId);
      }
      dst := dst.(compute := [best.value.(processes := [g])]);
    }
  }

  // ---------------------------------------------------------------------------
  // Which sections a group receives
  // ---------------------------------------------------------------------------

  /** A section claims `g` when it names `g`; with no name, or an empty one, it claims the default group. */
  ghost predicate Claims(c: Config, g: string, processes: seq<string>) {
    g in processes || ((processes == [] || "" in processes) && g == c.DefaultProcessName())
  }

  lemma MatchesExactlyClaims(c: Config, g: string, processes: seq<string>)
    requires g != ""
    ensures c.GroupsMatch(g, processes) <==> Claims(c, g, processes)
  {
    if g in processes {
      assert c.GroupMatches(g, g);
    }
    if "" in processes && g == c.DefaultProcessName() {
      assert c.GroupMatches(g, "");
    }
  }

  /** A list section survives, in order and with its body intact, exactly when it claims the group. */
  lemma ProjectionKeepsExactlyClaims<T>(c: Config, g: string, xs: seq<Tagged<T>>)
    requires g != ""
    ensures var kept := Positions(xs, (x: Tagged<T>) => c.GroupsMatch(g, x.processes));
            && (forall k :: 0 <= k < |xs| ==> (k in kept <==> Claims(c, g, xs[k].processes)))
            && |Project(c, g, xs)| == |kept|
            && forall i :: 0 <= i < |kept| ==> Project(c, g, xs)[i] == Tagged(xs[kept[i]].body, [g])
  {
    var p := (x: Tagged<T>) => c.GroupsMatch(g, x.processes);
    FilterByPosition(xs, p);
    forall k | 0 <= k < |xs|
      ensures k in Positions(xs, p) <==> Claims(c, g, xs[k].processes)
    {
      MatchesExactlyClaims(c, g, xs[k].processes);
    }
  }

  /** The name asked for, or "app", when it is defined or nothing is; otherwise the first name in order. */
  lemma DefaultNameIs(c: Config)
    ensures var wanted, name := if c.defaultGroupName == "" then "app" else c.defaultGroupName, c.DefaultProcessName();
            && (c.processes == map[] || wanted in c.processes ==> name == wanted)
            && (c.processes != map[] && wanted !in c.processes ==>
                  name in c.processes && forall k :: k in c.processes ==> Names.LexLe(name, k))
  {
    var wanted := if c.defaultGroupName == "" then "app" else c.defaultGroupName;
    if c.processes != map[] && wanted !in c.processes {
      var names := c.ProcessNames();
      assert names == Names.Sorted(c.processes.Keys);
      forall k | k in c.processes ensures Names.LexLe(names[0], k) {
        var i :| 0 <= i < |names| && names[i] == k;
        Names.LexTotal(k, k);
      }
    }
  }

  // ---------------------------------------------------------------------------
  // Names of a projected config
  // ---------------------------------------------------------------------------

  /** What has no process groups is left alone, but that the config goes by another file name. */
  lemma FlattenKeepsTheRest(c: Config, group: string)
    ensures var d := Flattened(c, group);
            && d.configFilePath == "--flatten--" && d.unmarshalFailed == c.unmarshalFailed
            && d.primaryRegion == c.primaryRegion && d.env == c.env && d.statics == c.statics
            && d.killSignal == c.killSignal && d.killTimeout == c.killTimeout && d.swapSizeMb == c.swapSizeMb
            && d.consoleCommand == c.consoleCommand && d.experimental == c.experimental && d.build == c.build
            && d.deploy == c.deploy && d.mergedFiles == c.mergedFiles
  {
  }

  /** A projected config answers to the group it was projected onto. */
  lemma FlattenedDefaultName(c: Config, group: string)
    requires c.Resolve(group) != ""
    ensures Flattened(c, group).DefaultProcessName() == c.Resolve(group)
    ensures Flattened(c, group).defaultGroupName == c.Resolve(group)
    ensures FlattenSections(c, c.Resolve(group)).DefaultProcessName() == c.Resolve(group)
  {
    var g := c.Resolve(group);
    KeptNoneOrGroup(c, g);
    FlattenedNames(c, group);
    NamedDefault(FlattenSections(c, g), g);
    NamedDefault(Flattened(c, group), g);
  }

  lemma FlattenedNames(c: Config, group: string)
    ensures var d, s := Flattened(c, group), FlattenSections(c, c.Resolve(group));
            && d.processes == s.processes == KeptProcesses(c, c.Resolve(group))
            && d.defaultGroupName == s.defaultGroupName == c.Resolve(group)
  {
  }

  lemma KeptNoneOrGroup(c: Config, g: string)
    requires g != ""
    ensures KeptProcesses(c, g) == map[] || g in KeptProcesses(c, g)
  {
    KeptProcessNames(c, g);
  }

  lemma NamedDefault(d: Config, g: string)
    requires d.defaultGroupName == g && g != "" && (d.processes == map[] || g in d.processes)
    ensures d.DefaultProcessName() == g
  {
    if g in d.processes {
      assert g in d.ProcessNames();
    }
  }

  lemma KeptProcessNames(c: Config, g: string)
    requires g != ""
    ensures KeptProcesses(c, g).Keys == if g !in c.processes then {} else if "" in c.processes then {"", g} else {g}
  {
    var named := c.(defaultGroupName := g);
    if c.processes != map[] {
      if g in c.processes {
        assert named.DefaultProcessName() == g;
      } else {
        assert forall n :: n in named.ProcessNames() ==> n in c.processes;
        assert named.DefaultProcessName() in c.processes;
      }
    }
  }

  /** The group is the only process name, except when an empty name is defined beside it. */
  lemma OnlyProcessNameIff(c: Config, group: string)
    requires c.Resolve(group) != ""
    ensures var g := c.Resolve(group);
            Flattened(c, group).ProcessNames() == [g] <==> !(g in c.processes && "" in c.processes)
  {
    var g := c.Resolve(group);
    KeptProcessNames(c, g);
    var dst := Flattened(c, group);
    assert dst.processes == KeptProcesses(c, g);
    if g !in c.processes {
      assert dst.processes == map[];
    } else {
      var names := dst.ProcessNames();
      assert g in names;
      if "" in c.processes {
        assert "" in names;
      } else {
        forall i | 0 <= i < |names| ensures names[i] == g {
          assert names[i] in names;
        }
        assert |names| == 1;
      }
    }
  }

  // ---------------------------------------------------------------------------
  // Projecting twice
  // ---------------------------------------------------------------------------

  lemma ProjectTwice<T>(c: Config, d: Config, g: string, xs: seq<Tagged<T>>)
    requires g != ""
    ensures Project(d, g, Project(c, g, xs)) == Project(c, g, xs)
  {
    var ys := Project(c, g, xs);
    var p := (x: Tagged<T>) => d.GroupsMatch(g, x.processes);
    forall y | y in ys ensures p(y) {
      MatchesExactlyClaims(d, g, y.processes);
    }
    FilterAll(ys, p);
  }

  lemma ProjectElsewhere<T>(c: Config, d: Config, g: string, h: string, xs: seq<Tagged<T>>)
    requires g != "" && h != "" && g != h
    ensures Project(d, h, Project(c, g, xs)) == []
  {
    var ys := Project(c, g, xs);
    var p := (x: Tagged<T>) => d.GroupsMatch(h, x.processes);
    forall y | y in ys ensures !p(y) {
      MatchesExactlyClaims(d, h, y.processes);
    }
    FilterNone(ys, p);
  }

  lemma ComputeOfSingleton(d: Config, g: string, x: Tagged<Compute>)
    requires g != "" && d.compute == [x] && x.processes == [g]
    ensures ComputeForGroup(d, g) == Some(x)
    ensures forall h :: h != "" && h != g ==> ComputeForGroup(d, h) == None
  {
    var wants := (k: string) => (y: Tagged<Compute>) => y.processes == [] || d.GroupsMatch(k, y.processes);
    MatchesExactlyClaims(d, g, x.processes);
    FilterAll(d.compute, wants(g));
    forall h | h != "" && h != g ensures ComputeForGroup(d, h) == None {
      MatchesExactlyClaims(d, h, x.processes);
      FilterNone(d.compute, wants(h));
    }
  }

  /** Projecting onto the same group again changes nothing. */
  lemma FlattenTwice(c: Config, group: string)
    requires c.Resolve(group) != ""
    ensures Flattened(Flattened(c, group), c.Resolve(group)) == Flattened(c, group)
    ensures Flattened(Flattened(c, group), "") == Flattened(c, group)
  {
    var g := c.Resolve(group);
    var d := Flattened(c, group);
    FlattenedDefaultName(c, group);
    SectionsTwice(c, d, g);
    ChooseTwice(FlattenSections(c, g), g);
    assert d.Resolve(g) == g && d.Resolve("") == g;
  }

  lemma ChooseTwice(dst: Config, g: string)
    requires g != ""
    ensures ChooseCompute(ChooseCompute(dst, g), g) == ChooseCompute(dst, g)
  {
    var d := ChooseCompute(dst, g);
    if d.compute == [] {
      assert ComputeForGroup(d, g) == None;
    } else {
      ComputeOfSingleton(d, g, d.compute[0]);
    }
  }

  lemma SectionsTwice(c: Config, d: Config, g: string)
    requires g != "" && d == ChooseCompute(FlattenSections(c, g), g)
    ensures FlattenSections(d, g) == d
  {
    ProjectTwice(c, d, g, c.services);
    ProjectTwice(c, d, g, c.mounts);
    ProjectTwice(c, d, g, c.files);
    ProjectTwice(c, d, g, c.metrics);
    ProjectTwice(c, d, g, c.restart);
    KeyedSectionsTwice(c, d, g);
  }

  lemma ProcessesTwice(c: Config, d: Config, g: string)
    requires g != "" && d.processes == KeptProcesses(c, g)
    ensures KeptProcesses(d, g) == d.processes
  {
    KeptProcessNames(c, g);
    KeptProcessNames(d, g);
  }

  lemma KeyedSectionsTwice(c: Config, d: Config, g: string)
    requires g != "" && d.processes == KeptProcesses(c, g)
    requires d.checks == KeptChecks(c, g) && d.httpService == KeptHttpService(c, g)
    ensures KeptProcesses(d, g) == d.processes
    ensures KeptChecks(d, g) == d.checks
    ensures KeptHttpService(d, g) == d.httpService
  {
    ProcessesTwice(c, d, g);
    MatchesExactlyClaims(d, g, [g]);
  }

  lemma KeyedSectionsElsewhere(c: Config, d: Config, g: string, h: string)
    requires g != "" && h != "" && g != h && d.processes == KeptProcesses(c, g)
    requires d.checks == KeptChecks(c, g) && d.httpService == KeptHttpService(c, g)
    ensures KeptProcesses(d, h) == map[]
    ensures KeptChecks(d, h) == map[]
    ensures KeptHttpService(d, h) == None
  {
    KeptProcessNames(c, g);
    KeptProcessNames(d, h);
    MatchesExactlyClaims(d, h, [g]);
  }

  ghost predicate NoSections(d: Config) {
    && d.services == [] && d.mounts == [] && d.files == [] && d.metrics == [] && d.restart == []
    && d.checks == map[] && d.httpService == None && d.processes == map[]
  }

  lemma ListsElsewhere(c: Config, d: Config, g: string, h: string)
    requires g != "" && h != "" && g != h
    requires d.services == Project(c, g, c.services) && d.mounts == Project(c, g, c.mounts)
             && d.files == Project(c, g, c.files)
    requires d.metrics == Project(c, g, c.metrics) && d.restart == Project(c, g, c.restart)
    ensures Project(d, h, d.services) == [] && Project(d, h, d.mounts) == [] && Project(d, h, d.files) == []
    ensures Project(d, h, d.metrics) == [] && Project(d, h, d.restart) == []
  {
    ProjectElsewhere(c, d, g, h, c.services);
    ProjectElsewhere(c, d, g, h, c.mounts);
    ProjectElsewhere(c, d, g, h, c.files);
    ProjectElsewhere(c, d, g, h, c.metrics);
    ProjectElsewhere(c, d, g, h, c.restart);
  }

  lemma SectionsElsewhere(c: Config, d: Config, g: string, h: string)
    requires g != "" && h != "" && g != h && d == ChooseCompute(FlattenSections(c, g), g)
    ensures NoSections(FlattenSections(d, h))
  {
    ListsElsewhere(c, d, g, h);
    KeyedSectionsElsewhere(c, d, g, h);
  }

  /** Projecting the result onto any other group drops every tagged section. */
  lemma FlattenElsewhereIsEmpty(c: Config, group: string, h: string)
    requires c.Resolve(group) != "" && h != "" && h != c.Resolve(group)
    ensures var d := Flattened(Flattened(c, group), h);
            NoSections(d) && d.compute == []
  {
    var g := c.Resolve(group);
    var d := Flattened(c, group);
    SectionsElsewhere(c, d, g, h);
    var e := FlattenSections(d, h);
    assert e.compute == d.compute;
    if d.compute != [] {
      ComputeOfSingleton(e, g, d.compute[0]);
    }
  }

  // ---------------------------------------------------------------------------
  // Nothing is lost across the groups
  // ---------------------------------------------------------------------------

  /** How many of `names` a section reaches. */
  ghost function Copies(c: Config, processes: seq<string>, names: seq<string>): (n: nat)
    ensures n <= |names|
  {
    if names == [] then 0
    else (if c.GroupsMatch(names[0], processes) then 1 else 0) + Copies(c, processes, names[1..])
  }

  ghost function Bodies<T>(xs: seq<Tagged<T>>): (m: multiset<T>) {
    multiset(Map(xs, (x: Tagged<T>) => x.body))
  }

  /** The bodies found in the projections onto all of `names`, together. */
  ghost function Gathered<T>(c: Config, xs: seq<Tagged<T>>, names: seq<string>): (m: multiset<T>) {
    if names == [] then multiset{}
    else Bodies(Project(c, names[0], xs)) + Gathered(c, xs, names[1..])
  }

  /** Each body as often as the number of names its section reaches. */
  ghost function Expected<T>(c: Config, xs: seq<Tagged<T>>, names: seq<string>): (m: multiset<T>) {
    if xs == [] then multiset{}
    else
      var n := |xs| - 1;
      Expected(c, xs[..n], names) + multiset{}[xs[n].body := Copies(c, xs[n].processes, names)]
  }

  lemma {:induction false} ExpectedOfNoNames<T>(c: Config, xs: seq<Tagged<T>>)
    ensures Expected(c, xs, []) == multiset{}
  {
    if xs != [] {
      ExpectedOfNoNames(c, xs[..|xs| - 1]);
    }
  }

  lemma {:induction false} ExpectedOfOneMore<T>(c: Config, xs: seq<Tagged<T>>, names: seq<string>)
    requires names != []
    ensures Expected(c, xs, names) == Bodies(Project(c, names[0], xs)) + Expected(c, xs, names[1..])
  {
    if xs != [] {
      var n := |xs| - 1;
      ExpectedOfOneMore(c, xs[..n], names);
      ProjectSnoc(c, names[0], xs);
    } else {
      assert Project(c, names[0], xs) == [];
    }
  }

  lemma ProjectSnoc<T>(c: Config, g: string, xs: seq<Tagged<T>>)
    requires xs != []
    ensures var n := |xs| - 1;
            Bodies(Project(c, g, xs)) ==
            Bodies(Project(c, g, xs[..n])) +
            (if c.GroupsMatch(g, xs[n].processes) then multiset{xs[n].body} else multiset{})
  {
    var n := |xs| - 1;
    var last := if c.GroupsMatch(g, xs[n].processes) then [xs[n]] else [];
    ProjectBodies(c, g, xs);
    ProjectBodies(c, g, xs[..n]);
    OwnedSnoc(c, g, xs);
    BodiesAppend(Owned(c, g, xs[..n]), last);
  }

  lemma ProjectBodies<T>(c: Config, g: string, xs: seq<Tagged<T>>)
    ensures Bodies(Project(c, g, xs)) == Bodies(Owned(c, g, xs))
  {
    var body := (x: Tagged<T>) => x.body;
    assert Map(Project(c, g, xs), body) == Map(Owned(c, g, xs), body);
  }

  lemma OwnedSnoc<T>(c: Config, g: string, xs: seq<Tagged<T>>)
    requires xs != []
    ensures var n := |xs| - 1;
            Owned(c, g, xs) == Owned(c, g, xs[..n]) + if c.GroupsMatch(g, xs[n].processes) then [xs[n]] else []
  {
    var n := |xs| - 1;
    FilterAppend(xs[..n], [xs[n]], (x: Tagged<T>) => c.GroupsMatch(g, x.processes));
    assert xs == xs[..n] + [xs[n]];
  }

  lemma BodiesAppend<T>(xs: seq<Tagged<T>>, ys: seq<Tagged<T>>)
    ensures Bodies(xs + ys) == Bodies(xs) + Bodies(ys)
  {
    var body := (x: Tagged<T>) => x.body;
    assert Map(xs + ys, body) == Map(xs, body) + Map(ys, body);
  }

  /**
   * Across any list of groups the projections hold each section once per group it reaches: none lost, none invented.
   */
  lemma {:induction false} ProjectionsConserveSections<T>(c: Config, xs: seq<Tagged<T>>, names: seq<string>)
    ensures Gathered(c, xs, names) == Expected(c, xs, names)
  {
    if names == [] {
      ExpectedOfNoNames(c, xs);
    } else {
      ProjectionsConserveSections(c, xs, names[1..]);
      ExpectedOfOneMore(c, xs, names);
    }
  }

  ghost function Claimed(c: Config, processes: seq<string>, names: seq<string>): (claimed: set<string>) {
    set n | n in names && Claims(c, n, processes)
  }

  lemma ClaimedOneMore(c: Config, processes: seq<string>, names: seq<string>)
    requires names != [] && names[0] !in names[1..]
    ensures var rest := Claimed(c, processes, names[1..]);
            |Claimed(c, processes, names)| == |rest| + if Claims(c, names[0], processes) then 1 else 0
  {
    var rest := Claimed(c, processes, names[1..]);
    assert names[0] !in rest;
    assert forall n :: n in names <==> n == names[0] || n in names[1..];
    assert Claimed(c, processes, names) == if Claims(c, names[0], processes) then rest + {names[0]} else rest;
  }

  lemma {:induction false} CopiesCountsClaims(c: Config, processes: seq<string>, names: seq<string>)
    requires "" !in names
    requires forall i, j :: 0 <= i < j < |names| ==> names[i] != names[j]
    ensures Copies(c, processes, names) == |Claimed(c, processes, names)|
  {
    if names != [] {
      CopiesCountsClaims(c, processes, names[1..]);
      MatchesExactlyClaims(c, names[0], processes);
      ClaimedOneMore(c, processes, names);
    }
  }

  /** An untagged section lands in exactly one of the app's groups; a tagged one in each defined group it names. */
  lemma SectionsLandWhereTheySay(c: Config, processes: seq<string>)
    requires "" !in c.ProcessNames()
    ensures processes == [] ==> Copies(c, processes, c.ProcessNames()) == 1
    ensures processes != [] && "" !in processes ==>
              Copies(c, processes, c.ProcessNames()) == |set n | n in c.ProcessNames() && n in processes|
  {
    CopiesCountsClaims(c, processes, c.ProcessNames());
    ClaimedNames(c, processes);
  }

  lemma ClaimedNames(c: Config, processes: seq<string>)
    requires "" !in c.ProcessNames()
    ensures var claimed := Claimed(c, processes, c.ProcessNames());
            && (processes == [] ==> claimed == {c.DefaultProcessName()})
            && (processes != [] && "" !in processes ==> claimed == set n | n in c.ProcessNames() && n in processes)
  {
  }

  // ---------------------------------------------------------------------------
  // Compute selection
  // ---------------------------------------------------------------------------

  ghost predicate LastNamed(xs: seq<Tagged<Compute>>, g: string, i: int) {
    0 <= i < |xs| && g in xs[i].processes && forall j :: i < j < |xs| ==> g !in xs[j].processes
  }

  /** The chosen compute is the last candidate naming the group, or the first candidate when none does. */
  lemma {:induction false} MostSpecificIsLastNamed(xs: seq<Tagged<Compute>>, g: string)
    requires xs != []
    ensures (exists i :: LastNamed(xs, g, i) && MostSpecific(xs, g) == Some(xs[i])) ||
            ((forall i :: 0 <= i < |xs| ==> g !in xs[i].processes) && MostSpecific(xs, g) == Some(xs[0]))
  {
    var n := |xs| - 1;
    if g in xs[n].processes {
      assert LastNamed(xs, g, n);
    } else if n != 0 {
      var init := xs[..n];
      MostSpecificIsLastNamed(init, g);
      if i :| LastNamed(init, g, i) && MostSpecific(init, g) == Some(init[i]) {
        LastNamedStays(xs, g, i);
      } else {
        forall j | 0 <= j < |xs| ensures g !in xs[j].processes {
          assert j < n ==> xs[j] == init[j];
        }
        assert init[0] == xs[0];
      }
    }
  }

  lemma LastNamedStays(xs: seq<Tagged<Compute>>, g: string, i: int)
    requires xs != [] && g !in xs[|xs| - 1].processes && LastNamed(xs[..|xs| - 1], g, i)
    ensures LastNamed(xs, g, i) && xs[i] == xs[..|xs| - 1][i]
  {
  }
}
