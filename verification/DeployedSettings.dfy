/** From the settings of an app config to the machines of its groups: environment, init, guest and the rest. */
module DeployedSettings {
  import opened Prelude
  import opened AppConfig
  import opened ProcessGroups
  import opened Machines
  import opened DeployedSections

  lemma FlatSettings(c: Config, group: string)
    ensures var g, d := c.Resolve(group), Flattened(c, group);
            && d.env == c.env && d.primaryRegion == c.primaryRegion && d.experimental == c.experimental
            && d.swapSizeMb == c.swapSizeMb && d.statics == c.statics && d.mergedFiles == c.mergedFiles
            && d.killSignal == c.killSignal && d.killTimeout == c.killTimeout
            && d.processes == KeptProcesses(c, g) && d.metrics == Project(c, g, c.metrics)
  {
  }

  // ---------------------------------------------------------------------------
  // Environment
  // ---------------------------------------------------------------------------

  const GROUP_NAME := "FLY_PROCESS_GROUP"
  const REGION := "PRIMARY_REGION"

  lemma NamesDiffer()
    ensures GROUP_NAME != REGION
  {
    assert |GROUP_NAME| != |REGION|;
  }

  /** `own` with `x` under `a` and, if there is a `y`, that under `b`; these two win. */
  ghost predicate Extended(
    own: map<string, string>, a: string, x: string, b: string, y: string, env: map<string, string>)
  {
    && (forall k :: k in env <==> k in own || k == a || (k == b && y != ""))
    && env[a] == x
    && (y != "" ==> env[b] == y)
    && forall k :: k in own && k != a && (k == b ==> y == "") ==> env[k] == own[k]
  }

  /** The environment of the app, with the group and, if one is set, the primary region. */
  ghost predicate EnvFor(c: Config, g: string, env: map<string, string>) {
    Extended(c.env, GROUP_NAME, g, REGION, c.primaryRegion, env)
  }

  lemma PutIsExtended(own: map<string, string>, a: string, x: string, b: string, y: string)
    requires a != b
    ensures Extended(own, a, x, b, y, if y != "" then own[a := x][b := y] else own[a := x])
  {
  }

  lemma EnvIsFor(d: Config, g: string)
    requires d.DefaultProcessName() == g
    ensures EnvFor(d, g, EnvOf(d))
  {
    NamesDiffer();
    PutIsExtended(d.env, GROUP_NAME, g, REGION, d.primaryRegion);
  }

  /** Every machine has the environment as written, its group, and the region. */
  lemma EnvReachesMachines(tools: Tools, c: Config, group: string, src: Option<MachineConfig>)
    requires c.Resolve(group) != "" && Converts(tools, c, group)
    ensures EnvFor(c, c.Resolve(group), Converted(tools, c, group, src).app.env)
  {
    FlatSettings(c, group);
    FlattenedDefaultName(c, group);
    EnvIsFor(Flattened(c, group), c.Resolve(group));
    MadeFromProjection(tools, c, group, src);
  }

  // ---------------------------------------------------------------------------
  // Init
  // ---------------------------------------------------------------------------

  predicate HasCommand(c: Config, g: string) {
    g in c.processes && c.processes[g] != ""
  }

  /** The words of the group's command, or else the experimental ones. */
  ghost predicate InitFor(tools: Tools, c: Config, g: string, i: Init) {
    && (HasCommand(c, g) ==> i.cmd.Some? && i.cmd == tools.split(c.processes[g]))
    && (!HasCommand(c, g) ==> i.cmd == if c.experimental.Some? then c.experimental.value.cmd else None)
    && i.entrypoint == (if c.experimental.Some? then c.experimental.value.entrypoint else None)
    && i.exec == (if c.experimental.Some? then c.experimental.value.exec else None)
    && i.swapSizeMb == c.swapSizeMb
  }

  lemma KeptCommand(c: Config, g: string, d: Config)
    requires g != "" && d.processes == KeptProcesses(c, g)
    ensures HasCommand(d, g) <==> HasCommand(c, g)
    ensures HasCommand(c, g) ==> d.processes[g] == c.processes[g]
  {
    KeptProcessNames(c, g);
  }

  lemma CommandOfGroup(tools: Tools, d: Config, g: string)
    requires g != ""
    ensures InitCmd(tools, d, g).Ok? <==> (HasCommand(d, g) ==> tools.split(d.processes[g]).Some?)
    ensures InitCmd(tools, d, g).Ok? ==>
              InitCmd(tools, d, g).value == if HasCommand(d, g) then tools.split(d.processes[g]) else None
  {
  }

  lemma InitReachesMachines(tools: Tools, c: Config, group: string, src: Option<MachineConfig>)
    requires c.Resolve(group) != "" && Converts(tools, c, group)
    ensures InitFor(tools, c, c.Resolve(group), Converted(tools, c, group, src).app.init)
  {
    var g, d := c.Resolve(group), Flattened(c, group);
    FlatSettings(c, group);
    FlattenedDefaultName(c, group);
    KeptCommand(c, g, d);
    CommandOfGroup(tools, d, g);
    MadeFromProjection(tools, c, group, src);
  }

  // ---------------------------------------------------------------------------
  // Statics, stopping, files, metrics, metadata
  // ---------------------------------------------------------------------------

  ghost predicate StopsAs(c: Config, s: Option<StopConfig>) {
    && (s.Some? <==> c.killSignal.Some? || c.killTimeout.Some?)
    && (s.Some? ==> s.value.timeout == c.killTimeout && s.value.signal == c.killSignal)
  }

  /** The first metrics section that claims the group. */
  ghost predicate MetricsFor(c: Config, g: string, metrics: Option<Metrics>) {
    && ((forall x :: x in c.metrics ==> !Claims(c, g, x.processes)) ==> metrics.None?)
    && forall k :: FirstClaim(c, g, k) ==> metrics == c.metrics[k].body
  }

  ghost predicate FirstClaim(c: Config, g: string, k: int) {
    && 0 <= k < |c.metrics| && Claims(c, g, c.metrics[k].processes)
    && forall j :: 0 <= j < k ==> !Claims(c, g, c.metrics[j].processes)
  }

  lemma FirstPosition(at: seq<nat>, k: nat)
    requires (forall i, j :: 0 <= i < j < |at| ==> at[i] < at[j]) && k in at && forall j :: j in at ==> k <= j
    ensures |at| > 0 && at[0] == k
  {
    var i :| 0 <= i < |at| && at[i] == k;
    assert at[0] in at;
  }

  lemma FirstClaimIsFirst(c: Config, g: string, k: int)
    requires g != "" && FirstClaim(c, g, k)
    ensures var at := ClaimedAt(c, g, c.metrics); |at| > 0 && at[0] == k
  {
    ClaimedAtExactly(c, g, c.metrics);
    FirstPosition(ClaimedAt(c, g, c.metrics), k);
  }

  lemma KeptMetricsReach(c: Config, g: string, kept: seq<Tagged<Option<Metrics>>>)
    requires g != "" && kept == Project(c, g, c.metrics)
    ensures MetricsFor(c, g, if kept != [] then kept[0].body else None)
  {
    ClaimedAtIff(c, g, c.metrics);
    var at := ClaimedAt(c, g, c.metrics);
    forall k | FirstClaim(c, g, k) ensures kept != [] && kept[0].body == c.metrics[k].body {
      FirstClaimIsFirst(c, g, k);
    }
    if at != [] {
      assert at[0] in at && c.metrics[at[0]] in c.metrics;
    }
  }

  lemma OtherSettingsReachMachines(tools: Tools, c: Config, group: string, src: Option<MachineConfig>)
    requires c.Resolve(group) != "" && Converts(tools, c, group)
    ensures var app := Converted(tools, c, group, src).app;
            && app.statics == c.statics && app.files == tools.mergeFiles(c.mergedFiles)
            && StopsAs(c, app.stopConfig) && MetricsFor(c, c.Resolve(group), app.metrics)
  {
    FlatSettings(c, group);
    KeptMetricsReach(c, c.Resolve(group), Flattened(c, group).metrics);
    MadeFromProjection(tools, c, group, src);
  }

  /** The old machine's metadata, with the group, the platform and the version under their keys; the group wins. */
  ghost predicate MetadataFor(tools: Tools, g: string, before: map<string, string>, m: map<string, string>) {
    var own := {tools.groupKey, tools.platformKey, tools.versionKey};
    && (forall k :: k in m <==> k in before || k in own)
    && (forall k :: k in before && k !in own ==> m[k] == before[k])
    && m[tools.groupKey] == g
    && (tools.platformKey != tools.groupKey ==> m[tools.platformKey] == tools.platform)
    && (tools.versionKey !in {tools.groupKey, tools.platformKey} ==> m[tools.versionKey] == tools.version)
  }

  lemma Stamped(tools: Tools, g: string, before: map<string, string>, stamp: map<string, string>)
    requires stamp == map[tools.versionKey := tools.version, tools.platformKey := tools.platform, tools.groupKey := g]
    ensures MetadataFor(tools, g, before, before + stamp)
  {
  }

  lemma MetadataReachesMachines(tools: Tools, c: Config, group: string, src: Option<MachineConfig>)
    requires c.Resolve(group) != "" && Converts(tools, c, group)
    ensures MetadataFor(tools, c.Resolve(group), if src.Some? then src.value.metadata else map[],
                        Converted(tools, c, group, src).metadata)
  {
    var d := Flattened(c, group);
    FlattenedDefaultName(c, group);
    LoweredFields(tools, d, if src.Some? then src.value else EMPTY_MACHINE);
    Stamped(tools, c.Resolve(group), if src.Some? then src.value.metadata else map[], StampOf(tools, d));
  }

  // ---------------------------------------------------------------------------
  // Guest
  // ---------------------------------------------------------------------------

  /** A compute section is for the group when it names it, or names nothing or the empty name. */
  predicate ComputesFor(g: string, x: Tagged<Compute>) {
    x.processes == [] || g in x.processes || "" in x.processes
  }

  /** The last section naming the group; when there is none, the first of those for it. */
  ghost predicate ChosenAt(xs: seq<Tagged<Compute>>, g: string, k: int) {
    && 0 <= k < |xs| && ComputesFor(g, xs[k])
    && (|| (g in xs[k].processes && forall j :: k < j < |xs| ==> g !in xs[j].processes)
        || ((forall x :: x in xs ==> g !in x.processes) && forall j :: 0 <= j < k ==> !ComputesFor(g, xs[j])))
  }

  predicate HasGpu(k: Compute) {
    k.guest.Some? && k.guest.value.gpuKind != ""
  }

  /** The size as named, or else the default for machines with or without a GPU. */
  ghost predicate SizedAs(tools: Tools, k: Compute, sized: Guest) {
    && (k.size != "" ==> tools.sized(k.size) == Some(sized))
    && (k.size == "" && HasGpu(k) ==> tools.sized(tools.defaultGpuSize) == Some(sized))
    && (k.size == "" && !HasGpu(k) ==> tools.sized(tools.defaultSize) == Some(sized))
  }

  /** On the host of the section, or else of the app, or else of the size. */
  ghost predicate HostedAs(c: Config, k: Compute, sized: Guest, host: string) {
    if k.guest.Some? && k.guest.value.hostDedicationId != "" then host == k.guest.value.hostDedicationId
    else host == if c.hostDedicationId != "" then c.hostDedicationId else sized.hostDedicationId
  }

  ghost predicate RemembersAs(tools: Tools, k: Compute, sized: Guest, mb: int) {
    if k.memory == "" then mb == sized.memoryMb else mb != 0 && tools.parseMb(k.memory) == Some(mb)
  }

  ghost predicate GuestFrom(tools: Tools, c: Config, k: Compute, guest: Guest) {
    exists sized, mb, host ::
      && SizedAs(tools, k, sized) && HostedAs(c, k, sized, host) && RemembersAs(tools, k, sized, mb)
      && (k.guest.None? ==> guest == Guest(sized.kind, mb, host))
      && (k.guest.Some? ==> tools.overlay(Guest(sized.kind, mb, host), k.guest.value.overrides) == Some(guest))
  }

  lemma GuestIff(tools: Tools, c: Config, d: Config, k: Compute, guest: Guest)
    requires d.hostDedicationId ==
             if k.guest.Some? && k.guest.value.hostDedicationId != "" then k.guest.value.hostDedicationId
             else c.hostDedicationId
    ensures GuestOf(tools, d, k) == Some(guest) <==> GuestFrom(tools, c, k, guest)
  {
    var size := if k.size != "" then k.size else if HasGpu(k) then tools.defaultGpuSize else tools.defaultSize;
    if tools.sized(size).Some? {
      var sized := tools.sized(size).value;
      var host := if d.hostDedicationId != "" then d.hostDedicationId else sized.hostDedicationId;
      assert SizedAs(tools, k, sized) && HostedAs(c, k, sized, host);
      if k.memory == "" || (tools.parseMb(k.memory).Some? && tools.parseMb(k.memory) != Some(0)) {
        var mb := if k.memory == "" then sized.memoryMb else tools.parseMb(k.memory).value;
        assert RemembersAs(tools, k, sized, mb);
      }
    }
  }

  lemma CandidatesAre(c: Config, g: string)
    requires g != "" && c.DefaultProcessName() == g
    ensures var p := (x: Tagged<Compute>) => x.processes == [] || c.GroupsMatch(g, x.processes);
            && ComputeForGroup(c, g) == MostSpecific(Filter(c.compute, p), g)
            && forall x :: p(x) <==> ComputesFor(g, x)
  {
    forall x: Tagged<Compute> ensures x.processes == [] || c.GroupsMatch(g, x.processes) <==> ComputesFor(g, x) {
      MatchesExactlyClaims(c, g, x.processes);
    }
  }

  /** The sections `kept` are those at the ascending positions `at`. */
  ghost predicate KeptAt(xs: seq<Tagged<Compute>>, at: seq<nat>, kept: seq<Tagged<Compute>>) {
    && |at| == |kept| && (forall j :: 0 <= j < |at| ==> at[j] < |xs| && kept[j] == xs[at[j]])
    && forall a, b :: 0 <= a < b < |at| ==> at[a] < at[b]
  }

  lemma NamedIsChosen(xs: seq<Tagged<Compute>>, at: seq<nat>, kept: seq<Tagged<Compute>>, g: string, n: nat)
    requires KeptAt(xs, at, kept) && n < |at| && LastNamed(xs, g, at[n])
    ensures MostSpecific(kept, g) == Some(kept[n])
  {
    assert LastNamed(kept, g, n);
    MostSpecificIsLastNamed(kept, g);
    forall i | LastNamed(kept, g, i) ensures i == n {
    }
  }

  lemma FirstIsChosen(xs: seq<Tagged<Compute>>, at: seq<nat>, kept: seq<Tagged<Compute>>, g: string)
    requires KeptAt(xs, at, kept) && kept != [] && forall x :: x in xs ==> g !in x.processes
    ensures MostSpecific(kept, g) == Some(kept[0])
  {
    MostSpecificIsLastNamed(kept, g);
    forall j | 0 <= j < |kept| ensures g !in kept[j].processes {
      assert kept[j] in xs;
    }
  }

  lemma PositionsKeep(xs: seq<Tagged<Compute>>, p: Tagged<Compute> -> bool, k: nat) returns (n: nat)
    requires k < |xs| && p(xs[k])
    ensures KeptAt(xs, Positions(xs, p), Filter(xs, p))
    ensures n < |Positions(xs, p)| && Positions(xs, p)[n] == k
  {
    FilterByPosition(xs, p);
    n :| n < |Positions(xs, p)| && Positions(xs, p)[n] == k;
  }

  /** lo.MaxBy on the sections for the group, told of the positions of all the sections. */
  lemma MostSpecificIsChosen(xs: seq<Tagged<Compute>>, p: Tagged<Compute> -> bool, g: string, k: int)
    requires (forall x :: p(x) <==> ComputesFor(g, x)) && ChosenAt(xs, g, k)
    ensures MostSpecific(Filter(xs, p), g) == Some(xs[k])
  {
    var kept, at := Filter(xs, p), Positions(xs, p);
    var n := PositionsKeep(xs, p, k);
    if g in xs[k].processes {
      NamedIsChosen(xs, at, kept, g, n);
    } else {
      NoneBefore(xs, p, at, k, n);
      FirstIsChosen(xs, at, kept, g);
    }
  }

  lemma NoneBefore(xs: seq<Tagged<Compute>>, p: Tagged<Compute> -> bool, at: seq<nat>, k: nat, n: nat)
    requires forall i :: 0 <= i < |at| ==> at[i] < |xs| && p(xs[at[i]])
    requires forall a, b :: 0 <= a < b < |at| ==> at[a] < at[b]
    requires n < |at| && at[n] == k && k < |xs| && forall j :: 0 <= j < k ==> !p(xs[j])
    ensures n == 0
  {
    assert p(xs[at[0]]);
  }

  lemma ChosenCompute(c: Config, group: string)
    requires c.Resolve(group) != ""
    ensures var g, d := c.Resolve(group), Flattened(c, group);
            && ((forall x :: x in c.compute ==> !ComputesFor(g, x)) ==> d.compute == [])
            && forall k :: ChosenAt(c.compute, g, k) ==>
                 && d.compute == [Retagged(c.compute[k], g)]
                 && d.hostDedicationId ==
                    if c.compute[k].body.guest.Some? && c.compute[k].body.guest.value.hostDedicationId != ""
                    then c.compute[k].body.guest.value.hostDedicationId else c.hostDedicationId
  {
    var g := c.Resolve(group);
    var dst := FlattenSections(c, g);
    var p := (x: Tagged<Compute>) => x.processes == [] || dst.GroupsMatch(g, x.processes);
    FlattenedDefaultName(c, group);
    CandidatesAre(dst, g);
    assert dst.compute == c.compute && dst.hostDedicationId == c.hostDedicationId;
    forall k | ChosenAt(c.compute, g, k) ensures ComputeForGroup(dst, g) == Some(c.compute[k]) {
      MostSpecificIsChosen(c.compute, p, g, k);
    }
    if forall x :: x in c.compute ==> !ComputesFor(g, x) {
      FilterNone(c.compute, p);
    }
  }

  /** A machine's guest is that of the compute section chosen for its group; without one it keeps the one it has. */
  lemma GuestReachesItsGroup(tools: Tools, c: Config, group: string, src: Option<MachineConfig>)
    requires c.Resolve(group) != "" && Converts(tools, c, group)
    ensures var g, guest := c.Resolve(group), Converted(tools, c, group, src).guest;
            && ((forall x :: x in c.compute ==> !ComputesFor(g, x)) ==>
                  guest == if src.Some? then src.value.guest else None)
            && forall k :: ChosenAt(c.compute, g, k) ==>
                 guest.Some? && GuestFrom(tools, c, c.compute[k].body, guest.value)
  {
    var g, d := c.Resolve(group), Flattened(c, group);
    ChosenCompute(c, group);
    LoweredFields(tools, d, if src.Some? then src.value else EMPTY_MACHINE);
    forall k | ChosenAt(c.compute, g, k)
      ensures Converted(tools, c, group, src).guest.Some?
      ensures GuestFrom(tools, c, c.compute[k].body, Converted(tools, c, group, src).guest.value)
    {
      GuestIff(tools, c, d, c.compute[k].body, Converted(tools, c, group, src).guest.value);
    }
  }

  /** Where there is a section for the group, one is chosen. */
  lemma {:induction false} SomeIsChosen(xs: seq<Tagged<Compute>>, g: string) returns (k: int)
    requires exists x :: x in xs && ComputesFor(g, x)
    ensures ChosenAt(xs, g, k)
  {
    var n := |xs| - 1;
    var before := xs[..n];
    assert xs == before + [xs[n]];
    if g in xs[n].processes {
      k := n;
    } else if exists x :: x in before && ComputesFor(g, x) {
      k := SomeIsChosen(before, g);
    } else {
      k := n;
      forall j | 0 <= j < n ensures !ComputesFor(g, xs[j]) {
        assert before[j] in before;
      }
    }
  }

  // ---------------------------------------------------------------------------
  // When a config converts
  // ---------------------------------------------------------------------------

  ghost predicate CanConvert(tools: Tools, c: Config, g: string) {
    && !c.unmarshalFailed
    && (HasCommand(c, g) ==> tools.split(c.processes[g]).Some?)
    && (forall k :: k in c.checks && Claims(c, g, c.checks[k].processes) ==>
          && c.checks[k].body.kind in [Some("http"), Some("tcp")]
          && (c.checks[k].body.port.Some? || GroupPort(c, g).Some?))
    && (forall k :: ChosenAt(c.compute, g, k) ==> exists guest :: GuestFrom(tools, c, c.compute[k].body, guest))
    && (forall x :: x in c.restart && Claims(c, g, x.processes) ==> x.body.policy in ["always", "on-failure", "never"])
  }

  lemma ChosenGuestCanBeMade(tools: Tools, c: Config, group: string, k: int)
    requires c.Resolve(group) != "" && ChosenAt(c.compute, c.Resolve(group), k)
    ensures GroupGuest(tools, Flattened(c, group)).Ok? <==>
            exists guest :: GuestFrom(tools, c, c.compute[k].body, guest)
  {
    var d, body := Flattened(c, group), c.compute[k].body;
    ChosenCompute(c, group);
    if GuestOf(tools, d, body).Some? {
      GuestIff(tools, c, d, body, GuestOf(tools, d, body).value);
    }
    if guest :| GuestFrom(tools, c, body, guest) {
      GuestIff(tools, c, d, body, guest);
    }
  }

  lemma GuestCanBeMade(tools: Tools, c: Config, group: string)
    requires c.Resolve(group) != ""
    ensures GroupGuest(tools, Flattened(c, group)).Ok? <==>
            forall k :: ChosenAt(c.compute, c.Resolve(group), k) ==>
              exists guest :: GuestFrom(tools, c, c.compute[k].body, guest)
  {
    var g := c.Resolve(group);
    forall k | ChosenAt(c.compute, g, k)
      ensures GroupGuest(tools, Flattened(c, group)).Ok? <==>
              exists guest :: GuestFrom(tools, c, c.compute[k].body, guest)
    {
      ChosenGuestCanBeMade(tools, c, group, k);
    }
    if exists x :: x in c.compute && ComputesFor(g, x) {
      var k := SomeIsChosen(c.compute, g);
      assert ChosenAt(c.compute, g, k);
    } else {
      ChosenCompute(c, group);
    }
  }

  lemma ChecksCanBeMade(c: Config, d: Config, g: string)
    requires g != "" && d.checks == KeptChecks(c, g) && d.httpService == KeptHttpService(c, g)
    ensures (forall k :: k in d.checks ==> CheckLowers(d, d.checks[k].body)) <==>
            forall k :: k in c.checks && Claims(c, g, c.checks[k].processes) ==>
              && c.checks[k].body.kind in [Some("http"), Some("tcp")]
              && (c.checks[k].body.port.Some? || GroupPort(c, g).Some?)
  {
    forall k | k in c.checks ensures k in d.checks <==> Claims(c, g, c.checks[k].processes) {
      MatchesExactlyClaims(c, g, c.checks[k].processes);
    }
    if c.httpService.Some? {
      MatchesExactlyClaims(c, g, c.httpService.value.processes);
    }
    assert d.httpService.Some? <==> GroupPort(c, g).Some?;
    forall k | k in d.checks ensures CheckLowers(d, d.checks[k].body) <==>
                                     && c.checks[k].body.kind in [Some("http"), Some("tcp")]
                                     && (c.checks[k].body.port.Some? || GroupPort(c, g).Some?) {
    }
  }

  lemma KeptBodyClaims<T>(c: Config, g: string, xs: seq<Tagged<T>>, y: Tagged<T>)
    requires g != "" && y in Project(c, g, xs)
    ensures exists x :: x in xs && Claims(c, g, x.processes) && x.body == y.body
  {
    ClaimedAtExactly(c, g, xs);
    ClaimedAtIff(c, g, xs);
    var at := ClaimedAt(c, g, xs);
    var i :| 0 <= i < |at| && Project(c, g, xs)[i] == y;
    assert at[i] in at && xs[at[i]] in xs;
  }

  lemma ClaimingBodyIsKept<T>(c: Config, g: string, xs: seq<Tagged<T>>, x: Tagged<T>)
    requires g != "" && x in xs && Claims(c, g, x.processes)
    ensures Tagged(x.body, [g]) in Project(c, g, xs)
  {
    ClaimedAtIff(c, g, xs);
    var at := ClaimedAt(c, g, xs);
    var k :| 0 <= k < |xs| && xs[k] == x;
    var i :| 0 <= i < |at| && at[i] == k;
    assert Project(c, g, xs)[i] == Tagged(x.body, [g]);
  }

  lemma RestartsCanBeMade(c: Config, d: Config, g: string)
    requires g != "" && d.restart == Project(c, g, c.restart)
    ensures (forall x :: x in d.restart ==> RestartPolicyOf(x.body.policy).Some?) <==>
            forall x :: x in c.restart && Claims(c, g, x.processes) ==>
              x.body.policy in ["always", "on-failure", "never"]
  {
    forall x | x in c.restart && Claims(c, g, x.processes) ensures Tagged(x.body, [g]) in d.restart {
      ClaimingBodyIsKept(c, g, c.restart, x);
    }
    forall y | y in d.restart ensures exists x :: x in c.restart && Claims(c, g, x.processes) && x.body == y.body {
      KeptBodyClaims(c, g, c.restart, y);
    }
  }

  /** Exactly which configs convert for a group, told of the config as written. */
  lemma ConvertsIff(tools: Tools, c: Config, group: string)
    requires c.Resolve(group) != ""
    ensures Converts(tools, c, group) <==> CanConvert(tools, c, c.Resolve(group))
  {
    var g, d := c.Resolve(group), Flattened(c, group);
    FlatSettings(c, group);
    FlattenedDefaultName(c, group);
    ProjectedSections(c, group);
    KeptCommand(c, g, d);
    CommandOfGroup(tools, d, g);
    ChecksCanBeMade(c, d, g);
    GuestCanBeMade(tools, c, group);
    RestartsCanBeMade(c, d, g);
  }
}
