/** Lowering a process group of an app config to a machine config (internal/appconfig/machines.go). */
module Machines {
  import opened Prelude
  import opened AppConfig
  import opened ProcessGroups

  /** Code the lowering calls but this project does not define: every theorem holds for any choice of it. */
  datatype Tools = Tools(
    split: string -> Option<seq<string>>,        // shlex.Split
    parseGb: string -> Option<int>,              // helpers.ParseSize, gigabytes
    parseMb: string -> Option<int>,              // helpers.ParseSize, mebibytes
    upper: string -> string,                     // strings.ToUpper
    sized: string -> Option<Guest>,              // MachineGuest.SetSize
    overlay: (Guest, Blob) -> Option<Guest>,     // copier, ignoring empty fields
    mergeFiles: seq<File> -> seq<File>,          // fly.MergeFiles into no files
    defaultSize: string, defaultGpuSize: string, version: string, platform: string,
    versionKey: string, platformKey: string, groupKey: string)   // metadata keys

  datatype Guest = Guest(kind: Blob, memoryMb: int, hostDedicationId: string)

  datatype Init = Init(
    cmd: Option<seq<string>>, entrypoint: Option<seq<string>>, exec: Option<seq<string>>, swapSizeMb: Option<int>)

  datatype ServiceCheck = ServiceCheck(
    kind: string, interval: Option<Duration>, timeout: Option<Duration>, gracePeriod: Option<Duration>,
    httpMethod: Option<string>, path: Option<string>, protocol: Option<string>,
    tlsSkipVerify: Option<bool>, tlsServerName: Option<string>, headers: map<string, string>)

  datatype MachineService = MachineService(
    protocol: string, internalPort: int, ports: seq<MachinePort>, concurrency: Option<Blob>,
    autostop: Option<string>, autostart: Option<bool>, minRunning: Option<int>, checks: seq<ServiceCheck>)

  datatype MachineCheck = MachineCheck(
    kind: string, port: Option<int>, interval: Option<Duration>, timeout: Option<Duration>,
    gracePeriod: Option<Duration>, httpMethod: Option<string>, path: Option<string>, protocol: Option<string>,
    tlsSkipVerify: Option<bool>, tlsServerName: Option<string>, headers: map<string, string>)

  datatype MachineMount = MachineMount(path: string, name: string, threshold: int, addGb: int, limitGb: int)

  datatype StopConfig = StopConfig(timeout: Option<Duration>, signal: Option<string>)

  datatype MachineRestart = MachineRestart(policy: string, maxRetries: int)

  /** The fields an app config never writes; `initOthers` are the settings of init besides those of `Init`. */
  datatype Untouched = Untouched(
    image: string, schedule: string, autoDestroy: bool, standbys: seq<string>, initOthers: map<string, string>)

  /** The fields an app config owns outright; of init those that it writes, and no other. */
  datatype AppFields = AppFields(
    metrics: Option<Metrics>, init: Init, services: seq<MachineService>, checks: map<string, MachineCheck>,
    env: map<string, string>, statics: seq<Static>, mounts: seq<MachineMount>, stopConfig: Option<StopConfig>,
    files: seq<File>, restart: Option<MachineRestart>)

  datatype MachineConfig = MachineConfig(
    app: AppFields, metadata: map<string, string>, guest: Option<Guest>, untouched: Untouched)

  const EMPTY_MACHINE := MachineConfig(
    AppFields(None, Init(None, None, None, None), [], map[], map[], [], [], None, [], None),
    map[], None, Untouched("", "", false, [], map[]))

  datatype LowerError =
    | FlattenFailed
    | BadCommand(group: string)
    | BadCheckType(check: string)
    | NoPortForCheck(check: string)
    | BadGuest
    | BadRestartPolicy(policy: string)

  // ---------------------------------------------------------------------------
  // What each section lowers to
  // ---------------------------------------------------------------------------

  function RestartPolicyOf(policy: string): (r: Option<string>)
    ensures r.Some? <==> policy in ["always", "on-failure", "never"]
  {
    match policy
    case "always" => Some("always")
    case "on-failure" => Some("on-failure")
    case "never" => Some("no")
    case _ => None
  }

  function ServiceOf(h: Tagged<HttpService>): (s: Tagged<Service>) {
    var b := h.body;
    Tagged(Service("tcp", b.internalPort, b.autoStop, b.autoStart, b.minRunning,
                   [MachinePort(Some(80), None, None, ["http"], b.forceHttps, None, b.httpOptions),
                    MachinePort(Some(443), None, None, ["http", "tls"], false, b.tlsOptions, b.httpOptions)],
                   b.concurrency, [], b.httpChecks),
           h.processes)
  }

  function AllServices(c: Config): (ss: seq<Tagged<Service>>) {
    (if c.httpService.Some? then [ServiceOf(c.httpService.value)] else []) + c.services
  }

  function TcpCheckOf(k: TcpCheck): (m: ServiceCheck) {
    ServiceCheck("tcp", k.interval, k.timeout, k.gracePeriod, None, None, None, None, None, map[])
  }

  function HttpCheckOf(k: HttpCheck): (m: ServiceCheck) {
    ServiceCheck("http", k.interval, k.timeout, k.gracePeriod, k.httpMethod, k.path, k.protocol,
                 k.tlsSkipVerify, k.tlsServerName, k.headers)
  }

  function MachineServiceOf(s: Tagged<Service>): (m: MachineService) {
    var b := s.body;
    MachineService(b.protocol, b.internalPort, b.ports, b.concurrency, b.autoStop, b.autoStart, b.minRunning,
                   Map(b.tcpChecks, TcpCheckOf) + Map(b.httpChecks, HttpCheckOf))
  }

  function MachineCheckOf(tools: Tools, k: TopCheck): (m: Option<MachineCheck>)
    ensures m.Some? <==> k.kind in [Some("http"), Some("tcp")]
  {
    if k.kind in [Some("http"), Some("tcp")] then
      Some(MachineCheck(k.kind.value, k.port, k.interval, k.timeout, k.gracePeriod,
                        if k.httpMethod.Some? then Some(tools.upper(k.httpMethod.value)) else None,
                        k.path, k.protocol, k.tlsSkipVerify, k.tlsServerName, k.headers))
    else None
  }

  /** A top level check lowers when its type is known and a port can be found for it. */
  predicate CheckLowers(c: Config, k: TopCheck) {
    k.kind in [Some("http"), Some("tcp")] && (k.port.Some? || c.httpService.Some?)
  }

  function LoweredCheck(tools: Tools, c: Config, k: TopCheck): (m: MachineCheck)
    requires CheckLowers(c, k)
  {
    var m := MachineCheckOf(tools, k).value;
    if m.port.None? then m.(port := Some(c.httpService.value.body.internalPort)) else m
  }

  function ExtendGb(tools: Tools, s: string): (n: int) {
    if s == "" then 0 else
      match tools.parseGb(s)
      case Some(v) => v
      case None => 0
  }

  function MountOf(tools: Tools, m: Tagged<Mount>): (mm: MachineMount) {
    MachineMount(m.body.destination, m.body.source, m.body.extendThreshold,
                 ExtendGb(tools, m.body.extendIncrement), ExtendGb(tools, m.body.extendLimit))
  }

  function StopConfigOf(c: Config): (s: Option<StopConfig>) {
    if c.killSignal.None? && c.killTimeout.None? then None else Some(StopConfig(c.killTimeout, c.killSignal))
  }

  function GuestOf(tools: Tools, c: Config, k: Compute): (g: Option<Guest>) {
    var size := if k.size != "" then k.size
                else if k.guest.Some? && k.guest.value.gpuKind != "" then tools.defaultGpuSize
                else tools.defaultSize;
    match tools.sized(size)
    case None => None
    case Some(g0) =>
      var g1 := if c.hostDedicationId != "" then g0.(hostDedicationId := c.hostDedicationId) else g0;
      if k.memory != "" && (tools.parseMb(k.memory).None? || tools.parseMb(k.memory) == Some(0)) then None
      else
        var g2 := if k.memory != "" then g1.(memoryMb := tools.parseMb(k.memory).value) else g1;
        if k.guest.Some? then tools.overlay(g2, k.guest.value.overrides) else Some(g2)
  }

  /** No guest when the config has no compute section; otherwise the first section decides. */
  function GroupGuest(tools: Tools, c: Config): (g: Result<Option<Guest>, LowerError>) {
    if c.compute == [] then Ok(None)
    else if |c.compute| > 2 || GuestOf(tools, c, c.compute[0].body).None? then Err(BadGuest)
    else Ok(GuestOf(tools, c, c.compute[0].body))
  }

  /** The command of a group: no command when none is set, an error when it cannot be split. */
  function InitCmd(tools: Tools, c: Config, group: string): (r: Result<Option<seq<string>>, LowerError>) {
    var g := c.Resolve(group);
    if g !in c.processes || c.processes[g] == "" then Ok(None)
    else
      match tools.split(c.processes[g])
      case None => Err(BadCommand(g))
      case Some(words) => Ok(Some(words))
  }

  function InitOf(c: Config, cmd: Option<seq<string>>): (i: Init) {
    match c.experimental
    case None => Init(cmd, None, None, c.swapSizeMb)
    case Some(x) => Init(if cmd.None? then x.cmd else cmd, x.entrypoint, x.exec, c.swapSizeMb)
  }

  function EnvOf(c: Config): (env: map<string, string>) {
    var env := c.env["FLY_PROCESS_GROUP" := c.DefaultProcessName()];
    if c.primaryRegion != "" then env["PRIMARY_REGION" := c.primaryRegion] else env
  }

  function StampOf(tools: Tools, c: Config): (m: map<string, string>) {
    map[tools.versionKey := tools.version, tools.platformKey := tools.platform,
        tools.groupKey := c.DefaultProcessName()]
  }

  /** The last restart section decides. */
  function RestartOf(c: Config): (r: Option<MachineRestart>)
    requires forall x :: x in c.restart ==> RestartPolicyOf(x.body.policy).Some?
  {
    if c.restart == [] then None
    else
      var x := c.restart[|c.restart| - 1].body;
      Some(MachineRestart(RestartPolicyOf(x.policy).value, x.maxRetries))
  }

  predicate Lowers(tools: Tools, c: Config) {
    && InitCmd(tools, c, c.DefaultProcessName()).Ok?
    && (forall k :: k in c.checks ==> CheckLowers(c, c.checks[k].body))
    && GroupGuest(tools, c).Ok?
    && (forall x :: x in c.restart ==> RestartPolicyOf(x.body.policy).Some?)
  }

  function AppFieldsOf(tools: Tools, c: Config): (a: AppFields)
    requires Lowers(tools, c)
  {
    AppFields(
      if c.metrics != [] then c.metrics[0].body else None,
      InitOf(c, InitCmd(tools, c, c.DefaultProcessName()).value),
      Map(AllServices(c), MachineServiceOf),
      map k | k in c.checks :: LoweredCheck(tools, c, c.checks[k].body),
      EnvOf(c),
      c.statics,
      Map(c.mounts, (m: Tagged<Mount>) => MountOf(tools, m)),
      StopConfigOf(c),
      tools.mergeFiles(c.mergedFiles),
      RestartOf(c))
  }

  /** The machine config a flattened app config lowers to, on top of `base`. */
  function Lowered(tools: Tools, c: Config, base: MachineConfig): (m: MachineConfig)
    requires Lowers(tools, c)
  {
    var guest := GroupGuest(tools, c).value;
    MachineConfig(AppFieldsOf(tools, c), base.metadata + StampOf(tools, c),
                  if guest.Some? then guest else base.guest, base.untouched)
  }

  /** The defect that explains a failed lowering. */
  ghost predicate Explains(tools: Tools, c: Config, e: LowerError) {
    match e
    case FlattenFailed => false
    case BadCommand(g) => g == c.DefaultProcessName() && InitCmd(tools, c, g).Err?
    case BadCheckType(k) => k in c.checks && MachineCheckOf(tools, c.checks[k].body).None?
    case NoPortForCheck(k) => k in c.checks && c.checks[k].body.port.None? && c.httpService.None?
    case BadGuest => GroupGuest(tools, c).Err?
    case BadRestartPolicy(p) => RestartPolicyOf(p).None? && exists x :: x in c.restart && x.body.policy == p
  }

  // ---------------------------------------------------------------------------
  // The lowering as the source performs it
  // ---------------------------------------------------------------------------

  method ToMachineService(s: Tagged<Service>) returns (m: MachineService)
    ensures m == MachineServiceOf(s)
  {
    var b := s.body;
    var checks: seq<ServiceCheck> := [];
    for i := 0 to |b.tcpChecks|
      invariant checks == Map(b.tcpChecks[..i], TcpCheckOf)
    {
      checks := checks + [TcpCheckOf(b.tcpChecks[i])];
    }
    assert b.tcpChecks[..|b.tcpChecks|] == b.tcpChecks;
    for i := 0 to |b.httpChecks|
      invariant checks == Map(b.tcpChecks, TcpCheckOf) + Map(b.httpChecks[..i], HttpCheckOf)
    {
      checks := checks + [HttpCheckOf(b.httpChecks[i])];
    }
    assert b.httpChecks[..|b.httpChecks|] == b.httpChecks;
    m := MachineService(b.protocol, b.internalPort, b.ports, b.concurrency, b.autoStop, b.autoStart, b.minRunning,
                        checks);
  }

  method LowerServices(c: Config) returns (out: seq<MachineService>)
    ensures out == Map(AllServices(c), MachineServiceOf)
  {
    out := [];
    var all := AllServices(c);
    for i := 0 to |all|
      invariant out == Map(all[..i], MachineServiceOf)
    {
      var m := ToMachineService(all[i]);
      out := out + [m];
    }
    assert all[..|all|] == all;
  }

  /** The check table is visited in any order, stopping at the first check that does not lower. */
  method LowerChecks(tools: Tools, c: Config) returns (r: Result<map<string, MachineCheck>, LowerError>)
    ensures r.Ok? <==> forall k :: k in c.checks ==> CheckLowers(c, c.checks[k].body)
    ensures r.Ok? ==> r.value == map k | k in c.checks :: LoweredCheck(tools, c, c.checks[k].body)
    ensures r.Err? ==> Explains(tools, c, r.error)
  {
    var out: map<string, MachineCheck> := map[];
    var todo := c.checks.Keys;
    while todo != {}
      invariant todo <= c.checks.Keys && out.Keys == c.checks.Keys - todo
      invariant forall k :: k in out ==>
                  CheckLowers(c, c.checks[k].body) && out[k] == LoweredCheck(tools, c, c.checks[k].body)
      decreases todo
    {
      var name :| name in todo;
      var lowered := MachineCheckOf(tools, c.checks[name].body);
      if lowered.None? {
        return Err(BadCheckType(name));
      }
      var check := lowered.value;
      if check.port.None? {
        if c.httpService.None? {
          return Err(NoPortForCheck(name));
        }
        check := check.(port := Some(c.httpService.value.body.internalPort));
      }
      out := out[name := check];
      todo := todo - {name};
    }
    r := Ok(out);
  }

  method LowerMounts(tools: Tools, c: Config) returns (out: seq<MachineMount>)
    ensures out == Map(c.mounts, (m: Tagged<Mount>) => MountOf(tools, m))
  {
    out := [];
    for i := 0 to |c.mounts|
      invariant |out| == i
      invariant forall j :: 0 <= j < i ==> out[j] == MountOf(tools, c.mounts[j])
    {
      var m := c.mounts[i].body;
      var increment, limit := 0, 0;
      if m.extendIncrement != "" {
        increment := ExtendGb(tools, m.extendIncrement);
      }
      if m.extendLimit != "" {
        limit := ExtendGb(tools, m.extendLimit);
      }
      out := out + [MachineMount(m.destination, m.source, m.extendThreshold, increment, limit)];
    }
  }

  method LowerRestart(c: Config) returns (r: Result<Option<MachineRestart>, LowerError>)
    ensures r.Ok? <==> forall x :: x in c.restart ==> RestartPolicyOf(x.body.policy).Some?
    ensures r.Ok? ==> r.value == RestartOf(c)
    ensures forall tools :: r.Err? ==> Explains(tools, c, r.error)
  {
    var restart: Option<MachineRestart> := None;
    for i := 0 to |c.restart|
      invariant forall j :: 0 <= j < i ==> RestartPolicyOf(c.restart[j].body.policy).Some?
      invariant i == 0 ==> restart == None
      invariant i > 0 ==> restart == Some(MachineRestart(RestartPolicyOf(c.restart[i - 1].body.policy).value,
                                                         c.restart[i - 1].body.maxRetries))
    {
      var x := c.restart[i].body;
      var policy := RestartPolicyOf(x.policy);
      if policy.None? {
        assert c.restart[i] in c.restart;
        return Err(BadRestartPolicy(x.policy));
      }
      restart := Some(MachineRestart(policy.value, x.maxRetries));
    }
    r := Ok(restart);
  }

  method UpdateMachineConfig(tools: Tools, c: Config, src: Option<MachineConfig>)
    returns (r: Result<MachineConfig, LowerError>)
    ensures r.Ok? <==> Lowers(tools, c)
    ensures r.Ok? ==> r.value == Lowered(tools, c, if src.Some? then src.value else EMPTY_MACHINE)
    ensures r.Err? ==> Explains(tools, c, r.error)
  {
    var group := c.DefaultProcessName();
    var m := EMPTY_MACHINE;
    if src.Some? {
      m := src.value;
    }
    var app := m.app.(metrics := None);
    if c.metrics != [] {
      app := app.(metrics := c.metrics[0].body);
    }
    var cmd := InitCmd(tools, c, group);
    if cmd.Err? {
      return Err(cmd.error);
    }
    app := app.(init := InitOf(c, cmd.value));
    m := m.(metadata := m.metadata + StampOf(tools, c));
    var services := LowerServices(c);
    app := app.(services := services);
    var checks := LowerChecks(tools, c);
    if checks.Err? {
      return Err(checks.error);
    }
    app := app.(checks := checks.value);
    app := app.(env := EnvOf(c), statics := c.statics);
    var mounts := LowerMounts(tools, c);
    app := app.(mounts := mounts, stopConfig := StopConfigOf(c), files := tools.mergeFiles(c.mergedFiles));
    var guest := GroupGuest(tools, c);
    if guest.Err? {
      return Err(guest.error);
    }
    if guest.value.Some? {
      m := m.(guest := guest.value);
    }
    var restart := LowerRestart(c);
    if restart.Err? {
      return Err(restart.error);
    }
    app := app.(restart := restart.value);
    m := m.(app := app);
    r := Ok(m);
  }

  method ToMachineConfig(tools: Tools, c: Config, group: string, src: Option<MachineConfig>)
    returns (r: Result<MachineConfig, LowerError>)
    ensures r.Ok? <==> Converts(tools, c, group)
    ensures r.Ok? ==> r.value == Converted(tools, c, group, src)
    ensures r.Err? && !c.unmarshalFailed ==> Explains(tools, Flattened(c, group), r.error)
  {
    var flat := Flatten(c, group);
    if flat.Err? {
      return Err(FlattenFailed);
    }
    r := UpdateMachineConfig(tools, flat.value, src);
  }

  predicate Converts(tools: Tools, c: Config, group: string) {
    !c.unmarshalFailed && Lowers(tools, Flattened(c, group))
  }

  function Converted(tools: Tools, c: Config, group: string, src: Option<MachineConfig>): (m: MachineConfig)
    requires Converts(tools, c, group)
  {
    Lowered(tools, Flattened(c, group), if src.Some? then src.value else EMPTY_MACHINE)
  }

  // ---------------------------------------------------------------------------
  // Redeploying
  // ---------------------------------------------------------------------------

  lemma StampKeys(tools: Tools, c: Config)
    ensures StampOf(tools, c).Keys == {tools.versionKey, tools.platformKey, tools.groupKey}
  {
  }

  lemma LoweredOverItself(tools: Tools, d: Config, base: MachineConfig)
    requires Lowers(tools, d)
    ensures Lowered(tools, d, Lowered(tools, d, base)) == Lowered(tools, d, base)
  {
    var here := Lowered(tools, d, base);
    StampTwice(base.metadata, StampOf(tools, d), StampOf(tools, d));
    LoweredFields(tools, d, base);
    LoweredFields(tools, d, here);
  }

  /** Stamping over a stamp with the same keys leaves only the last one. */
  lemma StampTwice(base: map<string, string>, one: map<string, string>, two: map<string, string>)
    requires one.Keys == two.Keys
    ensures base + one + two == base + two
  {
  }

  lemma LoweredFields(tools: Tools, d: Config, base: MachineConfig)
    requires Lowers(tools, d)
    ensures var m, guest := Lowered(tools, d, base), GroupGuest(tools, d).value;
            && m.app == AppFieldsOf(tools, d) && m.metadata == base.metadata + StampOf(tools, d)
            && m.guest == (if guest.Some? then guest else base.guest) && m.untouched == base.untouched
  {
  }

  lemma NoGuestIff(tools: Tools, d: Config)
    requires Lowers(tools, d)
    ensures GroupGuest(tools, d).value.None? <==> d.compute == []
  {
  }

  /** Deploying the same group again over the deployed machine changes nothing. */
  lemma RedeployIsFixedPoint(tools: Tools, c: Config, group: string, src: Option<MachineConfig>)
    requires Converts(tools, c, group)
    ensures var once := Converted(tools, c, group, src);
            Converted(tools, c, group, Some(once)) == once
  {
    LoweredOverItself(tools, Flattened(c, group), if src.Some? then src.value else EMPTY_MACHINE);
  }

  /** Agreement on every field the app config owns. */
  ghost predicate AgreeOnOwnedFields(tools: Tools, a: MachineConfig, b: MachineConfig) {
    && a.app == b.app
    && forall k :: k in {tools.versionKey, tools.platformKey, tools.groupKey} ==>
         k in a.metadata && k in b.metadata && a.metadata[k] == b.metadata[k]
  }

  lemma LoweredErasesHistory(tools: Tools, d: Config, one: MachineConfig, two: MachineConfig)
    requires Lowers(tools, d)
    ensures AgreeOnOwnedFields(tools, Lowered(tools, d, one), Lowered(tools, d, two))
    ensures d.compute == [] ==> Lowered(tools, d, one).guest == one.guest
    ensures d.compute != [] ==>
            Lowered(tools, d, one).guest == Lowered(tools, d, two).guest == GuestOf(tools, d, d.compute[0].body)
    ensures Lowered(tools, d, one).untouched == one.untouched
  {
    StampKeys(tools, d);
  }

  /**
   * Whatever machine is replaced, the result is the same on every field the app config owns. The old machine
   * contributes what the app never owns and, only when no compute section applies, its guest.
   */
  lemma DeployErasesHistory(
    tools: Tools, c: Config, group: string, one: MachineConfig, two: MachineConfig)
    requires Converts(tools, c, group)
    ensures var a, b := Converted(tools, c, group, Some(one)), Converted(tools, c, group, Some(two));
            && AgreeOnOwnedFields(tools, a, b)
            && (Flattened(c, group).compute != [] ==> a.guest == b.guest && a.guest.Some?)
            && (Flattened(c, group).compute == [] ==> a.guest == one.guest && b.guest == two.guest)
            && a.untouched == one.untouched && b.untouched == two.untouched
  {
    var d := Flattened(c, group);
    LoweredErasesHistory(tools, d, one, two);
    LoweredErasesHistory(tools, d, two, one);
  }

  /** A group has no compute section of its own exactly when every section names other groups only. */
  lemma NoComputeIff(c: Config, group: string)
    requires c.Resolve(group) != ""
    ensures Flattened(c, group).compute == [] <==>
            forall x :: x in c.compute ==> x.processes != [] && c.Resolve(group) !in x.processes && "" !in x.processes
  {
    var g := c.Resolve(group);
    var dst := FlattenSections(c, g);
    FlattenedDefaultName(c, group);
    var wants := (x: Tagged<Compute>) => x.processes == [] || dst.GroupsMatch(g, x.processes);
    forall x | x in c.compute
      ensures wants(x) <==> x.processes == [] || g in x.processes || "" in x.processes
    {
      MatchesExactlyClaims(dst, g, x.processes);
    }
    assert dst.compute == c.compute;
    assert (Filter(c.compute, wants) == []) == (forall x :: x in c.compute ==> !wants(x)) by {
      if forall x :: x in c.compute ==> !wants(x) {
        FilterNone(c.compute, wants);
      }
    }
  }

  lemma EnvNamesGroup(d: Config)
    ensures "FLY_PROCESS_GROUP" in EnvOf(d) && EnvOf(d)["FLY_PROCESS_GROUP"] == d.DefaultProcessName()
  {
    assert |"FLY_PROCESS_GROUP"| != |"PRIMARY_REGION"|;
  }

  lemma LoweredCarriesItsGroup(tools: Tools, d: Config, base: MachineConfig)
    requires Lowers(tools, d)
    ensures var m := Lowered(tools, d, base);
            tools.groupKey in m.metadata && m.metadata[tools.groupKey] == d.DefaultProcessName()
    ensures EnvOf(d) == Lowered(tools, d, base).app.env
    ensures "FLY_PROCESS_GROUP" in EnvOf(d) && EnvOf(d)["FLY_PROCESS_GROUP"] == d.DefaultProcessName()
  {
    EnvNamesGroup(d);
    LoweredFields(tools, d, base);
  }

  /** A deployed machine says which group it was deployed for, whatever machine it replaces. */
  lemma MachineCarriesItsGroup(tools: Tools, c: Config, group: string, src: Option<MachineConfig>)
    requires c.Resolve(group) != "" && Converts(tools, c, group)
    ensures var m := Converted(tools, c, group, src);
            && tools.groupKey in m.metadata && m.metadata[tools.groupKey] == c.Resolve(group)
            && "FLY_PROCESS_GROUP" in m.app.env && m.app.env["FLY_PROCESS_GROUP"] == c.Resolve(group)
  {
    FlattenedDefaultName(c, group);
    LoweredCarriesItsGroup(tools, Flattened(c, group), if src.Some? then src.value else EMPTY_MACHINE);
  }

  lemma LoweredThereAndBack(tools: Tools, d: Config, e: Config, base: MachineConfig)
    requires Lowers(tools, d) && Lowers(tools, e)
    ensures var here := Lowered(tools, d, base);
            var back := Lowered(tools, d, Lowered(tools, e, here));
            && back.(guest := here.guest) == here
            && (d.compute != [] || e.compute == [] ==> back == here)
  {
    var here := Lowered(tools, d, base);
    var away := Lowered(tools, e, here);
    StampKeys(tools, d);
    StampKeys(tools, e);
    StampTwice(base.metadata + StampOf(tools, d), StampOf(tools, e), StampOf(tools, d));
    StampTwice(base.metadata, StampOf(tools, d), StampOf(tools, d));
    LoweredFields(tools, d, base);
    LoweredFields(tools, e, here);
    LoweredFields(tools, d, away);
    NoGuestIff(tools, d);
    NoGuestIff(tools, e);
  }

  /** Moving a machine to another group and back leaves no trace of the other group but, at most, its guest. */
  lemma MovingBetweenGroupsAndBack(
    tools: Tools, c: Config, group: string, other: string, src: Option<MachineConfig>)
    requires Converts(tools, c, group) && Converts(tools, c, other)
    ensures var here := Converted(tools, c, group, src);
            var back := Converted(tools, c, group, Some(Converted(tools, c, other, Some(here))));
            && back.(guest := here.guest) == here
            && (Flattened(c, group).compute != [] || Flattened(c, other).compute == [] ==> back == here)
  {
    LoweredThereAndBack(tools, Flattened(c, group), Flattened(c, other),
                        if src.Some? then src.value else EMPTY_MACHINE);
  }

  // ---------------------------------------------------------------------------
  // File sections
  // ---------------------------------------------------------------------------

  lemma SameMatch(c: Config, d: Config, g: string, processes: seq<string>)
    requires d == c.(files := d.files)
    ensures d.GroupsMatch(g, processes) == c.GroupsMatch(g, processes)
    ensures forall k :: d.GroupMatches(g, k) == c.GroupMatches(g, k)
    ensures d.Resolve(g) == c.Resolve(g)
  {
    assert d.ProcessNames() == c.ProcessNames();
    assert d.DefaultProcessName() == c.DefaultProcessName();
    assert forall k :: d.GroupMatches(g, k) == c.GroupMatches(g, k);
  }

  lemma SameProjection<T>(c: Config, d: Config, g: string, xs: seq<Tagged<T>>)
    requires d == c.(files := d.files)
    ensures Project(d, g, xs) == Project(c, g, xs)
  {
    forall x | x in xs ensures d.GroupsMatch(g, x.processes) == c.GroupsMatch(g, x.processes) {
      SameMatch(c, d, g, x.processes);
    }
    FilterCongruent(xs, (x: Tagged<T>) => d.GroupsMatch(g, x.processes),
                    (x: Tagged<T>) => c.GroupsMatch(g, x.processes));
  }

  lemma SameCompute(c: Config, d: Config, g: string)
    requires d == c.(files := d.files)
    ensures ComputeForGroup(d, g) == ComputeForGroup(c, g)
  {
    var r := c.Resolve(g);
    SameMatch(c, d, g, []);
    forall x | x in c.compute ensures d.GroupsMatch(r, x.processes) == c.GroupsMatch(r, x.processes) {
      SameMatch(c, d, r, x.processes);
    }
    FilterCongruent(c.compute, (x: Tagged<Compute>) => x.processes == [] || d.GroupsMatch(r, x.processes),
                    (x: Tagged<Compute>) => x.processes == [] || c.GroupsMatch(r, x.processes));
  }

  lemma SameChecks(c: Config, d: Config, g: string)
    requires d == c.(files := d.files)
    ensures KeptChecks(d, g) == KeptChecks(c, g)
    ensures KeptHttpService(d, g) == KeptHttpService(c, g)
  {
    forall k | k in c.checks
      ensures d.GroupsMatch(g, c.checks[k].processes) == c.GroupsMatch(g, c.checks[k].processes)
    {
      SameMatch(c, d, g, c.checks[k].processes);
    }
    if c.httpService.Some? {
      SameMatch(c, d, g, c.httpService.value.processes);
    }
  }

  lemma SameProcesses(c: Config, d: Config, g: string)
    requires d == c.(files := d.files)
    ensures KeptProcesses(d, g) == KeptProcesses(c, g)
  {
    SameMatch(c.(defaultGroupName := g), d.(defaultGroupName := g), g, []);
  }

  lemma SameSections(c: Config, d: Config, g: string)
    requires d == c.(files := d.files)
    ensures FlattenSections(d, g) == FlattenSections(c, g).(files := Project(d, g, d.files))
  {
    SameProjection(c, d, g, c.services);
    SameProjection(c, d, g, c.mounts);
    SameProjection(c, d, g, c.metrics);
    SameProjection(c, d, g, c.restart);
    SameProcesses(c, d, g);
    SameChecks(c, d, g);
  }

  lemma SameFlattening(c: Config, d: Config, group: string)
    requires d == c.(files := d.files)
    ensures Flattened(d, group) == Flattened(c, group).(files := Flattened(d, group).files)
  {
    SameMatch(c, d, group, []);
    var g := c.Resolve(group);
    SameSections(c, d, g);
    SameCompute(FlattenSections(c, g), FlattenSections(d, g), g);
  }

  lemma SameDefault(d: Config, e: Config)
    requires e == d.(files := e.files)
    ensures e.ProcessNames() == d.ProcessNames() && e.DefaultProcessName() == d.DefaultProcessName()
  {
  }

  lemma SameInit(tools: Tools, d: Config, e: Config, group: string)
    requires e == d.(files := e.files)
    ensures InitCmd(tools, d, group) == InitCmd(tools, e, group)
  {
    SameDefault(d, e);
  }

  lemma SameGuest(tools: Tools, d: Config, e: Config)
    requires e == d.(files := e.files)
    ensures GroupGuest(tools, d) == GroupGuest(tools, e)
  {
  }

  lemma SameParts(tools: Tools, d: Config, e: Config)
    requires e == d.(files := e.files)
    ensures StampOf(tools, d) == StampOf(tools, e)
    ensures GroupGuest(tools, d) == GroupGuest(tools, e)
    ensures InitCmd(tools, d, d.DefaultProcessName()) == InitCmd(tools, e, e.DefaultProcessName())
    ensures EnvOf(d) == EnvOf(e)
  {
    SameDefault(d, e);
    SameGuest(tools, d, e);
    SameInit(tools, d, e, d.DefaultProcessName());
  }

  lemma SameSuccess(tools: Tools, d: Config, e: Config)
    requires e == d.(files := e.files)
    ensures Lowers(tools, d) <==> Lowers(tools, e)
  {
    SameParts(tools, d, e);
    assert forall k :: CheckLowers(d, k) == CheckLowers(e, k);
  }

  lemma SameChecksLowered(tools: Tools, d: Config, e: Config)
    requires e == d.(files := e.files) && Lowers(tools, d) && Lowers(tools, e)
    ensures AppFieldsOf(tools, e).checks == AppFieldsOf(tools, d).checks
  {
    forall k | k in d.checks
      ensures LoweredCheck(tools, e, e.checks[k].body) == LoweredCheck(tools, d, d.checks[k].body)
    {
    }
  }

  lemma SameLowering(tools: Tools, d: Config, e: Config)
    requires e == d.(files := e.files) && Lowers(tools, d) && Lowers(tools, e)
    ensures AppFieldsOf(tools, e) == AppFieldsOf(tools, d)
  {
    SameParts(tools, d, e);
    SameChecksLowered(tools, d, e);
  }

  /** The process tags of file sections never reach a machine: only the files merged beforehand do. */
  lemma FileTagsDoNotReachMachines(
    tools: Tools, c: Config, files: seq<Tagged<File>>, group: string, src: Option<MachineConfig>)
    ensures var d := c.(files := files);
            && (Converts(tools, d, group) <==> Converts(tools, c, group))
            && (Converts(tools, c, group) ==> Converted(tools, d, group, src) == Converted(tools, c, group, src))
  {
    var d := c.(files := files);
    SameFlattening(c, d, group);
    SameParts(tools, Flattened(c, group), Flattened(d, group));
    SameSuccess(tools, Flattened(c, group), Flattened(d, group));
    if Lowers(tools, Flattened(c, group)) {
      SameLowering(tools, Flattened(c, group), Flattened(d, group));
    }
  }
}
