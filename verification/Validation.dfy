/** Config validation and what it promises about lowering (internal/appconfig/validation.go). */
module Validation {
  import opened Prelude
  import opened AppConfig
  import opened ProcessGroups
  import opened Machines

  const SECOND: Duration := 1_000_000_000
  const STRATEGIES := ["canary", "rolling", "immediate", "bluegreen"]

  // ---------------------------------------------------------------------------
  // What each validator accepts
  // ---------------------------------------------------------------------------

  predicate DeployOk(tools: Tools, c: Config) {
    c.deploy.Some? ==>
      && tools.split(c.deploy.value.releaseCommand).Some?
      && (c.deploy.value.strategy != "" ==> c.deploy.value.strategy in STRATEGIES)
      && (c.deploy.value.strategy == "canary" ==> c.mounts == [])
  }

  predicate CheckOk(tools: Tools, k: TopCheck) {
    && MachineCheckOf(tools, k).Some?
    && (k.interval.Some? ==> k.interval.value >= 2 * SECOND)
    && (k.timeout.Some? ==> k.timeout.value <= 60 * SECOND)
  }

  predicate ChecksOk(tools: Tools, c: Config) {
    forall k :: k in c.checks ==> CheckOk(tools, c.checks[k].body)
  }

  predicate ServiceOk(c: Config, s: Tagged<Service>) {
    if s.processes == [] then c.processes == map[]
    else forall p :: p in s.processes ==> p in c.ProcessNames()
  }

  predicate ServicesOk(c: Config) {
    forall s :: s in AllServices(c) ==> ServiceOk(c, s)
  }

  predicate ProcessesOk(tools: Tools, c: Config) {
    forall p :: p in c.processes ==> c.processes[p] == "" || tools.split(c.processes[p]).Some?
  }

  predicate SizeOk(tools: Tools, s: string) {
    s != "" ==> tools.parseGb(s).Some? && tools.parseGb(s).value >= 1
  }

  predicate AutoExtendOk(threshold: int, increment: int, limit: int) {
    threshold != 0 || increment != 0 || limit != 0 ==>
      && !(threshold != 0 && increment == 0 && limit == 0)
      && 50 <= threshold <= 99
      && 1 <= increment <= 100
      && (limit != 0 ==> 1 <= limit <= 500)
  }

  predicate MountOk(tools: Tools, m: Mount) {
    && SizeOk(tools, m.initialSize)
    && (m.snapshotRetention.Some? ==> 1 <= m.snapshotRetention.value <= 60)
    && SizeOk(tools, m.extendIncrement)
    && SizeOk(tools, m.extendLimit)
    && AutoExtendOk(m.extendThreshold, ExtendGb(tools, m.extendIncrement), ExtendGb(tools, m.extendLimit))
  }

  predicate MountsOk(tools: Tools, c: Config) {
    && !(c.configFilePath == FLATTEN_PATH && |c.mounts| > 1)
    && forall m :: m in c.mounts ==> MountOk(tools, m.body)
  }

  predicate RestartOk(c: Config, r: Tagged<Restart>) {
    (forall p :: p in r.processes ==> p in c.ProcessNames()) && RestartPolicyOf(r.body.policy).Some?
  }

  predicate RestartsOk(c: Config) {
    forall r :: r in c.restart ==> RestartOk(c, r)
  }

  predicate CompressionOk(c: Config) {
    c.build.Some? ==>
      && c.build.value.compression in ["", "gzip", "zstd"]
      && (c.build.value.compressionLevel.Some? ==> 0 <= c.build.value.compressionLevel.value <= 9)
  }

  /** What Validate accepts. */
  predicate Accepts(tools: Tools, c: Config) {
    && DeployOk(tools, c) && ChecksOk(tools, c) && ServicesOk(c) && ProcessesOk(tools, c)
    && tools.split(c.consoleCommand).Some? && MountsOk(tools, c) && RestartsOk(c) && CompressionOk(c)
    && !c.unmarshalFailed
  }

  // ---------------------------------------------------------------------------
  // The validators as the source runs them: each goes on after an error
  // ---------------------------------------------------------------------------

  method ValidateChecks(tools: Tools, c: Config) returns (ok: bool)
    ensures ok <==> ChecksOk(tools, c)
  {
    ok := true;
    var todo := c.checks.Keys;
    while todo != {}
      invariant todo <= c.checks.Keys
      invariant ok <==> forall k :: k in c.checks && k !in todo ==> CheckOk(tools, c.checks[k].body)
      decreases todo
    {
      var name :| name in todo;
      var check := c.checks[name].body;
      if MachineCheckOf(tools, check).None? {
        ok := false;
      }
      if check.interval.Some? && check.interval.value < 2 * SECOND {
        ok := false;
      }
      if check.timeout.Some? && check.timeout.value > 60 * SECOND {
        ok := false;
      }
      todo := todo - {name};
    }
  }

  /** Whether every process named is one of the valid ones. */
  method AllValid(processes: seq<string>, valid: seq<string>) returns (ok: bool)
    ensures ok <==> forall p :: p in processes ==> p in valid
  {
    ok := true;
    for i := 0 to |processes|
      invariant ok <==> forall j :: 0 <= j < i ==> processes[j] in valid
    {
      if processes[i] !in valid {
        ok := false;
      }
    }
  }

  method ValidateServices(c: Config) returns (ok: bool)
    ensures ok <==> ServicesOk(c)
  {
    ok := true;
    var valid := c.ProcessNames();
    var services := AllServices(c);
    for i := 0 to |services|
      invariant ok <==> forall j :: 0 <= j < i ==> ServiceOk(c, services[j])
    {
      var processes := services[i].processes;
      var named := true;
      if processes == [] && |c.processes| > 0 {
        named := false;
      } else {
        named := AllValid(processes, valid);
      }
      ok := ok && named;
    }
  }

  method ValidateProcesses(tools: Tools, c: Config) returns (ok: bool)
    ensures ok <==> ProcessesOk(tools, c)
  {
    ok := true;
    var todo := c.processes.Keys;
    while todo != {}
      invariant todo <= c.processes.Keys
      invariant ok <==> forall p :: p in c.processes && p !in todo ==>
                          c.processes[p] == "" || tools.split(c.processes[p]).Some?
      decreases todo
    {
      var name :| name in todo;
      todo := todo - {name};
      if c.processes[name] == "" {
        continue;
      }
      if tools.split(c.processes[name]).None? {
        ok := false;
      }
    }
  }

  /** Converts every group, but looks at the error accumulated so far instead of the one just returned. */
  method ValidateMachineConversion(tools: Tools, c: Config) returns (ok: bool)
    ensures ok
  {
    ok := true;
    var names := c.ProcessNames();
    for i := 0 to |names|
      invariant ok
    {
      var converted := ToMachineConfig(tools, c, names[i], None);
      if !ok {
        ok := false;
      }
    }
  }

  method ValidateMounts(tools: Tools, c: Config) returns (ok: bool)
    ensures ok <==> MountsOk(tools, c)
  {
    ok := !(c.configFilePath == FLATTEN_PATH && |c.mounts| > 1);
    ghost var single := ok;
    for i := 0 to |c.mounts|
      invariant ok <==> single && forall j :: 0 <= j < i ==> MountOk(tools, c.mounts[j].body)
    {
      var mountOk := ValidateMount(tools, c.mounts[i].body);
      ok := ok && mountOk;
    }
  }

  method ValidateMount(tools: Tools, m: Mount) returns (ok: bool)
    ensures ok <==> MountOk(tools, m)
  {
    ok := true;
    if !SizeOk(tools, m.initialSize) {
      ok := false;
    }
    if m.snapshotRetention.Some? && (m.snapshotRetention.value < 1 || m.snapshotRetention.value > 60) {
      ok := false;
    }
    var increment, limit := ExtendGb(tools, m.extendIncrement), ExtendGb(tools, m.extendLimit);
    if !SizeOk(tools, m.extendIncrement) {
      ok := false;
    }
    if !SizeOk(tools, m.extendLimit) {
      ok := false;
    }
    if m.extendThreshold != 0 || increment != 0 || limit != 0 {
      if m.extendThreshold != 0 && increment == 0 && limit == 0 {
        ok := false;
      }
      if m.extendThreshold < 50 || m.extendThreshold > 99 {
        ok := false;
      }
      if increment < 1 || increment > 100 {
        ok := false;
      }
      if limit != 0 && (limit < 1 || limit > 500) {
        ok := false;
      }
    }
  }

  method ValidateRestarts(c: Config) returns (ok: bool)
    ensures ok <==> RestartsOk(c)
  {
    ok := true;
    for i := 0 to |c.restart|
      invariant ok <==> forall j :: 0 <= j < i ==> RestartOk(c, c.restart[j])
    {
      var named := AllValid(c.restart[i].processes, c.ProcessNames());
      ok := ok && named;
      if RestartPolicyOf(c.restart[i].body.policy).None? {
        ok := false;
      }
    }
  }

  /** The verdict is the conjunction of the validators and of a clean decoding; the conversion check never objects. */
  method Validate(tools: Tools, c: Config) returns (ok: bool)
    ensures ok <==> Accepts(tools, c)
  {
    ok := DeployOk(tools, c);
    var step := ValidateChecks(tools, c);
    ok := ok && step;
    step := ValidateServices(c);
    ok := ok && step;
    step := ValidateProcesses(tools, c);
    ok := ok && step;
    step := ValidateMachineConversion(tools, c);
    ok := ok && step;
    ok := ok && tools.split(c.consoleCommand).Some?;
    step := ValidateMounts(tools, c);
    ok := ok && step;
    step := ValidateRestarts(c);
    ok := ok && step && CompressionOk(c) && !c.unmarshalFailed;
  }

  // ---------------------------------------------------------------------------
  // Validation covers lowering, but for two causes
  // ---------------------------------------------------------------------------

  /** A check of the group has no port and the group has no http_service to take one from. */
  ghost predicate PortlessCheck(c: Config, g: string) {
    && (exists k :: k in c.checks && c.GroupsMatch(g, c.checks[k].processes) && c.checks[k].body.port.None?)
    && (c.httpService.Some? ==> !c.GroupsMatch(g, c.httpService.value.processes))
  }

  lemma AcceptedCommandSplits(tools: Tools, c: Config, group: string)
    requires ProcessesOk(tools, c)
    ensures var d := Flattened(c, group); InitCmd(tools, d, d.DefaultProcessName()).Ok?
  {
    var d := Flattened(c, group);
    assert d.processes == KeptProcesses(c, c.Resolve(group));
    assert forall p :: p in d.processes ==> p in c.processes && d.processes[p] == c.processes[p];
  }

  lemma AcceptedRestartsParse(c: Config, group: string)
    requires RestartsOk(c)
    ensures forall x :: x in Flattened(c, group).restart ==> RestartPolicyOf(x.body.policy).Some?
  {
    var g := c.Resolve(group);
    var kept := Owned(c, g, c.restart);
    assert Flattened(c, group).restart == Project(c, g, c.restart);
    forall x | x in Flattened(c, group).restart ensures RestartPolicyOf(x.body.policy).Some? {
      var i :| 0 <= i < |kept| && x == Retagged(kept[i], g);
      assert kept[i] in c.restart;
      assert RestartOk(c, kept[i]);
    }
  }

  lemma AcceptedChecksLowerIff(tools: Tools, c: Config, group: string)
    requires ChecksOk(tools, c)
    ensures var d := Flattened(c, group);
            (forall k :: k in d.checks ==> CheckLowers(d, d.checks[k].body)) <==> !PortlessCheck(c, c.Resolve(group))
  {
    var g := c.Resolve(group);
    var d := Flattened(c, group);
    assert d.checks == KeptChecks(c, g) && d.httpService == KeptHttpService(c, g);
    forall k | k in d.checks ensures d.checks[k].body.kind in [Some("http"), Some("tcp")] {
      assert CheckOk(tools, c.checks[k].body);
    }
    if PortlessCheck(c, g) {
      var k :| k in c.checks && c.GroupsMatch(g, c.checks[k].processes) && c.checks[k].body.port.None?;
      assert k in d.checks && !CheckLowers(d, d.checks[k].body);
    }
  }

  /**
   * An accepted config converts for a group unless a check of that group has no port to use, or the guest of its
   * compute section cannot be sized: those are the only causes, and each of them is enough.
   */
  lemma AcceptedConfigsConvertIff(tools: Tools, c: Config, group: string)
    requires Accepts(tools, c)
    ensures Converts(tools, c, group) <==>
            !PortlessCheck(c, c.Resolve(group)) && GroupGuest(tools, Flattened(c, group)).Ok?
  {
    AcceptedCommandSplits(tools, c, group);
    AcceptedRestartsParse(c, group);
    AcceptedChecksLowerIff(tools, c, group);
  }

  const BARE_CONFIG := Config(
    "", None, None, None, "", None, None, None, map[], map[], [], None, [], map[], [], "", [], [], [], [], [],
    "fly.toml", false, "app")

  const BARE_CHECK := TopCheck(None, Some("tcp"), None, None, None, None, None, None, None, None, map[])

  /** Validation accepts a config with a portless check and no http_service, which then fails to convert. */
  lemma AcceptedConfigThatCannotConvert(tools: Tools)
    requires tools.split("").Some?
    ensures var c := BARE_CONFIG.(checks := map["alive" := Tagged(BARE_CHECK, [])]);
            Accepts(tools, c) && !Converts(tools, c, "app")
  {
    var c := BARE_CONFIG.(checks := map["alive" := Tagged(BARE_CHECK, [])]);
    assert c.ProcessNames() == ["app"] && c.DefaultProcessName() == "app";
    assert "alive" in c.checks && c.GroupsMatch("app", c.checks["alive"].processes);
    assert PortlessCheck(c, "app");
    assert Accepts(tools, c);
    AcceptedConfigsConvertIff(tools, c, "app");
  }
}
