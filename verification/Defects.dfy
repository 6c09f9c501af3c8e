/** Why a config is rejected: the defects that validation looks for, one by one (internal/appconfig/validation.go). */
module Defects {
  import opened Prelude
  import opened AppConfig
  import opened ProcessGroups
  import opened Machines
  import opened Validation

  datatype Defect =
    | ReleaseCommand
    | UnknownStrategy
    | CanaryWithMounts
    | CheckType(check: string)
    | CheckInterval(check: string)
    | CheckTimeout(check: string)
    | ServiceWithoutGroup
    | ServiceForGroup(group: string)
    | ProcessCommand(group: string)
    | ConsoleCommand
    | TwoMounts
    | MountSize(mount: nat)
    | MountRetention(mount: nat)
    | MountExtension(mount: nat)
    | RestartForGroup(group: string)
    | RestartPolicy(restart: nat)
    | Compression
    | CompressionLevel
    | Undecodable

  /** A defined group, or the default one where none is defined. */
  predicate Defined(c: Config, g: string) {
    if c.processes != map[] then g in c.processes
    else g == if c.defaultGroupName != "" then c.defaultGroupName else "app"
  }

  /** Some service, or the http service, lists these groups. */
  ghost predicate Serves(c: Config, groups: seq<string>) {
    || (c.httpService.Some? && c.httpService.value.processes == groups)
    || exists s :: s in c.services && s.processes == groups
  }

  /** A size that is given is a whole number of gigabytes, one or more. */
  predicate BadSize(tools: Tools, size: string) {
    size != "" && (tools.parseGb(size).None? || tools.parseGb(size).value < 1)
  }

  predicate Given(tools: Tools, size: string, least: int, most: int) {
    size != "" && tools.parseGb(size).Some? && least <= tools.parseGb(size).value <= most
  }

  /**
   * With good sizes: a volume grows by 1 to 100 GB when it is 50 to 99 percent full, to 500 GB at most, or not at all.
   */
  predicate BadExtension(tools: Tools, m: Mount) {
    && !BadSize(tools, m.extendIncrement) && !BadSize(tools, m.extendLimit)
    && !(m.extendThreshold == 0 && m.extendIncrement == "" && m.extendLimit == "")
    && !(50 <= m.extendThreshold <= 99 && Given(tools, m.extendIncrement, 1, 100)
         && (m.extendLimit != "" ==> Given(tools, m.extendLimit, 1, 500)))
  }

  ghost predicate Has(tools: Tools, c: Config, d: Defect) {
    match d
    case ReleaseCommand => c.deploy.Some? && tools.split(c.deploy.value.releaseCommand).None?
    case UnknownStrategy =>
      c.deploy.Some? && c.deploy.value.strategy !in {"", "canary", "rolling", "immediate", "bluegreen"}
    case CanaryWithMounts => c.deploy.Some? && c.deploy.value.strategy == "canary" && |c.mounts| > 0
    case CheckType(k) => k in c.checks && c.checks[k].body.kind !in {Some("http"), Some("tcp")}
    case CheckInterval(k) =>
      k in c.checks && c.checks[k].body.interval.Some? && c.checks[k].body.interval.value < 2_000_000_000
    case CheckTimeout(k) =>
      k in c.checks && c.checks[k].body.timeout.Some? && c.checks[k].body.timeout.value > 60_000_000_000
    case ServiceWithoutGroup => c.processes != map[] && Serves(c, [])
    case ServiceForGroup(g) => !Defined(c, g) && exists groups :: Serves(c, groups) && g in groups
    case ProcessCommand(g) => g in c.processes && c.processes[g] != "" && tools.split(c.processes[g]).None?
    case ConsoleCommand => tools.split(c.consoleCommand).None?
    case TwoMounts => c.configFilePath == "--flatten--" && |c.mounts| > 1
    case MountSize(i) =>
      i < |c.mounts| && var m := c.mounts[i].body;
      BadSize(tools, m.initialSize) || BadSize(tools, m.extendIncrement) || BadSize(tools, m.extendLimit)
    case MountRetention(i) =>
      i < |c.mounts| && c.mounts[i].body.snapshotRetention.Some?
      && !(1 <= c.mounts[i].body.snapshotRetention.value <= 60)
    case MountExtension(i) => i < |c.mounts| && BadExtension(tools, c.mounts[i].body)
    case RestartForGroup(g) => !Defined(c, g) && exists r :: r in c.restart && g in r.processes
    case RestartPolicy(i) => i < |c.restart| && c.restart[i].body.policy !in {"always", "on-failure", "never"}
    case Compression => c.build.Some? && c.build.value.compression !in {"", "gzip", "zstd"}
    case CompressionLevel =>
      c.build.Some? && c.build.value.compressionLevel.Some? && !(0 <= c.build.value.compressionLevel.value <= 9)
    case Undecodable => c.unmarshalFailed
  }

  lemma DefinedIff(c: Config, g: string)
    ensures Defined(c, g) <==> g in c.ProcessNames()
  {
  }

  lemma DeployIff(tools: Tools, c: Config)
    ensures DeployOk(tools, c) <==>
            !Has(tools, c, ReleaseCommand) && !Has(tools, c, UnknownStrategy) && !Has(tools, c, CanaryWithMounts)
  {
  }

  lemma ChecksIff(tools: Tools, c: Config)
    ensures ChecksOk(tools, c) <==>
            forall k ::
              !Has(tools, c, CheckType(k)) && !Has(tools, c, CheckInterval(k)) && !Has(tools, c, CheckTimeout(k))
  {
    forall k | k in c.checks
      ensures CheckOk(tools, c.checks[k].body) <==>
              !Has(tools, c, CheckType(k)) && !Has(tools, c, CheckInterval(k)) && !Has(tools, c, CheckTimeout(k))
    {
    }
  }

  lemma AllServicesServe(c: Config, groups: seq<string>)
    ensures Serves(c, groups) <==> exists s :: s in AllServices(c) && s.processes == groups
  {
    var all := AllServices(c);
    if c.httpService.Some? {
      assert all[0] in all && all[0].processes == c.httpService.value.processes;
    }
    forall s ensures s in all <==> (c.httpService.Some? && s == ServiceOf(c.httpService.value)) || s in c.services {
    }
  }

  lemma ServicesIff(tools: Tools, c: Config)
    ensures ServicesOk(c) <==> !Has(tools, c, ServiceWithoutGroup) && forall g :: !Has(tools, c, ServiceForGroup(g))
  {
    forall groups ensures Serves(c, groups) <==> exists s :: s in AllServices(c) && s.processes == groups {
      AllServicesServe(c, groups);
    }
    forall g ensures Defined(c, g) <==> g in c.ProcessNames() {
      DefinedIff(c, g);
    }
    forall s | s in AllServices(c)
      ensures ServiceOk(c, s) <==>
              (s.processes == [] ==> c.processes == map[]) && forall g :: g in s.processes ==> Defined(c, g)
    {
    }
    if ServicesOk(c) {
      forall g ensures !Has(tools, c, ServiceForGroup(g)) {
      }
    } else {
      var s :| s in AllServices(c) && !ServiceOk(c, s);
      assert Serves(c, s.processes);
      if g :| g in s.processes && !Defined(c, g) {
        assert Has(tools, c, ServiceForGroup(g));
      }
    }
  }

  lemma ExtensionIff(tools: Tools, m: Mount)
    requires SizeOk(tools, m.extendIncrement) && SizeOk(tools, m.extendLimit)
    ensures AutoExtendOk(m.extendThreshold, ExtendGb(tools, m.extendIncrement), ExtendGb(tools, m.extendLimit)) <==>
            !BadExtension(tools, m)
  {
  }

  ghost predicate NoMountDefect(tools: Tools, c: Config, i: nat) {
    !Has(tools, c, MountSize(i)) && !Has(tools, c, MountRetention(i)) && !Has(tools, c, MountExtension(i))
  }

  lemma MountIff(tools: Tools, c: Config, i: nat)
    requires i < |c.mounts|
    ensures MountOk(tools, c.mounts[i].body) <==> NoMountDefect(tools, c, i)
  {
    var m := c.mounts[i].body;
    if SizeOk(tools, m.extendIncrement) && SizeOk(tools, m.extendLimit) {
      ExtensionIff(tools, m);
    }
  }

  lemma EachMountIff(tools: Tools, c: Config)
    ensures (forall m :: m in c.mounts ==> MountOk(tools, m.body)) <==> forall i: nat :: NoMountDefect(tools, c, i)
  {
    if forall m :: m in c.mounts ==> MountOk(tools, m.body) {
      forall i: nat ensures NoMountDefect(tools, c, i) {
        if i < |c.mounts| {
          MountIff(tools, c, i);
        }
      }
    } else {
      var m :| m in c.mounts && !MountOk(tools, m.body);
      var i: nat :| i < |c.mounts| && c.mounts[i] == m;
      MountIff(tools, c, i);
    }
  }

  lemma MountsIff(tools: Tools, c: Config)
    ensures MountsOk(tools, c) <==> !Has(tools, c, TwoMounts) && forall i: nat :: NoMountDefect(tools, c, i)
  {
    EachMountIff(tools, c);
  }

  lemma RestartIff(tools: Tools, c: Config, i: nat)
    requires i < |c.restart|
    ensures RestartOk(c, c.restart[i]) <==>
            (forall g :: g in c.restart[i].processes ==> Defined(c, g)) && !Has(tools, c, RestartPolicy(i))
  {
    forall g ensures Defined(c, g) <==> g in c.ProcessNames() {
      DefinedIff(c, g);
    }
  }

  lemma BadRestartHasDefect(tools: Tools, c: Config, i: nat) returns (d: Defect)
    requires i < |c.restart| && !RestartOk(c, c.restart[i])
    ensures (d.RestartForGroup? || d.RestartPolicy?) && Has(tools, c, d)
  {
    RestartIff(tools, c, i);
    if g :| g in c.restart[i].processes && !Defined(c, g) {
      d := RestartForGroup(g);
    } else {
      d := RestartPolicy(i);
    }
  }

  lemma RestartsIff(tools: Tools, c: Config)
    ensures RestartsOk(c) <==>
            (forall g :: !Has(tools, c, RestartForGroup(g))) && forall i: nat :: !Has(tools, c, RestartPolicy(i))
  {
    forall i: nat | i < |c.restart| && RestartOk(c, c.restart[i])
      ensures !Has(tools, c, RestartPolicy(i)) && forall g :: g in c.restart[i].processes ==> Defined(c, g)
    {
      RestartIff(tools, c, i);
    }
    if !RestartsOk(c) {
      var r :| r in c.restart && !RestartOk(c, r);
      var i: nat :| i < |c.restart| && c.restart[i] == r;
      var d := BadRestartHasDefect(tools, c, i);
    }
  }

  ghost predicate OthersOk(tools: Tools, c: Config) {
    && ProcessesOk(tools, c) && tools.split(c.consoleCommand).Some? && CompressionOk(c) && !c.unmarshalFailed
  }

  lemma CommandsIff(tools: Tools, c: Config)
    ensures ProcessesOk(tools, c) <==> forall g :: !Has(tools, c, ProcessCommand(g))
  {
    forall g | g in c.processes
      ensures (c.processes[g] == "" || tools.split(c.processes[g]).Some?) <==> !Has(tools, c, ProcessCommand(g))
    {
    }
  }

  lemma CompressionIff(tools: Tools, c: Config)
    ensures CompressionOk(c) <==> !Has(tools, c, Compression) && !Has(tools, c, CompressionLevel)
  {
  }

  lemma OtherDefects(tools: Tools, c: Config)
    ensures OthersOk(tools, c) <==>
            && (forall g :: !Has(tools, c, ProcessCommand(g))) && !Has(tools, c, ConsoleCommand)
            && !Has(tools, c, Compression) && !Has(tools, c, CompressionLevel) && !Has(tools, c, Undecodable)
  {
    CommandsIff(tools, c);
    CompressionIff(tools, c);
  }

  lemma DefectThenRejected(tools: Tools, c: Config, d: Defect)
    requires Has(tools, c, d)
    ensures !Accepts(tools, c)
  {
    DeployIff(tools, c);
    ChecksIff(tools, c);
    ServicesIff(tools, c);
    MountsIff(tools, c);
    RestartsIff(tools, c);
    OtherDefects(tools, c);
    if d.MountSize? || d.MountRetention? || d.MountExtension? {
      assert !NoMountDefect(tools, c, d.mount);
    }
  }

  /** A config is rejected exactly when it has one of the defects; a failed conversion to a machine is none of them. */
  lemma RejectedIff(tools: Tools, c: Config)
    ensures !Accepts(tools, c) <==> exists d :: Has(tools, c, d)
  {
    DeployIff(tools, c);
    ChecksIff(tools, c);
    ServicesIff(tools, c);
    MountsIff(tools, c);
    RestartsIff(tools, c);
    OtherDefects(tools, c);
    if d :| Has(tools, c, d) {
      DefectThenRejected(tools, c, d);
    }
  }
}
