/** The app configuration record (fly.toml) and its process group names. */
module AppConfig {
  import opened Prelude
  import Names

  type Duration = int   // nanoseconds
  type Blob = string    // a sub-record that is only ever copied

  /** A section that may name the process groups it belongs to. */
  datatype Tagged<+T> = Tagged(body: T, processes: seq<string>)

  datatype MachinePort = MachinePort(
    port: Option<int>, startPort: Option<int>, endPort: Option<int>, handlers: seq<string>,
    forceHttps: bool, tlsOptions: Option<Blob>, httpOptions: Option<Blob>)

  datatype TcpCheck = TcpCheck(
    interval: Option<Duration>, timeout: Option<Duration>, gracePeriod: Option<Duration>)

  datatype HttpCheck = HttpCheck(
    interval: Option<Duration>, timeout: Option<Duration>, gracePeriod: Option<Duration>,
    httpMethod: Option<string>, path: Option<string>, protocol: Option<string>,
    tlsSkipVerify: Option<bool>, tlsServerName: Option<string>, headers: map<string, string>)

  datatype Service = Service(
    protocol: string, internalPort: int, autoStop: Option<string>, autoStart: Option<bool>,
    minRunning: Option<int>, ports: seq<MachinePort>, concurrency: Option<Blob>,
    tcpChecks: seq<TcpCheck>, httpChecks: seq<HttpCheck>)

  datatype HttpService = HttpService(
    internalPort: int, forceHttps: bool, autoStop: Option<string>, autoStart: Option<bool>,
    minRunning: Option<int>, concurrency: Option<Blob>, tlsOptions: Option<Blob>,
    httpOptions: Option<Blob>, httpChecks: seq<HttpCheck>)

  datatype TopCheck = TopCheck(
    port: Option<int>, kind: Option<string>, interval: Option<Duration>, timeout: Option<Duration>,
    gracePeriod: Option<Duration>, httpMethod: Option<string>, path: Option<string>,
    protocol: Option<string>, tlsSkipVerify: Option<bool>, tlsServerName: Option<string>,
    headers: map<string, string>)

  datatype Mount = Mount(
    source: string, destination: string, initialSize: string, snapshotRetention: Option<int>,
    extendThreshold: int, extendIncrement: string, extendLimit: string)

  datatype File = File(guestPath: string, localPath: string, secretName: string, rawValue: string)

  datatype Metrics = Metrics(port: int, path: string)

  datatype Restart = Restart(policy: string, maxRetries: int)

  datatype GuestSpec = GuestSpec(gpuKind: string, hostDedicationId: string, overrides: Blob)

  datatype Compute = Compute(size: string, memory: string, guest: Option<GuestSpec>)

  datatype Static = Static(guestPath: string, urlPrefix: string, tigrisBucket: string, indexDocument: string)

  datatype Experimental = Experimental(
    cmd: Option<seq<string>>, entrypoint: Option<seq<string>>, exec: Option<seq<string>>)

  datatype Build = Build(compression: string, compressionLevel: Option<int>)

  datatype Deploy = Deploy(strategy: string, releaseCommand: string)

  const DEFAULT_GROUP := "app"
  const FLATTEN_PATH := "--flatten--"

  datatype Config = Config(
    primaryRegion: string,
    killSignal: Option<string>,
    killTimeout: Option<Duration>,
    swapSizeMb: Option<int>,
    consoleCommand: string,
    experimental: Option<Experimental>,
    build: Option<Build>,
    deploy: Option<Deploy>,
    env: map<string, string>,
    processes: map<string, string>,
    mounts: seq<Tagged<Mount>>,
    httpService: Option<Tagged<HttpService>>,
    services: seq<Tagged<Service>>,
    checks: map<string, Tagged<TopCheck>>,
    files: seq<Tagged<File>>,
    hostDedicationId: string,
    restart: seq<Tagged<Restart>>,
    compute: seq<Tagged<Compute>>,
    statics: seq<Static>,
    metrics: seq<Tagged<Option<Metrics>>>,
    mergedFiles: seq<File>,
    configFilePath: string,
    unmarshalFailed: bool,
    defaultGroupName: string)
  {
    /** The keys of `processes` in ascending order, or the default group name, or "app". */
    function ProcessNames(): (names: seq<string>)
      ensures names != []
      ensures forall n :: n in names ==> processes == map[] || n in processes
      ensures forall n :: n in processes ==> n in names
      ensures forall i, j :: 0 <= i < j < |names| ==> names[i] != names[j]
    {
      if processes != map[] then
        assert processes.Keys != {} by { var k :| k in processes; assert k in processes.Keys; }
        Names.Sorted(processes.Keys)
      else if defaultGroupName != "" then [defaultGroupName]
      else [DEFAULT_GROUP]
    }

    /** The default group name when it is defined, otherwise the first group in order. */
    function DefaultProcessName(): (name: string)
      ensures name in ProcessNames()
    {
      var preferred := if defaultGroupName == "" then DEFAULT_GROUP else defaultGroupName;
      if preferred in ProcessNames() then preferred else ProcessNames()[0]
    }

    /** Whether the group name `toCheck` targets group `target`. */
    predicate GroupMatches(target: string, toCheck: string) {
      var t := if target == "" then DefaultProcessName() else target;
      toCheck == t || (toCheck == "" && t == DefaultProcessName())
    }

    /** Whether a section listing `toCheck` targets group `target`. */
    predicate GroupsMatch(target: string, toCheck: seq<string>) {
      if toCheck == [] then GroupMatches(target, "")
      else exists x :: x in toCheck && GroupMatches(target, x)
    }

    /** The group a request for `group` means. */
    function Resolve(group: string): (g: string) {
      if group == "" then DefaultProcessName() else group
    }
  }
}
