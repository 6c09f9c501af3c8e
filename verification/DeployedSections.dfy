/** From the sections of an app config to the machines of its groups: projection and lowering together. */
module DeployedSections {
  import opened Prelude
  import opened AppConfig
  import opened ProcessGroups
  import opened Machines

  /** The positions of the sections of a list that claim a group. */
  ghost function ClaimedAt<T>(c: Config, g: string, xs: seq<Tagged<T>>): (at: seq<nat>) {
    Positions(xs, (x: Tagged<T>) => c.GroupsMatch(g, x.processes))
  }

  lemma ClaimedAtIff<T>(c: Config, g: string, xs: seq<Tagged<T>>)
    requires g != ""
    ensures forall k :: 0 <= k < |xs| ==> (k in ClaimedAt(c, g, xs) <==> Claims(c, g, xs[k].processes))
    ensures forall i, j :: 0 <= i < j < |ClaimedAt(c, g, xs)| ==> ClaimedAt(c, g, xs)[i] < ClaimedAt(c, g, xs)[j]
    ensures |Project(c, g, xs)| == |ClaimedAt(c, g, xs)|
    ensures forall i :: 0 <= i < |Project(c, g, xs)| ==>
              ClaimedAt(c, g, xs)[i] < |xs| && Project(c, g, xs)[i] == Tagged(xs[ClaimedAt(c, g, xs)[i]].body, [g])
  {
    ProjectionKeepsExactlyClaims(c, g, xs);
  }

  lemma ProjectedSections(c: Config, group: string)
    ensures var g, d := c.Resolve(group), Flattened(c, group);
            && d.checks == KeptChecks(c, g) && d.httpService == KeptHttpService(c, g)
            && d.services == Project(c, g, c.services) && d.restart == Project(c, g, c.restart)
            && d.mounts == Project(c, g, c.mounts)
  {
  }

  lemma MadeFromProjection(tools: Tools, c: Config, group: string, src: Option<MachineConfig>)
    requires Converts(tools, c, group)
    ensures Lowers(tools, Flattened(c, group))
    ensures Converted(tools, c, group, src).app == AppFieldsOf(tools, Flattened(c, group))
  {
  }

  ghost predicate ChecksOf(tools: Tools, c: Config, g: string, checks: map<string, MachineCheck>) {
    && (forall k :: k in checks <==> k in c.checks && Claims(c, g, c.checks[k].processes))
    && (forall k :: k in checks ==> Follows(tools, GroupPort(c, g), checks[k], c.checks[k].body))
  }

  /** The port of the http service, if it claims the group. */
  ghost function GroupPort(c: Config, g: string): (port: Option<int>) {
    if c.httpService.Some? && Claims(c, g, c.httpService.value.processes)
    then Some(c.httpService.value.body.internalPort) else None
  }

  /**
   * The machine check has a port, the section's own or else that of the http service, and all the section's settings.
   */
  ghost predicate Follows(tools: Tools, groupPort: Option<int>, m: MachineCheck, k: TopCheck) {
    && m.port.Some? && m.port == (if k.port.Some? then k.port else groupPort)
    && Some(m.kind) == k.kind && m.interval == k.interval && m.timeout == k.timeout && m.gracePeriod == k.gracePeriod
    && m.httpMethod.Some? == k.httpMethod.Some?
    && (m.httpMethod.Some? ==> m.httpMethod.value == tools.upper(k.httpMethod.value))
    && m.path == k.path && m.protocol == k.protocol && m.headers == k.headers
    && m.tlsSkipVerify == k.tlsSkipVerify && m.tlsServerName == k.tlsServerName
  }

  lemma CheckFollows(tools: Tools, d: Config, k: TopCheck)
    requires CheckLowers(d, k)
    ensures Follows(tools, if d.httpService.Some? then Some(d.httpService.value.body.internalPort) else None,
                    LoweredCheck(tools, d, k), k)
  {
  }

  lemma KeptChecksReach(tools: Tools, c: Config, d: Config, g: string)
    requires g != "" && d.checks == KeptChecks(c, g) && d.httpService == KeptHttpService(c, g)
    requires forall k :: k in d.checks ==> CheckLowers(d, d.checks[k].body)
    ensures ChecksOf(tools, c, g, map k | k in d.checks :: LoweredCheck(tools, d, d.checks[k].body))
  {
    forall k | k in c.checks ensures k in d.checks <==> Claims(c, g, c.checks[k].processes) {
      MatchesExactlyClaims(c, g, c.checks[k].processes);
    }
    if c.httpService.Some? {
      MatchesExactlyClaims(c, g, c.httpService.value.processes);
    }
    forall k | k in d.checks
      ensures Follows(tools, GroupPort(c, g), LoweredCheck(tools, d, d.checks[k].body), c.checks[k].body)
    {
      CheckFollows(tools, d, d.checks[k].body);
    }
  }

  /** A machine has a check exactly when it claims the machine's group, each with a port and its own settings. */
  lemma ChecksReachTheirGroup(tools: Tools, c: Config, group: string, src: Option<MachineConfig>)
    requires c.Resolve(group) != "" && Converts(tools, c, group)
    ensures ChecksOf(tools, c, c.Resolve(group), Converted(tools, c, group, src).app.checks)
  {
    ProjectedSections(c, group);
    MadeFromProjection(tools, c, group, src);
    KeptChecksReach(tools, c, Flattened(c, group), c.Resolve(group));
  }

  /** The mounts that claim the group, in order. */
  ghost predicate MountsOf(tools: Tools, c: Config, g: string, mounts: seq<MachineMount>) {
    var at := ClaimedAt(c, g, c.mounts);
    && (forall k :: 0 <= k < |c.mounts| ==> (k in at <==> Claims(c, g, c.mounts[k].processes)))
    && |mounts| == |at|
    && forall i :: 0 <= i < |at| ==> MountsAs(tools, mounts[i], c.mounts[at[i]].body)
  }

  /** A size that is not given, or cannot be parsed, is zero. */
  ghost predicate GbOf(tools: Tools, text: string, n: int) {
    if text == "" || tools.parseGb(text).None? then n == 0 else Some(n) == tools.parseGb(text)
  }

  /** Where the section says, from the volume it names, and with its settings for extending. */
  ghost predicate MountsAs(tools: Tools, m: MachineMount, s: Mount) {
    && m.path == s.destination && m.name == s.source && m.threshold == s.extendThreshold
    && GbOf(tools, s.extendIncrement, m.addGb) && GbOf(tools, s.extendLimit, m.limitGb)
  }

  lemma MountIsMounted(tools: Tools, s: Tagged<Mount>)
    ensures MountsAs(tools, MountOf(tools, s), s.body)
  {
  }

  lemma KeptMountsReach(tools: Tools, c: Config, g: string, kept: seq<Tagged<Mount>>, mounts: seq<MachineMount>)
    requires g != "" && kept == Project(c, g, c.mounts) && |mounts| == |kept|
    requires forall i :: 0 <= i < |kept| ==> mounts[i] == MountOf(tools, kept[i])
    ensures MountsOf(tools, c, g, mounts)
  {
    ClaimedAtIff(c, g, c.mounts);
    var at := ClaimedAt(c, g, c.mounts);
    forall i | 0 <= i < |at| ensures MountsAs(tools, mounts[i], c.mounts[at[i]].body) {
      MountIsMounted(tools, kept[i]);
    }
  }

  /** A machine has the mounts that claim its group, in order. */
  lemma MountsReachTheirGroup(tools: Tools, c: Config, group: string, src: Option<MachineConfig>)
    requires c.Resolve(group) != "" && Converts(tools, c, group)
    ensures MountsOf(tools, c, c.Resolve(group), Converted(tools, c, group, src).app.mounts)
  {
    ProjectedSections(c, group);
    MadeFromProjection(tools, c, group, src);
    KeptMountsReach(tools, c, c.Resolve(group), Flattened(c, group).mounts, Converted(tools, c, group, src).app.mounts);
  }

  /** The http service, if it claims the group, and then the services that claim it, in order. */
  ghost predicate ServicesOf(c: Config, g: string, services: seq<MachineService>) {
    var at := ClaimedAt(c, g, c.services);
    var http := if c.httpService.Some? && Claims(c, g, c.httpService.value.processes) then 1 else 0;
    && (forall k :: 0 <= k < |c.services| ==> (k in at <==> Claims(c, g, c.services[k].processes)))
    && |services| == http + |at|
    && (http == 1 ==> ServesHttp(services[0], c.httpService.value.body))
    && forall i :: 0 <= i < |at| ==> Serves(services[http + i], c.services[at[i]].body)
  }

  lemma KeptServicesReach(c: Config, d: Config, g: string, all: seq<MachineService>, http: nat)
    requires g != "" && d.services == Project(c, g, c.services) && d.httpService == KeptHttpService(c, g)
    requires http == (if d.httpService.Some? then 1 else 0) && |all| == http + |d.services|
    requires http == 1 ==> ServesHttp(all[0], d.httpService.value.body)
    requires forall i :: 0 <= i < |d.services| ==> Serves(all[http + i], d.services[i].body)
    ensures ServicesOf(c, g, all)
  {
    ClaimedAtIff(c, g, c.services);
    if c.httpService.Some? {
      MatchesExactlyClaims(c, g, c.httpService.value.processes);
    }
    var at := ClaimedAt(c, g, c.services);
    forall i | 0 <= i < |at| ensures Serves(all[http + i], c.services[at[i]].body) {
      assert d.services[i].body == c.services[at[i]].body;
    }
  }

  lemma AllServicesAt(d: Config, all: seq<Tagged<Service>>, http: nat)
    requires all == AllServices(d) && http == if d.httpService.Some? then 1 else 0
    ensures |all| == http + |d.services|
    ensures http == 1 ==> all[0] == ServiceOf(d.httpService.value)
    ensures forall i :: 0 <= i < |d.services| ==> all[http + i] == d.services[i]
  {
  }

  lemma MappedServices(d: Config, services: seq<Tagged<Service>>, all: seq<MachineService>, http: nat)
    requires |services| == |all| == http + |d.services|
             && forall i :: 0 <= i < |all| ==> all[i] == MachineServiceOf(services[i])
    requires http == 1 ==> d.httpService.Some? && services[0] == ServiceOf(d.httpService.value)
    requires forall i :: 0 <= i < |d.services| ==> services[http + i] == d.services[i]
    ensures http == 1 ==> ServesHttp(all[0], d.httpService.value.body)
    ensures forall i :: 0 <= i < |d.services| ==> Serves(all[http + i], d.services[i].body)
  {
    forall i | 0 <= i < |d.services| ensures Serves(all[http + i], d.services[i].body) {
      assert services[http + i] == d.services[i];
      ServiceIsServed(d.services[i]);
    }
    if http == 1 {
      HttpIsServed(d.httpService.value);
    }
  }

  /** A machine has the services that claim its group, with all their ports and checks. */
  lemma ServicesReachTheirGroup(tools: Tools, c: Config, group: string, src: Option<MachineConfig>)
    requires c.Resolve(group) != "" && Converts(tools, c, group)
    ensures ServicesOf(c, c.Resolve(group), Converted(tools, c, group, src).app.services)
  {
    var d := Flattened(c, group);
    var services, all := AllServices(d), Converted(tools, c, group, src).app.services;
    var http := if d.httpService.Some? then 1 else 0;
    ProjectedSections(c, group);
    MadeFromProjection(tools, c, group, src);
    AllServicesAt(d, services, http);
    MappedServices(d, services, all, http);
    KeptServicesReach(c, d, c.Resolve(group), all, http);
  }

  /** The machine service listens where the section says, and holds every check of the section: TCP, then HTTP. */
  ghost predicate Serves(m: MachineService, s: Service) {
    && m.protocol == s.protocol && m.internalPort == s.internalPort && m.ports == s.ports
    && m.concurrency == s.concurrency
    && m.autostop == s.autoStop && m.autostart == s.autoStart && m.minRunning == s.minRunning
    && |m.checks| == |s.tcpChecks| + |s.httpChecks|
    && (forall i :: 0 <= i < |s.tcpChecks| ==> ChecksTcp(m.checks[i], s.tcpChecks[i]))
    && (forall i :: 0 <= i < |s.httpChecks| ==> ChecksHttp(m.checks[|s.tcpChecks| + i], s.httpChecks[i]))
  }

  /** The http service listens on 80 and 443, with TLS on the second only, and holds every check of the section. */
  ghost predicate ServesHttp(m: MachineService, b: HttpService) {
    && m.protocol == "tcp" && m.internalPort == b.internalPort && m.concurrency == b.concurrency
    && m.autostop == b.autoStop && m.autostart == b.autoStart && m.minRunning == b.minRunning
    && |m.ports| == 2
    && m.ports[0] == MachinePort(Some(80), None, None, ["http"], b.forceHttps, None, b.httpOptions)
    && m.ports[1] == MachinePort(Some(443), None, None, ["http", "tls"], false, b.tlsOptions, b.httpOptions)
    && |m.checks| == |b.httpChecks| && forall i :: 0 <= i < |b.httpChecks| ==> ChecksHttp(m.checks[i], b.httpChecks[i])
  }

  ghost predicate ChecksTcp(m: ServiceCheck, k: TcpCheck) {
    m.kind == "tcp" && m.interval == k.interval && m.timeout == k.timeout && m.gracePeriod == k.gracePeriod
  }

  ghost predicate ChecksHttp(m: ServiceCheck, k: HttpCheck) {
    && m.kind == "http" && m.interval == k.interval && m.timeout == k.timeout && m.gracePeriod == k.gracePeriod
    && m.httpMethod == k.httpMethod && m.path == k.path && m.protocol == k.protocol && m.headers == k.headers
    && m.tlsSkipVerify == k.tlsSkipVerify && m.tlsServerName == k.tlsServerName
  }

  lemma ServiceIsServed(s: Tagged<Service>)
    ensures Serves(MachineServiceOf(s), s.body)
  {
  }

  lemma HttpIsServed(h: Tagged<HttpService>)
    ensures ServesHttp(MachineServiceOf(ServiceOf(h)), h.body)
  {
    ServiceIsServed(ServiceOf(h));
    HttpFromService(MachineServiceOf(ServiceOf(h)), ServiceOf(h).body, h.body);
  }

  lemma HttpFromService(m: MachineService, s: Service, b: HttpService)
    requires Serves(m, s) && s == ServiceOf(Tagged(b, [])).body
    ensures ServesHttp(m, b)
  {
    assert |s.tcpChecks| == 0 && s.httpChecks == b.httpChecks;
    forall i | 0 <= i < |b.httpChecks| ensures ChecksHttp(m.checks[i], b.httpChecks[i]) {
      assert ChecksHttp(m.checks[|s.tcpChecks| + i], s.httpChecks[i]);
    }
  }

  /** The policy and retries of the last restart section that claims the group; none when none does. */
  ghost predicate RestartFrom(c: Config, g: string, restart: Option<MachineRestart>) {
    && (restart.None? <==> forall x :: x in c.restart ==> !Claims(c, g, x.processes))
    && forall k :: LastClaim(c, g, k) ==>
         && restart.Some? && PolicyNamed(c.restart[k].body.policy, restart.value.policy)
         && restart.value.maxRetries == c.restart[k].body.maxRetries
  }

  /** The platform says "no" where the app config says "never". */
  ghost predicate PolicyNamed(policy: string, name: string) {
    policy in ["always", "on-failure", "never"] && name == if policy == "never" then "no" else policy
  }

  ghost predicate LastClaim(c: Config, g: string, k: int) {
    && 0 <= k < |c.restart| && Claims(c, g, c.restart[k].processes)
    && forall j :: k < j < |c.restart| ==> !Claims(c, g, c.restart[j].processes)
  }

  lemma LastClaimIsLast(c: Config, g: string, k: int)
    requires g != "" && LastClaim(c, g, k)
    ensures var at := ClaimedAt(c, g, c.restart); |at| > 0 && at[|at| - 1] == k
  {
    ClaimedAtExactly(c, g, c.restart);
    LastPosition(ClaimedAt(c, g, c.restart), k);
  }

  lemma ClaimedAtExactly<T>(c: Config, g: string, xs: seq<Tagged<T>>)
    requires g != ""
    ensures forall k :: k in ClaimedAt(c, g, xs) <==> 0 <= k < |xs| && Claims(c, g, xs[k].processes)
    ensures forall i, j :: 0 <= i < j < |ClaimedAt(c, g, xs)| ==> ClaimedAt(c, g, xs)[i] < ClaimedAt(c, g, xs)[j]
  {
    ClaimedAtIff(c, g, xs);
    var at := ClaimedAt(c, g, xs);
    forall k | k in at ensures 0 <= k < |xs| {
      var i :| 0 <= i < |at| && at[i] == k;
    }
  }

  lemma LastPosition(at: seq<nat>, k: nat)
    requires (forall i, j :: 0 <= i < j < |at| ==> at[i] < at[j]) && k in at && forall j :: j in at ==> j <= k
    ensures |at| > 0 && at[|at| - 1] == k
  {
    var i :| 0 <= i < |at| && at[i] == k;
    assert at[|at| - 1] in at;
  }

  lemma LastRestartIs(d: Config, x: Restart)
    requires forall y :: y in d.restart ==> RestartPolicyOf(y.body.policy).Some?
    requires d.restart != [] && d.restart[|d.restart| - 1].body == x
    ensures RestartOf(d).Some? && RestartOf(d).value.maxRetries == x.maxRetries
    ensures PolicyNamed(x.policy, RestartOf(d).value.policy)
  {
    PolicyIsNamed(x.policy);
  }

  lemma PolicyIsNamed(policy: string)
    requires RestartPolicyOf(policy).Some?
    ensures PolicyNamed(policy, RestartPolicyOf(policy).value)
  {
  }

  lemma KeptRestartReaches(c: Config, d: Config, g: string)
    requires g != "" && d.restart == Project(c, g, c.restart)
    requires forall x :: x in d.restart ==> RestartPolicyOf(x.body.policy).Some?
    ensures RestartFrom(c, g, RestartOf(d))
  {
    ClaimedAtIff(c, g, c.restart);
    var at := ClaimedAt(c, g, c.restart);
    forall k | LastClaim(c, g, k)
      ensures RestartOf(d).Some? && PolicyNamed(c.restart[k].body.policy, RestartOf(d).value.policy)
              && RestartOf(d).value.maxRetries == c.restart[k].body.maxRetries
    {
      LastClaimIsLast(c, g, k);
      LastRestartIs(d, c.restart[k].body);
    }
    if at != [] {
      assert at[0] in at && c.restart[at[0]] in c.restart;
    }
  }

  /** The restart policy of a machine comes from the last restart section that claims its group. */
  lemma RestartReachesItsGroup(tools: Tools, c: Config, group: string, src: Option<MachineConfig>)
    requires c.Resolve(group) != "" && Converts(tools, c, group)
    ensures RestartFrom(c, c.Resolve(group), Converted(tools, c, group, src).app.restart)
  {
    ProjectedSections(c, group);
    MadeFromProjection(tools, c, group, src);
    KeptRestartReaches(c, Flattened(c, group), c.Resolve(group));
  }
}
