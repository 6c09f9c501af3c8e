/** The agent's table of WireGuard tunnels and its tokens (agent/server/server.go). */
module TunnelTable {
  import opened Prelude

  datatype Key = Key(org: string, network: string)

  /** Tunnels and token monitors are numbered in the order they are made. */
  type Id = nat

  datatype Tokens = Tokens(text: string, file: string)

  /** The name under which the WireGuard state file lists the peer of a tunnel. */
  function PeerName(k: Key): (name: string) {
    if k.network == "" then k.org else k.org + "-" + k.network
  }

  // ---------------------------------------------------------------------------
  // What each locked operation does, as a function of what its surroundings answer
  // ---------------------------------------------------------------------------

  datatype Op =
    | Build(key: Key, reestablish: bool, stateOk: bool, connectOk: bool)
    | Lookup(key: Key)
    | Prune(peers: Option<set<string>>)                          // the state file's peers, or a failure to read it
    | CheckConfig(stat: Option<int>, peers: Option<set<string>>) // the file's modification time, if it can be read
    | UpdateTokens(offered: Tokens)

  datatype State = State(
    tunnels: map<Key, Id>,
    made: Id,              // the number of the next tunnel
    closed: set<Id>,
    currentChange: int,
    tokens: Tokens,
    monitor: Id,           // the monitor that cancelTokenMonitoring stops
    monitors: Id,          // the number of the next monitor
    running: set<Id>)      // the monitors started and not stopped

  function Pruned(tunnels: map<Key, Id>, peers: set<string>): (left: map<Key, Id>) {
    map k | k in tunnels && PeerName(k) in peers :: tunnels[k]
  }

  function Dropped(tunnels: map<Key, Id>, peers: set<string>): (gone: set<Id>) {
    set k | k in tunnels && PeerName(k) !in peers :: tunnels[k]
  }

  function Validated(s: State, peers: Option<set<string>>): (r: State) {
    if peers.None? then s
    else s.(tunnels := Pruned(s.tunnels, peers.value), closed := s.closed + Dropped(s.tunnels, peers.value))
  }

  function Apply(s: State, op: Op): (r: State) {
    match op
    case Build(k, reestablish, stateOk, connectOk) =>
      if (k in s.tunnels && !reestablish) || !stateOk || !connectOk then s
      else s.(tunnels := s.tunnels[k := s.made], made := s.made + 1)
    case Lookup(_) => s
    case Prune(peers) => Validated(s, peers)
    case CheckConfig(stat, peers) =>
      if stat.None? || stat.value <= s.currentChange then s
      else Validated(s.(currentChange := stat.value), peers)
    case UpdateTokens(offered) =>
      if s.tokens.file != "" || offered.file == "" then s
      else s.(tokens := offered, monitor := s.monitors, monitors := s.monitors + 1,
              running := s.running - {s.monitor} + {s.monitors})
  }

  // ---------------------------------------------------------------------------
  // The server
  // ---------------------------------------------------------------------------

  class Server {
    var tunnels: map<Key, Id>
    var made: Id
    var closed: set<Id>
    var currentChange: int
    var tokens: Tokens
    var monitor: Id
    var monitors: Id
    var running: set<Id>

    function Snapshot(): (s: State)
      reads this
    {
      State(tunnels, made, closed, currentChange, tokens, monitor, monitors, running)
    }

    constructor (latest: int, tokens: Tokens)
      ensures Snapshot() == Initial(latest, tokens)
    {
      tunnels, made, closed, currentChange := map[], 0, {}, latest;
      this.tokens, monitor, monitors, running := tokens, 0, 1, {0};
    }

    method BuildTunnel(k: Key, reestablish: bool, stateOk: bool, connectOk: bool) returns (r: Result<Id, ()>)
      modifies this
      ensures Snapshot() == Apply(old(Snapshot()), Build(k, reestablish, stateOk, connectOk))
      ensures r.Ok? <==> (k in old(tunnels) && !reestablish) || (stateOk && connectOk)
      ensures r.Ok? ==> k in tunnels && r.value == tunnels[k]
    {
      if k in tunnels && !reestablish {
        return Ok(tunnels[k]);
      }
      if !stateOk {
        return Err(());
      }
      if !connectOk {
        return Err(());
      }
      var tunnel := made;
      made := made + 1;
      tunnels := tunnels[k := tunnel];
      r := Ok(tunnel);
    }

    method TunnelFor(k: Key) returns (r: Option<Id>)
      ensures r == if k in tunnels then Some(tunnels[k]) else None
    {
      if k in tunnels {
        return Some(tunnels[k]);
      }
      r := None;
    }

    /** Whatever the order in which the table is visited, the entries without a peer are deleted and closed. */
    method ValidateTunnels(peers: Option<set<string>>) returns (ok: bool)
      modifies this
      ensures ok == peers.Some?
      ensures Snapshot() == Apply(old(Snapshot()), Prune(peers))
    {
      if peers.None? {
        return false;
      }
      var todo := tunnels.Keys;
      ghost var start := tunnels;
      ghost var done: map<Key, Id> := map[];
      while todo != {}
        invariant done.Keys !! todo && start.Keys == done.Keys + todo
        invariant forall k :: k in done ==> done[k] == start[k]
        invariant forall k :: k in tunnels <==> k in start && (k in todo || PeerName(k) in peers.value)
        invariant forall k :: k in tunnels ==> tunnels[k] == start[k]
        invariant closed == old(closed) + Dropped(done, peers.value)
        invariant Snapshot() == old(Snapshot()).(tunnels := tunnels, closed := closed)
      {
        var k :| k in todo;
        todo := todo - {k};
        ghost var before := done;
        done := done[k := start[k]];
        if PeerName(k) !in peers.value {
          closed := closed + {tunnels[k]};
          tunnels := tunnels - {k};
        }
        DroppedOneMore(before, k, start[k], peers.value);
      }
      assert done == start;
      assert tunnels == Pruned(start, peers.value);
      ok := true;
    }

    method CheckForConfigChange(stat: Option<int>, peers: Option<set<string>>) returns (ok: bool)
      modifies this
      ensures Snapshot() == Apply(old(Snapshot()), CheckConfig(stat, peers))
      ensures ok <==> stat.Some? && (stat.value > old(currentChange) ==> peers.Some?)
    {
      if stat.None? {
        return false;
      }
      ok := true;
      if stat.value > currentChange {
        currentChange := stat.value;
        ok := ValidateTunnels(peers);
      }
    }

    method UpdateTokensFromClient(offered: Tokens)
      modifies this
      ensures Snapshot() == Apply(old(Snapshot()), UpdateTokens(offered))
    {
      if tokens.file != "" || offered.file == "" {
        return;
      }
      running := running - {monitor};
      var started := monitors;
      monitors := monitors + 1;
      running := running + {started};
      tokens := offered;
      monitor := started;
    }
  }

  lemma DroppedOneMore(done: map<Key, Id>, k: Key, t: Id, peers: set<string>)
    requires k !in done
    ensures Dropped(done[k := t], peers) == Dropped(done, peers) + (if PeerName(k) in peers then {} else {t})
  {
    var more := done[k := t];
    forall x | x in Dropped(done, peers) + (if PeerName(k) in peers then {} else {t})
      ensures x in Dropped(more, peers)
    {
      if x in Dropped(done, peers) {
        var j :| j in done && PeerName(j) !in peers && done[j] == x;
        assert j in more && more[j] == x;
      } else {
        assert k in more && more[k] == x;
      }
    }
  }

  // ---------------------------------------------------------------------------
  // Whole runs
  // ---------------------------------------------------------------------------

  function Initial(latest: int, tokens: Tokens): (s: State) {
    State(map[], 0, {}, latest, tokens, 0, 1, {0})
  }

  function Run(s: State, ops: seq<Op>): (r: State)
    decreases |ops|
  {
    if ops == [] then s else Run(Apply(s, ops[0]), ops[1..])
  }

  /** Tunnels in the table are open, no two keys share one, and one monitor runs: the one the server can stop. */
  ghost predicate Inv(s: State) {
    && (forall k :: k in s.tunnels ==> s.tunnels[k] < s.made && s.tunnels[k] !in s.closed)
    && (forall k, j :: k in s.tunnels && j in s.tunnels && s.tunnels[k] == s.tunnels[j] ==> k == j)
    && (forall t :: t in s.closed ==> t < s.made)
    && s.running == {s.monitor} && s.monitor < s.monitors
  }

  lemma ValidatedKeepsInv(s: State, peers: Option<set<string>>)
    requires Inv(s)
    ensures Inv(Validated(s, peers))
  {
    if peers.Some? {
      var r := Validated(s, peers);
      forall k | k in r.tunnels ensures r.tunnels[k] !in r.closed {
        assert k in s.tunnels && PeerName(k) in peers.value && r.tunnels[k] == s.tunnels[k];
      }
    }
  }

  lemma ApplyKeepsInv(s: State, op: Op)
    requires Inv(s)
    ensures Inv(Apply(s, op)) && s.currentChange <= Apply(s, op).currentChange
  {
    match op
    case Prune(peers) => ValidatedKeepsInv(s, peers);
    case CheckConfig(stat, peers) =>
      if stat.Some? && stat.value > s.currentChange {
        ValidatedKeepsInv(s.(currentChange := stat.value), peers);
      }
    case _ =>
  }

  /** In every run a looked-up tunnel is open, one monitor runs, and currentChange never goes back. */
  lemma {:induction false} RunsAreSafe(s: State, ops: seq<Op>)
    requires Inv(s)
    ensures Inv(Run(s, ops)) && s.currentChange <= Run(s, ops).currentChange
    decreases |ops|
  {
    if ops != [] {
      ApplyKeepsInv(s, ops[0]);
      RunsAreSafe(Apply(s, ops[0]), ops[1..]);
    }
  }

  // ---------------------------------------------------------------------------
  // How long an entry lasts
  // ---------------------------------------------------------------------------

  /** The step re-establishes the tunnel of `k`, or prunes the table with peers that lack it. */
  predicate Displaces(s: State, op: Op, k: Key) {
    match op
    case Build(j, reestablish, stateOk, connectOk) => j == k && reestablish && stateOk && connectOk
    case Lookup(_) => false
    case Prune(peers) => peers.Some? && PeerName(k) !in peers.value
    case CheckConfig(stat, peers) =>
      stat.Some? && stat.value > s.currentChange && peers.Some? && PeerName(k) !in peers.value
    case UpdateTokens(_) => false
  }

  predicate Displaced(s: State, ops: seq<Op>, k: Key)
    decreases |ops|
  {
    ops != [] && (Displaces(s, ops[0], k) || Displaced(Apply(s, ops[0]), ops[1..], k))
  }

  lemma DisplacedNow(s: State, op: Op, k: Key)
    requires Inv(s) && k in s.tunnels
    ensures var r := Apply(s, op); (k in r.tunnels && r.tunnels[k] == s.tunnels[k]) <==> !Displaces(s, op, k)
  {
  }

  /** A number that has left the table does not come back. */
  lemma {:induction false} GoneForGood(s: State, ops: seq<Op>, t: Id)
    requires Inv(s) && t < s.made && t !in s.tunnels.Values
    ensures t !in Run(s, ops).tunnels.Values
    decreases |ops|
  {
    if ops != [] {
      var r := Apply(s, ops[0]);
      ApplyKeepsInv(s, ops[0]);
      forall k | k in r.tunnels ensures r.tunnels[k] != t {
        if k in s.tunnels && r.tunnels[k] == s.tunnels[k] {
          assert s.tunnels[k] in s.tunnels.Values;
        }
      }
      GoneForGood(r, ops[1..], t);
    }
  }

  /** A plain establish goes on returning the tunnel of an entry exactly as long as nothing displaces the entry. */
  lemma {:induction false} EntryLastsIff(s: State, ops: seq<Op>, k: Key)
    requires Inv(s) && k in s.tunnels
    ensures var r := Run(s, ops); (k in r.tunnels && r.tunnels[k] == s.tunnels[k]) <==> !Displaced(s, ops, k)
    decreases |ops|
  {
    if ops != [] {
      var r := Apply(s, ops[0]);
      ApplyKeepsInv(s, ops[0]);
      DisplacedNow(s, ops[0], k);
      if Displaces(s, ops[0], k) {
        LeavesTable(s, ops[0], k);
        GoneForGood(r, ops[1..], s.tunnels[k]);
        var e := Run(r, ops[1..]);
        if k in e.tunnels {
          assert e.tunnels[k] in e.tunnels.Values;
        }
      } else {
        EntryLastsIff(r, ops[1..], k);
      }
    }
  }

  lemma LeavesTable(s: State, op: Op, k: Key)
    requires Inv(s) && k in s.tunnels && Displaces(s, op, k)
    ensures var r := Apply(s, op); s.made <= r.made && s.tunnels[k] !in r.tunnels.Values
  {
    var r := Apply(s, op);
    forall j | j in r.tunnels ensures r.tunnels[j] != s.tunnels[k] {
      DisplacedNow(s, op, k);
    }
  }

  // ---------------------------------------------------------------------------
  // Where tunnels end up
  // ---------------------------------------------------------------------------

  /** The tunnel that a re-establish drops from the table without closing it. */
  function Orphan(s: State, op: Op): (ts: set<Id>) {
    if op.Build? && op.reestablish && op.stateOk && op.connectOk && op.key in s.tunnels then {s.tunnels[op.key]} else {}
  }

  function Orphans(s: State, ops: seq<Op>): (ts: set<Id>)
    decreases |ops|
  {
    if ops == [] then {} else Orphan(s, ops[0]) + Orphans(Apply(s, ops[0]), ops[1..])
  }

  /** Every tunnel made is in the table, closed, or an orphan; never two of these. */
  ghost predicate Accounted(s: State, orphans: set<Id>) {
    && (forall t: Id :: t < s.made <==> t in s.tunnels.Values || t in s.closed || t in orphans)
    && s.closed !! orphans && s.tunnels.Values !! orphans
  }

  lemma ValidatedIsAccounted(s: State, peers: Option<set<string>>, orphans: set<Id>)
    requires Inv(s) && Accounted(s, orphans)
    ensures Accounted(Validated(s, peers), orphans)
  {
    var r := Validated(s, peers);
    if peers.Some? {
      forall t: Id ensures t in s.tunnels.Values <==> t in r.tunnels.Values || t in Dropped(s.tunnels, peers.value) {
        if t in s.tunnels.Values {
          var k :| k in s.tunnels && s.tunnels[k] == t;
          assert PeerName(k) in peers.value ==> k in r.tunnels && r.tunnels[k] == t;
        }
        if t in r.tunnels.Values {
          var k :| k in r.tunnels && r.tunnels[k] == t;
          assert k in s.tunnels;
        }
      }
    }
  }

  lemma BuildIsAccounted(s: State, op: Op, orphans: set<Id>)
    requires Inv(s) && Accounted(s, orphans) && op.Build?
    ensures Accounted(Apply(s, op), orphans + Orphan(s, op))
  {
    var r := Apply(s, op);
    if r != s {
      var k := op.key;
      forall t: Id ensures t in r.tunnels.Values <==> t == s.made || (t in s.tunnels.Values && t !in Orphan(s, op)) {
        assert r.tunnels[k] == s.made;
        if t in s.tunnels.Values && t !in Orphan(s, op) {
          var j :| j in s.tunnels && s.tunnels[j] == t;
          assert j in r.tunnels && r.tunnels[j] == t;
        }
        if t in r.tunnels.Values && t != s.made {
          var j :| j in r.tunnels && r.tunnels[j] == t;
          assert j in s.tunnels && j != k;
        }
      }
      assert k in s.tunnels ==> s.tunnels[k] in s.tunnels.Values;
    }
  }

  lemma InitialHolds(latest: int, tokens: Tokens)
    ensures Inv(Initial(latest, tokens)) && Accounted(Initial(latest, tokens), {})
  {
  }

  /**
   * In every run of a server, from its start, the tunnels made are those in the table, those closed and those dropped
   * by a re-establish, each in one of these ways: what a re-establish drops, and nothing else, is never closed.
   */
  lemma TunnelsAreAccounted(latest: int, tokens: Tokens, ops: seq<Op>)
    ensures var start := Initial(latest, tokens);
            Inv(Run(start, ops)) && Accounted(Run(start, ops), Orphans(start, ops))
  {
    var start := Initial(latest, tokens);
    InitialHolds(latest, tokens);
    RunsAreSafe(start, ops);
    StaysAccounted(start, ops, {});
    assert {} + Orphans(start, ops) == Orphans(start, ops);
  }

  lemma {:induction false} StaysAccounted(s: State, ops: seq<Op>, orphans: set<Id>)
    requires Inv(s) && Accounted(s, orphans)
    ensures Accounted(Run(s, ops), orphans + Orphans(s, ops))
    decreases |ops|
  {
    if ops == [] {
      assert orphans + {} == orphans;
    } else {
      var op := ops[0];
      ApplyKeepsInv(s, op);
      if op.Build? {
        BuildIsAccounted(s, op, orphans);
      } else {
        assert orphans + {} == orphans;
        if op.Prune? {
          ValidatedIsAccounted(s, op.peers, orphans);
        } else if op.CheckConfig? && Apply(s, op) != s {
          ValidatedIsAccounted(s.(currentChange := op.stat.value), op.peers, orphans);
        }
      }
      StaysAccounted(Apply(s, op), ops[1..], orphans + Orphan(s, op));
      assert orphans + (Orphan(s, op) + Orphans(Apply(s, op), ops[1..]))
          == orphans + Orphan(s, op) + Orphans(Apply(s, op), ops[1..]);
    }
  }

  // ---------------------------------------------------------------------------
  // Config changes
  // ---------------------------------------------------------------------------

  predicate AllHavePeers(tunnels: map<Key, Id>, peers: set<string>) {
    forall k :: k in tunnels ==> PeerName(k) in peers
  }

  /** After a successful prune exactly the keys with a peer are left, each with its tunnel. */
  lemma PruneLeavesPeers(s: State, peers: set<string>)
    ensures var r := Apply(s, Prune(Some(peers)));
            && AllHavePeers(r.tunnels, peers)
            && (forall k :: k in s.tunnels && PeerName(k) in peers ==> k in r.tunnels && r.tunnels[k] == s.tunnels[k])
            && r.closed - s.closed <= s.tunnels.Values
  {
    var r := Apply(s, Prune(Some(peers)));
    forall t | t in r.closed - s.closed ensures t in s.tunnels.Values {
      assert t in Dropped(s.tunnels, peers);
    }
  }

  /**
   * A check of the config brings the table in line with the peers exactly when the file is newer, or it already was.
   */
  lemma CheckEnforcesPeersIff(s: State, at: int, peers: set<string>)
    ensures AllHavePeers(Apply(s, CheckConfig(Some(at), Some(peers))).tunnels, peers) <==>
            at > s.currentChange || AllHavePeers(s.tunnels, peers)
  {
    if at > s.currentChange {
      PruneLeavesPeers(s, peers);
    }
  }

  predicate ChecksUpTo(ops: seq<Op>, at: int) {
    forall i :: 0 <= i < |ops| ==> ops[i].CheckConfig? && (ops[i].stat.Some? ==> ops[i].stat.value <= at)
  }

  lemma {:induction false} OldChecksDoNothing(s: State, ops: seq<Op>)
    requires ChecksUpTo(ops, s.currentChange)
    ensures Run(s, ops) == s
    decreases |ops|
  {
    if ops != [] {
      assert Apply(s, ops[0]) == s;
      OldChecksDoNothing(s, ops[1..]);
    }
  }

  /**
   * The change is taken note of before the peers are read, so a change whose peers could not be read is not looked at
   * again: until the file changes once more, any number of checks that do succeed leave the table as it was.
   */
  lemma FailedReadIsNotRetried(s: State, at: int, later: seq<Op>)
    requires at > s.currentChange && ChecksUpTo(later, at)
    ensures Run(s, [CheckConfig(Some(at), None)] + later) == s.(currentChange := at)
  {
    var ops := [CheckConfig(Some(at), None)] + later;
    assert ops[1..] == later;
    OldChecksDoNothing(s.(currentChange := at), later);
  }

  /** One name is split at a later dash than the other. */
  ghost predicate SplitsLater(k: Key, j: Key) {
    exists middle: string :: k.org == j.org + "-" + middle && j.network == middle + "-" + k.network
  }

  /** The keys name one peer, told by their organisations and networks. */
  ghost predicate SamePeer(k: Key, j: Key) {
    if k.network == "" && j.network == "" then k.org == j.org
    else if k.network == "" then k.org == j.org + "-" + j.network
    else if j.network == "" then j.org == k.org + "-" + k.network
    else k == j || SplitsLater(k, j) || SplitsLater(j, k)
  }

  lemma LaterDash(k: Key, j: Key)
    requires k.org + "-" + k.network == j.org + "-" + j.network && |j.org| < |k.org|
    ensures SplitsLater(k, j)
  {
    var name := k.org + "-" + k.network;
    var n, m := |j.org|, |k.org|;
    var middle := k.org[n + 1..];
    assert k.org == name[..m] && j.org == name[..n] && name[n] == '-';
    assert k.org == name[..n] + [name[n]] + name[n + 1..m];
    assert k.org == j.org + "-" + middle;
    assert j.network == name[n + 1..] && middle == name[n + 1..m] && k.network == name[m + 1..] && name[m] == '-';
    assert name[n + 1..] == name[n + 1..m] + [name[m]] + name[m + 1..];
    assert j.network == middle + "-" + k.network;
  }

  lemma LaterDashSameName(k: Key, j: Key)
    requires SplitsLater(k, j)
    ensures k.org + "-" + k.network == j.org + "-" + j.network
  {
    var middle: string :| k.org == j.org + "-" + middle && j.network == middle + "-" + k.network;
    assert j.org + "-" + middle + "-" + k.network == j.org + "-" + (middle + "-" + k.network);
  }

  lemma SameNameIff(k: Key, j: Key)
    ensures PeerName(k) == PeerName(j) <==> SamePeer(k, j)
  {
    if k.network != "" && j.network != "" {
      if SplitsLater(k, j) {
        LaterDashSameName(k, j);
      }
      if SplitsLater(j, k) {
        LaterDashSameName(j, k);
      }
      if PeerName(k) == PeerName(j) {
        if |j.org| < |k.org| {
          LaterDash(k, j);
        } else if |k.org| < |j.org| {
          LaterDash(j, k);
        } else {
          assert k.org == PeerName(k)[..|k.org|] == j.org;
          assert k.network == PeerName(k)[|k.org| + 1..] == j.network;
        }
      }
    }
  }

  /**
   * Two entries are kept or dropped together by every prune exactly when their keys name one peer; different keys can,
   * so a tunnel may outlive its own peer.
   */
  lemma SharedPeerEntryIff(s: State, k: Key, j: Key)
    requires k in s.tunnels && j in s.tunnels
    ensures (forall peers :: k in Apply(s, Prune(Some(peers))).tunnels <==> j in Apply(s, Prune(Some(peers))).tunnels)
            <==> SamePeer(k, j)
  {
    SameNameIff(k, j);
    if PeerName(k) != PeerName(j) {
      var r := Apply(s, Prune(Some({PeerName(k)})));
      assert k in r.tunnels && j !in r.tunnels;
    }
  }

  // ---------------------------------------------------------------------------
  // Tokens
  // ---------------------------------------------------------------------------

  /** The tokens of the first client in `ops` that has them from a file, if there is one. */
  function FirstFromFile(ops: seq<Op>): (t: Option<Tokens>) {
    if ops == [] then None
    else if ops[0].UpdateTokens? && ops[0].offered.file != "" then Some(ops[0].offered)
    else FirstFromFile(ops[1..])
  }

  /**
   * The server changes its tokens at most once, to the first ones offered that come from a file and only if its own do
   * not, and starts one monitor for them.
   */
  lemma {:induction false} TokensChangeAtMostOnce(s: State, ops: seq<Op>)
    ensures var r := Run(s, ops); var first := FirstFromFile(ops);
            if s.tokens.file != "" || first.None? then r.tokens == s.tokens && r.monitors == s.monitors
            else r.tokens == first.value && r.monitors == s.monitors + 1
    decreases |ops|
  {
    if ops != [] {
      TokensChangeAtMostOnce(Apply(s, ops[0]), ops[1..]);
    }
  }
}
