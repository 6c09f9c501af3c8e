/** The websocket reconnect supervisor and the goroutines that ask it to reconnect (wg/ws.go). */
module WsProxy {
  import opened Prelude

  type Time = int                          // nanoseconds on a monotone clock
  const DELAY: Time := 5_000_000_000       // five seconds

  type Conn = nat                          // connections in the order they are made

  /** ws2wg, wg2ws and the keepalive loop. */
  datatype Worker = Reader | Writer | Keepalive

  /**
   * A round of the reader has two operations, of which either may fail and be blamed on the connection: it reads from
   * the connection and then passes the packet to the plug. The others have one. `last` tells that no other follows.
   */
  datatype WorkerPc =
    | Idle
    | Using(c: Conn, last: bool)          // copied wsConn under the read lock
    | Checking(c: Conn, last: bool)       // an operation on c failed; about to compare c with wsConn
    | Asking(c: Conn, last: bool)         // c was current when compared; waiting to send on the reset channel

  datatype Workers = Workers(reader: WorkerPc, writer: WorkerPc, keepalive: WorkerPc) {
    function Pc(w: Worker): (pc: WorkerPc) {
      match w
      case Reader => reader
      case Writer => writer
      case Keepalive => keepalive
    }

    function Set(w: Worker, pc: WorkerPc): (ws: Workers)
      ensures forall v :: ws.Pc(v) == if v == w then pc else Pc(v)
    {
      match w
      case Reader => this.(reader := pc)
      case Writer => this.(writer := pc)
      case Keepalive => this.(keepalive := pc)
    }
  }

  /**
   * What set a deadline: a signal, or a worker that failed on `c`, stale when `c` was no longer current on delivery.
   */
  datatype Cause = Signalled | Asked(c: Conn, stale: bool)

  datatype SupervisorPc = Selecting | Connecting | Stopped

  datatype State = State(
    now: Time,
    current: Conn,                 // wsConn
    initial: Conn,                 // the connection captured when the deferred Close was set up
    next: Conn,
    closed: set<Conn>,             // closed by this code
    used: set<Conn>,               // every connection that has been current
    deadline: Option<Time>,        // reconnectAt
    supervisor: SupervisorPc,      // holds the write lock exactly while Connecting
    workers: Workers,
    attempts: seq<Time>,           // when each reconnect attempt began
    requests: nat,                 // resets and signals received
    cause: Option<Cause>,          // what set the pending deadline
    failed: set<Conn>)             // every connection a worker has failed on

  datatype Action =
    | Advance(elapsed: Time)
    | Load(w: Worker) | Succeed(w: Worker) | FailIo(w: Worker) | Compare(w: Worker) | Deliver(w: Worker)
    | Signal
    | Tick
    | ConnectFails(leaked: bool)   // the dial failed, or the magic could not be written on a new connection
    | ConnectSucceeds
    | Stop

  function Initial(start: Time): (s: State) {
    State(start, 0, 0, 1, {}, {0}, None, Selecting, Workers(Idle, Idle, Idle), [], 0, None, {})
  }

  /** A reset or a signal sets the deadline only when none is pending. */
  function Requested(s: State, cause: Cause): (s': State) {
    if s.deadline.None?
    then s.(deadline := Some(s.now + DELAY), cause := Some(cause), requests := s.requests + 1)
    else s.(requests := s.requests + 1)
  }

  /** What a worker does after an operation, whether that succeeded or its failure has been complained about. */
  function Resumed(c: Conn, last: bool): (pc: WorkerPc) {
    if last then Idle else Using(c, true)
  }

  function SetWorker(s: State, w: Worker, pc: WorkerPc): (s': State) {
    s.(workers := s.workers.Set(w, pc))
  }

  predicate Unlocked(s: State) {
    !s.supervisor.Connecting?
  }

  predicate Enabled(s: State, a: Action) {
    match a
    case Advance(d) => d >= 0
    case Load(w) => s.workers.Pc(w).Idle? && Unlocked(s)
    case Succeed(w) => s.workers.Pc(w).Using?
    case FailIo(w) => s.workers.Pc(w).Using?
    case Compare(w) => s.workers.Pc(w).Checking? && Unlocked(s)
    case Deliver(w) => s.workers.Pc(w).Asking? && s.supervisor.Selecting?
    case Signal => s.supervisor.Selecting?
    case Tick => s.supervisor.Selecting?
    case ConnectFails(_) => s.supervisor.Connecting?
    case ConnectSucceeds => s.supervisor.Connecting?
    case Stop => s.supervisor.Selecting?
  }

  function Step(s: State, a: Action): (s': State)
    requires Enabled(s, a)
  {
    match a
    case Advance(d) => s.(now := s.now + d)
    case Load(w) => SetWorker(s, w, Using(s.current, !w.Reader?))
    case Succeed(w) => SetWorker(s, w, Resumed(s.workers.Pc(w).c, s.workers.Pc(w).last))
    case FailIo(w) =>
      var Using(c, last) := s.workers.Pc(w);
      SetWorker(s, w, Checking(c, last)).(failed := s.failed + {c})
    case Compare(w) =>
      var Checking(c, last) := s.workers.Pc(w);
      SetWorker(s, w, if c == s.current then Asking(c, last) else Resumed(c, last))
    case Deliver(w) =>
      var Asking(c, last) := s.workers.Pc(w);
      SetWorker(Requested(s, Asked(c, c != s.current)), w, Resumed(c, last))
    case Signal => Requested(s, Signalled)
    case Tick =>
      if s.deadline.Some? && s.deadline.value < s.now
      then s.(supervisor := Connecting, attempts := s.attempts + [s.now]) else s
    case ConnectFails(leaked) =>
      s.(supervisor := Selecting, deadline := None, cause := None, next := if leaked then s.next + 1 else s.next)
    case ConnectSucceeds =>
      s.(supervisor := Selecting, deadline := None, cause := None, closed := s.closed + {s.current},
         current := s.next, next := s.next + 1, used := s.used + {s.next})
    case Stop => s.(supervisor := Stopped, closed := s.closed + {s.initial})
  }

  /** The actions can be taken one after the other from `s`. */
  ghost predicate Runs(s: State, acts: seq<Action>)
    decreases |acts|
  {
    acts == [] || (Enabled(s, acts[0]) && Runs(Step(s, acts[0]), acts[1..]))
  }

  ghost function After(s: State, acts: seq<Action>): (s': State)
    requires Runs(s, acts)
    decreases |acts|
  {
    if acts == [] then s else After(Step(s, acts[0]), acts[1..])
  }

  // ---------------------------------------------------------------------------
  // What every step keeps
  // ---------------------------------------------------------------------------

  ghost predicate Spaced(start: Time, attempts: seq<Time>) {
    && (attempts != [] ==> attempts[0] > start + DELAY)
    && forall i :: 0 < i < |attempts| ==> attempts[i] > attempts[i - 1] + DELAY
  }

  /** The last attempt, or the start of the proxy. */
  ghost function LastAttempt(start: Time, s: State): (t: Time) {
    if s.attempts == [] then start else s.attempts[|s.attempts| - 1]
  }

  ghost predicate DeadlinesHold(start: Time, s: State) {
    && Spaced(start, s.attempts)
    && LastAttempt(start, s) <= s.now
    && (s.deadline.Some? && !s.supervisor.Connecting? ==> s.deadline.value >= LastAttempt(start, s) + DELAY)
    && (s.supervisor.Connecting? ==> s.deadline.Some? && s.attempts != [])
    && |s.attempts| + (if s.deadline.Some? && !s.supervisor.Connecting? then 1 else 0) <= s.requests
  }

  ghost predicate ConnsHold(s: State) {
    && s.current in s.used && s.initial in s.used
    && (forall c :: c in s.used ==> c < s.next)
    && s.closed <= s.used
    && (forall c :: c in s.used && c != s.current ==> c in s.closed)
    && (s.current in s.closed <==> s.supervisor.Stopped? && s.current == s.initial)
    && (s.current == s.initial <==> s.used == {s.initial})
    && forall w :: !s.workers.Pc(w).Idle? ==> s.workers.Pc(w).c in s.used
  }

  /**
   * A pending cause tells whether the connection complained about is the current one; workers complain where they
   * failed.
   */
  ghost predicate CausesHold(s: State) {
    && (s.cause.Some? <==> s.deadline.Some?)
    && (s.cause.Some? && s.cause.value.Asked? ==>
          var Asked(c, stale) := s.cause.value; c in s.failed && c in s.used && (stale <==> c != s.current))
    && forall w :: s.workers.Pc(w).Checking? || s.workers.Pc(w).Asking? ==> s.workers.Pc(w).c in s.failed
  }

  lemma StepKeepsCauses(s: State, a: Action)
    requires Enabled(s, a) && ConnsHold(s) && CausesHold(s) && (s.supervisor.Connecting? ==> s.deadline.Some?)
    ensures CausesHold(Step(s, a))
  {
  }

  lemma StepKeepsDeadlines(start: Time, s: State, a: Action)
    requires Enabled(s, a) && DeadlinesHold(start, s)
    ensures DeadlinesHold(start, Step(s, a))
  {
  }

  lemma StepKeepsConns(s: State, a: Action)
    requires Enabled(s, a) && ConnsHold(s)
    ensures ConnsHold(Step(s, a))
  {
  }

  lemma {:induction false} RunsKeep(start: Time, s: State, acts: seq<Action>)
    requires Runs(s, acts) && DeadlinesHold(start, s) && ConnsHold(s) && CausesHold(s)
    ensures DeadlinesHold(start, After(s, acts)) && ConnsHold(After(s, acts)) && CausesHold(After(s, acts))
    decreases |acts|
  {
    if acts != [] {
      StepKeepsCauses(s, acts[0]);
      StepKeepsDeadlines(start, s, acts[0]);
      StepKeepsConns(s, acts[0]);
      RunsKeep(start, Step(s, acts[0]), acts[1..]);
    }
  }

  /** In every interleaving, reconnect attempts are more than five seconds apart, and none is made unasked. */
  lemma AttemptsAreSpaced(start: Time, acts: seq<Action>)
    requires Runs(Initial(start), acts)
    ensures var s := After(Initial(start), acts);
            && (forall i, j :: 0 <= i < j < |s.attempts| ==> s.attempts[j] > s.attempts[i] + DELAY)
            && (forall i :: 0 <= i < |s.attempts| ==> s.attempts[i] > start + DELAY)
            && |s.attempts| <= s.requests
  {
    RunsKeep(start, Initial(start), acts);
    var s := After(Initial(start), acts);
    forall i, j | 0 <= i < j < |s.attempts| ensures s.attempts[j] > s.attempts[i] + DELAY {
      SpacedApart(start, s.attempts, i, j);
    }
    forall i | 0 <= i < |s.attempts| ensures s.attempts[i] > start + DELAY {
      if i > 0 {
        SpacedApart(start, s.attempts, 0, i);
      }
    }
  }

  lemma {:induction false} SpacedApart(start: Time, attempts: seq<Time>, i: nat, j: nat)
    requires Spaced(start, attempts) && i < j < |attempts|
    ensures attempts[j] > attempts[i] + DELAY
    decreases j
  {
    if i < j - 1 {
      SpacedApart(start, attempts, i, j - 1);
    }
  }

  /**
   * In every interleaving, a connection that was current and no longer is has been closed, and the current one is open
   * while the supervisor runs. Stopping closes the connection made at start-up: the current one exactly when no
   * reconnect ever succeeded.
   */
  lemma ReplacedConnectionsAreClosed(start: Time, acts: seq<Action>)
    requires Runs(Initial(start), acts)
    ensures var s := After(Initial(start), acts);
            && (forall c :: c in s.used && c != s.current ==> c in s.closed)
            && (!s.supervisor.Stopped? ==> s.current !in s.closed)
            && (s.supervisor.Stopped? ==> (s.current in s.closed <==> s.used == {s.initial}))
  {
    RunsKeep(start, Initial(start), acts);
  }

  /** Only a successful reconnect changes the current connection, and it does so to a connection never used before. */
  lemma OnlySupervisorReplaces(s: State, a: Action)
    requires Enabled(s, a) && ConnsHold(s) && Step(s, a).current != s.current
    ensures a == ConnectSucceeds && s.supervisor.Connecting?
    ensures Step(s, a).current !in s.used && s.current in Step(s, a).closed
  {
  }

  /** A pending deadline is never postponed: it stays as it is until an attempt has been made. */
  lemma {:induction false} DeadlineIsNotPostponed(s: State, acts: seq<Action>)
    requires Runs(s, acts) && s.deadline.Some? && After(s, acts).attempts == s.attempts && s.supervisor.Selecting?
    ensures After(s, acts).deadline == s.deadline
    decreases |acts|
  {
    if acts != [] {
      AttemptsGrow(Step(s, acts[0]), acts[1..]);
      if Step(s, acts[0]).supervisor.Selecting? {
        DeadlineIsNotPostponed(Step(s, acts[0]), acts[1..]);
      } else {
        StoppedForGood(Step(s, acts[0]), acts[1..]);
      }
    }
  }

  lemma {:induction false} AttemptsGrow(s: State, acts: seq<Action>)
    requires Runs(s, acts)
    ensures s.attempts <= After(s, acts).attempts
    decreases |acts|
  {
    if acts != [] {
      AttemptsGrow(Step(s, acts[0]), acts[1..]);
    }
  }

  /** Once stopped, a worker that asks for a reset waits for ever. */
  lemma {:induction false} StoppedForGood(s: State, acts: seq<Action>)
    requires Runs(s, acts) && s.supervisor.Stopped?
    ensures var e := After(s, acts);
            && e.supervisor.Stopped? && e.deadline == s.deadline && e.attempts == s.attempts && e.current == s.current
            && e.closed == s.closed
            && forall w :: s.workers.Pc(w).Asking? ==> e.workers.Pc(w) == s.workers.Pc(w)
    decreases |acts|
  {
    if acts != [] {
      StoppedForGood(Step(s, acts[0]), acts[1..]);
    }
  }

  // ---------------------------------------------------------------------------
  // A request can outlive the connection it complains about
  // ---------------------------------------------------------------------------

  /** While a worker waits to deliver, it complains of one connection; that is current unless a reconnect succeeds. */
  lemma {:induction false} WaitingRequest(s: State, acts: seq<Action>, w: Worker, c: Conn)
    requires Runs(s, acts) && ConnsHold(s) && s.workers.Pc(w).Asking? && s.workers.Pc(w).c == c && Deliver(w) !in acts
    ensures var e := After(s, acts);
            && e.workers.Pc(w).Asking? && e.workers.Pc(w).c == c
            && (s.current == c ==> (e.current != c <==> ConnectSucceeds in acts))
            && (s.current != c ==> e.current != c)
    decreases |acts|
  {
    if acts != [] {
      StepKeepsConns(s, acts[0]);
      assert acts[0] in acts;
      assert forall a :: a in acts[1..] ==> a in acts;
      assert forall a :: a in acts ==> a == acts[0] || a in acts[1..];
      WaitingRequest(Step(s, acts[0]), acts[1..], w, c);
    }
  }

  /** The comparison after which `w` is still waiting. */
  lemma {:induction false} LastComparison(s: State, acts: seq<Action>, w: Worker) returns (i: nat)
    requires Runs(s, acts) && After(s, acts).workers.Pc(w).Asking?
    requires s.workers.Pc(w).Asking? ==> Deliver(w) in acts
    ensures i < |acts| && acts[i] == Compare(w) && Deliver(w) !in acts[i + 1..]
    ensures Runs(s, acts[..i + 1])
    ensures var at := After(s, acts[..i + 1]); at.workers.Pc(w).Asking? && at.workers.Pc(w).c == at.current
    ensures Runs(After(s, acts[..i + 1]), acts[i + 1..])
            && After(After(s, acts[..i + 1]), acts[i + 1..]) == After(s, acts)
    decreases |acts|
  {
    assert acts != [];
    var t, rest := Step(s, acts[0]), acts[1..];
    assert forall a :: a in acts ==> a == acts[0] || a in rest;
    if t.workers.Pc(w).Asking? && Deliver(w) !in rest {
      i := 0;
      assert acts[..1] == [acts[0]] && acts[..1][1..] == [];
    } else {
      var j := LastComparison(t, rest, w);
      i := j + 1;
      assert acts[..i + 1][1..] == rest[..j + 1] && acts[i + 1..] == rest[j + 1..];
    }
  }

  /**
   * In every run that ends with `w` about to deliver: its request is stale, that is, asks for the replacement of
   * another connection than the one `w` failed on, exactly when a reconnect has succeeded since `w` compared the two.
   */
  lemma StaleIff(start: Time, acts: seq<Action>, w: Worker) returns (i: nat)
    requires Runs(Initial(start), acts) && After(Initial(start), acts).workers.Pc(w).Asking?
    ensures i < |acts| && acts[i] == Compare(w) && Deliver(w) !in acts[i + 1..]
    ensures var s := After(Initial(start), acts);
            s.workers.Pc(w).c != s.current <==> ConnectSucceeds in acts[i + 1..]
  {
    i := LastComparison(Initial(start), acts, w);
    var at := After(Initial(start), acts[..i + 1]);
    RunsKeep(start, Initial(start), acts[..i + 1]);
    WaitingRequest(at, acts[i + 1..], w, at.current);
  }

  /**
   * In every run, each successful reconnect was asked for by a signal, or by a worker that failed on a connection. It
   * closes that very connection exactly when the request was not stale. When it was, that connection had been closed
   * before, and the one closed now need not have failed: a connection that no worker failed on is closed only by a
   * signal or by a stale request.
   */
  lemma ReconnectClosesWhatFailedIff(start: Time, acts: seq<Action>)
    requires Runs(Initial(start), acts) && Enabled(After(Initial(start), acts), ConnectSucceeds)
    ensures var s := After(Initial(start), acts);
            var closes := Step(s, ConnectSucceeds).closed - s.closed;
            && closes == {s.current} && s.cause.Some?
            && (s.current !in s.failed ==> s.cause.value.Signalled? || s.cause.value.stale)
            && (s.cause.value.Asked? ==>
                  var Asked(c, stale) := s.cause.value;
                  c in s.failed && (c in closes <==> !stale) && (stale <==> c in s.closed))
  {
    RunsKeep(start, Initial(start), acts);
  }

  const BOTH_FAIL := [Load(Reader), Load(Writer), FailIo(Reader), FailIo(Writer), Compare(Reader), Compare(Writer)]
  const RECONNECT := [Deliver(Reader), Advance(DELAY + 1), Tick, ConnectSucceeds]
  const AGAIN := [Deliver(Writer), Advance(DELAY + 1), Tick, ConnectSucceeds]

  lemma BothFail(start: Time)
    ensures Runs(Initial(start), BOTH_FAIL)
    ensures After(Initial(start), BOTH_FAIL) ==
            Initial(start).(workers := Workers(Asking(0, false), Asking(0, true), Idle), failed := {0})
  {
    var s := Initial(start);
    var acts := BOTH_FAIL;
    var s2 := s.(workers := Workers(Using(0, false), Using(0, true), Idle));
    var s3 := s.(workers := Workers(Checking(0, false), Using(0, true), Idle), failed := {0});
    var s4 := s3.(workers := Workers(Checking(0, false), Checking(0, true), Idle));
    var s5 := s3.(workers := Workers(Asking(0, false), Checking(0, true), Idle));
    RunsCons(s5, acts[5..]);
    assert Step(s4, acts[4]) == s5 && acts[4..][1..] == acts[5..];
    RunsCons(s4, acts[4..]);
    assert Step(s3, acts[3]) == s4 && acts[3..][1..] == acts[4..];
    RunsCons(s3, acts[3..]);
    assert Step(s2, acts[2]) == s3 && acts[2..][1..] == acts[3..];
    RunsCons(s2, acts[2..]);
    RunsCons(s.(workers := Workers(Using(0, false), Idle, Idle)), acts[1..]);
    RunsCons(s, acts);
  }

  /** A worker's request is delivered, and the supervisor reconnects once its deadline has passed. */
  lemma DeliverAndReconnect(s: State, w: Worker)
    requires s.workers.Pc(w).Asking? && s.supervisor.Selecting? && s.deadline.None?
    ensures var acts := [Deliver(w), Advance(DELAY + 1), Tick, ConnectSucceeds];
            && Runs(s, acts)
            && After(s, acts) == SetWorker(s, w, Resumed(s.workers.Pc(w).c, s.workers.Pc(w).last)).(
                 requests := s.requests + 1, now := s.now + DELAY + 1, attempts := s.attempts + [s.now + DELAY + 1],
                 cause := None, closed := s.closed + {s.current}, current := s.next, next := s.next + 1,
                 used := s.used + {s.next})
  {
    var acts := [Deliver(w), Advance(DELAY + 1), Tick, ConnectSucceeds];
    var s1 := Step(s, acts[0]);
    var s2 := Step(s1, acts[1]);
    var s3 := Step(s2, acts[2]);
    var s4 := Step(s3, acts[3]);
    assert acts[3..] == [ConnectSucceeds] && acts[3..][1..] == [];
    assert After(s4, []) == s4;
    RunsCons(s3, acts[3..]);
    assert acts[2..][1..] == acts[3..];
    RunsCons(s2, acts[2..]);
    assert acts[1..][1..] == acts[2..];
    RunsCons(s1, acts[1..]);
    RunsCons(s, acts);
  }

  lemma {:induction false} RunsAppend(s: State, acts: seq<Action>, more: seq<Action>)
    requires Runs(s, acts) && Runs(After(s, acts), more)
    ensures Runs(s, acts + more) && After(s, acts + more) == After(After(s, acts), more)
    decreases |acts|
  {
    if acts == [] {
      assert acts + more == more;
    } else {
      RunsAppend(Step(s, acts[0]), acts[1..], more);
      assert (acts + more)[1..] == acts[1..] + more;
    }
  }

  /**
   * Two workers fail on connection 0. The first request replaces it by connection 1; the second is delivered only then,
   * and connection 1, on which nobody failed, is closed and replaced too.
   */
  lemma LateRequestReplacesHealthyConnection(start: Time)
    ensures Runs(Initial(start), BOTH_FAIL + RECONNECT + AGAIN)
    ensures var s := After(Initial(start), BOTH_FAIL + RECONNECT + AGAIN);
            s.failed == {0} && s.closed == {0, 1} && s.current == 2
  {
    BothFail(start);
    var s := After(Initial(start), BOTH_FAIL);
    DeliverAndReconnect(s, Reader);
    var t := After(s, RECONNECT);
    DeliverAndReconnect(t, Writer);
    RunsAppend(Initial(start), BOTH_FAIL, RECONNECT);
    RunsAppend(Initial(start), BOTH_FAIL + RECONNECT, AGAIN);
  }

  lemma RunsCons(s: State, acts: seq<Action>)
    requires acts != [] && Enabled(s, acts[0]) && Runs(Step(s, acts[0]), acts[1..])
    ensures Runs(s, acts) && After(s, acts) == After(Step(s, acts[0]), acts[1..])
  {
  }
}
