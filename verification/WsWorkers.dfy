/** What the goroutines that use the websocket hold and do over whole runs (wg/ws.go). */
module WsWorkers {
  import opened Prelude
  import opened WsProxy

  lemma {:induction false} RunsSplit(s: State, acts: seq<Action>, n: nat)
    requires Runs(s, acts) && n <= |acts|
    ensures Runs(s, acts[..n]) && Runs(After(s, acts[..n]), acts[n..])
    ensures After(After(s, acts[..n]), acts[n..]) == After(s, acts)
    decreases |acts|
  {
    if n == 0 {
      assert acts[0..] == acts;
    } else {
      RunsSplit(Step(s, acts[0]), acts[1..], n - 1);
      assert acts[..n][0] == acts[0] && acts[..n][1..] == acts[1..][..n - 1];
      assert acts[n..] == acts[1..][n - 1..];
    }
  }

  // ---------------------------------------------------------------------------
  // The connection that a worker holds
  // ---------------------------------------------------------------------------

  /** Without loading again, a worker keeps the connection it has; that stays current unless a reconnect succeeds. */
  lemma {:induction false} KeepsConnection(s: State, acts: seq<Action>, w: Worker)
    requires Runs(s, acts) && ConnsHold(s) && Load(w) !in acts && !After(s, acts).workers.Pc(w).Idle?
    ensures !s.workers.Pc(w).Idle?
    ensures var c, e := s.workers.Pc(w).c, After(s, acts);
            && e.workers.Pc(w).c == c
            && (s.current == c ==> (e.current != c <==> ConnectSucceeds in acts))
            && (s.current != c ==> e.current != c)
    decreases |acts|
  {
    if acts != [] {
      StepKeepsConns(s, acts[0]);
      assert acts[0] in acts && forall a :: a in acts <==> a == acts[0] || a in acts[1..];
      KeepsConnection(Step(s, acts[0]), acts[1..], w);
    }
  }

  /** The load since which `w` has loaded no more. */
  lemma {:induction false} LastLoad(acts: seq<Action>, w: Worker) returns (i: nat)
    requires Load(w) in acts
    ensures i < |acts| && acts[i] == Load(w) && Load(w) !in acts[i + 1..]
    decreases |acts|
  {
    if Load(w) in acts[1..] {
      var j := LastLoad(acts[1..], w);
      i := j + 1;
      assert acts[i + 1..] == acts[1..][j + 1..];
    } else {
      i := 0;
    }
  }

  /**
   * In every run that ends with `w` at work: it loaded the connection that was current then, and that is another one
   * now exactly when a reconnect has succeeded since.
   */
  lemma HoldsOldIff(start: Time, acts: seq<Action>, w: Worker) returns (i: nat)
    requires Runs(Initial(start), acts) && !After(Initial(start), acts).workers.Pc(w).Idle?
    ensures i < |acts| && acts[i] == Load(w) && Load(w) !in acts[i + 1..] && Runs(Initial(start), acts[..i])
    ensures var s := After(Initial(start), acts);
            && s.workers.Pc(w).c == After(Initial(start), acts[..i]).current
            && (s.workers.Pc(w).c != s.current <==> ConnectSucceeds in acts[i + 1..])
  {
    var s := Initial(start);
    if Load(w) !in acts {
      KeepsConnection(s, acts, w);
      assert false;
    }
    i := LastLoad(acts, w);
    RunsSplit(s, acts, i);
    RunsKeep(start, s, acts[..i]);
    var at := After(s, acts[..i]);
    assert acts[i..][0] == Load(w) && acts[i..][1..] == acts[i + 1..];
    StepKeepsConns(at, Load(w));
    KeepsConnection(Step(at, Load(w)), acts[i + 1..], w);
  }

  /** While the supervisor runs, a worker has a closed connection exactly when a reconnect succeeded since it loaded. */
  lemma HoldsClosedIff(start: Time, acts: seq<Action>, w: Worker) returns (i: nat)
    requires Runs(Initial(start), acts) && !After(Initial(start), acts).workers.Pc(w).Idle?
    requires !After(Initial(start), acts).supervisor.Stopped?
    ensures i < |acts| && acts[i] == Load(w) && Load(w) !in acts[i + 1..]
    ensures var s := After(Initial(start), acts);
            s.workers.Pc(w).c in s.closed <==> ConnectSucceeds in acts[i + 1..]
  {
    i := HoldsOldIff(start, acts, w);
    RunsKeep(start, Initial(start), acts);
  }

  /** While the supervisor runs, what a worker has just loaded is the current connection, and open. */
  lemma LoadsOpenConnection(start: Time, acts: seq<Action>, w: Worker)
    requires Runs(Initial(start), acts) && Enabled(After(Initial(start), acts), Load(w))
    requires !After(Initial(start), acts).supervisor.Stopped?
    ensures var s := Step(After(Initial(start), acts), Load(w));
            s.workers.Pc(w).Using? && s.workers.Pc(w).c == s.current && s.workers.Pc(w).c !in s.closed
  {
    RunsKeep(start, Initial(start), acts);
  }

  /** A worker whose operation failed asks for a reset exactly when no reconnect has succeeded since it loaded. */
  lemma AsksIff(start: Time, acts: seq<Action>, w: Worker) returns (i: nat)
    requires Runs(Initial(start), acts) && Enabled(After(Initial(start), acts), Compare(w))
    ensures i < |acts| && acts[i] == Load(w) && Load(w) !in acts[i + 1..]
    ensures Step(After(Initial(start), acts), Compare(w)).workers.Pc(w).Asking? <==> ConnectSucceeds !in acts[i + 1..]
  {
    i := HoldsOldIff(start, acts, w);
  }

  // ---------------------------------------------------------------------------
  // Rounds
  // ---------------------------------------------------------------------------

  /** The operations of one round: the reader also passes on what it has read. */
  function PerRound(w: Worker): (n: nat) {
    if w.Reader? then 2 else 1
  }

  /** The operations still to come in the round. */
  function Left(pc: WorkerPc): (n: nat) {
    match pc
    case Idle => 0
    case Using(_, last) => if last then 1 else 2
    case Checking(_, last) => if last then 0 else 1
    case Asking(_, last) => if last then 0 else 1
  }

  function Loads(acts: seq<Action>, w: Worker): (n: nat) {
    if acts == [] then 0 else (if acts[0] == Load(w) then 1 else 0) + Loads(acts[1..], w)
  }

  function Uses(acts: seq<Action>, w: Worker): (n: nat) {
    if acts == [] then 0 else (if acts[0] in {Succeed(w), FailIo(w)} then 1 else 0) + Uses(acts[1..], w)
  }

  ghost predicate InRound(s: State, w: Worker) {
    && Left(s.workers.Pc(w)) <= PerRound(w)
    && (!w.Reader? && !s.workers.Pc(w).Idle? ==> s.workers.Pc(w).last)
  }

  lemma {:induction false} RoundsFrom(s: State, acts: seq<Action>, w: Worker)
    requires Runs(s, acts) && InRound(s, w)
    ensures InRound(After(s, acts), w)
    ensures Uses(acts, w) + Left(After(s, acts).workers.Pc(w)) == PerRound(w) * Loads(acts, w) + Left(s.workers.Pc(w))
    decreases |acts|
  {
    if acts != [] {
      RoundsFrom(Step(s, acts[0]), acts[1..], w);
    }
  }

  /**
   * In every run each connection loaded is used for one round and no more: the operations done, failed ones included,
   * and those left are two for every load of the reader, and one for every load of another worker.
   */
  lemma EachLoadIsOneRound(start: Time, acts: seq<Action>, w: Worker)
    requires Runs(Initial(start), acts)
    ensures Uses(acts, w) + Left(After(Initial(start), acts).workers.Pc(w)) == PerRound(w) * Loads(acts, w)
  {
    RoundsFrom(Initial(start), acts, w);
  }

  // ---------------------------------------------------------------------------
  // Requests are answered
  // ---------------------------------------------------------------------------

  predicate Requests(a: Action) {
    a.Signal? || a.Deliver?
  }

  lemma RequestLeadsToAttempt(s: State, a: Action, acts: seq<Action>)
    requires Requests(a) && Enabled(s, a) && Runs(Step(s, a), acts)
    requires s.deadline.Some? ==> s.deadline.value <= s.now + DELAY
    requires var e := After(Step(s, a), acts);
             e.attempts == s.attempts && e.supervisor.Selecting? && e.now > s.now + DELAY
    ensures var e := After(Step(s, a), acts);
            && Enabled(e, Tick) && Step(e, Tick).supervisor.Connecting?
            && Step(e, Tick).attempts == s.attempts + [e.now]
  {
    DeadlineIsNotPostponed(Step(s, a), acts);
  }

  /** A deadline is never further away than five seconds. */
  lemma {:induction false} DeadlineIsNear(s: State, acts: seq<Action>)
    requires Runs(s, acts) && (s.deadline.Some? ==> s.deadline.value <= s.now + DELAY)
    ensures var e := After(s, acts); e.deadline.Some? ==> e.deadline.value <= e.now + DELAY
    decreases |acts|
  {
    if acts != [] {
      DeadlineIsNear(Step(s, acts[0]), acts[1..]);
    }
  }

  /**
   * In every run, of which `n` actions come before a request: more than five seconds after the request, unless an
   * attempt has begun since or the proxy has stopped, a tick begins one.
   */
  lemma EveryRequestIsAnswered(start: Time, acts: seq<Action>, n: nat)
    requires Runs(Initial(start), acts) && n < |acts| && Requests(acts[n])
    ensures Runs(Initial(start), acts[..n])
    ensures var s, e := After(Initial(start), acts[..n]), After(Initial(start), acts);
            e.attempts == s.attempts && e.supervisor.Selecting? && e.now > s.now + DELAY ==>
              Enabled(e, Tick) && Step(e, Tick).supervisor.Connecting? && Step(e, Tick).attempts == s.attempts + [e.now]
  {
    RunsSplit(Initial(start), acts, n);
    var s := After(Initial(start), acts[..n]);
    DeadlineIsNear(Initial(start), acts[..n]);
    assert acts[n..][0] == acts[n] && acts[n..][1..] == acts[n + 1..];
    var e := After(Initial(start), acts);
    if e.attempts == s.attempts && e.supervisor.Selecting? && e.now > s.now + DELAY {
      RequestLeadsToAttempt(s, acts[n], acts[n + 1..]);
    }
  }
}
