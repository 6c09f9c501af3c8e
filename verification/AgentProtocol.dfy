/** Commands between a client and the agent, and the token handshake (agent/client.go, agent/server/session.go). */
module AgentProtocol {
  import opened Prelude
  import opened Streams

  // ---------------------------------------------------------------------------
  // Messages: words joined by spaces, behind a 2-byte little-endian length (agent/internal/proto/proto.go)
  // ---------------------------------------------------------------------------

  const SPACE: Byte := 32
  const SET_TOKEN: Bytes := [115, 101, 116, 45, 116, 111, 107, 101, 110]
  const CFG: Bytes := [99, 102, 103]
  const STR: Bytes := [115, 116, 114]
  const OK: Bytes := [111, 107]
  const ERR: Bytes := [101, 114, 114]

  function Join(words: seq<Bytes>): (s: Bytes)
    requires words != []
  {
    if |words| == 1 then words[0] else words[0] + [SPACE] + Join(words[1..])
  }

  /** strings.Split(s, " ") */
  function Split(s: Bytes): (words: seq<Bytes>)
    ensures words != []
  {
    if s == [] then [[]]
    else
      var rest := Split(s[1..]);
      if s[0] == SPACE then [[]] + rest else [[s[0]] + rest[0]] + rest[1..]
  }

  /** Splitting always undoes joining in this direction: the text is the words with spaces between, none inside. */
  lemma {:induction false} SplitThenJoin(s: Bytes)
    ensures Join(Split(s)) == s
    ensures forall w :: w in Split(s) ==> SPACE !in w
  {
    if s != [] {
      var rest := Split(s[1..]);
      SplitThenJoin(s[1..]);
      assert rest[0] in rest;
      assert [s[0]] + s[1..] == s;
      if s[0] == SPACE {
        assert Split(s)[1..] == rest;
        assert [] + [SPACE] + Join(rest) == s;
      } else {
        JoinConsByte(s[0], rest);
      }
    }
  }

  lemma JoinConsByte(b: Byte, words: seq<Bytes>)
    requires words != []
    ensures Join([[b] + words[0]] + words[1..]) == [b] + Join(words)
  {
    var longer := [[b] + words[0]] + words[1..];
    if |words| > 1 {
      assert longer[1..] == words[1..];
      assert [b] + words[0] + [SPACE] + Join(words[1..]) == [b] + (words[0] + [SPACE] + Join(words[1..]));
    }
  }

  lemma {:induction false} SplitWord(w: Bytes)
    requires SPACE !in w
    ensures Split(w) == [w]
  {
    if w != [] {
      SplitWord(w[1..]);
      assert [w[0]] + w[1..] == w;
    }
  }

  lemma {:induction false} SplitFirst(w: Bytes, s: Bytes)
    requires SPACE !in w
    ensures Split(w + [SPACE] + s) == [w] + Split(s)
  {
    var t := w + [SPACE] + s;
    if w == [] {
      assert t[1..] == s;
    } else {
      SplitFirst(w[1..], s);
      assert t[1..] == w[1..] + [SPACE] + s;
      assert [w[0]] + w[1..] == w;
    }
  }

  /** The receiver sees the words that were sent exactly when none of them contains a space. */
  lemma {:induction false} WordsArriveIff(words: seq<Bytes>)
    requires words != []
    ensures Split(Join(words)) == words <==> forall w :: w in words ==> SPACE !in w
  {
    SplitThenJoin(Join(words));
    if forall w :: w in words ==> SPACE !in w {
      if |words| == 1 {
        SplitWord(words[0]);
      } else {
        WordsArriveIff(words[1..]);
        assert words[0] in words;
        SplitFirst(words[0], Join(words[1..]));
      }
    }
  }

  function LittleEndian(n: nat): (b: Bytes)
    ensures |b| == 2
  {
    [n % 256, (n / 256) % 256]
  }

  function EncodeMessage(text: Bytes): (s: Bytes) {
    LittleEndian(|text|) + text
  }

  function SizeOf(b: Bytes): (n: nat)
    requires |b| == 2
    ensures n < 65536
  {
    var lo: int, hi: int := b[0], b[1];
    hi * 256 + lo
  }

  function ParseMessage(s: Bytes): (r: Parsed<Bytes>) {
    if |s| < 2 || |s| < 2 + SizeOf(s[..2]) then Short
    else Frame(s[2..2 + SizeOf(s[..2])], s[2 + SizeOf(s[..2])..])
  }

  predicate FitsMessage(text: Bytes) {
    |text| < 65536
  }

  lemma SizeIsTruncated(n: nat)
    ensures SizeOf(LittleEndian(n)) == n % 65536
  {
    assert n % 65536 == (n / 256 % 256) * 256 + n % 256;
  }

  lemma LittleEndianOfSize(b: Bytes)
    requires |b| == 2
    ensures LittleEndian(SizeOf(b)) == b
  {
    assert SizeOf(b) % 256 == b[0] && SizeOf(b) / 256 == b[1];
  }

  lemma MessageHead(text: Bytes, t: Bytes)
    ensures var s := EncodeMessage(text) + t;
            && |s| >= 2 && SizeOf(s[..2]) == |text| % 65536
            && ParseMessage(s) == Frame(text[..|text| % 65536], text[|text| % 65536..] + t)
  {
    var s := EncodeMessage(text) + t;
    var n := |text| % 65536;
    SizeIsTruncated(|text|);
    assert s[..2] == LittleEndian(|text|);
    assert s[2..2 + n] == text[..n];
    assert s[2 + n..] == text[n..] + t;
  }

  /** A message is read back exactly when it fits: a longer one is cut, and the rest is taken for other messages. */
  lemma MessageArrivesIff(text: Bytes, t: Bytes)
    ensures ParseMessage(EncodeMessage(text) + t) == Frame(text, t) <==> FitsMessage(text)
  {
    MessageHead(text, t);
    if FitsMessage(text) {
      assert text[..|text|] == text && text[|text|..] + t == t;
    }
  }

  /** On the wire: the low byte of the length, then the next one, then the text. */
  lemma MessageOnWire(text: Bytes)
    requires FitsMessage(text)
    ensures var s := EncodeMessage(text);
            |s| == 2 + |text| && s[0] as int + 256 * s[1] as int == |text| && s[2..] == text
  {
    assert |text| == |text| % 256 + 256 * (|text| / 256);
  }

  lemma CutMessage(text: Bytes, n: nat)
    requires FitsMessage(text) && n < |EncodeMessage(text)|
    ensures ParseMessage(EncodeMessage(text)[..n]) == Short
  {
    SizeIsTruncated(|text|);
    if n >= 2 {
      assert EncodeMessage(text)[..n][..2] == LittleEndian(|text|);
    }
  }

  lemma ParsedMessage(s: Bytes)
    requires ParseMessage(s).Frame?
    ensures FitsMessage(ParseMessage(s).m) && s == EncodeMessage(ParseMessage(s).m) + ParseMessage(s).rest
    ensures |ParseMessage(s).rest| < |s|
  {
    var n := SizeOf(s[..2]);
    LittleEndianOfSize(s[..2]);
    assert s == s[..2] + s[2..2 + n] + s[2 + n..];
  }

  lemma MessageCodec()
    ensures IsCodec(EncodeMessage, ParseMessage, FitsMessage)
  {
    forall m: Bytes, t: Bytes | FitsMessage(m) ensures ParseMessage(EncodeMessage(m) + t) == Frame(m, t) {
      MessageArrivesIff(m, t);
    }
    forall m: Bytes, n | FitsMessage(m) && 0 <= n < |EncodeMessage(m)|
      ensures ParseMessage(EncodeMessage(m)[..n]) == Short
    {
      CutMessage(m, n);
    }
    forall s | ParseMessage(s).Frame?
      ensures FitsMessage(ParseMessage(s).m) && s == EncodeMessage(ParseMessage(s).m) + ParseMessage(s).rest
      ensures |ParseMessage(s).rest| < |s|
    {
      ParsedMessage(s);
    }
  }

  // ---------------------------------------------------------------------------
  // The agent's side of a session
  // ---------------------------------------------------------------------------

  datatype Tokens = FromFile(content: Bytes, path: Bytes) | FromText(text: Bytes)

  /**
   * What the agent depends on: whether its check for a config change succeeds when a session starts, the token stored
   * in a config file, the commands it knows besides set-token, and the text of its error replies.
   */
  datatype Agent = Agent(configOk: bool, readToken: Bytes -> Option<Bytes>, knows: Bytes -> bool, complaint: Bytes)

  datatype Event =
    | Accepted(tokens: Option<Tokens>)                             // set-token, answered ok
    | Refused                                                      // set-token, answered with an error
    | Ran(words: seq<Bytes>, tokens: Option<Tokens>)               // any other known command
    | Unsupported
    | ConfigFailed                                                 // the session ended before any command was read

  /** The tokens after a set-token command; no result when it is refused. */
  function SetToken(agent: Agent, args: seq<Bytes>, tokens: Option<Tokens>): (r: Option<Option<Tokens>>) {
    if |args| != 2 then None
    else if args[0] == CFG then
      match agent.readToken(args[1])
      case None => None
      case Some(content) => Some(Some(FromFile(content, args[1])))
    else if args[0] == STR then Some(Some(FromText(args[1])))
    else Some(tokens)
  }

  /** Everything a session does with the messages it reads before its connection ends. */
  function Events(agent: Agent, tokens: Option<Tokens>, inbox: seq<Bytes>): (es: seq<Event>)
    decreases |inbox|
  {
    if inbox == [] then []
    else
      var words := Split(inbox[0]);
      if words[0] == SET_TOKEN then
        match SetToken(agent, words[1..], tokens)
        case None => [Refused]
        case Some(t) => [Accepted(t)] + Events(agent, t, inbox[1..])
      else if agent.knows(words[0]) then [Ran(words, tokens)]
      else [Unsupported]
  }

  /** A session, from its start. */
  function SessionEvents(agent: Agent, inbox: seq<Bytes>): (es: seq<Event>) {
    if agent.configOk then Events(agent, None, inbox) else [ConfigFailed]
  }

  /** The message asks for tokens that the agent takes. */
  predicate Takes(agent: Agent, tokens: Option<Tokens>, message: Bytes) {
    var words := Split(message);
    words[0] == SET_TOKEN && SetToken(agent, words[1..], tokens).Some?
  }

  /** The message is answered by the session itself, and not by the handler of a command. */
  predicate AnsweredAtOnce(agent: Agent, message: Bytes) {
    var verb := Split(message)[0];
    verb == SET_TOKEN || !agent.knows(verb)
  }

  function ReplyTo(agent: Agent, tokens: Option<Tokens>, message: Bytes): (reply: Bytes) {
    if Takes(agent, tokens, message) then OK else Complaint(agent)
  }

  /** The first reply of a session to the client, whose first message is `message`. */
  function Answer(agent: Agent, message: Bytes): (reply: Bytes) {
    if agent.configOk then ReplyTo(agent, None, message) else Complaint(agent)
  }

  class Session {
    const agent: Agent
    var tokens: Option<Tokens>
    var replies: seq<Bytes>
    ghost var events: seq<Event>

    constructor (agent: Agent)
      ensures tokens == None && replies == [] && events == [] && this.agent == agent
    {
      this.agent := agent;
      tokens, replies, events := None, [], [];
    }

    /** The config check comes first; an error is sent when it fails, whatever the client asks for. */
    method Run(inbox: seq<Bytes>)
      requires tokens == None && replies == [] && events == []
      modifies this
      ensures events == SessionEvents(agent, inbox)
      ensures !agent.configOk ==> replies == [Complaint(agent)]
      ensures inbox != [] && (AnsweredAtOnce(agent, inbox[0]) || !agent.configOk) ==>
                replies != [] && replies[0] == Answer(agent, inbox[0])
    {
      if !agent.configOk {
        replies := [Complaint(agent)];
        events := [ConfigFailed];
        return;
      }
      RunCommand(inbox);
    }

    /** Each accepted set-token leads to the next message, any other command to the end. */
    method RunCommand(inbox: seq<Bytes>)
      modifies this
      ensures events == old(events) + Events(agent, old(tokens), inbox)
      ensures old(replies) <= replies
      ensures inbox != [] && AnsweredAtOnce(agent, inbox[0]) ==>
                |replies| > |old(replies)| && replies[|old(replies)|] == ReplyTo(agent, old(tokens), inbox[0])
      decreases |inbox|, 1
    {
      if inbox == [] {
        assert events == old(events) + [];
        return;
      }
      var words := Split(inbox[0]);
      if words[0] == SET_TOKEN {
        HandleSetToken(words[1..], inbox[1..]);
      } else if agent.knows(words[0]) {
        events := events + [Ran(words, tokens)];
      } else {
        replies := replies + [Complaint(agent)];
        events := events + [Unsupported];
      }
    }

    method HandleSetToken(args: seq<Bytes>, rest: seq<Bytes>)
      modifies this
      ensures events == old(events) + (match SetToken(agent, args, old(tokens))
                                       case None => [Refused]
                                       case Some(t) => [Accepted(t)] + Events(agent, t, rest))
      ensures old(replies) < replies
      ensures replies[|old(replies)|] == if SetToken(agent, args, old(tokens)).Some? then OK else Complaint(agent)
      decreases |rest|, 2
    {
      if |args| != 2 {
        Refuse();
        return;
      }
      if args[0] == CFG {
        var content := agent.readToken(args[1]);
        if content.None? {
          Refuse();
          return;
        }
        tokens := Some(FromFile(content.value, args[1]));
      } else if args[0] == STR {
        tokens := Some(FromText(args[1]));
      }
      replies := replies + [OK];
      events := events + [Accepted(tokens)];
      RunCommand(rest);
    }

    method Refuse()
      modifies `replies, `events
      ensures events == old(events) + [Refused]
      ensures replies == old(replies) + [Complaint(agent)]
    {
      replies := replies + [Complaint(agent)];
      events := events + [Refused];
    }
  }

  function Complaint(agent: Agent): (reply: Bytes) {
    Join([ERR, agent.complaint])
  }

  lemma ComplaintsAreErrors(agent: Agent)
    ensures IsError(Complaint(agent)) && Complaint(agent) != OK
  {
    var words := [ERR, agent.complaint];
    assert words[1..] == [agent.complaint];
    assert Join(words[1..]) == agent.complaint;
    assert Complaint(agent) == ERR + [SPACE] + agent.complaint;
  }

  /** isError: the reply starts with "err ". */
  predicate IsError(reply: Bytes) {
    |reply| >= 4 && reply[..4] == ERR + [SPACE]
  }

  /** The tokens accepted last, if any. */
  function LastAccepted(es: seq<Event>, initial: Option<Tokens>): (t: Option<Tokens>) {
    if es == [] then initial
    else if es[|es| - 1].Accepted? then es[|es| - 1].tokens
    else LastAccepted(es[..|es| - 1], initial)
  }

  /** Tokens are accepted any number of times, then at most one command runs, with the tokens accepted last. */
  ghost predicate Shaped(es: seq<Event>, initial: Option<Tokens>) {
    && (forall i :: 0 <= i < |es| - 1 ==> es[i].Accepted?)
    && (forall i :: 0 <= i < |es| && es[i].Ran? ==> es[i].tokens == LastAccepted(es[..i], initial))
  }

  lemma {:induction false} SessionShape(agent: Agent, tokens: Option<Tokens>, inbox: seq<Bytes>)
    ensures Shaped(Events(agent, tokens, inbox), tokens)
    decreases |inbox|
  {
    if inbox != [] {
      var words := Split(inbox[0]);
      if words[0] == SET_TOKEN && SetToken(agent, words[1..], tokens).Some? {
        var t := SetToken(agent, words[1..], tokens).value;
        SessionShape(agent, t, inbox[1..]);
        var rest := Events(agent, t, inbox[1..]);
        var es := Events(agent, tokens, inbox);
        assert es == [Accepted(t)] + rest;
        forall i | 0 <= i < |es| - 1 ensures es[i].Accepted? {
          if i > 0 {
            assert es[i] == rest[i - 1];
          }
        }
        forall i | 0 <= i < |es| && es[i].Ran? ensures es[i].tokens == LastAccepted(es[..i], tokens) {
          assert i > 0;
          assert es[i] == rest[i - 1];
          assert es[..i] == [Accepted(t)] + rest[..i - 1];
          LastAcceptedAfter(t, rest[..i - 1], tokens);
          assert rest[i - 1].tokens == LastAccepted(rest[..i - 1], t);
        }
      }
    }
  }

  /** Whole sessions have this shape too. */
  lemma SessionsAreShaped(agent: Agent, inbox: seq<Bytes>)
    ensures Shaped(SessionEvents(agent, inbox), None)
  {
    SessionShape(agent, None, inbox);
  }

  lemma {:induction false} LastAcceptedAfter(t: Option<Tokens>, es: seq<Event>, initial: Option<Tokens>)
    ensures LastAccepted([Accepted(t)] + es, initial) == LastAccepted(es, t)
  {
    var all := [Accepted(t)] + es;
    if es == [] {
      assert all == [Accepted(t)];
    } else {
      LastAcceptedAfter(t, es[..|es| - 1], initial);
      assert all[..|all| - 1] == [Accepted(t)] + es[..|es| - 1];
    }
  }

  // ---------------------------------------------------------------------------
  // The client's side
  // ---------------------------------------------------------------------------

  /** One connection to the agent, as it will turn out. */
  datatype Attempt = Attempt(
    dials: bool,            // the connection is made
    ioOk: bool,             // set-token is written and a reply is read
    reply: Bytes,           // that reply
    fnSucceeds: bool,       // what the caller's function would return
    returnsFirst: bool)     // it returns before the context ends

  datatype Outcome = Outcome(ok: bool, runs: nat, successes: nat, refused: bool, dialed: nat)

  class Client {
    var refused: bool       // agentRefusedTokens

    constructor ()
      ensures !refused
    {
      refused := false;
    }

    method DoNoTokens(a: Attempt) returns (o: Outcome)
      ensures o == Plain(a, refused)
    {
      if !a.dials {
        return Outcome(false, 0, 0, refused, 1);
      }
      o := Outcome(a.fnSucceeds && a.returnsFirst, 1, if a.fnSucceeds then 1 else 0, refused, 1);
    }

    /** A refused token is remembered, and the work is done again without tokens. */
    method Do(hasTokens: bool, first: Attempt, second: Attempt) returns (o: Outcome)
      modifies this
      ensures o == Done(old(refused), hasTokens, first, second)
      ensures refused == o.refused
      decreases !refused
    {
      if refused || !hasTokens {
        o := DoNoTokens(first);
        return;
      }
      if !first.dials {
        return Outcome(false, 0, 0, refused, 1);
      }
      if first.ioOk && first.reply == OK {
        o := Outcome(first.fnSucceeds, 1, if first.fnSucceeds then 1 else 0, refused, 1);
      } else if !first.ioOk {
        o := Outcome(false, 0, 0, refused, 1);
      } else if IsError(first.reply) {
        refused := true;
        var inner := Do(hasTokens, second, second);
        o := inner.(dialed := inner.dialed + 1);
      } else {
        o := Outcome(true, 0, 0, refused, 1);
      }
      o := o.(ok := o.ok && first.returnsFirst);
    }
  }

  function Plain(a: Attempt, refused: bool): (o: Outcome) {
    if !a.dials then Outcome(false, 0, 0, refused, 1)
    else Outcome(a.fnSucceeds && a.returnsFirst, 1, if a.fnSucceeds then 1 else 0, refused, 1)
  }

  function Done(refused: bool, hasTokens: bool, first: Attempt, second: Attempt): (o: Outcome) {
    if refused || !hasTokens then Plain(first, refused)
    else if !first.dials || !first.ioOk then Outcome(false, 0, 0, false, 1)
    else if first.reply == OK then
      Outcome(first.fnSucceeds && first.returnsFirst, 1, if first.fnSucceeds then 1 else 0, false, 1)
    else if IsError(first.reply) then
      var inner := Plain(second, true);
      inner.(ok := inner.ok && first.returnsFirst, dialed := inner.dialed + 1)
    else Outcome(first.returnsFirst, 0, 0, false, 1)
  }

  /**
   * With the replies an agent can give, a nil result means that the caller's work ran once and succeeded; and the
   * refusal is set exactly when the agent answered a set-token with an error: it did not take the tokens, or its check
   * for a config change failed before it looked at them.
   */
  lemma NilMeansDone(agent: Agent, message: Bytes, refused: bool, hasTokens: bool, first: Attempt, second: Attempt)
    requires first.ioOk ==> first.reply == Answer(agent, message)
    ensures var o := Done(refused, hasTokens, first, second);
            && (o.ok ==> o.successes == 1) && o.successes <= o.runs <= 1
            && (o.refused <==>
                  refused || (hasTokens && first.dials && first.ioOk
                              && !(agent.configOk && Takes(agent, None, message))))
  {
    ComplaintsAreErrors(agent);
  }

  /** The work is done on the first connection: no tokens have to be sent, or the agent takes those that are. */
  predicate WorksFirst(agent: Agent, message: Bytes, refused: bool, hasTokens: bool, first: Attempt) {
    first.dials && (refused || !hasTokens || (first.ioOk && agent.configOk && Takes(agent, None, message)))
  }

  /** The work is done on the second connection: the agent answers the tokens with an error. */
  predicate WorksSecond(agent: Agent, message: Bytes, refused: bool, hasTokens: bool, first: Attempt, second: Attempt) {
    && !refused && hasTokens && first.dials && first.ioOk && !(agent.configOk && Takes(agent, None, message))
    && second.dials
  }

  /**
   * With the replies an agent can give, exactly when the work is run and on which connection, when it succeeds, when
   * nil is returned, and when a second connection is tried.
   */
  lemma WorkRunsIff(agent: Agent, message: Bytes, refused: bool, hasTokens: bool, first: Attempt, second: Attempt)
    requires first.ioOk ==> first.reply == Answer(agent, message)
    ensures var o := Done(refused, hasTokens, first, second);
            var one := WorksFirst(agent, message, refused, hasTokens, first);
            var two := WorksSecond(agent, message, refused, hasTokens, first, second);
            && !(one && two) && o.runs == (if one || two then 1 else 0)
            && o.successes == (if (one && first.fnSucceeds) || (two && second.fnSucceeds) then 1 else 0)
            && (o.ok <==>
                  || (one && first.fnSucceeds && first.returnsFirst)
                  || (two && second.fnSucceeds && second.returnsFirst && first.returnsFirst))
            && (o.dialed == 2 <==>
                  && !refused && hasTokens && first.dials && first.ioOk
                  && !(agent.configOk && Takes(agent, None, message)))
            && 1 <= o.dialed <= 2
  {
    ComplaintsAreErrors(agent);
  }

  /** So tokens that the agent would take count as refused for good when a config check fails once. */
  lemma FailedCheckIsRemembered(agent: Agent, message: Bytes, first: Attempt, second: Attempt, calls: seq<Call>)
    requires !agent.configOk && Takes(agent, None, message)
    requires first.dials && first.ioOk && first.reply == Answer(agent, message)
    ensures var os := Outcomes(false, [Call(true, first, second)] + calls);
            forall i :: 0 <= i < |os| ==> os[i].refused
  {
    var all := [Call(true, first, second)] + calls;
    NilMeansDone(agent, message, false, true, first, second);
    RefusalIsPaidOnce(false, all);
    assert Outcomes(false, all)[0].refused;
  }

  /** That depends on the agent: any other reply makes Do return nil although the work has not run. */
  lemma NilMeansDoneIff(refused: bool, hasTokens: bool, first: Attempt, second: Attempt)
    requires Done(refused, hasTokens, first, second).ok
    ensures Done(refused, hasTokens, first, second).successes == 1 <==>
            (!refused && hasTokens ==> first.reply == OK || IsError(first.reply))
  {
  }

  // ---------------------------------------------------------------------------
  // All the calls of one client
  // ---------------------------------------------------------------------------

  datatype Call = Call(hasTokens: bool, first: Attempt, second: Attempt)

  function Outcomes(refused: bool, calls: seq<Call>): (os: seq<Outcome>)
    ensures |os| == |calls|
    decreases |calls|
  {
    if calls == [] then []
    else
      var o := Done(refused, calls[0].hasTokens, calls[0].first, calls[0].second);
      [o] + Outcomes(o.refused, calls[1..])
  }

  function Connections(os: seq<Outcome>): (n: nat) {
    if os == [] then 0 else os[0].dialed + Connections(os[1..])
  }

  function RefusedAfter(refused: bool, os: seq<Outcome>): (r: bool) {
    if os == [] then refused else os[|os| - 1].refused
  }

  /**
   * Over any number of calls a refusal is never forgotten, and the handshake costs one extra connection in all: it is
   * paid by the call that learns of the refusal.
   */
  lemma {:induction false} RefusalIsPaidOnce(refused: bool, calls: seq<Call>)
    ensures var os := Outcomes(refused, calls);
            && (forall i, j :: 0 <= i <= j < |os| && (refused || os[i].refused) ==> os[j].refused)
            && Connections(os) == |calls| + (if RefusedAfter(refused, os) && !refused then 1 else 0)
    decreases |calls|
  {
    if calls != [] {
      var o := Done(refused, calls[0].hasTokens, calls[0].first, calls[0].second);
      var rest := Outcomes(o.refused, calls[1..]);
      RefusalIsPaidOnce(o.refused, calls[1..]);
      var os := Outcomes(refused, calls);
      assert os == [o] + rest && os[1..] == rest;
      forall i, j | 0 <= i <= j < |os| && (refused || os[i].refused) ensures os[j].refused {
        if j > 0 {
          assert os[j] == rest[j - 1];
          if i > 0 {
            assert os[i] == rest[i - 1];
          }
        }
      }
    }
  }

  // ---------------------------------------------------------------------------
  // Both sides together
  // ---------------------------------------------------------------------------

  function TokenMessage(mode: Bytes, value: Bytes): (m: Bytes) {
    Join([SET_TOKEN, mode, value])
  }

  lemma TokenText(mode: Bytes, value: Bytes)
    ensures TokenMessage(mode, value) == SET_TOKEN + [SPACE] + (mode + [SPACE] + value)
  {
    var words := [SET_TOKEN, mode, value];
    assert words[1..] == [mode, value] && words[1..][1..] == [value];
    assert Join([mode, value]) == mode + [SPACE] + value;
  }

  lemma SplitHasWords(value: Bytes)
    ensures |Split(value)| > 1 <==> SPACE in value
  {
    if SPACE !in value {
      SplitWord(value);
    } else {
      SplitThenJoin(value);
      assert Split(value)[0] in Split(value);
      assert Split(value)[0] != value;
    }
  }

  lemma TokenWords(mode: Bytes, value: Bytes)
    requires SPACE !in mode
    ensures Split(TokenMessage(mode, value)) == [SET_TOKEN] + ([mode] + Split(value))
    ensures SPACE !in value ==> Split(value) == [value]
    ensures SPACE in value ==> |Split(value)| > 1
  {
    TokenText(mode, value);
    SplitHasWords(value);
    SplitFirst(SET_TOKEN, mode + [SPACE] + value);
    SplitFirst(mode, value);
    if SPACE !in value {
      SplitWord(value);
    }
  }

  /**
   * What the client and the agent do together with a token message that fits: it is accepted exactly when the agent's
   * config check succeeds, its value has no space in it and, for a config file, the file can be read; then the next
   * command runs with those tokens.
   */
  lemma TokenAcceptedIff(agent: Agent, mode: Bytes, value: Bytes, command: Bytes, more: Bytes)
    requires mode == CFG || mode == STR
    requires FitsMessage(TokenMessage(mode, value)) && FitsMessage(command) && agent.knows(Split(command)[0])
    requires Split(command)[0] != SET_TOKEN
    ensures IsCodec(EncodeMessage, ParseMessage, FitsMessage)
    ensures var sent := EncodeMessage(TokenMessage(mode, value)) + EncodeMessage(command) + more;
            var es := SessionEvents(agent, Decode(ParseMessage, sent).messages);
            if !agent.configOk then es == [ConfigFailed]
            else if SPACE !in value && (mode == CFG ==> agent.readToken(value).Some?)
            then var t := if mode == STR then FromText(value) else FromFile(agent.readToken(value).value, value);
                 es == [Accepted(Some(t)), Ran(Split(command), Some(t))]
            else es == [Refused]
  {
    TwoMessages(TokenMessage(mode, value), command, more);
    EventsOfTwo(agent, mode, value, command, Decode(ParseMessage, more).messages);
  }

  lemma TwoMessages(m: Bytes, command: Bytes, more: Bytes)
    requires FitsMessage(m) && FitsMessage(command)
    ensures IsCodec(EncodeMessage, ParseMessage, FitsMessage)
    ensures Decode(ParseMessage, EncodeMessage(m) + EncodeMessage(command) + more).messages
         == [m] + ([command] + Decode(ParseMessage, more).messages)
  {
    MessageCodec();
    var tail := EncodeMessage(command) + more;
    assert EncodeMessage(m) + EncodeMessage(command) + more == EncodeMessage(m) + tail;
    MessageArrivesIff(m, tail);
    MessageArrivesIff(command, more);
    assert Decode(ParseMessage, tail).messages == [command] + Decode(ParseMessage, more).messages;
  }

  lemma EventsOfTwo(agent: Agent, mode: Bytes, value: Bytes, command: Bytes, rest: seq<Bytes>)
    requires mode == CFG || mode == STR
    requires agent.knows(Split(command)[0]) && Split(command)[0] != SET_TOKEN
    ensures var es := Events(agent, None, [TokenMessage(mode, value)] + ([command] + rest));
            if SPACE !in value && (mode == CFG ==> agent.readToken(value).Some?)
            then var t := if mode == STR then FromText(value) else FromFile(agent.readToken(value).value, value);
                 es == [Accepted(Some(t)), Ran(Split(command), Some(t))]
            else es == [Refused]
  {
    var m := TokenMessage(mode, value);
    var inbox := [m] + ([command] + rest);
    TokenWords(mode, value);
    var words := [SET_TOKEN] + ([mode] + Split(value));
    assert words == Split(m);
    assert inbox[0] == m && inbox[1..] == [command] + rest;
    assert words[0] == SET_TOKEN;
    assert SPACE !in value ==> words[1..] == [mode, value];
    assert SPACE in value ==> |words[1..]| > 2;
    assert CFG[0] != STR[0];
    var next := [command] + rest;
    assert next[0] == command;
    forall t: Option<Tokens> ensures Events(agent, t, next) == [Ran(Split(command), t)] {
    }
  }
}
