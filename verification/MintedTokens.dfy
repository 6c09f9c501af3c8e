/** The tokens and errors that minting leaves, whatever the schedule (doFetchOrgTokens, internal/config/tokens.go). */
module MintedTokens {
  import opened Prelude
  import opened OrgTokens

  /** `toks` are the tokens before the first that cannot be decoded. */
  ghost predicate DecodedUpToFault(answers: seq<Option<string>>, toks: seq<string>) {
    && |toks| <= |answers| && (forall i :: 0 <= i < |toks| ==> answers[i] == Some(toks[i]))
    && (|toks| < |answers| ==> answers[|toks|].None?)
  }

  /** Nothing is wrong with the answer. */
  predicate Clean(m: Minted) {
    m.Minted? && forall i :: 0 <= i < |m.tokens| ==> m.tokens[i].Some?
  }

  /** What an organisation's answer adds to the tokens. */
  ghost predicate Yields(m: Minted, toks: seq<string>) {
    match m
    case Failed => toks == []
    case Minted(answers) => DecodedUpToFault(answers, toks)
  }

  /** `orgs` lists the missing organisations, each once. */
  ghost predicate Lists(orgs: seq<Org>, missing: set<Org>) {
    (forall o :: o in orgs <==> o in missing) && forall i, j :: 0 <= i < j < |orgs| ==> orgs[i] != orgs[j]
  }

  function Flat(parts: seq<seq<string>>): (toks: seq<string>) {
    if parts == [] then [] else Flat(parts[..|parts| - 1]) + parts[|parts| - 1]
  }

  /** The organisations whose answers have something wrong with them. */
  function Faulty(w: World, orgs: seq<Org>): (bad: seq<Org>) {
    Filter(orgs, o => !Clean(w.mint(o)))
  }

  // ---------------------------------------------------------------------------
  // One goroutine
  // ---------------------------------------------------------------------------

  lemma OneEvent(e: Event)
    ensures Macs([e]) == MacOf(e) && Errs([e]) == ErrOf(e)
  {
    LogOneMore([], e);
    assert [] + [e] == [e] && [] + MacOf(e) == MacOf(e) && [] + ErrOf(e) == ErrOf(e);
  }

  lemma MacsErrsCons(e: Event, es: seq<Event>)
    ensures Macs([e] + es) == MacOf(e) + Macs(es) && Errs([e] + es) == ErrOf(e) + Errs(es)
  {
    MacsAppend([e], es);
    OneEvent(e);
  }

  lemma {:induction false} AdditionsGive(o: Org, answers: seq<Option<string>>)
    ensures DecodedUpToFault(answers, Macs(Additions(o, answers)))
    ensures Errs(Additions(o, answers)) == if forall i :: 0 <= i < |answers| ==> answers[i].Some? then [] else [o]
  {
    if answers != [] {
      if answers[0].None? {
        MacsErrsCons(AddErr(o), []);
        assert [AddErr(o)] + [] == [AddErr(o)];
      } else {
        var rest := answers[1..];
        AdditionsGive(o, rest);
        MacsErrsCons(AddMac(o, answers[0].value), Additions(o, rest));
        AllSomeCons(answers);
      }
    }
  }

  lemma AllSomeCons(answers: seq<Option<string>>)
    requires answers != [] && answers[0].Some?
    ensures (forall i :: 0 <= i < |answers| ==> answers[i].Some?) <==>
            forall i :: 0 <= i < |answers[1..]| ==> answers[1..][i].Some?
  {
    assert forall i :: 0 < i < |answers| ==> answers[i] == answers[1..][i - 1];
  }

  lemma MintFirst(o: Org, rest: seq<Event>)
    ensures Macs([Mint(o)] + rest) == Macs(rest) && Errs([Mint(o)] + rest) == Errs(rest)
  {
    MacsErrsCons(Mint(o), rest);
    assert [] + Macs(rest) == Macs(rest) && [] + Errs(rest) == Errs(rest);
  }

  lemma OneError(o: Org)
    ensures Macs([AddErr(o)]) == [] && Errs([AddErr(o)]) == [o]
  {
    OneEvent(AddErr(o));
  }

  /** A goroutine adds what its answer yields, and records at most one error, if something is wrong with the answer. */
  lemma ScriptGives(w: World, o: Org)
    ensures Yields(w.mint(o), Macs(Script(w, o)))
    ensures Errs(Script(w, o)) == if Clean(w.mint(o)) then [] else [o]
  {
    match w.mint(o)
    case Failed =>
      OneError(o);
      MintFirst(o, [AddErr(o)]);
      assert [Mint(o)] + [AddErr(o)] == Script(w, o);
    case Minted(answers) =>
      AdditionsGive(o, answers);
      MintFirst(o, Additions(o, answers));
  }

  lemma NoLonger(answers: seq<Option<string>>, a: seq<string>, b: seq<string>)
    requires DecodedUpToFault(answers, a) && DecodedUpToFault(answers, b)
    ensures |a| <= |b|
  {
    assert |b| < |answers| ==> answers[|b|].None?;
  }

  lemma OneYield(m: Minted, a: seq<string>, b: seq<string>)
    requires Yields(m, a) && Yields(m, b)
    ensures a == b
  {
    if m.Minted? {
      NoLonger(m.tokens, a, b);
      NoLonger(m.tokens, b, a);
    }
  }

  // ---------------------------------------------------------------------------
  // All of them, one after the other, and then in any order
  // ---------------------------------------------------------------------------

  function InTurn(w: World, orgs: seq<Org>): (log: seq<Event>) {
    if orgs == [] then [] else InTurn(w, orgs[..|orgs| - 1]) + Script(w, orgs[|orgs| - 1])
  }

  lemma OfScript(w: World, o: Org, p: Org)
    ensures Of(Script(w, p), o) == if o == p then Script(w, p) else []
  {
    if o == p {
      FilterAll(Script(w, p), (e: Event) => e.org == o);
    } else {
      FilterNone(Script(w, p), (e: Event) => e.org == o);
    }
  }

  lemma OfAppend(a: seq<Event>, b: seq<Event>, o: Org)
    ensures Of(a + b, o) == Of(a, o) + Of(b, o)
  {
    FilterAppend(a, b, (e: Event) => e.org == o);
  }

  lemma InTurnSnoc(w: World, orgs: seq<Org>, o: Org)
    ensures InTurn(w, orgs + [o]) == InTurn(w, orgs) + Script(w, o)
  {
    assert (orgs + [o])[..|orgs|] == orgs;
  }

  lemma InTurnOneMore(w: World, orgs: seq<Org>, p: Org, o: Org)
    requires p !in orgs && Of(InTurn(w, orgs), o) == if o in orgs then Script(w, o) else []
    ensures Of(InTurn(w, orgs + [p]), o) == if o in orgs + [p] then Script(w, o) else []
  {
    InTurnSnoc(w, orgs, p);
    OfAppend(InTurn(w, orgs), Script(w, p), o);
    OfScript(w, o, p);
  }

  lemma {:induction false} InTurnOf(w: World, orgs: seq<Org>, o: Org)
    requires forall i, j :: 0 <= i < j < |orgs| ==> orgs[i] != orgs[j]
    ensures Of(InTurn(w, orgs), o) == if o in orgs then Script(w, o) else []
  {
    if orgs != [] {
      var n := |orgs| - 1;
      InTurnOf(w, orgs[..n], o);
      assert orgs == orgs[..n] + [orgs[n]];
      InTurnOneMore(w, orgs[..n], orgs[n], o);
    }
  }

  /** What each organisation of the list yields, in the order of the list. */
  ghost predicate YieldEach(w: World, orgs: seq<Org>, parts: seq<seq<string>>) {
    |parts| == |orgs| && forall i :: 0 <= i < |orgs| ==> Yields(w.mint(orgs[i]), parts[i])
  }

  lemma FaultyOneMore(w: World, orgs: seq<Org>, o: Org)
    ensures Faulty(w, orgs + [o]) == Faulty(w, orgs) + if Clean(w.mint(o)) then [] else [o]
  {
    FilterSnoc(orgs, o, o => !Clean(w.mint(o)));
    assert Faulty(w, orgs) + [] == Faulty(w, orgs);
  }

  lemma FlatSnoc(parts: seq<seq<string>>, part: seq<string>)
    ensures Flat(parts + [part]) == Flat(parts) + part
  {
    assert (parts + [part])[..|parts|] == parts;
  }

  lemma InTurnGivesOneMore(w: World, orgs: seq<Org>, o: Org, parts: seq<seq<string>>, part: seq<string>)
    requires Macs(InTurn(w, orgs)) == Flat(parts) && Errs(InTurn(w, orgs)) == Faulty(w, orgs) && Yields(w.mint(o), part)
    ensures Macs(InTurn(w, orgs + [o])) == Flat(parts + [part])
    ensures Errs(InTurn(w, orgs + [o])) == Faulty(w, orgs + [o])
  {
    ScriptGives(w, o);
    OneYield(w.mint(o), part, Macs(Script(w, o)));
    InTurnSnoc(w, orgs, o);
    MacsAppend(InTurn(w, orgs), Script(w, o));
    FlatSnoc(parts, part);
    FaultyOneMore(w, orgs, o);
  }

  lemma {:induction false} InTurnGives(w: World, orgs: seq<Org>, parts: seq<seq<string>>)
    requires YieldEach(w, orgs, parts)
    ensures Macs(InTurn(w, orgs)) == Flat(parts) && Errs(InTurn(w, orgs)) == Faulty(w, orgs)
    decreases |orgs|, 1
  {
    if orgs != [] {
      var n := |orgs| - 1;
      YieldEachSplits(w, orgs, parts);
      InTurnGivesLast(w, orgs[..n], orgs[n], parts[..n], parts[n], orgs, parts);
    }
  }

  lemma YieldEachSplits(w: World, orgs: seq<Org>, parts: seq<seq<string>>)
    requires YieldEach(w, orgs, parts) && orgs != []
    ensures var n := |orgs| - 1;
            && YieldEach(w, orgs[..n], parts[..n]) && Yields(w.mint(orgs[n]), parts[n])
            && orgs == orgs[..n] + [orgs[n]] && parts == parts[..n] + [parts[n]]
  {
  }

  lemma InTurnGivesLast(w: World, before: seq<Org>, o: Org, earlier: seq<seq<string>>, part: seq<string>,
                        orgs: seq<Org>, parts: seq<seq<string>>)
    requires YieldEach(w, before, earlier) && Yields(w.mint(o), part)
    requires orgs == before + [o] && parts == earlier + [part]
    ensures Macs(InTurn(w, orgs)) == Flat(parts) && Errs(InTurn(w, orgs)) == Faulty(w, orgs)
    decreases |orgs|, 0
  {
    InTurnGives(w, before, earlier);
    InTurnGivesOneMore(w, before, o, earlier, part);
  }

  /**
   * In every schedule, the tokens added are those that the answers yield, each as often, and an error is recorded once
   * for every missing organisation whose answer has something wrong with it.
   */
  lemma AddedAreYielded(w: World, missing: set<Org>, log: seq<Event>, orgs: seq<Org>, parts: seq<seq<string>>)
    requires Interleaves(w, missing, log) && Lists(orgs, missing) && YieldEach(w, orgs, parts)
    ensures multiset(Macs(log)) == multiset(Flat(parts)) && multiset(Errs(log)) == multiset(Faulty(w, orgs))
  {
    forall o ensures Of(InTurn(w, orgs), o) == if o in missing then Script(w, o) else [] {
      InTurnOf(w, orgs, o);
    }
    ScheduleDoesNotMatter(w, missing, log, InTurn(w, orgs));
    InTurnGives(w, orgs, parts);
  }
}
