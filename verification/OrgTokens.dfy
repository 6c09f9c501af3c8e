/** Pruning the tokens of organisations and minting missing ones (doFetchOrgTokens, internal/config/tokens.go). */
module OrgTokens {
  import opened Prelude

  type Org = nat

  /** What parsing a token tells about it. */
  datatype Kind =
    | Unreadable                 // it does not parse, or its permission tokens cannot be told apart
    | NotOnePermission           // a discharge token, or any other number of permission tokens than one
    | Unscoped                   // one permission token whose organisation cannot be determined
    | Scoped(org: Org)

  /** The answer to a request for the tokens of an organisation; a token that cannot be decoded is None. */
  datatype Minted = Failed | Minted(tokens: seq<Option<string>>)

  datatype World = World(kind: string -> Kind, mint: Org -> Minted)

  // ---------------------------------------------------------------------------
  // Pruning
  // ---------------------------------------------------------------------------

  predicate Keeps(w: World, members: set<Org>, t: string) {
    match w.kind(t)
    case Unreadable => false
    case NotOnePermission => true
    case Unscoped => false
    case Scoped(o) => o in members
  }

  function Kept(w: World, members: set<Org>, toks: seq<string>): (kept: seq<string>) {
    Filter(toks, t => Keeps(w, members, t))
  }

  /** The members for which no token is kept. */
  function Missing(w: World, members: set<Org>, toks: seq<string>): (orgs: set<Org>) {
    set o | o in members && forall t :: t in toks ==> w.kind(t) != Scoped(o)
  }

  /** Whether to delete the token, and the member organisation it is for. */
  method Judge(w: World, members: map<Org, string>, t: string) returns (delete: bool, org: Option<Org>)
    ensures delete <==> !Keeps(w, members.Keys, t)
    ensures org.Some? <==> w.kind(t).Scoped? && w.kind(t).org in members
    ensures org.Some? ==> org.value == w.kind(t).org
  {
    org := None;
    match w.kind(t) {
      case Unreadable => delete := true;
      case NotOnePermission => delete := false;
      case Unscoped => delete := true;
      case Scoped(o) =>
        delete := o !in members;
        if !delete {
          org := Some(o);
        }
    }
  }

  function OrgOf(w: World, members: set<Org>, t: string): (orgs: set<Org>) {
    if w.kind(t).Scoped? && w.kind(t).org in members then {w.kind(t).org} else {}
  }

  function Found(w: World, members: set<Org>, toks: seq<string>): (orgs: set<Org>) {
    if toks == [] then {} else Found(w, members, toks[..|toks| - 1]) + OrgOf(w, members, toks[|toks| - 1])
  }

  lemma {:induction false} FoundOrMissing(w: World, members: set<Org>, toks: seq<string>)
    ensures Missing(w, members, toks) == members - Found(w, members, toks)
  {
    if toks != [] {
      var n := |toks| - 1;
      FoundOrMissing(w, members, toks[..n]);
      assert forall t :: t in toks <==> t in toks[..n] || t == toks[n];
      forall o | o in members ensures o in Missing(w, members, toks) <==>
                                      o in Missing(w, members, toks[..n]) && w.kind(toks[n]) != Scoped(o) {
      }
    }
  }

  lemma OneMoreToken(w: World, members: set<Org>, toks: seq<string>, i: nat)
    requires i < |toks|
    ensures Kept(w, members, toks[..i + 1]) ==
            Kept(w, members, toks[..i]) + if Keeps(w, members, toks[i]) then [toks[i]] else []
    ensures Found(w, members, toks[..i + 1]) == Found(w, members, toks[..i]) + OrgOf(w, members, toks[i])
  {
    assert toks[..i + 1] == toks[..i] + [toks[i]];
    assert toks[..i + 1][..i] == toks[..i];
    FilterAppend(toks[..i], [toks[i]], t => Keeps(w, members, t));
  }

  method Prune(w: World, members: map<Org, string>, toks: seq<string>)
    returns (kept: seq<string>, missing: map<Org, string>)
    ensures kept == Kept(w, members.Keys, toks)
    ensures missing.Keys == Missing(w, members.Keys, toks) && forall o :: o in missing ==> missing[o] == members[o]
  {
    var found: set<Org> := {};
    kept := [];
    for i := 0 to |toks|
      invariant kept == Kept(w, members.Keys, toks[..i])
      invariant found == Found(w, members.Keys, toks[..i])
    {
      var delete, org := Judge(w, members, toks[i]);
      if org.Some? {
        found := found + {org.value};
      }
      if !delete {
        kept := kept + [toks[i]];
      }
      OneMoreToken(w, members.Keys, toks, i);
    }
    assert toks[..|toks|] == toks;
    missing := Without(members, found);
    FoundOrMissing(w, members.Keys, toks);
  }

  method Without(members: map<Org, string>, found: set<Org>) returns (missing: map<Org, string>)
    ensures forall o :: o in missing <==> o in members && o !in found
    ensures forall o :: o in missing ==> missing[o] == members[o]
  {
    missing := members;
    var todo := found;
    while todo != {}
      invariant todo <= found
      invariant forall o :: o in missing <==> o in members && (o in found ==> o in todo)
      invariant forall o :: o in missing ==> missing[o] == members[o]
    {
      var o :| o in todo;
      todo := todo - {o};
      missing := missing - {o};
    }
  }

  /**
   * A member has a kept token of its own, or else it is missing; no permission token of any other organisation is kept.
   */
  lemma MemberKeptOrMissing(w: World, members: set<Org>, toks: seq<string>, o: Org)
    ensures o in members ==>
              (o in Missing(w, members, toks) <==> forall t :: t in Kept(w, members, toks) ==> w.kind(t) != Scoped(o))
    ensures o !in members ==> forall t :: t in Kept(w, members, toks) ==> w.kind(t) != Scoped(o)
    ensures forall t :: t in Kept(w, members, toks) <==>
              t in toks && (w.kind(t) == NotOnePermission || (w.kind(t).Scoped? && w.kind(t).org in members))
  {
    if o in members {
      forall t | t in toks && w.kind(t) == Scoped(o) ensures t in Kept(w, members, toks) {
        assert Keeps(w, members, t);
      }
    }
    forall t
      ensures Keeps(w, members, t) <==>
              w.kind(t) == NotOnePermission || (w.kind(t).Scoped? && w.kind(t).org in members)
    {
    }
  }

  // ---------------------------------------------------------------------------
  // Minting: one goroutine for each missing organisation
  // ---------------------------------------------------------------------------

  datatype Event =
    | Mint(org: Org)
    | AddMac(org: Org, tok: string)
    | AddErr(org: Org)

  /** What the goroutine adds for the tokens it was given: all up to the first that cannot be decoded. */
  function Additions(o: Org, tokens: seq<Option<string>>): (es: seq<Event>)
    ensures forall e :: e in es ==> e.org == o && !e.Mint?
  {
    if tokens == [] then []
    else if tokens[0].None? then [AddErr(o)]
    else [AddMac(o, tokens[0].value)] + Additions(o, tokens[1..])
  }

  /** Everything the goroutine of `o` does, in order. */
  function Script(w: World, o: Org): (es: seq<Event>)
    ensures forall e :: e in es ==> e.org == o
    ensures es != [] && es[0] == Mint(o) && forall i :: 0 < i < |es| ==> !es[i].Mint?
  {
    match w.mint(o)
    case Failed => [Mint(o), AddErr(o)]
    case Minted(tokens) => [Mint(o)] + Additions(o, tokens)
  }

  function Of(log: seq<Event>, o: Org): (es: seq<Event>) {
    Filter(log, (e: Event) => e.org == o)
  }

  /** Each missing organisation's goroutine has done all it does, in its own order, and nothing else has happened. */
  ghost predicate Interleaves(w: World, missing: set<Org>, log: seq<Event>) {
    forall o :: Of(log, o) == if o in missing then Script(w, o) else []
  }

  function Macs(log: seq<Event>): (toks: seq<string>) {
    if log == [] then []
    else Macs(log[..|log| - 1]) + if log[|log| - 1].AddMac? then [log[|log| - 1].tok] else []
  }

  function Errs(log: seq<Event>): (orgs: seq<Org>) {
    if log == [] then []
    else Errs(log[..|log| - 1]) + if log[|log| - 1].AddErr? then [log[|log| - 1].org] else []
  }

  function Remaining(pending: seq<seq<Event>>): (n: nat) {
    if pending == [] then 0 else |pending[0]| + Remaining(pending[1..])
  }

  lemma {:induction false} OneLessRemains(pending: seq<seq<Event>>, i: nat)
    requires i < |pending| && pending[i] != []
    ensures Remaining(pending[i := pending[i][1..]]) < Remaining(pending)
  {
    var less := pending[i := pending[i][1..]];
    if i > 0 {
      assert less[1..] == pending[1..][i - 1 := pending[1..][i - 1][1..]];
      OneLessRemains(pending[1..], i - 1);
    } else {
      assert less[1..] == pending[1..];
    }
  }

  /** Where each goroutine stands: what it has logged, followed by what it has still to do, is its script. */
  ghost predicate OnTrack(w: World, spawned: seq<Org>, pending: seq<seq<Event>>, log: seq<Event>) {
    && |pending| == |spawned|
    && (forall i, j :: 0 <= i < j < |spawned| ==> spawned[i] != spawned[j])
    && (forall i :: 0 <= i < |spawned| ==> Of(log, spawned[i]) + pending[i] == Script(w, spawned[i]))
    && (forall o :: o !in spawned ==> Of(log, o) == [])
  }

  lemma OfOneMore(log: seq<Event>, e: Event, o: Org)
    ensures Of(log + [e], o) == if o == e.org then Of(log, o) + [e] else Of(log, o)
  {
    FilterAppend(log, [e], (e: Event) => e.org == o);
  }

  function MacOf(e: Event): (toks: seq<string>) {
    if e.AddMac? then [e.tok] else []
  }

  function ErrOf(e: Event): (orgs: seq<Org>) {
    if e.AddErr? then [e.org] else []
  }

  lemma LogOneMore(log: seq<Event>, e: Event)
    ensures Macs(log + [e]) == Macs(log) + MacOf(e) && Errs(log + [e]) == Errs(log) + ErrOf(e)
  {
    assert (log + [e])[..|log|] == log;
  }

  lemma StaysOnTrack(w: World, spawned: seq<Org>, pending: seq<seq<Event>>, log: seq<Event>, i: nat)
    requires OnTrack(w, spawned, pending, log) && i < |pending| && pending[i] != []
    ensures OnTrack(w, spawned, pending[i := pending[i][1..]], log + [pending[i][0]])
  {
    var e := pending[i][0];
    var less := pending[i := pending[i][1..]];
    assert e in Of(log, spawned[i]) + pending[i];
    assert e in Script(w, spawned[i]);
    assert pending[i] == [e] + less[i];
    assert Of(log, spawned[i]) + ([e] + less[i]) == Of(log, spawned[i]) + [e] + less[i];
    forall j | 0 <= j < |spawned| ensures Of(log + [e], spawned[j]) + less[j] == Script(w, spawned[j]) {
      OfOneMore(log, e, spawned[j]);
    }
    forall o | o !in spawned ensures Of(log + [e], o) == [] {
      OfOneMore(log, e, o);
    }
  }

  /** The goroutines are started in any order. */
  method Spawn(w: World, missing: map<Org, string>) returns (spawned: seq<Org>, pending: seq<seq<Event>>)
    ensures OnTrack(w, spawned, pending, []) && forall o :: o in missing <==> o in spawned
  {
    spawned, pending := [], [];
    var todo := missing.Keys;
    while todo != {}
      invariant OnTrack(w, spawned, pending, [])
      invariant forall o :: o in missing <==> o in todo || o in spawned
      invariant forall o :: o in spawned ==> o !in todo
    {
      var o :| o in todo;
      todo := todo - {o};
      spawned, pending := spawned + [o], pending + [Script(w, o)];
    }
  }

  /** One action of a goroutine, under the lock. */
  method Act(e: Event, macToks: seq<string>, errs: seq<Org>, ghost kept: seq<string>, ghost log: seq<Event>)
    returns (macToks': seq<string>, errs': seq<Org>)
    requires macToks == kept + Macs(log) && errs == Errs(log)
    ensures macToks' == kept + Macs(log + [e]) && errs' == Errs(log + [e])
  {
    macToks', errs' := macToks, errs;
    match e {
      case Mint(_) =>
      case AddMac(_, t) => macToks' := macToks + [t];
      case AddErr(o) => errs' := errs + [o];
    }
    LogOneMore(log, e);
  }

  /**
   * The goroutines run in any interleaving of their actions on the shared lists. `log` records the actions in the
   * order in which they happen.
   */
  method MintMissing(w: World, missing: map<Org, string>, kept: seq<string>)
    returns (macToks: seq<string>, errs: seq<Org>, log: seq<Event>)
    ensures Interleaves(w, missing.Keys, log)
    ensures macToks == kept + Macs(log) && errs == Errs(log)
  {
    macToks, errs, log := kept, [], [];
    var spawned, pending := Spawn(w, missing);
    while exists i :: 0 <= i < |pending| && pending[i] != []
      invariant OnTrack(w, spawned, pending, log)
      invariant macToks == kept + Macs(log) && errs == Errs(log)
      decreases Remaining(pending)
    {
      var i :| 0 <= i < |pending| && pending[i] != [];
      var e := pending[i][0];
      StaysOnTrack(w, spawned, pending, log, i);
      OneLessRemains(pending, i);
      macToks, errs := Act(e, macToks, errs, kept, log);
      pending, log := pending[i := pending[i][1..]], log + [e];
    }
    AllDone(w, spawned, pending, log, missing.Keys);
  }

  lemma AllDone(w: World, spawned: seq<Org>, pending: seq<seq<Event>>, log: seq<Event>, missing: set<Org>)
    requires OnTrack(w, spawned, pending, log) && forall i :: 0 <= i < |pending| ==> pending[i] == []
    requires forall o :: o in missing <==> o in spawned
    ensures Interleaves(w, missing, log)
  {
    forall o ensures Of(log, o) == if o in missing then Script(w, o) else [] {
      if o in spawned {
        var i :| 0 <= i < |spawned| && spawned[i] == o;
        assert Of(log, o) + pending[i] == Of(log, o);
      }
    }
  }

  // ---------------------------------------------------------------------------
  // The schedule does not matter
  // ---------------------------------------------------------------------------

  lemma {:induction false} CountedByOrg(log: seq<Event>, e: Event)
    ensures multiset(log)[e] == multiset(Of(log, e.org))[e]
  {
    if log != [] {
      var n := |log| - 1;
      CountedByOrg(log[..n], e);
      OfOneMore(log[..n], log[n], e.org);
      assert log == log[..n] + [log[n]];
    }
  }

  lemma {:induction false} MacsOfSame(log: seq<Event>, other: seq<Event>)
    requires multiset(log) == multiset(other)
    ensures multiset(Macs(log)) == multiset(Macs(other)) && multiset(Errs(log)) == multiset(Errs(other))
    decreases |log|
  {
    if log == [] {
      assert |other| == |multiset(other)| == |multiset(log)| == 0;
    } else {
      var n := |log| - 1;
      var e := log[n];
      assert log == log[..n] + [e];
      assert e in multiset(other);
      var i :| 0 <= i < |other| && other[i] == e;
      var rest := other[..i] + other[i + 1..];
      TakeOut(other, i);
      OneFewer(multiset(log[..n]), multiset(rest), e);
      MacsOfSame(log[..n], rest);
      LogOneMore(log[..n], e);
    }
  }

  lemma OneFewer(a: multiset<Event>, b: multiset<Event>, e: Event)
    requires a + multiset{e} == b + multiset{e}
    ensures a == b
  {
    forall x ensures a[x] == b[x] {
      assert (a + multiset{e})[x] == (b + multiset{e})[x];
    }
  }

  lemma TakeOut(log: seq<Event>, i: nat)
    requires i < |log|
    ensures var rest := log[..i] + log[i + 1..];
            && multiset(log) == multiset(rest) + multiset{log[i]}
            && multiset(Macs(log)) == multiset(Macs(rest)) + multiset(MacOf(log[i]))
            && multiset(Errs(log)) == multiset(Errs(rest)) + multiset(ErrOf(log[i]))
  {
    var e := log[i];
    assert log == (log[..i] + [e]) + log[i + 1..];
    MacsAppend(log[..i] + [e], log[i + 1..]);
    MacsAppend(log[..i], log[i + 1..]);
    LogOneMore(log[..i], e);
  }

  lemma {:induction false} MacsAppend(a: seq<Event>, b: seq<Event>)
    ensures Macs(a + b) == Macs(a) + Macs(b) && Errs(a + b) == Errs(a) + Errs(b)
    decreases |b|
  {
    if b == [] {
      assert a + b == a && Macs(a) + [] == Macs(a) && Errs(a) + [] == Errs(a);
    } else {
      var n := |b| - 1;
      var e, init := b[n], b[..n];
      MacsAppend(a, init);
      assert b == init + [e];
      Assoc(a, init, [e]);
      LogOneMore(a + init, e);
      LogOneMore(init, e);
      Assoc(Macs(a), Macs(init), MacOf(e));
      Assoc(Errs(a), Errs(init), ErrOf(e));
    }
  }

  /** Two complete runs add the same tokens and record the same errors, each as often. */
  lemma ScheduleDoesNotMatter(w: World, missing: set<Org>, log: seq<Event>, other: seq<Event>)
    requires Interleaves(w, missing, log) && Interleaves(w, missing, other)
    ensures multiset(Macs(log)) == multiset(Macs(other)) && multiset(Errs(log)) == multiset(Errs(other))
  {
    forall e ensures multiset(log)[e] == multiset(other)[e] {
      CountedByOrg(log, e);
      CountedByOrg(other, e);
    }
    MacsOfSame(log, other);
  }

  function Mints(log: seq<Event>, o: Org): (n: nat) {
    multiset(log)[Mint(o)]
  }

  /** Each missing organisation is asked for exactly once, and no other one. */
  lemma OneMintEach(w: World, missing: set<Org>, log: seq<Event>, o: Org)
    requires Interleaves(w, missing, log)
    ensures Mints(log, o) == if o in missing then 1 else 0
  {
    CountedByOrg(log, Mint(o));
    if o in missing {
      var es := Script(w, o);
      assert es == [Mint(o)] + es[1..];
      assert Mint(o) !in es[1..];
    }
  }

  /**
   * For every member organisation: a token of its own is kept, or exactly one attempt is made and its error or all of
   * its tokens are recorded.
   */
  lemma EveryMemberIsServed(w: World, members: set<Org>, toks: seq<string>, log: seq<Event>, o: Org)
    requires Interleaves(w, Missing(w, members, toks), log) && o in members
    ensures (exists t :: t in Kept(w, members, toks) && w.kind(t) == Scoped(o)) <==> Mints(log, o) == 0
    ensures Mints(log, o) <= 1
    ensures Mints(log, o) == 1 ==>
              || AddErr(o) in log
              || (w.mint(o).Minted? && forall i :: 0 <= i < |w.mint(o).tokens| ==>
                    w.mint(o).tokens[i].Some? && AddMac(o, w.mint(o).tokens[i].value) in log)
  {
    OneMintEach(w, Missing(w, members, toks), log, o);
    MemberKeptOrMissing(w, members, toks, o);
    if o in Missing(w, members, toks) {
      assert forall e :: e in Of(log, o) ==> e in log;
      if w.mint(o).Failed? {
        assert Script(w, o)[1] == AddErr(o);
        assert AddErr(o) in Of(log, o);
      } else {
        AllAddedOrError(o, w.mint(o).tokens);
        assert forall e :: e in Additions(o, w.mint(o).tokens) ==> e in Script(w, o);
      }
    }
  }

  lemma {:induction false} AllAddedOrError(o: Org, tokens: seq<Option<string>>)
    ensures AddErr(o) in Additions(o, tokens) ||
            forall i :: 0 <= i < |tokens| ==> tokens[i].Some? && AddMac(o, tokens[i].value) in Additions(o, tokens)
  {
    if tokens != [] && tokens[0].Some? {
      AllAddedOrError(o, tokens[1..]);
      forall i | 0 <= i < |tokens| && AddErr(o) !in Additions(o, tokens)
        ensures tokens[i].Some? && AddMac(o, tokens[i].value) in Additions(o, tokens)
      {
        if i > 0 {
          assert tokens[i] == tokens[1..][i - 1];
        }
      }
    }
  }

  // ---------------------------------------------------------------------------
  // The whole operation
  // ---------------------------------------------------------------------------

  /**
   * `toks` is a copy of the list that the tokens hold: pruning works in place, so if it were that list itself, the new
   * list would be compared with one already pruned. `members` is None when the organisations cannot be fetched. The
   * tokens are replaced exactly when the new list differs from the old one, which a prune alone brings about too.
   */
  method FetchOrgTokens(w: World, toks: seq<string>, hasUserTokens: bool, members: Option<map<Org, string>>)
    returns (changed: bool, tokens: seq<string>, errs: seq<Org>, log: seq<Event>)
    ensures toks == [] || !hasUserTokens || members.None? ==> !changed && tokens == toks && log == []
    ensures toks != [] && hasUserTokens && members.Some? ==>
              && Interleaves(w, Missing(w, members.value.Keys, toks), log)
              && tokens == Kept(w, members.value.Keys, toks) + Macs(log) && errs == Errs(log)
    ensures changed <==> tokens != toks
  {
    if |toks| == 0 || !hasUserTokens || members.None? {
      return false, toks, [], [];
    }
    var kept, missing := Prune(w, members.value, toks);
    tokens, errs, log := MintMissing(w, missing, kept);
    changed := tokens != toks;
  }
}
