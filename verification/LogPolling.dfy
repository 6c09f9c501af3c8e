/** Paging through an app's logs (logs/polling.go). Durations are in milliseconds. */
module LogPolling {
  import opened Prelude

  const MIN_WAIT := 64
  const MAX_WAIT := 4096
  const MAX_RETRIES := 9

  type Entry = string

  datatype Reply =
    | Page(entries: seq<Entry>, token: string)
    | Transient                                  // an error that may be retried
    | Fatal                                      // cancelled, past its deadline, not authenticated or not found

  datatype Request = Request(paused: nat, token: string)

  datatype Outcome = Returned | Failed | Polling

  function Backoff(current: nat): (wait: nat) {
    if current > MAX_WAIT then MAX_WAIT else 2 * current
  }

  // ---------------------------------------------------------------------------
  // What the replies so far determine
  // ---------------------------------------------------------------------------

  predicate Delivers(r: Reply) {
    r.Page? && r.entries != []
  }

  /** The entries of the pages, in order. */
  function Delivered(replies: seq<Reply>): (entries: seq<Entry>) {
    if replies == [] then []
    else
      var last := replies[|replies| - 1];
      Delivered(replies[..|replies| - 1]) + if last.Page? then last.entries else []
  }

  /** The token of the last page that had entries and a token. */
  function NextToken(replies: seq<Reply>): (token: string) {
    if replies == [] then ""
    else
      var last := replies[|replies| - 1];
      if Delivers(last) && last.token != "" then last.token else NextToken(replies[..|replies| - 1])
  }

  /** How many of the last replies in a row are errors. */
  function Failures(replies: seq<Reply>): (n: nat)
    ensures n <= |replies|
  {
    if replies == [] || replies[|replies| - 1].Page? then 0 else Failures(replies[..|replies| - 1]) + 1
  }

  /** The reply after `before` does not end the polling. */
  predicate Continues(before: seq<Reply>, r: Reply, noTail: bool) {
    match r
    case Page(entries, _) => entries == [] || !noTail
    case Transient => Failures(before) < MAX_RETRIES
    case Fatal => false
  }

  function Wait(replies: seq<Reply>): (wait: nat) {
    if replies == [] then MIN_WAIT
    else
      var last := replies[|replies| - 1];
      if !last.Page? then Backoff(Wait(replies[..|replies| - 1]))
      else if last.entries == [] then Backoff(MIN_WAIT)
      else 0
  }

  function RequestAfter(replies: seq<Reply>): (r: Request) {
    Request(if Wait(replies) > MIN_WAIT then Wait(replies) else 0, NextToken(replies))
  }

  /** The variables of the loop. */
  datatype Cursor = Cursor(errorCount: nat, nextToken: string, waitFor: nat)

  function CursorAfter(replies: seq<Reply>): (c: Cursor) {
    Cursor(Failures(replies), NextToken(replies), Wait(replies))
  }

  /** One reply: the entries to deliver, and whether the polling ends here. */
  method HandleReply(c: Cursor, r: Reply, noTail: bool, ghost before: seq<Reply>)
    returns (end: Option<Outcome>, c': Cursor, entries: seq<Entry>)
    requires c == CursorAfter(before)
    ensures end.None? <==> Continues(before, r, noTail)
    ensures end.Some? ==> end.value == if r.Page? then Returned else Failed
    ensures entries == if r.Page? then r.entries else []
    ensures end.None? ==> c' == CursorAfter(before + [r])
  {
    assert (before + [r])[..|before|] == before;
    end, c', entries := None, c, [];
    match r {
      case Fatal =>
        end := Some(Failed);
      case Transient =>
        c' := c'.(errorCount := c.errorCount + 1);
        if c'.errorCount > MAX_RETRIES {
          end := Some(Failed);
        } else {
          c' := c'.(waitFor := Backoff(c.waitFor));
        }
      case Page(es, token) =>
        c' := c'.(errorCount := 0);
        if |es| == 0 {
          c' := c'.(waitFor := Backoff(MIN_WAIT));
        } else {
          c' := c'.(waitFor := 0);
          if token != "" {
            c' := c'.(nextToken := token);
          }
          entries := es;
          if noTail {
            end := Some(Returned);
          }
        }
    }
  }

  /** `replies` are the client's answers, as many as are asked for before the observation ends. */
  method Poll(replies: seq<Reply>, noTail: bool)
    returns (outcome: Outcome, delivered: seq<Entry>, requests: seq<Request>)
    ensures |requests| <= |replies| && delivered == Delivered(replies[..|requests|])
    ensures requests == Requests(replies, |requests|)
    ensures |requests| > 0 ==> Ongoing(replies, |requests| - 1, noTail)
    ensures outcome.Polling? ==> |requests| == |replies| && Ongoing(replies, |replies|, noTail)
    ensures !outcome.Polling? ==>
              && |requests| > 0
              && var n := |requests| - 1;
                 !Continues(replies[..n], replies[n], noTail) && (outcome.Returned? <==> replies[n].Page?)
  {
    delivered, requests := [], [];
    var c := Cursor(0, "", MIN_WAIT);
    for i := 0 to |replies|
      invariant |requests| == i && Polled(replies[..i], c, delivered)
      invariant requests == Requests(replies, i)
      invariant Ongoing(replies, i, noTail)
    {
      var paused := 0;
      if c.waitFor > MIN_WAIT {
        paused := c.waitFor;
      }
      requests := requests + [Request(paused, c.nextToken)];
      var end, entries;
      end, c, entries := HandleReply(c, replies[i], noTail, replies[..i]);
      delivered := delivered + entries;
      assert replies[..i + 1] == replies[..i] + [replies[i]];
      DeliveredOneMore(replies[..i], replies[i]);
      if end.Some? {
        return end.value, delivered, requests;
      }
    }
    outcome := Polling;
  }

  /** The variables of the loop after the replies in `before`. */
  ghost predicate Polled(before: seq<Reply>, c: Cursor, delivered: seq<Entry>) {
    c == CursorAfter(before) && delivered == Delivered(before)
  }

  lemma DeliveredOneMore(before: seq<Reply>, r: Reply)
    ensures Delivered(before + [r]) == Delivered(before) + if r.Page? then r.entries else []
  {
    assert (before + [r])[..|before|] == before;
  }

  /** The first `n` replies let the polling go on. */
  predicate Ongoing(replies: seq<Reply>, n: nat, noTail: bool)
    requires n <= |replies|
  {
    n == 0 || (Ongoing(replies, n - 1, noTail) && Continues(replies[..n - 1], replies[n - 1], noTail))
  }

  /** The first `n` requests: each one carries what the replies before it determine. */
  function Requests(replies: seq<Reply>, n: nat): (rs: seq<Request>)
    requires n <= |replies|
    ensures |rs| == n
  {
    if n == 0 then [] else Requests(replies, n - 1) + [RequestAfter(replies[..n - 1])]
  }

  // ---------------------------------------------------------------------------
  // Consequences
  // ---------------------------------------------------------------------------

  /** No more than nine errors in a row are ever followed by another request, and no wait exceeds twice the maximum. */
  lemma {:induction false} PollingIsBounded(replies: seq<Reply>, n: nat, noTail: bool)
    requires n <= |replies| && Ongoing(replies, n, noTail)
    ensures Failures(replies[..n]) <= MAX_RETRIES && Wait(replies[..n]) <= 2 * MAX_WAIT
  {
    if n > 0 {
      PollingIsBounded(replies, n - 1, noTail);
      assert replies[..n][..n - 1] == replies[..n - 1];
    }
  }

  /** The wait before the errors at the end of `replies`. */
  function Base(replies: seq<Reply>): (wait: nat) {
    Wait(replies[..|replies| - Failures(replies)])
  }

  function Doubled(base: nat, times: nat): (wait: nat) {
    if times == 0 then base else Backoff(Doubled(base, times - 1))
  }

  lemma {:induction false} WaitFromBase(replies: seq<Reply>)
    ensures Wait(replies) == Doubled(Base(replies), Failures(replies))
  {
    var f := Failures(replies);
    if f == 0 {
      assert replies[..|replies|] == replies;
    } else {
      var before := replies[..|replies| - 1];
      assert before[..|before| - (f - 1)] == replies[..|replies| - f];
      WaitFromBase(before);
    }
  }

  lemma {:induction false} DoubledGrows(base: nat, times: nat)
    ensures base == 0 ==> Doubled(base, times) == 0
    ensures base == MIN_WAIT && times > 0 ==> Doubled(base, times) > MIN_WAIT
    ensures base == 2 * MIN_WAIT ==> Doubled(base, times) > MIN_WAIT
  {
    if times > 0 {
      DoubledGrows(base, times - 1);
    }
  }

  /** The page before the errors at the end, if there is one. */
  function LastPage(replies: seq<Reply>): (p: Option<Reply>)
    ensures p.Some? ==> p.value.Page?
  {
    if replies == [] then None
    else if replies[|replies| - 1].Page? then Some(replies[|replies| - 1])
    else LastPage(replies[..|replies| - 1])
  }

  lemma {:induction false} BaseFromPage(replies: seq<Reply>)
    ensures Base(replies) == match LastPage(replies)
                             case None => MIN_WAIT
                             case Some(p) => if p.entries == [] then 2 * MIN_WAIT else 0
  {
    var f := Failures(replies);
    if f == 0 {
      assert replies[..|replies|] == replies;
    } else {
      var before := replies[..|replies| - 1];
      assert before[..|before| - (f - 1)] == replies[..|replies| - f];
      BaseFromPage(before);
    }
  }

  lemma {:induction false} NoPageAllFailures(replies: seq<Reply>)
    requires LastPage(replies).None?
    ensures Failures(replies) == |replies|
  {
    if replies != [] {
      NoPageAllFailures(replies[..|replies| - 1]);
    }
  }

  /**
   * A request is preceded by a pause exactly when there has been a reply and the last page, if any, was empty. So after
   * a page with entries the next request comes at once, and if it fails all nine retries come at once as well.
   */
  lemma PausesIff(replies: seq<Reply>)
    ensures RequestAfter(replies).paused > 0 <==>
            replies != [] && (LastPage(replies).Some? ==> LastPage(replies).value.entries == [])
  {
    WaitFromBase(replies);
    BaseFromPage(replies);
    DoubledGrows(Base(replies), Failures(replies));
    if LastPage(replies).None? {
      NoPageAllFailures(replies);
    }
  }

  /** Every entry of every page is delivered once, page by page. */
  lemma {:induction false} PagesAreDelivered(replies: seq<Reply>, i: nat)
    requires i < |replies| && replies[i].Page?
    ensures Delivered(replies[..i]) + replies[i].entries <= Delivered(replies)
  {
    var n := |replies| - 1;
    if i < n {
      assert replies[..n][..i] == replies[..i];
      PagesAreDelivered(replies[..n], i);
    }
  }

  /** Nothing else is delivered. */
  lemma {:induction false} OnlyPagesAreDelivered(replies: seq<Reply>)
    ensures |Delivered(replies)| == Entries(replies)
  {
    if replies != [] {
      var n := |replies| - 1;
      OnlyPagesAreDelivered(replies[..n]);
      EntriesOneMore(replies[..n], replies[n]);
      assert replies == replies[..n] + [replies[n]];
    }
  }

  /** How many entries there are on all the pages. */
  function Entries(replies: seq<Reply>): (n: nat) {
    if replies == [] then 0 else (if replies[0].Page? then |replies[0].entries| else 0) + Entries(replies[1..])
  }

  lemma {:induction false} EntriesOneMore(replies: seq<Reply>, r: Reply)
    ensures Entries(replies + [r]) == Entries(replies) + if r.Page? then |r.entries| else 0
  {
    if replies == [] {
      assert replies + [r] == [r];
    } else {
      assert (replies + [r])[1..] == replies[1..] + [r];
      EntriesOneMore(replies[1..], r);
    }
  }

  // ---------------------------------------------------------------------------
  // What a request carries
  // ---------------------------------------------------------------------------

  ghost predicate GivesToken(r: Reply) {
    r.Page? && |r.entries| > 0 && r.token != ""
  }

  ghost predicate LastToken(replies: seq<Reply>, i: int) {
    0 <= i < |replies| && GivesToken(replies[i]) && forall j :: i < j < |replies| ==> !GivesToken(replies[j])
  }

  lemma {:induction false} NextTokenIsLast(replies: seq<Reply>)
    ensures (forall i :: 0 <= i < |replies| ==> !GivesToken(replies[i])) ==> NextToken(replies) == ""
    ensures forall i :: LastToken(replies, i) ==> NextToken(replies) == replies[i].token
  {
    if replies != [] {
      var n := |replies| - 1;
      var before := replies[..n];
      NextTokenIsLast(before);
      assert forall i :: 0 <= i < n ==> before[i] == replies[i];
      forall i | LastToken(replies, i) ensures NextToken(replies) == replies[i].token {
        if i < n {
          assert !GivesToken(replies[n]) && LastToken(before, i);
        }
      }
    }
  }

  /** The last `n` replies are errors, and a page comes before them, or nothing. */
  ghost predicate EndsInFailures(replies: seq<Reply>, n: nat) {
    && n <= |replies| && (forall i :: |replies| - n <= i < |replies| ==> !replies[i].Page?)
    && (n < |replies| ==> replies[|replies| - n - 1].Page?)
  }

  lemma {:induction false} FailuresEnd(replies: seq<Reply>, n: nat)
    requires EndsInFailures(replies, n)
    ensures Failures(replies) == n
    ensures n == |replies| ==> LastPage(replies).None?
    ensures n < |replies| ==> LastPage(replies) == Some(replies[|replies| - n - 1])
  {
    if n > 0 {
      var before := replies[..|replies| - 1];
      assert forall i :: 0 <= i < |before| ==> before[i] == replies[i];
      FailuresEnd(before, n - 1);
    }
  }

  function Power(n: nat): (p: nat)
    ensures p >= 1
  {
    if n == 0 then 1 else 2 * Power(n - 1)
  }

  /** The wait doubles up to eight seconds; from there on it goes back to four and up to eight again. */
  function Climb(n: nat): (wait: nat) {
    if n <= 7 then 64 * Power(n) else if n % 2 == 0 then 4096 else 8192
  }

  lemma {:induction false} DoublingClimbs(n: nat)
    ensures Doubled(MIN_WAIT, n) == Climb(n)
    ensures Doubled(2 * MIN_WAIT, n) == Climb(n + 1)
    ensures Doubled(0, n) == 0
  {
    if n > 0 {
      DoublingClimbs(n - 1);
    }
    assert Power(7) == 2 * Power(6) == 4 * Power(5) == 8 * Power(4) == 16 * Power(3) == 32 * Power(2);
  }

  lemma ClimbIsAbove(n: nat)
    ensures n > 0 ==> Climb(n) > MIN_WAIT
  {
    assert n > 0 ==> Power(n) == 2 * Power(n - 1);
  }

  /**
   * What a request carries: the token of the last page with entries and a token; and a pause that grows with the number
   * of errors since the last page, one step further when that page was empty, and none at all when it had entries.
   */
  lemma RequestCarries(replies: seq<Reply>, n: nat)
    requires EndsInFailures(replies, n)
    ensures var r := RequestAfter(replies);
            && r.paused == (if n == |replies| then (if n == 0 then 0 else Climb(n))
                            else if replies[|replies| - n - 1].entries == [] then Climb(n + 1)
                            else 0)
            && ((forall i :: 0 <= i < |replies| ==> !GivesToken(replies[i])) ==> r.token == "")
            && forall i :: LastToken(replies, i) ==> r.token == replies[i].token
  {
    FailuresEnd(replies, n);
    WaitFromBase(replies);
    BaseFromPage(replies);
    DoublingClimbs(n);
    ClimbIsAbove(n);
    ClimbIsAbove(n + 1);
    NextTokenIsLast(replies);
  }

  // ---------------------------------------------------------------------------
  // When the polling ends
  // ---------------------------------------------------------------------------

  /** Ten errors in a row, of which the last is reply `i`. */
  ghost predicate TenthError(replies: seq<Reply>, i: int) {
    9 <= i < |replies| && forall j :: i - 9 <= j <= i ==> !replies[j].Page?
  }

  /** The reply ends the polling. */
  ghost predicate Ends(replies: seq<Reply>, i: int, noTail: bool) {
    && 0 <= i < |replies|
    && (replies[i].Fatal? || TenthError(replies, i) || (noTail && replies[i].Page? && |replies[i].entries| > 0))
  }

  lemma {:induction false} FailuresAtLeast(replies: seq<Reply>, n: nat)
    ensures Failures(replies) >= n <==>
            n <= |replies| && forall j :: |replies| - n <= j < |replies| ==> !replies[j].Page?
  {
    if n > 0 && replies != [] {
      var before := replies[..|replies| - 1];
      FailuresAtLeast(before, n - 1);
      assert forall j :: 0 <= j < |before| ==> before[j] == replies[j];
    }
  }

  lemma ContinuesIff(replies: seq<Reply>, i: nat, noTail: bool)
    requires i < |replies|
    ensures Continues(replies[..i], replies[i], noTail) <==> !Ends(replies, i, noTail)
  {
    FailuresAtLeast(replies[..i], 9);
    if TenthError(replies, i) {
      assert forall j :: i - 9 <= j < i ==> !replies[..i][j].Page?;
    }
  }

  /**
   * The polling goes on exactly as long as there is no error that is not retried, no tenth error in a row and, unless
   * the log is followed, no page with entries.
   */
  lemma {:induction false} OngoingIff(replies: seq<Reply>, n: nat, noTail: bool)
    requires n <= |replies|
    ensures Ongoing(replies, n, noTail) <==> forall i :: 0 <= i < n ==> !Ends(replies, i, noTail)
  {
    if n > 0 {
      OngoingIff(replies, n - 1, noTail);
      ContinuesIff(replies, n - 1, noTail);
    }
  }
}
