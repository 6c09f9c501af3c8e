/** Adding Litestream to a Dockerfile, line by line (install_litestream, scanner/phoenix.go). */
module Litestream {
  import opened Prelude
  import opened Weaving

  /**
   * How lines are recognised and changed, and what is inserted; the module Dockerfiles gives the rules of Dockerfiles.
   */
  datatype Rules = Rules(
    isCommand: string -> bool,
    isEntrypoint: string -> bool,
    isUser: string -> bool,
    isWorkdir: string -> bool,
    builds: string -> bool,
    cleans: string -> bool,
    editable: string -> bool,
    script: string -> string,                   // from the working directory
    directory: string -> string,                // of a WORKDIR line
    commandEdit: (string, string) -> string,    // of a line, to start the script
    wgetEdit: string -> string,
    entryBlock: string -> seq<string>,          // to start the script
    copyBlock: seq<string>,
    installBlock: seq<string>)

  // ---------------------------------------------------------------------------
  // What the rewriting amounts to
  // ---------------------------------------------------------------------------

  /** The line at which each change is made, if there is one. */
  datatype Trace = Trace(
    entry: Option<nat>,      // the CMD line that starts the script
    edits: bool,             // by being edited; otherwise by a block before it
    script: string,
    wget: Option<nat>,
    copy: Option<nat>,
    install: Option<nat>)

  function Commanded(r: Rules, input: seq<string>, t: Trace, i: nat): (line: string)
    requires i < |input|
  {
    if t.entry == Some(i) && t.edits then r.commandEdit(input[i], t.script) else input[i]
  }

  /** Line `i` as it is written. */
  function Edited(r: Rules, input: seq<string>, t: Trace, i: nat): (line: string)
    requires i < |input|
  {
    if t.wget == Some(i) then r.wgetEdit(Commanded(r, input, t, i)) else Commanded(r, input, t, i)
  }

  function Before(r: Rules, t: Trace, i: nat): (block: seq<string>) {
    if t.entry == Some(i) && !t.edits then r.entryBlock(t.script) else []
  }

  function Wrapped(r: Rules, line: string, block: seq<string>, copies: bool, installs: bool): (piece: seq<string>) {
    block + (if copies then r.copyBlock else []) + [line] + (if installs then r.installBlock else [])
  }

  /** What is written for line `i`: the line, with the blocks that go before and after it. */
  function Piece(r: Rules, input: seq<string>, t: Trace, i: nat): (piece: seq<string>)
    requires i < |input|
  {
    Wrapped(r, Edited(r, input, t, i), Before(r, t, i), t.copy == Some(i), t.install == Some(i))
  }

  function Pieces(r: Rules, input: seq<string>, t: Trace, n: nat): (ps: seq<seq<string>>)
    requires n <= |input|
  {
    seq(n, i requires 0 <= i < n => Piece(r, input, t, i))
  }

  /** The original lines in order, at most two of them edited, and each block at most once. */
  function Woven(r: Rules, input: seq<string>, t: Trace, n: nat): (lines: seq<string>)
    requires n <= |input|
  {
    Concat(Pieces(r, input, t, n))
  }

  predicate HasEntrypoint(r: Rules, input: seq<string>, t: Trace, n: nat)
    requires n <= |input|
  {
    exists j :: 0 <= j < n && r.isEntrypoint(Edited(r, input, t, j))
  }

  /** The directory of the last WORKDIR line before line `n`. */
  function Workdir(r: Rules, input: seq<string>, t: Trace, n: nat): (d: string)
    requires n <= |input|
  {
    if n == 0 then ""
    else if r.isWorkdir(Edited(r, input, t, n - 1)) then r.directory(Edited(r, input, t, n - 1))
    else Workdir(r, input, t, n - 1)
  }

  /** The CMD line can start the script: it can be edited, or no ENTRYPOINT has come before it. */
  predicate Starts(r: Rules, input: seq<string>, t: Trace, i: nat) {
    i < |input| && r.isCommand(input[i]) && (HasEntrypoint(r, input, t, i) ==> r.editable(input[i]))
  }

  predicate Builds(r: Rules, input: seq<string>, t: Trace, i: nat) {
    i < |input| && r.builds(Commanded(r, input, t, i))
  }

  predicate SetsUser(r: Rules, input: seq<string>, t: Trace, i: nat) {
    i < |input| && r.isUser(Edited(r, input, t, i))
  }

  predicate Cleans(r: Rules, input: seq<string>, t: Trace, i: nat) {
    i < |input| && r.cleans(Edited(r, input, t, i))
  }

  ghost predicate IsFirst(at: Option<nat>, n: nat, p: nat -> bool) {
    if at.None? then forall i :: 0 <= i < n ==> !p(i)
    else at.value < n && p(at.value) && forall i :: 0 <= i < at.value ==> !p(i)
  }

  /** Every change is made at the first of the first `n` lines that calls for it. */
  ghost predicate Explains(r: Rules, input: seq<string>, t: Trace, n: nat)
    requires n <= |input|
  {
    && IsFirst(t.entry, n, (i: nat) => Starts(r, input, t, i))
    && IsFirst(t.wget, n, (i: nat) => Builds(r, input, t, i))
    && IsFirst(t.copy, n, (i: nat) => SetsUser(r, input, t, i))
    && IsFirst(t.install, n, (i: nat) => Cleans(r, input, t, i))
    && (t.entry.Some? ==>
          && (t.edits <==> HasEntrypoint(r, input, t, t.entry.value))
          && t.script == r.script(Workdir(r, input, t, t.entry.value)))
  }

  // ---------------------------------------------------------------------------
  // One more line
  // ---------------------------------------------------------------------------

  function Since(at: Option<nat>, here: bool, i: nat): (since: Option<nat>) {
    if at.None? && here then Some(i) else at
  }

  function WithEntry(r: Rules, input: seq<string>, t: Trace, i: nat): (u: Trace)
    requires i < |input|
  {
    if t.entry.None? && Starts(r, input, t, i)
    then t.(entry := Some(i), edits := HasEntrypoint(r, input, t, i), script := r.script(Workdir(r, input, t, i)))
    else t
  }

  function WithWget(r: Rules, input: seq<string>, t: Trace, i: nat): (u: Trace)
    requires i < |input|
  {
    t.(wget := Since(t.wget, Builds(r, input, t, i), i))
  }

  function Next(r: Rules, input: seq<string>, t: Trace, i: nat): (u: Trace)
    requires i < |input|
  {
    var u := WithWget(r, input, WithEntry(r, input, t, i), i);
    u.(copy := Since(u.copy, SetsUser(r, input, u, i), i), install := Since(u.install, Cleans(r, input, u, i), i))
  }

  /** A later trace changes nothing in the first `n` lines. */
  ghost predicate Extends(t: Trace, u: Trace, n: nat) {
    && ((t.entry == u.entry && t.edits == u.edits && t.script == u.script) || (t.entry.None? && u.entry == Some(n)))
    && (t.wget == u.wget || (t.wget.None? && u.wget == Some(n)))
    && (t.copy == u.copy || (t.copy.None? && u.copy == Some(n)))
    && (t.install == u.install || (t.install.None? && u.install == Some(n)))
  }

  lemma EarlierLinesStay(r: Rules, input: seq<string>, t: Trace, u: Trace, n: nat)
    requires n <= |input| && Extends(t, u, n)
    ensures forall j :: 0 <= j < n ==>
                          Commanded(r, input, t, j) == Commanded(r, input, u, j)
                          && Edited(r, input, t, j) == Edited(r, input, u, j)
    ensures Pieces(r, input, t, n) == Pieces(r, input, u, n)
  {
    forall j | 0 <= j < n ensures Piece(r, input, t, j) == Piece(r, input, u, j) {
      assert Before(r, t, j) == Before(r, u, j);
    }
  }

  lemma {:induction false} EarlierStateStays(r: Rules, input: seq<string>, t: Trace, u: Trace, n: nat, m: nat)
    requires m <= n <= |input| && Extends(t, u, n)
    ensures HasEntrypoint(r, input, t, m) == HasEntrypoint(r, input, u, m)
    ensures Workdir(r, input, t, m) == Workdir(r, input, u, m)
  {
    EarlierLinesStay(r, input, t, u, n);
    if m > 0 {
      EarlierStateStays(r, input, t, u, n, m - 1);
    }
  }

  lemma NextExtends(r: Rules, input: seq<string>, t: Trace, i: nat)
    requires i < |input|
    ensures Extends(t, Next(r, input, t, i), i)
  {
  }

  lemma FirstOneMore(at: Option<nat>, i: nat, p: nat -> bool, q: nat -> bool)
    requires IsFirst(at, i, p) && forall j :: 0 <= j < i ==> p(j) == q(j)
    ensures IsFirst(Since(at, q(i), i), i + 1, q)
  {
  }

  lemma NextExplains(r: Rules, input: seq<string>, t: Trace, i: nat)
    requires i < |input| && Explains(r, input, t, i)
    ensures Explains(r, input, Next(r, input, t, i), i + 1)
  {
    var u := Next(r, input, t, i);
    NextExtends(r, input, t, i);
    forall j | 0 <= j <= i
      ensures Starts(r, input, t, j) == Starts(r, input, u, j) && Workdir(r, input, t, j) == Workdir(r, input, u, j)
      ensures HasEntrypoint(r, input, t, j) == HasEntrypoint(r, input, u, j)
      ensures j < i ==> Builds(r, input, t, j) == Builds(r, input, u, j)
      ensures j < i ==>
                SetsUser(r, input, t, j) == SetsUser(r, input, u, j)
                && Cleans(r, input, t, j) == Cleans(r, input, u, j)
    {
      EarlierStateStays(r, input, t, u, i, j);
      EarlierLinesStay(r, input, t, u, i);
    }
    FirstOneMore(t.entry, i, (j: nat) => Starts(r, input, t, j), (j: nat) => Starts(r, input, u, j));
    FirstOneMore(t.wget, i, (j: nat) => Builds(r, input, t, j), (j: nat) => Builds(r, input, u, j));
    FirstOneMore(t.copy, i, (j: nat) => SetsUser(r, input, t, j), (j: nat) => SetsUser(r, input, u, j));
    FirstOneMore(t.install, i, (j: nat) => Cleans(r, input, t, j), (j: nat) => Cleans(r, input, u, j));
  }

  /** The changes made in the first `n` lines. */
  function Traced(r: Rules, input: seq<string>, n: nat): (t: Trace)
    requires n <= |input|
  {
    if n == 0 then Trace(None, false, "", None, None, None) else Next(r, input, Traced(r, input, n - 1), n - 1)
  }

  lemma {:induction false} TraceExplains(r: Rules, input: seq<string>, n: nat)
    requires n <= |input|
    ensures Explains(r, input, Traced(r, input, n), n)
  {
    if n > 0 {
      TraceExplains(r, input, n - 1);
      NextExplains(r, input, Traced(r, input, n - 1), n - 1);
    }
  }

  // ---------------------------------------------------------------------------
  // The algorithm
  // ---------------------------------------------------------------------------

  method StartScript(r: Rules, line: string, workdir: string, foundEntrypoint: bool)
    returns (line': string, block: seq<string>, inserted: bool)
    ensures inserted <==> !foundEntrypoint || r.editable(line)
    ensures line' == if foundEntrypoint && inserted then r.commandEdit(line, r.script(workdir)) else line
    ensures block == if foundEntrypoint then [] else r.entryBlock(r.script(workdir))
  {
    var script := r.script(workdir);
    line', block, inserted := line, [], false;
    if foundEntrypoint {
      if r.editable(line) {
        line' := r.commandEdit(line, script);
        inserted := true;
      }
    } else {
      block := r.entryBlock(script);
      inserted := true;
    }
  }

  /** The variables of the loop besides the lines. */
  datatype Progress = Progress(
    workdir: string, installed: bool, foundEntrypoint: bool, insertedEntrypoint: bool, wget: bool, copied: bool)

  ghost predicate Tracks(r: Rules, input: seq<string>, t: Trace, i: nat, p: Progress)
    requires i <= |input|
  {
    && p.workdir == Workdir(r, input, t, i) && p.foundEntrypoint == HasEntrypoint(r, input, t, i)
    && p.insertedEntrypoint == t.entry.Some? && p.installed == t.install.Some?
    && p.copied == t.copy.Some? && p.wget == t.wget.Some?
  }

  /** Line `i` has not been looked at. */
  predicate NotYet(t: Trace, i: nat) {
    t.entry != Some(i) && t.wget != Some(i) && t.copy != Some(i) && t.install != Some(i)
  }

  /** The changes to the line itself, and what goes before it to start the script. */
  method EditLine(r: Rules, input: seq<string>, i: nat, p: Progress, ghost t: Trace)
    returns (line: string, block: seq<string>, p': Progress)
    requires i < |input| && Tracks(r, input, t, i, p) && NotYet(t, i)
    ensures var u := WithWget(r, input, WithEntry(r, input, t, i), i);
            && p' == p.(insertedEntrypoint := u.entry.Some?, wget := u.wget.Some?)
            && line == Edited(r, input, u, i) && block == Before(r, u, i)
  {
    ghost var e := WithEntry(r, input, t, i);
    p' := p;
    line, block := input[i], [];
    if r.isCommand(line) && !p.insertedEntrypoint {
      var inserted;
      line, block, inserted := StartScript(r, line, p.workdir, p.foundEntrypoint);
      p' := p'.(insertedEntrypoint := inserted);
    }
    assert line == Commanded(r, input, e, i) && block == Before(r, e, i) && p'.insertedEntrypoint == e.entry.Some?;
    if r.builds(line) && !p.wget {
      line := r.wgetEdit(line);
      p' := p'.(wget := true);
    }
  }

  /** The blocks around the line. */
  method Surround(r: Rules, line: string, block: seq<string>, copied: bool, installed: bool)
    returns (piece: seq<string>, copied': bool, installed': bool)
    ensures copied' <==> copied || r.isUser(line)
    ensures installed' <==> installed || r.cleans(line)
    ensures piece == Wrapped(r, line, block, copied' && !copied, installed' && !installed)
  {
    piece, copied', installed' := block, copied, installed;
    if r.isUser(line) && !copied {
      piece := piece + r.copyBlock;
      copied' := true;
    }
    piece := piece + [line];
    if r.cleans(line) && !installed {
      piece := piece + r.installBlock;
      installed' := true;
    }
  }

  method RewriteLine(r: Rules, input: seq<string>, i: nat, p: Progress, ghost t: Trace)
    returns (piece: seq<string>, p': Progress)
    requires i < |input| && Tracks(r, input, t, i, p) && NotYet(t, i)
    ensures Tracks(r, input, Next(r, input, t, i), i + 1, p')
    ensures Woven(r, input, Next(r, input, t, i), i + 1) == Woven(r, input, t, i) + piece
  {
    ghost var u := Next(r, input, t, i);
    var line, block;
    line, block, p' := EditLine(r, input, i, p, t);
    assert line == Edited(r, input, u, i) && block == Before(r, u, i);
    var copied, installed;
    piece, copied, installed := Surround(r, line, block, p.copied, p.installed);
    assert copied == u.copy.Some? && installed == u.install.Some?;
    WovenNext(r, input, t, i, piece);
    p' := Note(r, line, p'.(copied := copied, installed := installed));
    TracksNext(r, input, t, i, p, p');
  }

  method Note(r: Rules, line: string, p: Progress) returns (q: Progress)
    ensures q.foundEntrypoint == (p.foundEntrypoint || r.isEntrypoint(line))
    ensures q.workdir == if r.isWorkdir(line) then r.directory(line) else p.workdir
    ensures q == p.(foundEntrypoint := q.foundEntrypoint, workdir := q.workdir)
  {
    q := p;
    if r.isEntrypoint(line) {
      q := q.(foundEntrypoint := true);
    }
    if r.isWorkdir(line) {
      q := q.(workdir := r.directory(line));
    }
  }

  lemma WovenNext(r: Rules, input: seq<string>, t: Trace, i: nat, piece: seq<string>)
    requires i < |input| && NotYet(t, i)
    requires var u := Next(r, input, t, i);
             piece == Wrapped(r, Edited(r, input, u, i), Before(r, u, i), u.copy.Some? && t.copy.None?,
                              u.install.Some? && t.install.None?)
    ensures Woven(r, input, Next(r, input, t, i), i + 1) == Woven(r, input, t, i) + piece
  {
    var u := Next(r, input, t, i);
    NextExtends(r, input, t, i);
    EarlierLinesStay(r, input, t, u, i);
    assert Piece(r, input, u, i) == piece;
    assert Pieces(r, input, u, i + 1)[..i] == Pieces(r, input, u, i);
  }

  lemma TracksNext(r: Rules, input: seq<string>, t: Trace, i: nat, p: Progress, q: Progress)
    requires i < |input| && Tracks(r, input, t, i, p)
    requires var u := Next(r, input, t, i);
             && q.foundEntrypoint == (p.foundEntrypoint || r.isEntrypoint(Edited(r, input, u, i)))
             && q.workdir ==
                  (if r.isWorkdir(Edited(r, input, u, i)) then r.directory(Edited(r, input, u, i)) else p.workdir)
             && q.insertedEntrypoint == u.entry.Some? && q.installed == u.install.Some?
             && q.copied == u.copy.Some? && q.wget == u.wget.Some?
    ensures Tracks(r, input, Next(r, input, t, i), i + 1, q)
  {
    NextExtends(r, input, t, i);
    EarlierStateStays(r, input, t, Next(r, input, t, i), i, i);
  }

  /**
   * It writes nothing unless all of the install, entrypoint and copy steps have found their line; what it writes is the
   * weave of the original lines and the blocks.
   */
  method InstallLitestream(r: Rules, input: seq<string>) returns (output: Option<seq<string>>)
    ensures var t := Traced(r, input, |input|);
            output ==
            if t.install.Some? && t.entry.Some? && t.copy.Some? then Some(Woven(r, input, t, |input|)) else None
  {
    var lines: seq<string> := [];
    var p := Progress("", false, false, false, false, false);
    ghost var t := Traced(r, input, 0);
    for i := 0 to |input|
      invariant t == Traced(r, input, i) && Tracks(r, input, t, i, p)
      invariant lines == Woven(r, input, t, i)
    {
      TraceExplains(r, input, i);
      var piece;
      piece, p := RewriteLine(r, input, i, p, t);
      lines := lines + piece;
      t := Next(r, input, t, i);
    }
    if !p.installed || !p.insertedEntrypoint || !p.copied {
      return None;
    }
    output := Some(lines);
  }

  // ---------------------------------------------------------------------------
  // No harm
  // ---------------------------------------------------------------------------

  function Ahead(r: Rules, t: Trace, i: nat): (block: seq<string>) {
    Before(r, t, i) + if t.copy == Some(i) then r.copyBlock else []
  }

  function Behind(r: Rules, t: Trace, i: nat): (block: seq<string>) {
    if t.install == Some(i) then r.installBlock else []
  }

  lemma PieceIsWrapped(r: Rules, input: seq<string>, t: Trace, i: nat)
    requires i < |input|
    ensures Piece(r, input, t, i) == Ahead(r, t, i) + [Edited(r, input, t, i)] + Behind(r, t, i)
  {
  }

  lemma LineInPiece(r: Rules, input: seq<string>, t: Trace, i: nat)
    requires i < |input|
    ensures var piece := Piece(r, input, t, i);
            |Ahead(r, t, i)| < |piece| && piece[|Ahead(r, t, i)|] == Edited(r, input, t, i)
  {
    PieceIsWrapped(r, input, t, i);
  }

  /** The blocks before and after each of the first `n` lines. */
  function AllAhead(r: Rules, t: Trace, n: nat): (blocks: seq<seq<string>>)
    ensures |blocks| == n
  {
    seq(n, i requires 0 <= i < n => Ahead(r, t, i))
  }

  function AllBehind(r: Rules, t: Trace, n: nat): (blocks: seq<seq<string>>)
    ensures |blocks| == n
  {
    seq(n, i requires 0 <= i < n => Behind(r, t, i))
  }

  function EditedLines(r: Rules, input: seq<string>, t: Trace, n: nat): (lines: seq<string>)
    requires n <= |input|
  {
    seq(n, i requires 0 <= i < n => Edited(r, input, t, i))
  }

  /** Where each line of the input is written. */
  function Offsets(r: Rules, input: seq<string>, t: Trace): (at: seq<nat>) {
    Places(Pieces(r, input, t, |input|), seq(|input|, i requires 0 <= i < |input| => |Ahead(r, t, i)|))
  }

  /** A line is written as it was, but for the one that is made to start the script and the one that installs wget. */
  predicate WrittenAs(r: Rules, t: Trace, i: nat, line: string, written: string) {
    if Some(i) == t.entry && t.edits then
      written == if Some(i) == t.wget then r.wgetEdit(r.commandEdit(line, t.script)) else r.commandEdit(line, t.script)
    else written == if Some(i) == t.wget then r.wgetEdit(line) else line
  }

  /**
   * Every line of the input is written, in order, and unchanged except for at most one line that starts the script and
   * at most one that installs wget.
   */
  lemma NoLineIsLost(r: Rules, input: seq<string>, t: Trace)
    ensures InOrder(Woven(r, input, t, |input|), Offsets(r, input, t), EditedLines(r, input, t, |input|))
    ensures forall i :: 0 <= i < |input| ==> WrittenAs(r, t, i, input[i], EditedLines(r, input, t, |input|)[i])
  {
    var ps, lines := Pieces(r, input, t, |input|), EditedLines(r, input, t, |input|);
    var ks: seq<nat> := seq(|input|, i requires 0 <= i < |input| => |Ahead(r, t, i)|);
    forall i | 0 <= i < |input| ensures ks[i] < |ps[i]| && ps[i][ks[i]] == lines[i] {
      LineInPiece(r, input, t, i);
    }
    FoundInOrder(ps, ks, lines);
  }

  /** With the blocks taken out again, what was written is the original, its at most two edited lines excepted. */
  lemma OnlyBlocksAreAdded(r: Rules, input: seq<string>, t: Trace, n: nat)
    requires n <= |input|
    ensures Erased(Woven(r, input, t, n), AllAhead(r, t, n), AllBehind(r, t, n)) == Some(EditedLines(r, input, t, n))
  {
    var ps, lines, ahead, behind := Pieces(r, input, t, n), EditedLines(r, input, t, n), AllAhead(r, t, n),
        AllBehind(r, t, n);
    forall i | 0 <= i < n ensures ps[i] == ahead[i] + [lines[i]] + behind[i] {
      PieceIsWrapped(r, input, t, i);
    }
    EraseAll(ps, ahead, lines, behind);
  }

  /** The blocks of the trace, and the line that starts the script, are in the file. */
  lemma BlocksAreWritten(r: Rules, input: seq<string>, t: Trace)
    ensures forall x :: t.copy.Some? && t.copy.value < |input| && x in r.copyBlock ==> x in Woven(r, input, t, |input|)
    ensures forall x :: t.entry.Some? && t.entry.value < |input| && !t.edits && x in r.entryBlock(t.script) ==>
              x in Woven(r, input, t, |input|)
    ensures forall i :: 0 <= i < |input| ==> Edited(r, input, t, i) in Woven(r, input, t, |input|)
  {
    var ps := Pieces(r, input, t, |input|);
    forall i, x | 0 <= i < |input| && x in ps[i] ensures x in Woven(r, input, t, |input|) {
      PieceIsWritten(ps, i, x);
    }
    forall i | 0 <= i < |input| ensures Edited(r, input, t, i) in Woven(r, input, t, |input|) {
      assert Edited(r, input, t, i) in ps[i];
    }
    if t.copy.Some? && t.copy.value < |input| {
      assert forall x :: x in r.copyBlock ==> x in ps[t.copy.value];
    }
    if t.entry.Some? && t.entry.value < |input| && !t.edits {
      assert forall x :: x in r.entryBlock(t.script) ==> x in ps[t.entry.value];
    }
  }

  /** Of the changes made in a file: how the script is named, and that it is started and copied. */
  lemma ScriptIsStarted(r: Rules, input: seq<string>, t: Trace)
    requires t == Traced(r, input, |input|) && t.entry.Some? && t.copy.Some?
    ensures t.entry.value < |input| && t.script == r.script(Workdir(r, input, t, t.entry.value))
    ensures forall x :: x in r.copyBlock ==> x in Woven(r, input, t, |input|)
    ensures !t.edits ==> forall x :: x in r.entryBlock(t.script) ==> x in Woven(r, input, t, |input|)
    ensures Edited(r, input, t, t.entry.value) in Woven(r, input, t, |input|)
  {
    TraceExplains(r, input, |input|);
    BlocksAreWritten(r, input, t);
  }

  /** A line is edited to start the script only if it can be. */
  lemma EntryIsEditable(r: Rules, input: seq<string>, t: Trace)
    requires t == Traced(r, input, |input|) && t.entry.Some?
    ensures t.entry.value < |input| && (t.edits ==> r.editable(input[t.entry.value]))
  {
    TraceExplains(r, input, |input|);
    assert Starts(r, input, t, t.entry.value);
  }
}
