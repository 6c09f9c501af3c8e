/** Whether a rewritten Dockerfile starts the script that it copies (install_litestream, scanner/phoenix.go). */
module ScriptStart {
  import opened Prelude
  import opened Dockerfiles
  import Litestream

  // ---------------------------------------------------------------------------
  // The path that a written line names
  // ---------------------------------------------------------------------------

  const ENTRY_MARK := "ENTRYPOINT [\"/bin/bash\", \""
  const LIST_MARK := "CMD [" + "\"/bin/bash\", \""
  const TEXT_MARK := "CMD \"" + "/bin/bash "

  /** A quote ends a path; in the text form of a command a space does too. */
  const LIST_STOPS: set<char> := {'"'}
  const TEXT_STOPS: set<char> := {'"', ' '}

  function After(s: string, mark: string): (rest: Option<string>) {
    var at := Find(s, mark);
    if at.None? then None else Some(s[at.value + |mark|..])
  }

  function UpToAny(s: string, stops: set<char>): (t: string) {
    if s == [] || s[0] in stops then [] else [s[0]] + UpToAny(s[1..], stops)
  }

  /** The line that starts the script, as it is written. */
  function StartLine(dockerfile: seq<string>, t: Litestream.Trace): (line: string)
    requires t.entry.Some? && t.entry.value < |dockerfile|
  {
    if !t.edits then EntrypointLine(t.script)
    else
      var edited := CommandEdit(dockerfile[t.entry.value], t.script);
      if t.wget == t.entry then WgetEdit(edited) else edited
  }

  function Mark(line: string, edits: bool): (mark: string) {
    if !edits then ENTRY_MARK else if Contains(line, "CMD [") then LIST_MARK else TEXT_MARK
  }

  function Stops(line: string, edits: bool): (stops: set<char>) {
    if !edits || Contains(line, "CMD [") then LIST_STOPS else TEXT_STOPS
  }

  /** What bash is given to run by the written line: read from the line, after the call of bash. */
  function StartedPath(dockerfile: seq<string>, t: Litestream.Trace): (path: Option<string>)
    requires t.entry.Some? && t.entry.value < |dockerfile|
  {
    var line := dockerfile[t.entry.value];
    match After(StartLine(dockerfile, t), Mark(line, t.edits))
    case None => None
    case Some(rest) => Some(UpToAny(rest, Stops(line, t.edits)))
  }

  // ---------------------------------------------------------------------------
  // Occurrences and insertions
  // ---------------------------------------------------------------------------

  predicate Occurs(s: string, pattern: string, i: nat) {
    i + |pattern| <= |s| && s[i..i + |pattern|] == pattern
  }

  lemma OccursAtFront(s: string, pattern: string)
    ensures Occurs(s, pattern, 0) <==> pattern <= s
  {
  }

  lemma OccursLater(s: string, pattern: string, j: nat)
    requires s != []
    ensures Occurs(s, pattern, j + 1) <==> Occurs(s[1..], pattern, j)
  {
    if j + 1 + |pattern| <= |s| {
      assert s[1..][j..j + |pattern|] == s[j + 1..j + 1 + |pattern|];
    }
  }

  lemma {:induction false} FindIsFirst(s: string, pattern: string)
    ensures Find(s, pattern).None? ==> forall i: nat :: !Occurs(s, pattern, i)
    ensures Find(s, pattern).Some? ==> Occurs(s, pattern, Find(s, pattern).value)
    ensures Find(s, pattern).Some? ==> forall j: nat :: j < Find(s, pattern).value ==> !Occurs(s, pattern, j)
  {
    OccursAtFront(s, pattern);
    if !(pattern <= s) && s != [] {
      FindIsFirst(s[1..], pattern);
      forall j: nat | j > 0 ensures Occurs(s, pattern, j) <==> Occurs(s[1..], pattern, j - 1) {
        OccursLater(s, pattern, j - 1);
      }
    }
  }

  lemma FirstIsFound(s: string, pattern: string, i: nat)
    requires Occurs(s, pattern, i) && forall j: nat :: j < i ==> !Occurs(s, pattern, j)
    ensures Find(s, pattern) == Some(i)
  {
    FindIsFirst(s, pattern);
  }

  /** Two occurrences agree on a place that both of them cover. */
  lemma SharedPlace(s: string, p: string, q: string, i: nat, j: nat, x: nat)
    requires Occurs(s, p, i) && Occurs(s, q, j) && i <= x < i + |p| && j <= x < j + |q|
    ensures p[x - i] == q[x - j]
  {
    assert s[i..i + |p|][x - i] == s[x] == s[j..j + |q|][x - j];
  }

  function Insert(s: string, n: nat, g: string): (t: string)
    requires n <= |s|
  {
    s[..n] + g + s[n..]
  }

  lemma OccursBefore(s: string, n: nat, g: string, p: string, k: nat)
    requires k + |p| <= n <= |s|
    ensures Occurs(Insert(s, n, g), p, k) <==> Occurs(s, p, k)
  {
    assert Insert(s, n, g)[k..k + |p|] == s[k..k + |p|];
  }

  lemma OccursBehind(s: string, n: nat, g: string, p: string, k: nat)
    requires n <= k && n <= |s|
    ensures Occurs(Insert(s, n, g), p, k + |g|) <==> Occurs(s, p, k)
  {
    if k + |p| <= |s| {
      assert Insert(s, n, g)[k + |g|..k + |g| + |p|] == s[k..k + |p|];
    }
  }

  /** An occurrence over the place of the insertion has a character of what is there. */
  lemma OccursAcross(s: string, n: nat, g: string, p: string, k: nat)
    requires 0 < n <= |s| && p != "" && Occurs(Insert(s, n, g), p, k) && k < n + |g| && n < k + |p|
    ensures k < n ==> p[n - 1 - k] == s[n - 1]
    ensures k >= n ==> p[0] == g[k - n]
  {
    var t := Insert(s, n, g);
    if k < n {
      assert t[k..k + |p|][n - 1 - k] == t[n - 1] == s[n - 1];
    } else {
      assert t[k..k + |p|][0] == t[k] == g[k - n];
    }
  }

  /** The parts of what an edit makes: the pattern and `more`, which it puts there, begin what is left from there on. */
  lemma EditParts(line: string, pattern: string, more: string, rest: string, i: nat, e: string)
    requires Find(line, pattern) == Some(i) && e == ReplaceFirst(line, pattern, pattern + (more + rest))
    ensures e == Insert(line, i + |pattern|, more + rest)
    ensures e[i..] == (pattern + more) + (rest + line[i + |pattern|..])
  {
    FoundIsPattern(line, pattern);
    assert line[..i + |pattern|] == line[..i] + pattern;
    assert e == line[..i] + ((pattern + more) + (rest + line[i + |pattern|..]));
  }

  lemma MarkBeginsPattern(e: string, pattern: string, more: string, j: nat)
    requires Occurs(e, pattern + more, j)
    ensures Occurs(e, pattern, j)
  {
    assert e[j..j + |pattern|] == e[j..j + |pattern + more|][..|pattern|] == pattern;
  }

  lemma NoMarkBeforeEdit(line: string, pattern: string, more: string, n: nat, g: string, j: nat)
    requires j + |pattern| <= n <= |line| && !Occurs(line, pattern, j)
    ensures !Occurs(Insert(line, n, g), pattern + more, j)
  {
    if Occurs(Insert(line, n, g), pattern + more, j) {
      MarkBeginsPattern(Insert(line, n, g), pattern, more, j);
      OccursBefore(line, n, g, pattern, j);
    }
  }

  lemma FoundAtTail(e: string, i: nat, mark: string, tail: string)
    requires i <= |e| && e[i..] == mark + tail && forall j: nat :: j < i ==> !Occurs(e, mark, j)
    ensures After(e, mark) == Some(tail)
  {
    assert e[i..i + |mark|] == e[i..][..|mark|] == mark;
    assert e[i + |mark|..] == e[i..][|mark|..];
    FirstIsFound(e, mark, i);
  }

  /** What an edit puts after its pattern is found there again: the pattern and `more` occur there first. */
  lemma EditIsFound(line: string, pattern: string, more: string, rest: string, i: nat, e: string)
    requires Find(line, pattern) == Some(i) && e == ReplaceFirst(line, pattern, pattern + (more + rest))
    ensures After(e, pattern + more) == Some(rest + line[i + |pattern|..])
  {
    EditParts(line, pattern, more, rest, i, e);
    FindIsFirst(line, pattern);
    forall j: nat | j < i ensures !Occurs(e, pattern + more, j) {
      NoMarkBeforeEdit(line, pattern, more, i + |pattern|, more + rest, j);
    }
    FoundAtTail(e, i, pattern + more, rest + line[i + |pattern|..]);
  }

  // ---------------------------------------------------------------------------
  // Installing wget on the same line
  // ---------------------------------------------------------------------------

  const BUILD := "build-essential"
  const WGET := " " + FETCHER

  /** `y` is `x` with `g` inserted behind an occurrence of `p`. */
  ghost predicate InsertedBehind(x: string, p: string, g: string, y: string) {
    exists m: nat :: Occurs(x, p, m) && y == Insert(x, m + |p|, g)
  }

  /** `y` is `x` with wget installed in it, at most. */
  ghost predicate WgetInstalled(x: string, y: string) {
    x == y || InsertedBehind(x, BUILD, WGET, y)
  }

  /** The mark shares no place with what the edit looks for, nor with what it puts there. */
  predicate Apart(mark: string) {
    && mark != "" && mark[0] !in BUILD && mark[0] !in WGET && 'l' !in mark && 'u' !in mark && mark[|mark| - 1] != 'b'
  }

  lemma MarksAreApart()
    ensures Apart(LIST_MARK) && Apart(TEXT_MARK)
  {
  }

  lemma BuildIsBeforeOrAfter(e: string, mark: string, i: nat, j: nat)
    requires Apart(mark) && Occurs(e, mark, i) && Occurs(e, BUILD, j)
    ensures j + |BUILD| <= i || i + |mark| <= j
  {
    if j < i < j + |BUILD| {
      SharedPlace(e, mark, BUILD, i, j, i);
    } else if i <= j < i + |mark| {
      SharedPlace(e, mark, BUILD, i, j, j);
      if j + 1 < i + |mark| {
        SharedPlace(e, mark, BUILD, i, j, j + 1);
      }
    }
  }

  /** No mark begins earlier than before the insertion, which follows a `c` that the mark does not have. */
  lemma NoEarlierMark(e: string, mark: string, i: nat, n: nat, g: string, c: char, k: nat)
    requires mark != "" && mark[0] !in g && c !in mark && (forall j: nat :: j < i ==> !Occurs(e, mark, j))
    requires 0 < n <= i <= |e| && e[n - 1] == c && k < i + |g|
    ensures !Occurs(Insert(e, n, g), mark, k)
  {
    if k + |mark| <= n {
      OccursBefore(e, n, g, mark, k);
    } else if k >= n + |g| {
      OccursBehind(e, n, g, mark, k - |g|);
    } else if Occurs(Insert(e, n, g), mark, k) {
      OccursAcross(e, n, g, mark, k);
    }
  }

  /** An insertion before the mark moves its first occurrence. */
  lemma MarkIsMoved(e: string, mark: string, i: nat, n: nat, g: string, c: char)
    requires mark != "" && mark[0] !in g && c !in mark && Find(e, mark) == Some(i) && 0 < n <= i && e[n - 1] == c
    ensures Find(Insert(e, n, g), mark) == Some(i + |g|)
  {
    FindIsFirst(e, mark);
    OccursBehind(e, n, g, mark, i);
    forall k: nat | k < i + |g| ensures !Occurs(Insert(e, n, g), mark, k) {
      NoEarlierMark(e, mark, i, n, g, c, k);
    }
    FirstIsFound(Insert(e, n, g), mark, i + |g|);
  }

  lemma MarkStays(e: string, mark: string, i: nat, n: nat, g: string)
    requires Find(e, mark) == Some(i) && i + |mark| <= n <= |e|
    ensures Find(Insert(e, n, g), mark) == Some(i)
  {
    FindIsFirst(e, mark);
    OccursBefore(e, n, g, mark, i);
    forall k: nat | k < i ensures !Occurs(Insert(e, n, g), mark, k) {
      OccursBefore(e, n, g, mark, k);
    }
    FirstIsFound(Insert(e, n, g), mark, i);
  }

  lemma WgetInserts(e: string)
    ensures match Find(e, BUILD)
            case None => WgetEdit(e) == e
            case Some(j) => Occurs(e, BUILD, j) && WgetEdit(e) == Insert(e, j + |BUILD|, WGET)
                            && e[j + |BUILD| - 1] == 'l'
  {
    FindIsFirst(e, BUILD);
    if Find(e, BUILD).Some? {
      var j := Find(e, BUILD).value;
      assert e[..j + |BUILD|] == e[..j] + BUILD;
      assert e[j..j + |BUILD|][|BUILD| - 1] == BUILD[|BUILD| - 1] == 'l';
    }
  }

  lemma InsertInRest(e: string, c: nat, n: nat, g: string)
    requires c <= n <= |e|
    ensures Insert(e, n, g)[c..] == Insert(e[c..], n - c, g)
  {
    assert e[c..][..n - c] == e[c..n] && e[c..][n - c..] == e[n..];
    assert Insert(e, n, g)[c..] == e[c..n] + g + e[n..];
  }

  lemma OccursInRest(e: string, c: nat, p: string, j: nat)
    requires c <= j && Occurs(e, p, j)
    ensures Occurs(e[c..], p, j - c)
  {
    assert e[c..][j - c..j - c + |p|] == e[j..j + |p|];
  }

  lemma RestAfterInsert(e: string, c: nat, n: nat, g: string)
    requires n <= c <= |e|
    ensures Insert(e, n, g)[c + |g|..] == e[c..]
  {
  }

  lemma AfterIs(s: string, mark: string, i: nat, rest: string)
    requires Find(s, mark) == Some(i) && s[i + |mark|..] == rest
    ensures After(s, mark) == Some(rest)
  {
  }

  lemma InsertBeforeMark(e: string, mark: string, i: nat, n: nat, g: string, c: char, x: string)
    requires mark != "" && mark[0] !in g && c !in mark && Find(e, mark) == Some(i) && 0 < n <= i && e[n - 1] == c
    requires x == e[i + |mark|..]
    ensures After(Insert(e, n, g), mark) == Some(x)
  {
    MarkIsMoved(e, mark, i, n, g, c);
    RestAfterInsert(e, i + |mark|, n, g);
    AfterIs(Insert(e, n, g), mark, i + |g|, x);
  }

  lemma InsertBehindMark(e: string, mark: string, c: nat, n: nat, g: string, x: string)
    requires Find(e, mark).Some? && c == Find(e, mark).value + |mark| <= n <= |e| && x == e[c..]
    ensures n - c <= |x| && After(Insert(e, n, g), mark) == Some(Insert(x, n - c, g))
  {
    var i := Find(e, mark).value;
    MarkStays(e, mark, i, n, g);
    InsertInRest(e, c, n, g);
    AfterIs(Insert(e, n, g), mark, i, Insert(x, n - c, g));
  }

  lemma InsertIsBehind(e: string, c: nat, p: string, j: nat, g: string, n: nat, x: string)
    requires c <= j && Occurs(e, p, j) && x == e[c..] && n == j + |p| && n - c <= |x|
    ensures InsertedBehind(x, p, g, Insert(x, n - c, g))
  {
    OccursInRest(e, c, p, j);
    assert Occurs(x, p, j - c) && n - c == j - c + |p|;
  }

  lemma BehindMark(e: string, mark: string, c: nat, p: string, j: nat, g: string, n: nat, x: string)
    requires Find(e, mark).Some? && c == Find(e, mark).value + |mark| <= j && Occurs(e, p, j) && x == e[c..]
    requires n == j + |p|
    ensures var after := After(Insert(e, n, g), mark); after.Some? && InsertedBehind(x, p, g, after.value)
  {
    InsertBehindMark(e, mark, c, n, g, x);
    InsertIsBehind(e, c, p, j, g, n, x);
  }

  lemma WgetIsBeforeOrBehind(e: string, mark: string, i: nat, j: nat, x: string)
    requires Apart(mark) && Find(e, mark) == Some(i) && x == e[i + |mark|..]
    requires Occurs(e, BUILD, j) && e[j + |BUILD| - 1] == 'l'
    ensures var after := After(Insert(e, j + |BUILD|, WGET), mark); after.Some? && WgetInstalled(x, after.value)
  {
    FindIsFirst(e, mark);
    BuildIsBeforeOrAfter(e, mark, i, j);
    if j + |BUILD| <= i {
      InsertBeforeMark(e, mark, i, j + |BUILD|, WGET, 'l', x);
    } else {
      BehindMark(e, mark, i + |mark|, BUILD, j, WGET, j + |BUILD|, x);
    }
  }

  lemma WgetAfterMark(e: string, mark: string, x: string, w: string)
    requires Apart(mark) && After(e, mark) == Some(x) && w == WgetEdit(e)
    ensures After(w, mark).Some? && WgetInstalled(x, After(w, mark).value)
  {
    WgetInserts(e);
    if Find(e, BUILD).Some? {
      WgetIsBeforeOrBehind(e, mark, Find(e, mark).value, Find(e, BUILD).value, x);
    }
  }

  // ---------------------------------------------------------------------------
  // When the path is that of the copy
  // ---------------------------------------------------------------------------

  /** The text is the path, to its end or to a stop. */
  predicate Hits(s: string, path: string, stops: set<char>) {
    path <= s && (|s| == |path| || s[|path|] in stops)
  }

  lemma {:induction false} UpToAnyIs(s: string, path: string, stops: set<char>)
    requires forall c :: c in path ==> c !in stops
    ensures UpToAny(s, stops) == path <==> Hits(s, path, stops)
  {
    if s != [] && s[0] !in stops && path != [] && path[0] == s[0] {
      assert forall c :: c in path[1..] ==> c in path;
      UpToAnyIs(s[1..], path[1..], stops);
      assert path == [path[0]] + path[1..];
      assert path[1..] <= s[1..] <==> path <= s;
    } else if path != [] {
      assert path[0] in path;
    }
  }

  lemma InsertKeepsHit(x: string, n: nat, g: string, path: string, stops: set<char>)
    requires |path| < n <= |x|
    ensures Hits(x, path, stops) <==> Hits(Insert(x, n, g), path, stops)
  {
    var y, c := Insert(x, n, g), |path|;
    assert x[..c] == y[..c] && x[c] == y[c];
  }

  lemma HitLacks(x: string, m: nat, path: string, stops: set<char>)
    requires m < |x| && m < |path| && x[m] !in path
    ensures !Hits(x, path, stops)
  {
  }

  /** An insertion behind an occurrence that has a letter foreign to the path neither makes a hit nor undoes one. */
  lemma InsertionKeepsHit(x: string, p: string, m: nat, k: nat, g: string, path: string, stops: set<char>, y: string)
    requires Occurs(x, p, m) && k + 1 < |p| && p[k] !in path && y == Insert(x, m + |p|, g)
    ensures Hits(x, path, stops) <==> Hits(y, path, stops)
  {
    if m + |p| > |path| {
      InsertKeepsHit(x, m + |p|, g, path, stops);
    } else {
      assert x[m..m + |p|][k] == p[k];
      assert x[m + k] == y[m + k] == p[k];
      HitLacks(x, m + k, path, stops);
      HitLacks(y, m + k, path, stops);
    }
  }

  /** Where wget is installed, if at all, it is behind a path without a 'u'. */
  lemma WgetKeepsHit(x: string, y: string, path: string, stops: set<char>)
    requires WgetInstalled(x, y) && |BUILD| == 15 && BUILD[1] !in path
    ensures Hits(x, path, stops) <==> Hits(y, path, stops)
  {
    if x != y {
      var m: nat :| Occurs(x, BUILD, m) && y == Insert(x, m + |BUILD|, WGET);
      InsertionKeepsHit(x, BUILD, m, 1, WGET, path, stops, y);
    }
  }

  lemma NoU()
    ensures |BUILD| == 15 && BUILD[1] !in COPIED_SCRIPT
  {
  }

  /** A working directory that goes on, after the path of the copy, with a quote or a space that cuts it off. */
  predicate Cut(workdir: string, stops: set<char>) {
    |workdir| > |COPIED_SCRIPT| && COPIED_SCRIPT <= workdir && workdir[|COPIED_SCRIPT|] in stops
  }

  const SCRIPT_TAIL := "/bin/litestream.sh"

  /** The path of the copy repeats the tail of a script only at its end. */
  lemma TailFitsOnce(n: nat)
    requires n < |COPIED_SCRIPT| && n != 4
    ensures exists k :: 0 <= k < |SCRIPT_TAIL| && n + k < |COPIED_SCRIPT| && COPIED_SCRIPT[n + k] != SCRIPT_TAIL[k]
  {
    if n == 0 || n == 8 {
      assert COPIED_SCRIPT[n + 1] != SCRIPT_TAIL[1];
    } else {
      assert COPIED_SCRIPT[n + 0] != SCRIPT_TAIL[0];
    }
  }

  lemma HitsIff(workdir: string, rest: string, stops: set<char>)
    requires '/' !in stops
    ensures Hits(Script(workdir) + rest, COPIED_SCRIPT, stops) <==>
            (workdir == "/app" && (rest == "" || rest[0] in stops)) || Cut(workdir, stops)
  {
    var s, n := Script(workdir) + rest, |workdir|;
    assert s == workdir + (SCRIPT_TAIL + rest);
    if n > |COPIED_SCRIPT| {
      assert s[..|COPIED_SCRIPT|] == workdir[..|COPIED_SCRIPT|] && s[|COPIED_SCRIPT|] == workdir[|COPIED_SCRIPT|];
    } else if n == |COPIED_SCRIPT| {
      assert s[n] == SCRIPT_TAIL[0];
    } else if n == 4 {
      assert COPIED_SCRIPT == "/app" + SCRIPT_TAIL;
      assert s[..4] == workdir && s[4..|COPIED_SCRIPT|] == SCRIPT_TAIL;
      assert s[|COPIED_SCRIPT|..] == rest;
      assert COPIED_SCRIPT <= s <==> workdir == "/app";
    } else {
      TailFitsOnce(n);
      var k :| 0 <= k < |SCRIPT_TAIL| && n + k < |COPIED_SCRIPT| && COPIED_SCRIPT[n + k] != SCRIPT_TAIL[k];
      assert s[n + k] == SCRIPT_TAIL[k];
    }
  }

  // ---------------------------------------------------------------------------
  // Of every Dockerfile that is rewritten
  // ---------------------------------------------------------------------------

  /** In the text form nothing separates the script from the old command, unless that begins with a space or a quote. */
  predicate Glued(line: string, edits: bool) {
    && edits && !Contains(line, "CMD [") && Find(line, "CMD \"").Some?
    && var rest := line[Find(line, "CMD \"").value + 5..]; rest != "" && rest[0] !in TEXT_STOPS
  }

  /** The text behind the script on the line as it was edited. */
  function Behind(line: string, edits: bool): (rest: string)
    requires edits ==> Editable(line)
  {
    if !edits then "\"]"
    else if Contains(line, "CMD [") then "\"," + line[Find(line, "CMD [").value + 5..]
    else line[Find(line, "CMD \"").value + 5..]
  }

  lemma ListRest(line: string, script: string)
    requires Contains(line, "CMD [")
    ensures After(CommandEdit(line, script), LIST_MARK) == Some(script + Behind(line, true))
  {
    var i := Find(line, "CMD [").value;
    Assoc("\"/bin/bash\", \"", script, "\",");
    EditIsFound(line, "CMD [", "\"/bin/bash\", \"", script + "\",", i, CommandEdit(line, script));
    Assoc(script, "\",", line[i + 5..]);
  }

  lemma TextRest(line: string, script: string)
    requires !Contains(line, "CMD [") && Contains(line, "CMD \"")
    ensures After(CommandEdit(line, script), TEXT_MARK) == Some(script + Behind(line, true))
  {
    var i := Find(line, "CMD \"").value;
    EditIsFound(line, "CMD \"", "/bin/bash ", script, i, CommandEdit(line, script));
  }

  /** What follows the mark in a line that is edited. */
  lemma EditedRest(line: string, script: string, mark: string)
    requires Editable(line) && mark == Mark(line, true)
    ensures Apart(mark) && After(CommandEdit(line, script), mark) == Some(script + Behind(line, true))
  {
    MarksAreApart();
    if Contains(line, "CMD [") {
      ListRest(line, script);
    } else {
      TextRest(line, script);
    }
  }

  lemma EntryRest(script: string)
    ensures After(EntrypointLine(script), ENTRY_MARK) == Some(script + "\"]")
  {
    var line := EntrypointLine(script);
    Assoc(ENTRY_MARK, script, "\"]");
    assert line == ENTRY_MARK + (script + "\"]");
    assert line[0 + |ENTRY_MARK|..] == script + "\"]";
  }

  lemma NoStopInCopy()
    ensures forall c :: c in COPIED_SCRIPT ==> c !in TEXT_STOPS && c !in LIST_STOPS
  {
    assert forall k :: 0 <= k < |COPIED_SCRIPT| ==> COPIED_SCRIPT[k] != '"' && COPIED_SCRIPT[k] != ' ';
  }

  lemma BehindIsStop(line: string, edits: bool)
    requires edits ==> Editable(line)
    ensures var rest := Behind(line, edits); rest == "" || rest[0] in Stops(line, edits) <==> !Glued(line, edits)
  {
  }

  lemma StartedText(dockerfile: seq<string>, t: Litestream.Trace, line: string)
    requires t.entry.Some? && t.entry.value < |dockerfile| && line == dockerfile[t.entry.value]
    requires t.edits ==> Editable(line)
    ensures var after := After(StartLine(dockerfile, t), Mark(line, t.edits));
            after.Some? && WgetInstalled(t.script + Behind(line, t.edits), after.value)
  {
    if !t.edits {
      EntryRest(t.script);
    } else {
      var mark := Mark(line, true);
      EditedRest(line, t.script, mark);
      var edited := CommandEdit(line, t.script);
      WgetAfterMark(edited, mark, t.script + Behind(line, true), WgetEdit(edited));
    }
  }

  /** The path that the written line names is that of the copy in exactly these cases. */
  predicate FindsScript(line: string, edits: bool, workdir: string) {
    (workdir == "/app" && !Glued(line, edits)) || Cut(workdir, Stops(line, edits))
  }

  lemma StartedIffFound(dockerfile: seq<string>, t: Litestream.Trace, line: string, workdir: string)
    requires t.entry.Some? && t.entry.value < |dockerfile| && line == dockerfile[t.entry.value]
    requires (t.edits ==> Editable(line)) && t.script == Script(workdir)
    ensures StartedPath(dockerfile, t).Some?
    ensures StartedPath(dockerfile, t) == Some(COPIED_SCRIPT) <==> FindsScript(line, t.edits, workdir)
  {
    var stops := Stops(line, t.edits);
    StartedText(dockerfile, t, line);
    var after := After(StartLine(dockerfile, t), Mark(line, t.edits)).value;
    NoStopInCopy();
    UpToAnyIs(after, COPIED_SCRIPT, stops);
    NoU();
    WgetKeepsHit(t.script + Behind(line, t.edits), after, COPIED_SCRIPT, stops);
    HitsIff(workdir, Behind(line, t.edits), stops);
    BehindIsStop(line, t.edits);
  }

  lemma LinesOfBlocks(script: string)
    ensures COPY_LINE in Rules().copyBlock && EntrypointLine(script) in Rules().entryBlock(script)
  {
    assert COPY_BLOCK[2] == COPY_LINE && EntryBlock(script)[1] == EntrypointLine(script);
  }

  /**
   * Every Dockerfile that is rewritten copies the script to one place and starts it by name, in an ENTRYPOINT or in its
   * CMD. The path read from that line is the place of the copy exactly when the last WORKDIR before it is /app and the
   * script is not glued to the old command, or when that WORKDIR spells the path of the copy and breaks it off.
   */
  lemma EntrypointFindsScriptIff(dockerfile: seq<string>, t: Litestream.Trace)
    requires t == Litestream.Traced(Rules(), dockerfile, |dockerfile|)
    requires t.install.Some? && t.entry.Some? && t.copy.Some?
    ensures t.entry.value < |dockerfile|
    ensures var written := Litestream.Woven(Rules(), dockerfile, t, |dockerfile|);
            COPY_LINE in written && StartLine(dockerfile, t) in written
    ensures var workdir := Litestream.Workdir(Rules(), dockerfile, t, t.entry.value);
            && StartedPath(dockerfile, t).Some?
            && (StartedPath(dockerfile, t) == Some(COPIED_SCRIPT) <==>
                  FindsScript(dockerfile[t.entry.value], t.edits, workdir))
  {
    var r := Rules();
    Litestream.ScriptIsStarted(r, dockerfile, t);
    Litestream.EntryIsEditable(r, dockerfile, t);
    LinesOfBlocks(t.script);
    StartedIffFound(dockerfile, t, dockerfile[t.entry.value], Litestream.Workdir(r, dockerfile, t, t.entry.value));
  }
}
