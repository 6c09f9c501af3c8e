/** Two Dockerfiles that are rewritten and do not start the script that they copy. */
module ScriptMisses {
  import opened Prelude
  import opened Dockerfiles
  import opened ScriptStart
  import Litestream

  // ---------------------------------------------------------------------------
  // Traces of files of few lines
  // ---------------------------------------------------------------------------

  datatype Kind = Clean | Dir | User | Entry | Cmd

  /** The line is of this kind only, and does not install wget. */
  ghost predicate IsA(r: Litestream.Rules, x: string, k: Kind) {
    && !r.builds(x) && (r.cleans(x) <==> k.Clean?) && (r.isWorkdir(x) <==> k.Dir?) && (r.isUser(x) <==> k.User?)
    && (r.isEntrypoint(x) <==> k.Entry?) && (r.isCommand(x) <==> k.Cmd?)
  }

  lemma QuietLine(r: Litestream.Rules, input: seq<string>, t: Litestream.Trace, i: nat, k: Kind)
    requires i < |input| && t.entry.None? && t.wget.None? && IsA(r, input[i], k) && !k.Cmd?
    ensures Litestream.Next(r, input, t, i)
         == t.(copy := Litestream.Since(t.copy, k.User?, i), install := Litestream.Since(t.install, k.Clean?, i))
  {
  }

  lemma CommandLine(r: Litestream.Rules, input: seq<string>, t: Litestream.Trace, i: nat, edits: bool)
    requires i < |input| && t.entry.None? && t.wget.None? && IsA(r, input[i], Cmd)
    requires edits == Litestream.HasEntrypoint(r, input, t, i)
    requires edits ==>
               r.editable(input[i])
               && var e := r.commandEdit(input[i], r.script(Litestream.Workdir(r, input, t, i)));
                       !r.builds(e) && !r.isUser(e) && !r.cleans(e)
    ensures Litestream.Next(r, input, t, i)
         == t.(entry := Some(i), edits := edits, script := r.script(Litestream.Workdir(r, input, t, i)))
  {
  }

  const START := Litestream.Trace(None, false, "", None, None, None)

  /** A cleanup, a working directory and a user. */
  lemma TraceOfThree(r: Litestream.Rules, input: seq<string>)
    requires |input| >= 3 && IsA(r, input[0], Clean) && IsA(r, input[1], Dir) && IsA(r, input[2], User)
    ensures Litestream.Traced(r, input, 3) == START.(copy := Some(2), install := Some(0))
  {
    QuietLine(r, input, Litestream.Traced(r, input, 0), 0, Clean);
    QuietLine(r, input, Litestream.Traced(r, input, 1), 1, Dir);
    QuietLine(r, input, Litestream.Traced(r, input, 2), 2, User);
  }

  lemma WorkdirOfThree(r: Litestream.Rules, input: seq<string>, t: Litestream.Trace)
    requires |input| >= 3 && IsA(r, input[0], Clean) && IsA(r, input[1], Dir) && IsA(r, input[2], User)
    requires t.wget.None? && (t.entry.Some? ==> t.entry.value >= 3)
    ensures Litestream.Workdir(r, input, t, 3) == r.directory(input[1]) && !Litestream.HasEntrypoint(r, input, t, 3)
  {
    assert Litestream.Edited(r, input, t, 0) == input[0] && Litestream.Edited(r, input, t, 1) == input[1]
        && Litestream.Edited(r, input, t, 2) == input[2];
    assert Litestream.Workdir(r, input, t, 2) == r.directory(input[1]);
  }

  lemma TraceOfFour(r: Litestream.Rules, input: seq<string>, t: Litestream.Trace)
    requires |input| == 4 && IsA(r, input[0], Clean) && IsA(r, input[1], Dir) && IsA(r, input[2], User)
    requires IsA(r, input[3], Cmd) && t == Litestream.Traced(r, input, 4)
    ensures t == Litestream.Trace(Some(3), false, r.script(r.directory(input[1])), None, Some(2), Some(0))
    ensures Litestream.Workdir(r, input, t, 3) == r.directory(input[1])
  {
    TraceOfThree(r, input);
    WorkdirOfThree(r, input, Litestream.Traced(r, input, 3));
    CommandLine(r, input, Litestream.Traced(r, input, 3), 3, false);
    WorkdirOfThree(r, input, t);
  }

  lemma WorkdirOfFour(r: Litestream.Rules, input: seq<string>, t: Litestream.Trace)
    requires |input| >= 4 && IsA(r, input[0], Clean) && IsA(r, input[1], Dir) && IsA(r, input[2], User)
    requires IsA(r, input[3], Entry) && t.wget.None? && (t.entry.Some? ==> t.entry.value >= 4)
    ensures Litestream.Workdir(r, input, t, 4) == r.directory(input[1]) && Litestream.HasEntrypoint(r, input, t, 4)
  {
    WorkdirOfThree(r, input, t);
    assert Litestream.Edited(r, input, t, 3) == input[3];
  }

  lemma TraceOfFive(r: Litestream.Rules, input: seq<string>, t: Litestream.Trace)
    requires |input| == 5 && IsA(r, input[0], Clean) && IsA(r, input[1], Dir) && IsA(r, input[2], User)
    requires IsA(r, input[3], Entry) && IsA(r, input[4], Cmd) && r.editable(input[4])
    requires var e := r.commandEdit(input[4], r.script(r.directory(input[1])));
             !r.builds(e) && !r.isUser(e) && !r.cleans(e)
    requires t == Litestream.Traced(r, input, 5)
    ensures t == Litestream.Trace(Some(4), true, r.script(r.directory(input[1])), None, Some(2), Some(0))
    ensures Litestream.Workdir(r, input, t, 4) == r.directory(input[1])
  {
    TraceOfThree(r, input);
    QuietLine(r, input, Litestream.Traced(r, input, 3), 3, Entry);
    var u := Litestream.Traced(r, input, 4);
    assert u == START.(copy := Some(2), install := Some(0));
    WorkdirOfFour(r, input, u);
    CommandLine(r, input, u, 4, true);
    WorkdirOfFour(r, input, t);
  }

  // ---------------------------------------------------------------------------
  // The lines
  // ---------------------------------------------------------------------------

  lemma FoundLetter(s: string, pattern: string, k: nat)
    requires Contains(s, pattern) && k < |pattern|
    ensures pattern[k] in s
  {
    FoundIsPattern(s, pattern);
    var i := Find(s, pattern).value;
    assert s[i..i + |pattern|][k] == s[i + k];
  }

  lemma AbsentLetter(s: string, pattern: string, k: nat)
    requires k < |pattern| && pattern[k] !in s
    ensures !Contains(s, pattern)
  {
    if Contains(s, pattern) {
      FoundLetter(s, pattern, k);
    }
  }

  predicate Trimmed(s: string) {
    s != [] && !IsSpace(s[0]) && !IsSpace(s[|s| - 1])
  }

  lemma OtherInstruction(line: string, name: string)
    requires Trimmed(line) && name != [] && name[0] != line[0]
    ensures !Instruction(line, name)
  {
    assert TrimSpace(line) == line;
    assert (name + " ")[0] == name[0];
  }

  lemma ThisInstruction(name: string, argument: string)
    requires Trimmed(name + " " + argument)
    ensures Instruction(name + " " + argument, name)
  {
    var line := name + " " + argument;
    assert TrimSpace(line) == line;
    assert line[..|name| + 1] == name + " ";
  }

  lemma {:induction false} UpToEnd(w: string)
    requires ' ' !in w
    ensures UpTo(w, ' ') == w
  {
    if w != [] {
      UpToEnd(w[1..]);
    }
  }

  lemma DirectoryIs(dir: string)
    requires dir != [] && ' ' !in dir && !IsSpace(dir[|dir| - 1]) && dir[0] != '"' && dir[|dir| - 1] !in {'"', '/'}
    ensures Instruction("WORKDIR" + " " + dir, "WORKDIR") && Directory("WORKDIR" + " " + dir) == dir
  {
    var line := "WORKDIR" + " " + dir;
    assert line[0] == 'W' && line[|line| - 1] == dir[|dir| - 1];
    ThisInstruction("WORKDIR", dir);
    UpToSpace("WORKDIR", dir);
    assert line[8..] == dir;
    UpToEnd(dir);
    assert SplitSpaces(line)[1..] == SplitSpaces(dir);
  }

  /** Neither wget nor cleaning up is asked for without these letters. */
  lemma NothingElse(line: string)
    requires 'b' !in line && 'g' !in line
    ensures !Contains(line, "build-essential") && !Contains(line, "apt-get clean")
  {
    AbsentLetter(line, "build-essential", 0);
    AbsentLetter(line, "apt-get clean", 4);
  }

  const CLEAN_LINE := "apt-get clean"
  const USER_LINE := "USER" + " " + "x"
  const ENTRY_LINE := "ENTRYPOINT" + " " + "x"
  const CMD_LINE := "CMD" + " " + "run"
  const QUOTED_LINE := "CMD" + " " + "\"run\""

  lemma CleanLine()
    ensures IsA(Rules(), CLEAN_LINE, Clean)
  {
    OtherInstruction(CLEAN_LINE, "WORKDIR");
    OtherInstruction(CLEAN_LINE, "USER");
    OtherInstruction(CLEAN_LINE, "CMD");
    OtherInstruction(CLEAN_LINE, "ENTRYPOINT");
    AbsentLetter(CLEAN_LINE, "build-essential", 0);
    assert "apt-get clean" <= CLEAN_LINE;
  }

  lemma DirLineIsNoOther(line: string)
    requires Trimmed(line) && line[0] == 'W' && 'b' !in line && 'g' !in line
    ensures !Instruction(line, "USER") && !Instruction(line, "CMD") && !Instruction(line, "ENTRYPOINT")
    ensures !Contains(line, "build-essential") && !Contains(line, "apt-get clean")
  {
    OtherInstruction(line, "USER");
    OtherInstruction(line, "CMD");
    OtherInstruction(line, "ENTRYPOINT");
    NothingElse(line);
  }

  lemma DirLineEnds(dir: string, line: string)
    requires dir != [] && !IsSpace(dir[|dir| - 1]) && line == "WORKDIR" + " " + dir && 'b' !in dir && 'g' !in dir
    ensures Trimmed(line) && line[0] == 'W' && 'b' !in line && 'g' !in line
  {
    assert line[0] == 'W' && line[|line| - 1] == dir[|dir| - 1];
  }

  lemma DirLine(dir: string, line: string)
    requires dir != [] && ' ' !in dir && !IsSpace(dir[|dir| - 1]) && dir[0] != '"' && dir[|dir| - 1] !in {'"', '/'}
    requires 'b' !in dir && 'g' !in dir && line == "WORKDIR" + " " + dir
    ensures Instruction(line, "WORKDIR") && DirectoryOf(line) == dir
    ensures !Instruction(line, "USER") && !Instruction(line, "CMD") && !Instruction(line, "ENTRYPOINT")
    ensures !Contains(line, "build-essential") && !Contains(line, "apt-get clean")
  {
    DirLineEnds(dir, line);
    DirectoryIs(dir);
    DirLineIsNoOther(line);
  }

  lemma UserLine()
    ensures IsA(Rules(), USER_LINE, User)
  {
    ThisInstruction("USER", "x");
    OtherInstruction(USER_LINE, "WORKDIR");
    OtherInstruction(USER_LINE, "CMD");
    OtherInstruction(USER_LINE, "ENTRYPOINT");
    NothingElse(USER_LINE);
  }

  lemma EntryLine()
    ensures IsA(Rules(), ENTRY_LINE, Entry)
  {
    ThisInstruction("ENTRYPOINT", "x");
    OtherInstruction(ENTRY_LINE, "WORKDIR");
    OtherInstruction(ENTRY_LINE, "CMD");
    OtherInstruction(ENTRY_LINE, "USER");
    NothingElse(ENTRY_LINE);
  }

  lemma CommandIs(argument: string)
    requires argument != [] && !IsSpace(argument[|argument| - 1]) && 'b' !in argument && 'g' !in argument
    ensures IsA(Rules(), "CMD" + " " + argument, Cmd)
  {
    var line := "CMD" + " " + argument;
    assert line[0] == 'C' && line[|line| - 1] == argument[|argument| - 1];
    ThisInstruction("CMD", argument);
    OtherInstruction(line, "WORKDIR");
    OtherInstruction(line, "USER");
    OtherInstruction(line, "ENTRYPOINT");
    NothingElse(line);
  }

  lemma RunLine()
    ensures IsA(Rules(), CMD_LINE, Cmd)
  {
    CommandIs("run");
  }

  lemma QuotedLine()
    ensures IsA(Rules(), QUOTED_LINE, Cmd)
  {
    CommandIs("\"run\"");
  }

  ghost predicate FourKinds(r: Litestream.Rules, a: string, b: string, c: string, d: string) {
    IsA(r, a, Clean) && IsA(r, b, Dir) && IsA(r, c, User) && IsA(r, d, Cmd)
  }

  lemma FourLines(
    dockerfile: seq<string>, t: Litestream.Trace, r: Litestream.Rules, a: string, b: string, c: string, d: string,
    dir: string)
    requires dockerfile == [a, b, c, d] && r == Rules() && t == Litestream.Traced(r, dockerfile, |dockerfile|)
    requires FourKinds(r, a, b, c, d) && r.directory(b) == dir && !FindsScript(d, false, dir)
    ensures t.install.Some? && t.entry == Some(3) && t.copy.Some?
    ensures StartedPath(dockerfile, t).Some? && StartedPath(dockerfile, t) != Some(COPIED_SCRIPT)
  {
    TraceOfFour(r, dockerfile, t);
    EntrypointFindsScriptIff(dockerfile, t);
  }

  ghost predicate FiveKinds(r: Litestream.Rules, a: string, b: string, c: string, x: string, d: string) {
    IsA(r, a, Clean) && IsA(r, b, Dir) && IsA(r, c, User) && IsA(r, x, Entry) && IsA(r, d, Cmd) && r.editable(d)
  }

  /** The edit of the line leaves it a command and nothing else. */
  ghost predicate QuietEdit(r: Litestream.Rules, d: string, script: string) {
    var e := r.commandEdit(d, script);
    !r.builds(e) && !r.isUser(e) && !r.cleans(e)
  }

  lemma FiveLines(
    dockerfile: seq<string>, t: Litestream.Trace, r: Litestream.Rules,
    a: string, b: string, c: string, x: string, d: string, dir: string)
    requires dockerfile == [a, b, c, x, d] && r == Rules() && t == Litestream.Traced(r, dockerfile, |dockerfile|)
    requires FiveKinds(r, a, b, c, x, d) && r.directory(b) == dir && QuietEdit(r, d, Script(dir))
             && !FindsScript(d, true, dir)
    ensures t.install.Some? && t.entry == Some(4) && t.copy.Some?
    ensures t.script == Script(dir) && Litestream.Workdir(r, dockerfile, t, 4) == dir
    ensures StartLine(dockerfile, t) == CommandEdit(d, Script(dir))
    ensures StartedPath(dockerfile, t).Some? && StartedPath(dockerfile, t) != Some(COPIED_SCRIPT)
  {
    TraceOfFive(r, dockerfile, t);
    EntrypointFindsScriptIff(dockerfile, t);
  }

  // ---------------------------------------------------------------------------
  // Another working directory
  // ---------------------------------------------------------------------------

  const SRV_LINE := "WORKDIR" + " " + "/srv"

  lemma SrvFindsNothing(line: string)
    ensures !FindsScript(line, false, "/srv")
  {
    assert "/srv"[1] != "/app"[1];
  }

  lemma SrvLine()
    ensures IsA(Rules(), SRV_LINE, Dir) && Rules().directory(SRV_LINE) == "/srv"
  {
    var dir := "/srv";
    assert dir[3] == 'v';
    DirLine(dir, SRV_LINE);
  }

  lemma SrvLines()
    ensures FourKinds(Rules(), CLEAN_LINE, SRV_LINE, USER_LINE, CMD_LINE)
  {
    CleanLine();
    SrvLine();
    UserLine();
    RunLine();
  }

  /** With the working directory /srv the file is rewritten, and the script it starts is not the one it copies. */
  lemma ScriptIsNotFound(dockerfile: seq<string>, t: Litestream.Trace)
    requires dockerfile == [CLEAN_LINE, SRV_LINE, USER_LINE, CMD_LINE]
    requires t == Litestream.Traced(Rules(), dockerfile, |dockerfile|)
    ensures t.install.Some? && t.entry == Some(3) && t.copy.Some?
    ensures StartedPath(dockerfile, t).Some? && StartedPath(dockerfile, t) != Some(COPIED_SCRIPT)
  {
    SrvLines();
    SrvLine();
    SrvFindsNothing(CMD_LINE);
    FourLines(dockerfile, t, Rules(), CLEAN_LINE, SRV_LINE, USER_LINE, CMD_LINE, "/srv");
  }

  // ---------------------------------------------------------------------------
  // A script that is glued to the old command
  // ---------------------------------------------------------------------------

  const APP_LINE := "WORKDIR" + " " + "/app"

  lemma AppLine()
    ensures IsA(Rules(), APP_LINE, Dir) && Rules().directory(APP_LINE) == "/app"
  {
    var dir := "/app";
    assert dir[3] == 'p';
    DirLine(dir, APP_LINE);
  }

  /** The quoted command as it is edited: nothing comes between the script and the command. */
  lemma QuotedEdit(script: string)
    ensures Editable(QUOTED_LINE) && Glued(QUOTED_LINE, true)
    ensures CommandEdit(QUOTED_LINE, script) == "CMD \"" + ("/bin/bash " + script) + "run\""
  {
    assert "CMD \"" <= QUOTED_LINE;
    AbsentLetter(QUOTED_LINE, "CMD [", 4);
    assert QUOTED_LINE[5..] == "run\"";
    assert QUOTED_LINE[..0] == "";
    assert "" + ("CMD \"" + ("/bin/bash " + script)) == "CMD \"" + ("/bin/bash " + script);
  }

  lemma NoDash(e: string)
    requires e == "CMD \"" + ("/bin/bash " + COPIED_SCRIPT) + "run\""
    ensures '-' !in e && Trimmed(e) && e[0] == 'C'
  {
    assert e[0] == 'C' && e[|e| - 1] == '"';
    assert forall k :: 0 <= k < |e| ==> e[k] != '-';
  }

  /** Without a dash there is neither wget to install nor something to clean up. */
  lemma EditedIsQuiet(e: string)
    requires '-' !in e && Trimmed(e) && e[0] == 'C'
    ensures !Contains(e, "build-essential") && !Contains(e, "apt-get clean") && !Instruction(e, "USER")
  {
    AbsentLetter(e, "build-essential", 5);
    AbsentLetter(e, "apt-get clean", 3);
    OtherInstruction(e, "USER");
  }

  lemma GluedFindsNothing()
    ensures !FindsScript(QUOTED_LINE, true, "/app")
  {
    QuotedEdit("");
    assert |"/app"| < |COPIED_SCRIPT|;
  }

  lemma AppScript()
    ensures Script("/app") == COPIED_SCRIPT
  {
  }

  /** The edited line does nothing but start the script. */
  lemma QuotedIsQuiet()
    ensures QuietEdit(Rules(), QUOTED_LINE, COPIED_SCRIPT) && Rules().editable(QUOTED_LINE)
  {
    QuotedEdit(COPIED_SCRIPT);
    NoDash(CommandEdit(QUOTED_LINE, COPIED_SCRIPT));
    EditedIsQuiet(CommandEdit(QUOTED_LINE, COPIED_SCRIPT));
  }

  lemma AppLines()
    ensures FiveKinds(Rules(), CLEAN_LINE, APP_LINE, USER_LINE, ENTRY_LINE, QUOTED_LINE)
  {
    CleanLine();
    AppLine();
    UserLine();
    EntryLine();
    QuotedLine();
    QuotedIsQuiet();
  }

  /**
   * The working directory is /app, the file is rewritten, and the quoted command is glued to the path of the script, so
   * what it starts is not the script that it copies.
   */
  lemma GluedScriptIsNotFound(dockerfile: seq<string>, t: Litestream.Trace)
    requires dockerfile == [CLEAN_LINE, APP_LINE, USER_LINE, ENTRY_LINE, QUOTED_LINE]
    requires t == Litestream.Traced(Rules(), dockerfile, |dockerfile|)
    ensures t.install.Some? && t.entry == Some(4) && t.copy.Some? && t.script == COPIED_SCRIPT
    ensures Litestream.Workdir(Rules(), dockerfile, t, 4) == "/app"
    ensures StartLine(dockerfile, t) == "CMD \"" + ("/bin/bash " + COPIED_SCRIPT) + "run\""
    ensures StartedPath(dockerfile, t).Some? && StartedPath(dockerfile, t) != Some(COPIED_SCRIPT)
  {
    AppLines();
    AppLine();
    AppScript();
    QuotedIsQuiet();
    GluedFindsNothing();
    QuotedEdit(COPIED_SCRIPT);
    FiveLines(dockerfile, t, Rules(), CLEAN_LINE, APP_LINE, USER_LINE, ENTRY_LINE, QUOTED_LINE, "/app");
  }
}
