/** The rules by which install_litestream rewrites a Dockerfile (scanner/phoenix.go). */
module Dockerfiles {
  import opened Prelude
  import Litestream

  // ---------------------------------------------------------------------------
  // Strings
  // ---------------------------------------------------------------------------

  predicate IsSpace(c: char) {
    c in {'\t', '\n', '\U{b}', '\U{c}', '\r', ' ', '\U{85}', '\U{a0}'}
  }

  function TrimSpace(s: string): (t: string) {
    if s != [] && IsSpace(s[0]) then TrimSpace(s[1..])
    else if s != [] && IsSpace(s[|s| - 1]) then TrimSpace(s[..|s| - 1])
    else s
  }

  /** Where `pattern` first occurs. */
  function Find(s: string, pattern: string): (at: Option<nat>)
    ensures at.Some? ==> at.value + |pattern| <= |s|
  {
    if pattern <= s then Some(0)
    else if s == [] then None
    else
      var rest := Find(s[1..], pattern);
      if rest.None? then None else Some(rest.value + 1)
  }

  lemma {:induction false} FoundIsPattern(s: string, pattern: string)
    requires Find(s, pattern).Some?
    ensures var i := Find(s, pattern).value; s[i..i + |pattern|] == pattern
  {
    if !(pattern <= s) {
      FoundIsPattern(s[1..], pattern);
      var j := Find(s[1..], pattern).value;
      assert s[1..][j..j + |pattern|] == s[j + 1..j + 1 + |pattern|];
    }
  }

  predicate Contains(s: string, pattern: string) {
    Find(s, pattern).Some?
  }

  /** strings.Replace(s, pattern, text, 1) */
  function ReplaceFirst(s: string, pattern: string, text: string): (t: string) {
    var at := Find(s, pattern);
    if at.None? then s else s[..at.value] + text + s[at.value + |pattern|..]
  }

  predicate Instruction(line: string, name: string) {
    name + " " <= TrimSpace(line)
  }

  function UpTo(s: string, c: char): (t: string)
    ensures t <= s && c !in t
    ensures |t| < |s| ==> s[|t|] == c
  {
    if s == [] || s[0] == c then [] else [s[0]] + UpTo(s[1..], c)
  }

  function SplitSpaces(s: string): (words: seq<string>)
    ensures words != [] && words[0] == UpTo(s, ' ')
    ensures |words| > 1 <==> ' ' in s
    decreases |s|
  {
    var w := UpTo(s, ' ');
    if |w| == |s| then [w] else [w] + SplitSpaces(s[|w| + 1..])
  }

  function TrimLeft(s: string, c: char): (t: string) {
    if s != [] && s[0] == c then TrimLeft(s[1..], c) else s
  }

  function TrimRight(s: string, c: char): (t: string) {
    if s != [] && s[|s| - 1] == c then TrimRight(s[..|s| - 1], c) else s
  }

  /** The directory a WORKDIR line names: an instruction has at least two words, so the second one exists. */
  function Directory(line: string): (d: string)
    requires Instruction(line, "WORKDIR")
  {
    var trimmed := TrimSpace(line);
    assert trimmed[7] == ' ';
    var word := SplitSpaces(trimmed)[1];
    TrimRight(TrimRight(TrimLeft(word, '"'), '"'), '/')
  }

  // ---------------------------------------------------------------------------
  // The blocks and the edits
  // ---------------------------------------------------------------------------

  function EntryBlock(script: string): (b: seq<string>) {
    ["# Run litestream script as entrypoint", EntrypointLine(script), ""]
  }

  function EntrypointLine(script: string): (line: string) {
    "ENTRYPOINT [\"/bin/bash\", \"" + script + "\"]"
  }

  const COPIED_SCRIPT := "/app/bin/litestream.sh"
  const COPY_LINE := "COPY litestream.sh " + COPIED_SCRIPT

  const COPY_BLOCK: seq<string> := [
    "# Copy Litestream binary from build stage",
    "COPY --from=builder /usr/bin/litestream /usr/bin/litestream",
    COPY_LINE,
    "COPY config/litestream.yml /etc/litestream.yml",
    ""]

  const FETCHER := "wget"
  const RELEASES := "https://github.com/benbjohnson/litestream/releases/download/v${LITESTREAM_VERSION}/"
  const PACKAGE := "litestream-v${LITESTREAM_VERSION}-linux-amd64.deb"

  /** What is fetched is what is installed, by the command that `WgetEdit` has installed. */
  const INSTALL_BLOCK: seq<string> := [
    "",
    "# Install litestream",
    "ARG LITESTREAM_VERSION=0.3.13",
    "RUN " + FETCHER + " " + RELEASES + PACKAGE + " \\",
    "    && dpkg -i " + PACKAGE]

  function Script(workdir: string): (s: string) {
    workdir + "/bin/litestream.sh"
  }

  predicate Editable(line: string) {
    Contains(line, "CMD [") || Contains(line, "CMD \"")
  }

  function CommandEdit(line: string, script: string): (r: string) {
    if Contains(line, "CMD [") then ReplaceFirst(line, "CMD [", "CMD [" + ("\"/bin/bash\", \"" + script + "\","))
    else ReplaceFirst(line, "CMD \"", "CMD \"" + ("/bin/bash " + script))
  }

  function WgetEdit(line: string): (r: string) {
    ReplaceFirst(line, "build-essential", "build-essential" + (" " + FETCHER))
  }

  function DirectoryOf(line: string): (d: string) {
    if Instruction(line, "WORKDIR") then Directory(line) else ""
  }

  function Rules(): (r: Litestream.Rules) {
    Litestream.Rules(
      line => Instruction(line, "CMD"), line => Instruction(line, "ENTRYPOINT"), line => Instruction(line, "USER"),
      line => Instruction(line, "WORKDIR"), line => Contains(line, "build-essential"),
      line => Contains(line, "apt-get clean"),
      Editable, Script, DirectoryOf, CommandEdit, WgetEdit, EntryBlock, COPY_BLOCK, INSTALL_BLOCK)
  }

  method InstallLitestream(dockerfile: seq<string>) returns (output: Option<seq<string>>)
    ensures var t := Litestream.Traced(Rules(), dockerfile, |dockerfile|);
            && (output.Some? <==> t.install.Some? && t.entry.Some? && t.copy.Some?)
            && (output.Some? ==> output.value == Litestream.Woven(Rules(), dockerfile, t, |dockerfile|))
  {
    output := Litestream.InstallLitestream(Rules(), dockerfile);
  }

  /** `t` is `s` with something inserted in one place. */
  ghost predicate Inserts(s: string, t: string) {
    |s| <= |t| && exists i :: 0 <= i <= |s| && s[..i] == t[..i] && s[i..] == t[|t| - |s| + i..]
  }

  lemma ReplaceInserts(s: string, pattern: string, more: string)
    ensures Inserts(s, ReplaceFirst(s, pattern, pattern + more))
  {
    var at := Find(s, pattern);
    var t := ReplaceFirst(s, pattern, pattern + more);
    if at.Some? {
      var i := at.value + |pattern|;
      FoundIsPattern(s, pattern);
      assert s[..i] == s[..at.value] + pattern;
      assert t == s[..i] + more + s[i..];
      assert t[..i] == s[..i] && t[|t| - |s| + i..] == s[i..];
    } else {
      assert s[..0] == t[..0] && s[0..] == t[|t| - |s| + 0..];
    }
  }

  /** Each edit only inserts text: what was on the line stays there, in order. */
  lemma EditsOnlyInsert(line: string, script: string)
    ensures Inserts(line, WgetEdit(line)) && Inserts(line, CommandEdit(line, script))
  {
    ReplaceInserts(line, "build-essential", " " + FETCHER);
    ReplaceInserts(line, "CMD [", "\"/bin/bash\", \"" + script + "\",");
    ReplaceInserts(line, "CMD \"", "/bin/bash " + script);
  }

  // ---------------------------------------------------------------------------
  // The directory that a WORKDIR line names
  // ---------------------------------------------------------------------------

  ghost predicate AllOf(s: string, c: char) {
    forall x :: x in s ==> x == c
  }

  ghost predicate Blank(s: string) {
    forall x :: x in s ==> IsSpace(x)
  }

  lemma TrimmedAhead(s: string, a: string, t: string, b: string)
    requires s != "" && s[1..] == a + t + b
    ensures s == ([s[0]] + a) + t + b
  {
    assert s == [s[0]] + s[1..];
    Assoc([s[0]], a + t, b);
    Assoc([s[0]], a, t);
  }

  lemma TrimmedBehind(s: string, a: string, t: string, b: string)
    requires s != "" && s[..|s| - 1] == a + t + b
    ensures s == a + t + (b + [s[|s| - 1]])
  {
    assert s == s[..|s| - 1] + [s[|s| - 1]];
    Assoc(a + t, b, [s[|s| - 1]]);
  }

  /** White space goes at both ends, and only there. */
  lemma {:induction false} TrimmedParts(s: string) returns (a: string, b: string)
    ensures s == a + TrimSpace(s) + b && Blank(a) && Blank(b)
    ensures var t := TrimSpace(s); t != "" ==> !IsSpace(t[0]) && !IsSpace(t[|t| - 1])
    decreases |s|
  {
    if s != "" && IsSpace(s[0]) {
      a, b := TrimmedParts(s[1..]);
      TrimmedAhead(s, a, TrimSpace(s[1..]), b);
      a := [s[0]] + a;
    } else if s != "" && IsSpace(s[|s| - 1]) {
      a, b := TrimmedParts(s[..|s| - 1]);
      TrimmedBehind(s, a, TrimSpace(s[..|s| - 1]), b);
      b := b + [s[|s| - 1]];
    } else {
      a, b := "", "";
    }
  }

  lemma {:induction false} TrimmedLeft(s: string, c: char) returns (a: string)
    ensures s == a + TrimLeft(s, c) && AllOf(a, c)
    ensures var t := TrimLeft(s, c); t != "" ==> t[0] != c
  {
    a := "";
    if s != "" && s[0] == c {
      var a' := TrimmedLeft(s[1..], c);
      a := [c] + a';
      assert s == [c] + s[1..];
    }
  }

  lemma {:induction false} TrimmedRight(s: string, c: char) returns (b: string)
    ensures s == TrimRight(s, c) + b && AllOf(b, c)
    ensures var t := TrimRight(s, c); t != "" ==> t[|t| - 1] != c
  {
    b := "";
    if s != "" && s[|s| - 1] == c {
      var b' := TrimmedRight(s[..|s| - 1], c);
      b := b' + [c];
      assert s == s[..|s| - 1] + [c];
    }
  }

  lemma {:induction false} UpToSpace(w: string, rest: string)
    requires ' ' !in w
    ensures UpTo(w + " " + rest, ' ') == w
  {
    if w != [] {
      assert (w + " " + rest)[1..] == w[1..] + " " + rest;
      UpToSpace(w[1..], rest);
    }
  }

  lemma SecondWord(w: string, tail: string)
    requires ' ' !in w
    ensures |SplitSpaces(w + " " + tail)| > 1 && SplitSpaces(w + " " + tail)[1] == UpTo(tail, ' ')
  {
    var s := w + " " + tail;
    UpToSpace(w, tail);
    assert s[|w|] == ' ';
    assert s[|w| + 1..] == tail;
    assert SplitSpaces(s) == [w] + SplitSpaces(tail);
  }

  /** The word after the name of the instruction, up to a space or the end of the line. */
  ghost predicate Names(line: string, name: string, word: string) {
    exists a, rest, b ::
      && line == a + (name + " " + word + rest) + b && Blank(a) && Blank(b)
      && ' ' !in word && (rest != "" ==> rest[0] == ' ')
  }

  /** `d` is the word without the quotes around it and then without slashes at its end. */
  ghost predicate Unquoted(word: string, d: string) {
    exists lead, slashes, trail ::
      && word == lead + (d + slashes + trail) && AllOf(lead, '"') && AllOf(slashes, '/') && AllOf(trail, '"')
      && (d + slashes + trail != "" ==> (d + slashes + trail)[0] != '"')
      && (d + slashes != "" ==> (d + slashes)[|d + slashes| - 1] != '"')
      && (d != "" ==> d[|d| - 1] != '/')
  }

  lemma DirectoryIsUnquoted(word: string)
    ensures Unquoted(word, TrimRight(TrimRight(TrimLeft(word, '"'), '"'), '/'))
  {
    var inner := TrimLeft(word, '"');
    var bare := TrimRight(inner, '"');
    var d := TrimRight(bare, '/');
    var lead := TrimmedLeft(word, '"');
    var trail := TrimmedRight(inner, '"');
    var slashes := TrimmedRight(bare, '/');
    assert inner == d + slashes + trail;
  }

  /** Of `head` and `tail` together, `word` is the part of the tail that ends at the first space. */
  lemma WordOfTail(head: string, tail: string, word: string)
    requires word == UpTo(tail, ' ')
    ensures head + tail == head + word + tail[|word|..]
  {
    assert tail == word + tail[|word|..];
    Assoc(head, word, tail[|word|..]);
  }

  lemma WordAfter(line: string, name: string, tail: string)
    requires TrimSpace(line) == name + " " + tail
    ensures Names(line, name, UpTo(tail, ' '))
  {
    var a, b := TrimmedParts(line);
    var word := UpTo(tail, ' ');
    WordOfTail(name + " ", tail, word);
    NamesIf(line, name, word, a, tail[|word|..], b);
  }

  lemma NamesIf(line: string, name: string, word: string, a: string, rest: string, b: string)
    requires line == a + (name + " " + word + rest) + b && Blank(a) && Blank(b)
    requires ' ' !in word && (rest != "" ==> rest[0] == ' ')
    ensures Names(line, name, word)
  {
  }

  /** The directory that a WORKDIR line gives is the word after it, unquoted and without slashes at its end. */
  lemma DirectoryIsNamed(line: string)
    requires Instruction(line, "WORKDIR")
    ensures exists word :: Names(line, "WORKDIR", word) && Unquoted(word, DirectoryOf(line))
  {
    var trimmed := TrimSpace(line);
    var tail := trimmed[8..];
    assert trimmed == "WORKDIR" + " " + tail;
    assert ' ' !in "WORKDIR";
    SecondWord("WORKDIR", tail);
    WordAfter(line, "WORKDIR", tail);
    DirectoryIsUnquoted(UpTo(tail, ' '));
  }
}
