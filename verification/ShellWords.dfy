/** Printing commands as shell words (internal/appconfig/from_machine_set.go) and splitting them again. */
module ShellWords {
  import opened Prelude

  const SPECIAL := "!\"#$&'()*,;<=>?[]\\^`{}|~"

  /** unicode.IsSpace */
  predicate IsSpace(c: char) {
    || '\t' <= c <= '\r' || c == ' ' || c == '\U{0085}' || c == '\U{00A0}' || c == '\U{1680}'
    || '\U{2000}' <= c <= '\U{200A}' || c == '\U{2028}' || c == '\U{2029}' || c == '\U{202F}' || c == '\U{205F}'
    || c == '\U{3000}'
  }

  predicate HasSpecial(w: string) {
    exists i :: 0 <= i < |w| && w[i] in SPECIAL
  }

  predicate HasSpace(w: string) {
    exists i :: 0 <= i < |w| && IsSpace(w[i])
  }

  function Quoted(w: string): (q: string) {
    if HasSpecial(w) then "'" + w + "'"
    else if HasSpace(w) then "\"" + w + "\""
    else w
  }

  /** The words quoted, with one space between them. */
  function Printed(ws: seq<string>): (s: string) {
    if ws == [] then ""
    else if |ws| == 1 then Quoted(ws[0])
    else Quoted(ws[0]) + " " + Printed(ws[1..])
  }

  /** The loop over the characters of a word: the word itself, and the two flags. */
  method ScanWord(w: string) returns (built: string, needToQuote: bool, needSingleQuotes: bool)
    ensures built == w
    ensures needSingleQuotes <==> HasSpecial(w)
    ensures needToQuote <==> HasSpecial(w) || HasSpace(w)
  {
    built, needToQuote, needSingleQuotes := "", false, false;
    for i := 0 to |w|
      invariant built == w[..i]
      invariant needSingleQuotes <==> HasSpecial(w[..i])
      invariant needToQuote <==> HasSpecial(w[..i]) || HasSpace(w[..i])
    {
      built := built + [w[i]];
      assert w[..i + 1] == w[..i] + [w[i]];
      OneMoreChar(w[..i], w[i]);
      if w[i] in SPECIAL {
        needSingleQuotes := true;
        needToQuote := true;
      }
      if IsSpace(w[i]) {
        needToQuote := true;
      }
    }
    assert w[..|w|] == w;
  }

  lemma OneMoreChar(w: string, c: char)
    ensures HasSpecial(w + [c]) <==> HasSpecial(w) || c in SPECIAL
    ensures HasSpace(w + [c]) <==> HasSpace(w) || IsSpace(c)
  {
    var v := w + [c];
    assert v[|w|] == c;
    assert forall i :: 0 <= i < |w| ==> v[i] == w[i];
  }

  method QuotePosixOneWord(w: string) returns (q: string)
    ensures q == Quoted(w)
  {
    var built, needToQuote, needSingleQuotes := ScanWord(w);
    if needToQuote && needSingleQuotes {
      q := "'" + built + "'";
    } else if needToQuote {
      q := "\"" + built + "\"";
    } else {
      q := built;
    }
  }

  method QuotePosixWords(words: seq<string>) returns (quoted: seq<string>)
    ensures quoted == Map(words, Quoted)
  {
    quoted := [];
    for i := 0 to |words|
      invariant |quoted| == i && forall j :: 0 <= j < i ==> quoted[j] == Quoted(words[j])
    {
      var q := QuotePosixOneWord(words[i]);
      quoted := quoted + [q];
    }
  }

  // ---------------------------------------------------------------------------
  // Splitting: the quoting rules of a POSIX shell, as the splitter of process commands applies them
  // ---------------------------------------------------------------------------

  predicate IsSeparator(c: char) {
    c == ' ' || c == '\t' || c == '\r' || c == '\n'
  }

  datatype Mode = Start | Comment | InWord | Escaped | InDouble | EscapedInDouble | InSingle

  /** A word being read: its text so far, and how many characters read were not part of it. */
  datatype Conf = Conf(mode: Mode, text: string, dropped: nat)

  /** One character that does not end a word. */
  function Feed(k: Conf, c: char): (k': Conf) {
    match k.mode
    case Start =>
      if IsSeparator(c) then k.(dropped := k.dropped + 1)
      else if c == '#' then k.(mode := Comment, dropped := k.dropped + 1)
      else Open(k, c)
    case Comment => k.(mode := if c == '\n' then Start else Comment, dropped := k.dropped + 1)
    case InWord => Open(k, c)
    case Escaped => k.(mode := InWord, text := k.text + [c])
    case InDouble =>
      if c == '"' then k.(mode := InWord, dropped := k.dropped + 1)
      else if c == '\\' then k.(mode := EscapedInDouble, dropped := k.dropped + 1)
      else k.(text := k.text + [c])
    case EscapedInDouble => k.(mode := InDouble, text := k.text + [c])
    case InSingle =>
      if c == '\'' then k.(mode := InWord, dropped := k.dropped + 1) else k.(text := k.text + [c])
  }

  function Open(k: Conf, c: char): (k': Conf) {
    if c == '"' then k.(mode := InDouble, dropped := k.dropped + 1)
    else if c == '\'' then k.(mode := InSingle, dropped := k.dropped + 1)
    else if c == '\\' then k.(mode := Escaped, dropped := k.dropped + 1)
    else k.(mode := InWord, text := k.text + [c])
  }

  predicate Ends(k: Conf, c: char) {
    k.mode.InWord? && IsSeparator(c)
  }

  datatype Token = Word(text: string, rest: string) | End | Fail

  function Lex(k: Conf, s: string): (t: Token)
    ensures t.Word? ==> |t.rest| <= |s|
    ensures t.Word? && !k.mode.InWord? ==> |t.rest| < |s|
    decreases |s|
  {
    if s == "" then
      match k.mode
      case Start => End
      case Comment => End
      case InWord => Word(k.text, "")
      case _ => Fail
    else if Ends(k, s[0]) then Word(k.text, s[1..])
    else Lex(Feed(k, s[0]), s[1..])
  }

  const FRESH := Conf(Start, "", 0)

  function Split(s: string): (ws: Option<seq<string>>)
    decreases |s|
  {
    match Lex(FRESH, s)
    case End => Some([])
    case Fail => None
    case Word(w, rest) =>
      match Split(rest)
      case None => None
      case Some(ws) => Some([w] + ws)
  }

  // ---------------------------------------------------------------------------
  // Reading a prefix
  // ---------------------------------------------------------------------------

  ghost function FeedAll(k: Conf, u: string): (k': Conf) {
    if u == "" then k else Feed(FeedAll(k, u[..|u| - 1]), u[|u| - 1])
  }

  /** No word ends inside `u`. */
  ghost predicate Unended(k: Conf, u: string) {
    forall i :: 0 <= i < |u| ==> !Ends(FeedAll(k, u[..i]), u[i])
  }

  lemma {:induction false} FeedAllCons(k: Conf, c: char, u: string)
    ensures FeedAll(k, [c] + u) == FeedAll(Feed(k, c), u)
  {
    if u == "" {
      assert [c] + u == [c];
      assert [c][..0] == "";
    } else {
      var n := |u| - 1;
      FeedAllCons(k, c, u[..n]);
      assert ([c] + u)[..n + 1] == [c] + u[..n];
    }
  }

  lemma UnendedInit(k: Conf, u: string)
    requires u != "" && Unended(k, u)
    ensures Unended(k, u[..|u| - 1]) && !Ends(FeedAll(k, u[..|u| - 1]), u[|u| - 1])
  {
    var init := u[..|u| - 1];
    forall i | 0 <= i < |init| ensures !Ends(FeedAll(k, init[..i]), init[i]) {
      assert init[..i] == u[..i] && init[i] == u[i];
    }
  }

  lemma {:induction false} LexFeeds(k: Conf, u: string, v: string)
    requires Unended(k, u)
    ensures Lex(k, u + v) == Lex(FeedAll(k, u), v)
  {
    if u == "" {
      assert u + v == v;
    } else {
      UnendedInit(k, u);
      var init, c := u[..|u| - 1], u[|u| - 1];
      var e := FeedAll(k, init);
      var cv := [c] + v;
      assert u + v == init + cv;
      LexFeeds(k, init, cv);
      LexOne(e, c, v);
    }
  }

  lemma LexOne(k: Conf, c: char, v: string)
    requires !Ends(k, c)
    ensures Lex(k, [c] + v) == Lex(Feed(k, c), v)
  {
    assert ([c] + v)[1..] == v;
  }

  /** Where a word ends: after the characters that were fed, at a separator or at the end of the text. */
  lemma {:induction false} LexWord(k: Conf, s: string) returns (n: nat)
    requires Lex(k, s).Word?
    ensures n <= |s| && Unended(k, s[..n])
    ensures FeedAll(k, s[..n]).mode.InWord? && FeedAll(k, s[..n]).text == Lex(k, s).text
    ensures if n == |s| then Lex(k, s).rest == "" else IsSeparator(s[n]) && Lex(k, s).rest == s[n + 1..]
    decreases |s|
  {
    if s == "" || Ends(k, s[0]) {
      n := 0;
      assert s[..0] == "";
    } else {
      var m := LexWord(Feed(k, s[0]), s[1..]);
      n := m + 1;
      assert s[..n] == [s[0]] + s[1..][..m];
      FeedAllCons(k, s[0], s[1..][..m]);
      forall i | 0 <= i < n ensures !Ends(FeedAll(k, s[..n][..i]), s[..n][i]) {
        if i == 0 {
          assert s[..n][..0] == "";
        } else {
          assert s[..n][..i] == [s[0]] + s[1..][..m][..i - 1];
          FeedAllCons(k, s[0], s[1..][..m][..i - 1]);
          assert s[..n][i] == s[1..][..m][i - 1];
        }
      }
    }
  }

  /** Every character read is either part of the word or dropped, and each open quote or escape has dropped one. */
  lemma {:induction false} FeedAccounts(k: Conf, u: string)
    requires k.mode.Start? || k.mode.InWord?
    ensures var e := FeedAll(k, u);
            && |e.text| + e.dropped == |k.text| + k.dropped + |u|
            && e.dropped >= k.dropped
            && (e.mode in {Comment, Escaped, InDouble, InSingle} ==> e.dropped >= k.dropped + 1)
            && (e.mode == EscapedInDouble ==> e.dropped >= k.dropped + 2)
            && (e.dropped == k.dropped ==> e.text == k.text + u)
            && (e.mode == Escaped && e.dropped == k.dropped + 1 ==>
                  u != "" && u[|u| - 1] == '\\' && e.text == k.text + u[..|u| - 1])
  {
    if u != "" {
      FeedAccounts(k, u[..|u| - 1]);
    }
  }

  /** A word that ends right after a quote character has dropped two more, or that quote was escaped. */
  lemma LastIsQuote(k: Conf, u: string)
    requires k.mode.Start? || k.mode.InWord?
    requires u != "" && u[|u| - 1] in {'\'', '"'} && FeedAll(k, u).mode.InWord?
    ensures var e := FeedAll(k, u);
            || e.dropped >= k.dropped + 2
            || (e.dropped == k.dropped + 1 && |u| >= 2 && u[|u| - 2] == '\\' &&
                e.text == k.text + u[..|u| - 2] + [u[|u| - 1]])
  {
    var init := u[..|u| - 1];
    FeedAccounts(k, init);
    if FeedAll(k, init).mode.Escaped? && FeedAll(k, init).dropped == k.dropped + 1 {
      assert init[..|init| - 1] == u[..|u| - 2];
    }
  }

  // ---------------------------------------------------------------------------
  // Printed words split back
  // ---------------------------------------------------------------------------

  /** The words that survive printing: not empty, and free of single quotes. */
  predicate Printable(w: string) {
    w != "" && '\'' !in w
  }

  predicate Plain(c: char) {
    c !in SPECIAL && !IsSpace(c)
  }

  lemma {:induction false} FeedPlain(k: Conf, u: string)
    requires k.mode.InWord? && forall i :: 0 <= i < |u| ==> Plain(u[i])
    ensures FeedAll(k, u) == k.(text := k.text + u) && Unended(k, u)
  {
    if u == "" {
      assert k.text + u == k.text;
    } else {
      var n := |u| - 1;
      FeedPlain(k, u[..n]);
      PlainFeeds(k.(text := k.text + u[..n]), u[n]);
      assert k.text + u == k.text + u[..n] + [u[n]];
      forall i | 0 <= i < |u| ensures !Ends(FeedAll(k, u[..i]), u[i]) {
        if i < n {
          assert u[..n][..i] == u[..i];
        }
      }
    }
  }

  lemma PlainFeeds(k: Conf, c: char)
    requires Plain(c)
    ensures !IsSeparator(c) && Open(k, c) == k.(mode := InWord, text := k.text + [c]) && c != '#'
  {
    assert SPECIAL[1] == '"' && SPECIAL[2] == '#' && SPECIAL[5] == '\'' && SPECIAL[17] == '\\';
  }

  lemma {:induction false} FeedQuoted(k: Conf, u: string)
    requires (k.mode.InSingle? && '\'' !in u) || (k.mode.InDouble? && '"' !in u && '\\' !in u)
    ensures FeedAll(k, u) == k.(text := k.text + u) && Unended(k, u)
  {
    if u == "" {
      assert k.text + u == k.text;
    } else {
      var n := |u| - 1;
      FeedQuoted(k, u[..n]);
      assert k.text + u == k.text + u[..n] + [u[n]];
      forall i | 0 <= i < |u| ensures !Ends(FeedAll(k, u[..i]), u[i]) {
        if i < n {
          assert u[..n][..i] == u[..i];
        }
      }
    }
  }

  lemma LexQuoted(q: char, w: string, tail: string)
    requires (q == '\'' && '\'' !in w) || (q == '"' && '"' !in w && '\\' !in w)
    ensures Lex(FRESH, [q] + w + [q] + tail) == Lex(Conf(InWord, w, 2), tail)
  {
    var k := Conf(if q == '"' then InDouble else InSingle, "", 1);
    var after := [q] + tail;
    assert [q] + w + [q] + tail == [q] + (w + after);
    assert Feed(FRESH, q) == k;
    LexOne(FRESH, q, w + after);
    LexInside(k, q, w, tail);
  }

  lemma LexInside(k: Conf, q: char, w: string, tail: string)
    requires k == Conf(if q == '"' then InDouble else InSingle, "", 1)
    requires (q == '\'' && '\'' !in w) || (q == '"' && '"' !in w && '\\' !in w)
    ensures Lex(k, w + ([q] + tail)) == Lex(Conf(InWord, w, 2), tail)
  {
    FeedQuoted(k, w);
    assert k.text + w == w;
    LexFeeds(k, w, [q] + tail);
    var open := k.(text := w);
    assert Feed(open, q) == Conf(InWord, w, 2);
    LexOne(open, q, tail);
  }

  lemma LexPlain(w: string, tail: string)
    requires w != "" && forall i :: 0 <= i < |w| ==> Plain(w[i])
    ensures Lex(FRESH, w + tail) == Lex(Conf(InWord, w, 0), tail)
  {
    assert w + tail == [w[0]] + (w[1..] + tail);
    PlainFeeds(FRESH, w[0]);
    LexOne(FRESH, w[0], w[1..] + tail);
    var k := Conf(InWord, [w[0]], 0);
    assert "" + [w[0]] == [w[0]];
    assert Feed(FRESH, w[0]) == k;
    FeedPlain(k, w[1..]);
    LexFeeds(k, w[1..], tail);
    assert [w[0]] + w[1..] == w;
  }

  lemma InSpecial()
    ensures '"' in SPECIAL && '\'' in SPECIAL && '\\' in SPECIAL && '#' in SPECIAL
  {
    assert SPECIAL[1] == '"' && SPECIAL[2] == '#' && SPECIAL[5] == '\'' && SPECIAL[17] == '\\';
  }

  /** A printable word is read back whole, from where it is printed to where it ends. */
  lemma LexPrinted(w: string, tail: string)
    requires Printable(w) && (tail == "" || tail[0] == ' ')
    ensures Lex(FRESH, Quoted(w) + tail) == Word(w, if tail == "" then "" else tail[1..])
  {
    InSpecial();
    if HasSpecial(w) {
      LexQuoted('\'', w, tail);
    } else if HasSpace(w) {
      assert '"' !in w && '\\' !in w;
      LexQuoted('"', w, tail);
    } else {
      LexPlain(w, tail);
    }
  }

  lemma PrintedMore(ws: seq<string>, q: string, rest: string)
    requires |ws| > 1 && q == Quoted(ws[0]) && rest == Printed(ws[1..])
    ensures Printed(ws) == q + " " + rest
  {
  }

  lemma PrintedFirst(ws: seq<string>)
    requires ws != []
    ensures Printed(ws) == Quoted(ws[0]) + if |ws| == 1 then "" else " " + Printed(ws[1..])
  {
    var q := Quoted(ws[0]);
    if |ws| == 1 {
      assert q + "" == q;
    } else {
      var rest := Printed(ws[1..]);
      PrintedMore(ws, q, rest);
      Assoc(q, " ", rest);
    }
  }

  lemma SplitWord(s: string, w: string, rest: string)
    requires Lex(FRESH, s) == Word(w, rest)
    ensures Split(s) == match Split(rest)
                        case None => None
                        case Some(ws) => Some([w] + ws)
  {
  }

  lemma SplitPrintedFirst(ws: seq<string>)
    requires ws != [] && Printable(ws[0])
    ensures Split(Printed(ws)) == match Split(Printed(ws[1..]))
                                  case None => None
                                  case Some(rest) => Some([ws[0]] + rest)
  {
    var rest := Printed(ws[1..]);
    var tail := if |ws| == 1 then "" else " " + rest;
    PrintedFirst(ws);
    LexPrinted(ws[0], tail);
    if |ws| > 1 {
      assert tail[1..] == rest;
    }
    SplitWord(Printed(ws), ws[0], rest);
  }

  // ---------------------------------------------------------------------------
  // No other words do
  // ---------------------------------------------------------------------------

  /** The characters that quoting adds on each side. */
  function Margin(w: string): (n: nat) {
    if HasSpecial(w) || HasSpace(w) then 1 else 0
  }

  lemma QuotedShape(w: string)
    ensures |Quoted(w)| == |w| + 2 * Margin(w)
    ensures Quoted(w)[Margin(w)..Margin(w) + |w|] == w
    ensures Margin(w) == 1 ==> Quoted(w)[0] == Quoted(w)[|w| + 1] && Quoted(w)[0] in {'\'', '"'} && w != ""
  {
  }

  lemma ClosingQuote(w: string, d: nat, tail: string, n: nat, u: string)
    requires Margin(w) == 1 && 1 <= d <= |w| + 1 && n == |w| + 2 - d
    requires u == (Quoted(w)[d..] + tail)[..n]
    ensures |u| == n > 0 && u[n - 1] in {'\'', '"'}
    ensures d == 1 ==> n > 1 && u[n - 2] == w[|w| - 1]
  {
    QuotedShape(w);
    var q := Quoted(w);
    assert u == q[d..];
    assert d == 1 ==> u[n - 2] == q[|w|] == q[1..1 + |w|][|w| - 1];
  }

  /** Reading that starts inside a quoted word cannot give the word and stop in time. */
  lemma TooLate(w: string, d: nat, tail: string, n: nat)
    requires Margin(w) == 1 && 1 <= d <= |Quoted(w)|
    requires var r := Quoted(w)[d..] + tail;
             && n <= |r| && FeedAll(FRESH, r[..n]).mode.InWord? && FeedAll(FRESH, r[..n]).text == w
             && (n < |r| ==> IsSeparator(r[n]))
    ensures d + FeedAll(FRESH, (Quoted(w)[d..] + tail)[..n]).dropped > 2
  {
    QuotedShape(w);
    var r := Quoted(w)[d..] + tail;
    var u := r[..n];
    FeedAccounts(FRESH, u);
    if d <= |w| + 1 {
      assert r[|w| + 1 - d] == Quoted(w)[|w| + 1];
      if n == |w| + 2 - d {
        ClosingQuote(w, d, tail, n, u);
        LastIsQuote(FRESH, u);
      }
    }
  }

  lemma FirstThenRest(r: string, ws: seq<string>)
    requires Split(r) == Some(ws) && ws != []
    ensures Lex(FRESH, r).Word? && Lex(FRESH, r).text == ws[0] && Split(Lex(FRESH, r).rest) == Some(ws[1..])
  {
  }

  lemma SuffixOfRest(q: string, rest: string, d: nat, n: nat)
    requires var s := q + (" " + rest); d <= |s| && n < |s| - d && d + n >= |q|
    ensures (q + (" " + rest))[d..][n + 1..] == rest[d + n - |q|..]
  {
  }

  /** A reading of the first word that starts too late ends after it. */
  lemma EndsAfter(w: string, tail: string, d: nat, n: nat)
    requires 1 <= d <= |Quoted(w) + tail|
    requires var r := (Quoted(w) + tail)[d..];
             && n <= |r| && FeedAll(FRESH, r[..n]).mode.InWord? && FeedAll(FRESH, r[..n]).text == w
             && (n < |r| ==> IsSeparator(r[n]))
    ensures d + n > |Quoted(w)|
  {
    var r := (Quoted(w) + tail)[d..];
    QuotedShape(w);
    FeedAccounts(FRESH, r[..n]);
    if d <= |Quoted(w)| && Margin(w) == 1 {
      assert r == Quoted(w)[d..] + tail;
      TooLate(w, d, tail, n);
    }
  }

  /** What is left after a first word that ended too late does not give the other words. */
  lemma LeadIsKept(ws: seq<string>, d: nat, n: nat)
    requires |ws| > 1 && d <= |Printed(ws)| && n < |Printed(ws)| - d && d + n > |Quoted(ws[0])|
    ensures Split(Printed(ws)[d..][n + 1..]) != Some(ws[1..])
    decreases |ws|, 0
  {
    PrintedFirst(ws);
    SuffixOfRest(Quoted(ws[0]), Printed(ws[1..]), d, n);
    NeverCatchesUp(ws[1..], d + n - |Quoted(ws[0])|);
  }

  /** Reading that starts strictly after the beginning of the printed words never gives the words. */
  lemma {:induction false} NeverCatchesUp(ws: seq<string>, d: nat)
    requires 1 <= d <= |Printed(ws)|
    ensures Split(Printed(ws)[d..]) != Some(ws)
    decreases |ws|, 1
  {
    var r := Printed(ws)[d..];
    if Split(r) == Some(ws) {
      FirstThenRest(r, ws);
      PrintedFirst(ws);
      var n := LexWord(FRESH, r);
      EndsAfter(ws[0], if |ws| == 1 then "" else " " + Printed(ws[1..]), d, n);
      if |ws| > 1 && n < |r| {
        LeadIsKept(ws, d, n);
      }
    }
  }

  /** A first word that is empty, or has a single quote in it, is never read back. */
  lemma UnprintableFirst(ws: seq<string>)
    requires ws != [] && !Printable(ws[0])
    ensures Split(Printed(ws)) != Some(ws)
  {
    var r := Printed(ws);
    if Split(r) == Some(ws) {
      FirstThenRest(r, ws);
      PrintedFirst(ws);
      var n := LexWord(FRESH, r);
      OverrunsFromStart(ws[0], if |ws| == 1 then "" else " " + Printed(ws[1..]), n);
      assert r[0..] == r;
      if |ws| > 1 && n < |r| {
        LeadIsKept(ws, 0, n);
      }
    }
  }

  lemma OverrunsFromStart(w: string, tail: string, n: nat)
    requires !Printable(w) && (tail == "" || tail[0] == ' ')
    requires var r := Quoted(w) + tail;
             n <= |r| && FeedAll(FRESH, r[..n]).mode.InWord? && FeedAll(FRESH, r[..n]).text == w
    ensures n > |Quoted(w)|
  {
    var r := Quoted(w) + tail;
    QuotedShape(w);
    FeedAccounts(FRESH, r[..n]);
    if w == "" {
      assert n > 0;
    } else {
      InSpecial();
      assert HasSpecial(w);
      QuoteInside(w, tail, n);
    }
  }

  /** The first quote inside the word closes the opening one, so the closing one is dropped on top of those two. */
  lemma QuoteInside(w: string, tail: string, n: nat)
    requires '\'' in w && HasSpecial(w)
    requires var r := Quoted(w) + tail;
             n <= |r| && FeedAll(FRESH, r[..n]).mode.InWord? && FeedAll(FRESH, r[..n]).text == w
    ensures n > |w| + 2
  {
    FeedAccounts(FRESH, (Quoted(w) + tail)[..n]);
    var i := FirstQuote(w);
    if n < i + 2 {
      if n > 0 {
        BeforePair(w, i, tail, n);
      }
    } else {
      AfterPair(w, i, tail, n);
    }
  }

  lemma AfterPair(w: string, i: nat, tail: string, n: nat)
    requires i < |w| && w[i] == '\'' && '\'' !in w[..i] && HasSpecial(w)
    requires i + 2 <= n <= |Quoted(w) + tail|
    requires var e := FeedAll(FRESH, (Quoted(w) + tail)[..n]); e.mode.InWord? && e.text == w
    ensures n > |w| + 2
  {
    var r := Quoted(w) + tail;
    var head, v := "'" + w[..i] + "'", r[i + 2..n];
    var k := Conf(InWord, w[..i], 2);
    PairThenRest(w, i, r, head, v, n);
    FeedPair(w[..i]);
    FeedAllAppend(FRESH, head, v);
    FeedAccounts(k, v);
    if n == |w| + 2 {
      assert v[|v| - 1] == r[n - 1] == '\'';
      LastIsQuote(k, v);
    }
  }

  lemma PairThenRest(w: string, i: nat, r: string, head: string, v: string, n: nat)
    requires i < |w| && w[i] == '\'' && i + 2 <= n <= |r| && ("'" + w + "'") <= r
    requires head == "'" + w[..i] + "'" && v == r[i + 2..n]
    ensures r[..n] == head + v
  {
    assert r[..i + 2] == ("'" + w + "'")[..i + 2] == head;
    assert r[..n] == r[..i + 2] + r[i + 2..n];
  }

  lemma {:induction false} FirstQuote(w: string) returns (i: nat)
    requires '\'' in w
    ensures i < |w| && w[i] == '\'' && '\'' !in w[..i]
  {
    if w[0] == '\'' {
      i := 0;
    } else {
      var j := FirstQuote(w[1..]);
      i := j + 1;
      assert w[..i] == [w[0]] + w[1..][..j];
    }
  }

  lemma FeedOpening(w: string)
    requires '\'' !in w
    ensures FeedAll(FRESH, "'" + w) == Conf(InSingle, w, 1)
  {
    var k := Conf(InSingle, "", 1);
    assert Feed(FRESH, '\'') == k;
    FeedAllCons(FRESH, '\'', w);
    FeedFromOpen(k, w);
  }

  lemma FeedFromOpen(k: Conf, w: string)
    requires '\'' !in w && k == Conf(InSingle, "", 1)
    ensures FeedAll(k, w) == Conf(InSingle, w, 1)
  {
    FeedQuoted(k, w);
    assert k.text + w == w;
  }

  lemma FeedPair(w: string)
    requires '\'' !in w
    ensures FeedAll(FRESH, "'" + w + "'") == Conf(InWord, w, 2)
  {
    FeedOpening(w);
    var u := "'" + w + "'";
    assert u[..|u| - 1] == "'" + w;
    assert u[|u| - 1] == '\'';
  }

  lemma {:induction false} FeedAllAppend(k: Conf, u: string, v: string)
    ensures FeedAll(k, u + v) == FeedAll(FeedAll(k, u), v)
  {
    if v == "" {
      assert u + v == u;
    } else {
      FeedAllAppend(k, u, v[..|v| - 1]);
      assert (u + v)[..|u + v| - 1] == u + v[..|v| - 1];
    }
  }

  /** Inside the first pair the word has not been completed. */
  lemma BeforePair(w: string, i: nat, tail: string, n: nat)
    requires i < |w| && '\'' !in w[..i] && HasSpecial(w) && 0 < n < i + 2 && n <= |Quoted(w) + tail|
    ensures !FeedAll(FRESH, (Quoted(w) + tail)[..n]).mode.InWord?
  {
    assert (Quoted(w) + tail)[..n] == "'" + w[..n - 1];
    assert w[..n - 1] == w[..i][..n - 1];
    FeedOpening(w[..n - 1]);
  }

  /** Printing then splitting gives back a list of words exactly when every word is printable. */
  lemma {:induction false} PrintThenSplitIff(ws: seq<string>)
    ensures Split(Printed(ws)) == Some(ws) <==> forall w :: w in ws ==> Printable(w)
  {
    if ws != [] {
      PrintThenSplitIff(ws[1..]);
      if Printable(ws[0]) {
        SplitPrintedFirst(ws);
        assert ws == [ws[0]] + ws[1..];
      } else {
        UnprintableFirst(ws);
      }
    }
  }
}
