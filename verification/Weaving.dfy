/** Lines with blocks of further lines around them, put one after the other, and taken apart again. */
module Weaving {
  import opened Prelude

  type Lines = seq<string>

  function Concat(ps: seq<Lines>): (w: Lines) {
    if ps == [] then [] else Concat(ps[..|ps| - 1]) + ps[|ps| - 1]
  }

  lemma {:induction false} ConcatAt(ps: seq<Lines>, i: nat, k: nat)
    requires i < |ps| && k < |ps[i]|
    ensures |Concat(ps[..i])| + k < |Concat(ps)| && Concat(ps)[|Concat(ps[..i])| + k] == ps[i][k]
  {
    var n := |ps| - 1;
    if i < n {
      ConcatAt(ps[..n], i, k);
      assert ps[..n][..i] == ps[..i];
    }
  }

  lemma {:induction false} PieceIsWritten(ps: seq<Lines>, i: nat, x: string)
    requires i < |ps| && x in ps[i]
    ensures x in Concat(ps)
  {
    if i < |ps| - 1 {
      PieceIsWritten(ps[..|ps| - 1], i, x);
    }
  }

  /** The lines are found in `w`, in their order, at the positions `at`. */
  ghost predicate InOrder(w: Lines, at: seq<nat>, lines: Lines) {
    && |at| == |lines|
    && (forall i :: 0 <= i < |at| ==> at[i] < |w| && w[at[i]] == lines[i])
    && forall i, j :: 0 <= i < j < |at| ==> at[i] < at[j]
  }

  /** Where in the whole the item number `ks[i]` of piece `i` is. */
  function Places(ps: seq<Lines>, ks: seq<nat>): (at: seq<nat>)
    requires |ks| == |ps|
  {
    seq(|ps|, i requires 0 <= i < |ps| => |Concat(ps[..i])| + ks[i])
  }

  lemma PlacesAscend(ps: seq<Lines>, i: nat, j: nat, k: nat, l: nat)
    requires i < j < |ps| && k < |ps[i]|
    ensures |Concat(ps[..i])| + k < |Concat(ps[..j])| + l
  {
    assert ps[..j][..i] == ps[..i];
    ConcatAt(ps[..j], i, k);
  }

  /** A line of every piece is found in what the pieces make up. */
  lemma FoundInOrder(ps: seq<Lines>, ks: seq<nat>, lines: Lines)
    requires |ks| == |ps| == |lines| && forall i :: 0 <= i < |ps| ==> ks[i] < |ps[i]| && ps[i][ks[i]] == lines[i]
    ensures InOrder(Concat(ps), Places(ps, ks), lines)
  {
    var at := Places(ps, ks);
    forall i | 0 <= i < |ps| ensures at[i] < |Concat(ps)| && Concat(ps)[at[i]] == lines[i] {
      ConcatAt(ps, i, ks[i]);
    }
    forall i, j | 0 <= i < j < |at| ensures at[i] < at[j] {
      PlacesAscend(ps, i, j, ks[i], ks[j]);
    }
  }

  /** What is left of `w` without `block` at its end; nothing if it does not end so. */
  function WithoutEnd(w: Lines, block: Lines): (rest: Option<Lines>) {
    if |block| <= |w| && w[|w| - |block|..] == block then Some(w[..|w| - |block|]) else None
  }

  /** The last line of `w` between the two blocks around it, and what comes before them. */
  function Unwrapped(w: Lines, ahead: Lines, behind: Lines): (r: Option<(Lines, string)>) {
    var a := WithoutEnd(w, behind);
    if a.None? || a.value == [] then None
    else
      var b := WithoutEnd(a.value[..|a.value| - 1], ahead);
      if b.None? then None else Some((b.value, a.value[|a.value| - 1]))
  }

  /** Takes the blocks around each line away, from the last to the first; fails if one of them is not there. */
  function Erased(w: Lines, ahead: seq<Lines>, behind: seq<Lines>): (lines: Option<Lines>)
    requires |ahead| == |behind|
    decreases |ahead|
  {
    if ahead == [] then if w == [] then Some([]) else None
    else
      var n := |ahead| - 1;
      var last := Unwrapped(w, ahead[n], behind[n]);
      if last.None? then None
      else
        var rest := Erased(last.value.0, ahead[..n], behind[..n]);
        if rest.None? then None else Some(rest.value + [last.value.1])
  }

  lemma UnwrapWrapped(x: Lines, ahead: Lines, line: string, behind: Lines)
    ensures Unwrapped(x + (ahead + [line] + behind), ahead, behind) == Some((x, line))
  {
    var w := x + (ahead + [line] + behind);
    var a := x + ahead + [line];
    assert w == a + behind;
    assert w[..|w| - |behind|] == a && w[|w| - |behind|..] == behind;
    assert a[..|a| - 1] == x + ahead;
    assert (x + ahead)[..|x|] == x && (x + ahead)[|x|..] == ahead;
  }

  lemma EraseOne(x: Lines, lines: Lines, piece: Lines, line: string, ahead: seq<Lines>, behind: seq<Lines>)
    requires ahead != [] && |ahead| == |behind|
    requires piece == ahead[|ahead| - 1] + [line] + behind[|ahead| - 1]
    requires Erased(x, ahead[..|ahead| - 1], behind[..|ahead| - 1]) == Some(lines)
    ensures Erased(x + piece, ahead, behind) == Some(lines + [line])
  {
    UnwrapWrapped(x, ahead[|ahead| - 1], line, behind[|ahead| - 1]);
  }

  /** Lines with their blocks around them, put together, give back the lines. */
  lemma {:induction false} EraseAll(ps: seq<Lines>, ahead: seq<Lines>, lines: Lines, behind: seq<Lines>)
    requires |ps| == |ahead| == |lines| == |behind|
    requires forall i :: 0 <= i < |ps| ==> ps[i] == ahead[i] + [lines[i]] + behind[i]
    ensures Erased(Concat(ps), ahead, behind) == Some(lines)
  {
    if ps != [] {
      var n := |ps| - 1;
      EraseAll(ps[..n], ahead[..n], lines[..n], behind[..n]);
      EraseOne(Concat(ps[..n]), lines[..n], ps[n], lines[n], ahead, behind);
      assert lines == lines[..n] + [lines[n]];
    }
  }
}
