/** Process group names listed in ascending lexicographic order, as `slices.Sort` leaves them. */
module Names {

  predicate LexLe(a: string, b: string) {
    a == "" || (b != "" && (a[0] < b[0] || (a[0] == b[0] && LexLe(a[1..], b[1..]))))
  }

  lemma {:induction false} LexTotal(a: string, b: string)
    ensures LexLe(a, b) || LexLe(b, a)
    ensures LexLe(a, b) && LexLe(b, a) ==> a == b
  {
    if a != "" && b != "" {
      LexTotal(a[1..], b[1..]);
      if a[0] == b[0] && a[1..] == b[1..] {
        assert a == [a[0]] + a[1..] == b;
      }
    }
  }

  lemma {:induction false} LexTransitive(a: string, b: string, c: string)
    requires LexLe(a, b) && LexLe(b, c)
    ensures LexLe(a, c)
  {
    if a != "" && a[0] == b[0] && b[0] == c[0] {
      LexTransitive(a[1..], b[1..], c[1..]);
    }
  }

  predicate IsLeast(x: string, s: set<string>) {
    x in s && forall y :: y in s ==> LexLe(x, y)
  }

  lemma {:induction false} LeastExists(s: set<string>)
    requires s != {}
    ensures exists x :: IsLeast(x, s)
  {
    var x :| x in s;
    var rest := s - {x};
    if rest == {} {
      assert s == {x};
      LexTotal(x, x);
      assert IsLeast(x, s);
    } else {
      LeastExists(rest);
      var m :| IsLeast(m, rest);
      LexTotal(x, m);
      LexTotal(x, x);
      var best := if LexLe(x, m) then x else m;
      forall y | y in s ensures LexLe(best, y) {
        if y != x && best == x {
          LexTransitive(x, m, y);
        }
      }
      assert IsLeast(best, s);
    }
  }

  /** The first name in order. */
  function Least(s: set<string>): (x: string)
    requires s != {}
    ensures IsLeast(x, s)
  {
    LeastExists(s);
    assert forall x, y :: IsLeast(x, s) && IsLeast(y, s) ==> x == y by {
      forall x, y | IsLeast(x, s) && IsLeast(y, s) ensures x == y { LexTotal(x, y); }
    }
    var x :| x in s && IsLeast(x, s);
    x
  }

  /** Every name of `s` exactly once, in ascending order. */
  function Sorted(s: set<string>): (names: seq<string>)
    ensures |names| == |s|
    ensures forall n :: n in names <==> n in s
    ensures forall i, j :: 0 <= i < j < |names| ==> LexLe(names[i], names[j]) && names[i] != names[j]
  {
    if s == {} then [] else
      var x := Least(s);
      var rest := Sorted(s - {x});
      FirstBeforeRest(x, rest, s);
      [x] + rest
  }

  lemma FirstBeforeRest(x: string, rest: seq<string>, s: set<string>)
    requires IsLeast(x, s) && forall n :: n in rest <==> n in s - {x}
    ensures forall n :: n in [x] + rest <==> n in s
    ensures forall i :: 0 <= i < |rest| ==> LexLe(x, rest[i]) && x != rest[i]
  {
    forall i | 0 <= i < |rest| ensures LexLe(x, rest[i]) && x != rest[i] {
      assert rest[i] in rest;
    }
  }

  /** Where the two names first differ, `a` has the smaller character. */
  ghost predicate DiffersAt(a: string, b: string, i: nat) {
    i < |a| && i < |b| && a[..i] == b[..i] && a[i] < b[i]
  }

  lemma {:induction false} LexLeIff(a: string, b: string)
    ensures LexLe(a, b) <==> a <= b || exists i: nat :: DiffersAt(a, b, i)
  {
    if a != "" && b != "" && a[0] == b[0] {
      LexLeIff(a[1..], b[1..]);
      if i: nat :| DiffersAt(a[1..], b[1..], i) {
        assert a[..i + 1] == [a[0]] + a[1..][..i] && b[..i + 1] == [b[0]] + b[1..][..i];
        assert DiffersAt(a, b, i + 1);
      }
      if i: nat :| DiffersAt(a, b, i) {
        assert i > 0;
        assert a[1..][..i - 1] == a[..i][1..] && b[1..][..i - 1] == b[..i][1..];
        assert DiffersAt(a[1..], b[1..], i - 1);
      }
      assert a == [a[0]] + a[1..] && b == [b[0]] + b[1..];
    } else if a != "" && b != "" && a[0] < b[0] {
      assert DiffersAt(a, b, 0);
    }
  }
}
