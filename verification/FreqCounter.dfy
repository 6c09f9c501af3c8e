/** Choosing the most common machine config (internal/appconfig/from_machine_set.go). */
module FreqCounter {
  import opened Prelude

  datatype ItemCount<T> = ItemCount(count: nat, values: seq<T>)

  datatype Report<T> = Report(mostCommon: string, mostCommonValues: seq<T>, others: seq<string>, otherValues: seq<T>)

  /** The values captured under the keys in `ks`, in the order of capture. */
  ghost function Under<T>(captured: seq<(string, T)>, ks: set<string>): (vs: seq<T>) {
    if captured == [] then []
    else
      var n := |captured| - 1;
      var before := Under(captured[..n], ks);
      if captured[n].0 in ks then before + [captured[n].1] else before
  }

  ghost function KeysOf<T>(captured: seq<(string, T)>): (ks: set<string>) {
    set i | 0 <= i < |captured| :: captured[i].0
  }

  /** Splitting the keys splits the values. */
  lemma {:induction false} UnderSplits<T>(captured: seq<(string, T)>, ks: set<string>, js: set<string>)
    requires ks !! js
    ensures multiset(Under(captured, ks + js)) == multiset(Under(captured, ks)) + multiset(Under(captured, js))
  {
    if captured != [] {
      UnderSplits(captured[..|captured| - 1], ks, js);
    }
  }

  lemma {:induction false} UnderAllKeys<T>(captured: seq<(string, T)>, ks: set<string>)
    requires KeysOf(captured) <= ks
    ensures Under(captured, ks) == Map(captured, (x: (string, T)) => x.1)
  {
    if captured != [] {
      var n := |captured| - 1;
      forall i | 0 <= i < n ensures captured[..n][i].0 in ks {
        assert captured[i].0 in KeysOf(captured);
      }
      UnderAllKeys(captured[..n], ks);
      assert captured[n].0 in KeysOf(captured);
    }
  }

  lemma {:induction false} UnderAbsent<T>(captured: seq<(string, T)>, k: string)
    requires k !in KeysOf(captured)
    ensures Under(captured, {k}) == []
  {
    if captured != [] {
      var n := |captured| - 1;
      assert captured[n].0 in KeysOf(captured);
      forall i | 0 <= i < n ensures captured[..n][i].0 != k {
        assert captured[i].0 in KeysOf(captured);
      }
      UnderAbsent(captured[..n], k);
    }
  }

  class Counter<T> {
    var items: map<string, ItemCount<T>>
    ghost var captured: seq<(string, T)>

    /** The table holds the captured values by key. */
    ghost predicate Valid()
      reads this
    {
      && items.Keys == KeysOf(captured)
      && forall k :: k in items ==> items[k].values == Under(captured, {k}) && items[k].count == |items[k].values| > 0
    }

    constructor ()
      ensures Valid() && captured == []
    {
      items := map[];
      captured := [];
    }

    /** A value whose key cannot be encoded is refused and leaves the table alone. */
    method Capture(encoded: Option<string>, value: T) returns (ok: bool)
      requires Valid()
      modifies this
      ensures Valid()
      ensures ok <==> encoded.Some?
      ensures captured == if ok then old(captured) + [(encoded.value, value)] else old(captured)
    {
      if encoded.None? {
        return false;
      }
      var key := encoded.value;
      if key !in items {
        UnderAbsent(captured, key);
        items := items[key := ItemCount(0, [])];
      }
      items := items[key := ItemCount(items[key].count + 1, items[key].values + [value])];
      ghost var before := captured;
      captured := captured + [(key, value)];
      assert captured[..|captured| - 1] == before;
      assert KeysOf(captured) == KeysOf(before) + {key} by {
        assert forall i :: 0 <= i < |before| ==> captured[i] == before[i];
        assert captured[|before|].0 == key;
      }
      ok := true;
    }

    /** A mode of the captured keys with its values, and everything else: nothing lost, whatever the map order. */
    method MakeReport() returns (rep: Report<T>)
      requires Valid()
      ensures captured == [] ==> rep == Report("", [], [], [])
      ensures captured != [] ==> rep.mostCommon in KeysOf(captured)
      ensures rep.mostCommonValues == Under(captured, {rep.mostCommon})
      ensures forall k :: |Under(captured, {k})| <= |rep.mostCommonValues|
      ensures multiset(rep.mostCommonValues) + multiset(rep.otherValues) ==
              multiset(Map(captured, (x: (string, T)) => x.1))
      ensures multiset(rep.others) == multiset(KeysOf(captured) - {rep.mostCommon})
    {
      var best, bestValues := FindMode();
      var others, otherValues := CollectOthers(best);
      rep := Report(best, bestValues, others, otherValues);
      var all := KeysOf(captured);
      forall k ensures |Under(captured, {k})| <= |bestValues| {
        if k !in items {
          UnderAbsent(captured, k);
        }
      }
      if captured == [] {
        assert items.Keys == {};
        assert |multiset(others)| == 0 && |multiset(otherValues)| == 0;
      } else {
        assert captured[0].0 in all;
        UnderSplits(captured, {best}, all - {best});
        assert {best} + (all - {best}) == all;
        UnderAllKeys(captured, all);
      }
    }

    method FindMode() returns (best: string, values: seq<T>)
      requires Valid()
      ensures values == Under(captured, {best})
      ensures items.Keys == {} ==> best == ""
      ensures items.Keys != {} ==> best in items
      ensures forall k :: k in items ==> items[k].count <= |values|
    {
      best, values := "", [];
      var highest := 0;
      var todo := items.Keys;
      while todo != {}
        invariant todo <= items.Keys
        invariant highest == |values|
        invariant if todo == items.Keys then best == "" && values == [] && highest == 0
                  else best in items && values == Under(captured, {best}) && highest > 0
        invariant forall k :: k in items && k !in todo ==> items[k].count <= highest
        decreases todo
      {
        var k :| k in todo;
        if items[k].count > highest {
          highest := items[k].count;
          best := k;
          values := items[k].values;
        }
        todo := todo - {k};
      }
      if items.Keys == {} {
        UnderAbsent(captured, "");
      }
    }

    method CollectOthers(best: string) returns (others: seq<string>, values: seq<T>)
      requires Valid()
      ensures multiset(others) == multiset(items.Keys - {best})
      ensures multiset(values) == multiset(Under(captured, items.Keys - {best}))
    {
      others, values := [], [];
      var todo := items.Keys;
      ghost var listed: set<string> := {};
      UnderNone(captured);
      while todo != {}
        invariant todo <= items.Keys && listed == items.Keys - todo - {best}
        invariant multiset(others) == multiset(listed)
        invariant multiset(values) == multiset(Under(captured, listed))
        decreases todo
      {
        var k :| k in todo;
        if k != best {
          others := others + [k];
          values := values + items[k].values;
          UnderSplits(captured, listed, {k});
          AddToSet(listed, k);
          listed := listed + {k};
        }
        todo := todo - {k};
      }
      assert listed == items.Keys - {best};
    }
  }

  lemma AddToSet(ks: set<string>, k: string)
    requires k !in ks
    ensures multiset(ks + {k}) == multiset(ks) + multiset{k}
  {
  }

  lemma {:induction false} UnderNone<T>(captured: seq<(string, T)>)
    ensures Under(captured, {}) == []
  {
    if captured != [] {
      UnderNone(captured[..|captured| - 1]);
    }
  }
}
