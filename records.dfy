/** JavaScript objects used as dictionaries (`Record<string, T>`) are maps here.
    `Object.keys`, `Object.values`, `Object.entries` and `for..in` visit a
    record's keys in insertion order; the model visits them in ascending
    character-code order instead, which changes only how ties fall in the
    stable sorts applied afterwards. */
module Records {
  import opened Text

  predicate IsLeast(k: string, ks: set<string>) {
    k in ks && forall j :: j in ks ==> LexLe(k, j)
  }

  lemma {:induction false} LeastExists(ks: set<string>)
    requires ks != {}
    ensures exists k :: IsLeast(k, ks)
    decreases |ks|
  {
    var x :| x in ks;
    if ks - {x} == {} {
      assert ks == {x};
      assert IsLeast(x, ks);
    } else {
      LeastExists(ks - {x});
      var y :| IsLeast(y, ks - {x});
      LexLeTotal(x, y);
      if LexLe(x, y) {
        forall j | j in ks ensures LexLe(x, j) {
          if j != x { LexLeTransitive(x, y, j); }
        }
        assert IsLeast(x, ks);
      } else {
        assert IsLeast(y, ks);
      }
    }
  }

  lemma LeastUnique()
    ensures forall a, b, ks :: IsLeast(a, ks) && IsLeast(b, ks) ==> a == b
  {
    forall a, b, ks | IsLeast(a, ks) && IsLeast(b, ks) ensures a == b {
      LexLeAntisymmetric(a, b);
    }
  }

  /** The least member of a non-empty set. */
  function Least(ks: set<string>): (k: string)
    requires ks != {}
    ensures IsLeast(k, ks)
  {
    LeastExists(ks);
    LeastUnique();
    var k :| IsLeast(k, ks);
    k
  }

  /** The members of `ks`, each once, in ascending order. */
  function Ascending(ks: set<string>): (r: seq<string>)
    ensures |r| == |ks|
    ensures forall k :: k in r <==> k in ks
    decreases |ks|
  {
    if ks == {} then []
    else
      var k := Least(ks);
      [k] + Ascending(ks - {k})
  }

  lemma {:induction false} AscendingSorted(ks: set<string>)
    ensures forall i, j :: 0 <= i < j < |Ascending(ks)| ==> LexLess(Ascending(ks)[i], Ascending(ks)[j])
    decreases |ks|
  {
    if ks != {} {
      var k := Least(ks);
      var tail := Ascending(ks - {k});
      AscendingSorted(ks - {k});
      var r := Ascending(ks);
      assert r == [k] + tail;
      forall i, j | 0 <= i < j < |r| ensures LexLess(r[i], r[j]) {
        assert r[j] == tail[j - 1] && r[j] in ks - {k};
        if i == 0 {
          assert LexLe(k, r[j]);
        } else {
          assert r[i] == tail[i - 1];
        }
      }
    }
  }

  /** The keys of `m`, each once, in ascending order. */
  function SortedKeys<T>(m: map<string, T>): (ks: seq<string>)
    ensures |ks| == |m|
    ensures forall k :: k in ks <==> k in m
  {
    Ascending(m.Keys)
  }

  /** `SortedKeys` lists the keys in ascending order. */
  lemma SortedKeysAscending<T>(m: map<string, T>)
    ensures forall i, j :: 0 <= i < j < |SortedKeys(m)| ==> LexLess(SortedKeys(m)[i], SortedKeys(m)[j])
  {
    AscendingSorted(m.Keys);
  }

  /** The keys listed by `SortedKeys` are pairwise different. */
  lemma SortedKeysDistinct<T>(m: map<string, T>)
    ensures forall i, j :: 0 <= i < j < |SortedKeys(m)| ==> SortedKeys(m)[i] != SortedKeys(m)[j]
  {
    var ks := SortedKeys(m);
    SortedKeysAscending(m);
    forall i, j | 0 <= i < j < |ks| ensures ks[i] != ks[j] {
      LexLessIrreflexive(ks[i]);
    }
  }

  /** `Object.values(m)`: the entries of `m` in the order of `SortedKeys`. */
  function Values<T>(m: map<string, T>): (vs: seq<T>)
    ensures |vs| == |m|
  {
    var keys := SortedKeys(m);
    seq(|keys|, i requires 0 <= i < |keys| => m[keys[i]])
  }

  /** Every entry of `m` is listed by `Values`, and nothing else is. */
  lemma ValuesMembers<T>(m: map<string, T>, v: T)
    ensures v in Values(m) <==> exists k :: k in m && m[k] == v
  {
    var keys := SortedKeys(m);
    if v in Values(m) {
      var i :| 0 <= i < |keys| && Values(m)[i] == v;
      assert keys[i] in m;
    }
    if exists k :: k in m && m[k] == v {
      var k :| k in m && m[k] == v;
      var i :| 0 <= i < |keys| && keys[i] == k;
      assert Values(m)[i] == v;
    }
  }
}
