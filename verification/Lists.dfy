/** Lists as sets. */
module Lists {
  predicate Distinct<T(==)>(s: seq<T>) {
    forall i, j :: 0 <= i < j < |s| ==> s[i] != s[j]
  }

  function Elements<T(==)>(s: seq<T>): set<T> {
    set x | x in s
  }

  lemma {:induction false} ElementsCount<T>(s: seq<T>)
    ensures |Elements(s)| <= |s|
    ensures Distinct(s) ==> |Elements(s)| == |s|
  {
    if |s| > 0 {
      var n := |s| - 1;
      ElementsCount(s[..n]);
      assert Elements(s) == Elements(s[..n]) + {s[n]};
    }
  }

  lemma SubsetSize<T>(a: set<T>, b: set<T>)
    requires a <= b
    ensures |a| <= |b| && (|a| == |b| ==> a == b)
  {
    assert b == a + (b - a);
  }
}
