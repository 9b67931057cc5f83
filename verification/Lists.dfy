// Lists without repeats, and the set of a list.
module Lists {
  predicate NoRepeat<T(==)>(s: seq<T>) {
    forall i, j :: 0 <= i < j < |s| ==> s[i] != s[j]
  }

  lemma NoRepeatSnoc<T>(s: seq<T>, x: T)
    ensures NoRepeat(s + [x]) <==> NoRepeat(s) && x !in s
  {
    var t := s + [x];
    assert forall i :: 0 <= i < |s| ==> t[i] == s[i];
    if NoRepeat(t) {
      forall i | 0 <= i < |s| ensures s[i] != x {
        assert t[i] != t[|s|];
      }
    }
  }

  function Elements<T(==)>(ids: seq<T>): set<T> {
    set x | x in ids
  }

  // A list repeats nothing exactly when it is as long as its set.
  lemma {:induction false} DistinctCount<T>(ids: seq<T>)
    ensures |Elements(ids)| <= |ids|
    ensures |Elements(ids)| == |ids| <==> NoRepeat(ids)
  {
    if ids != [] {
      var front, last := ids[..|ids| - 1], ids[|ids| - 1];
      DistinctCount(front);
      assert ids == front + [last];
      NoRepeatSnoc(front, last);
      assert Elements(ids) == Elements(front) + {last};
    }
  }

  lemma {:induction false} CountOfDistinct<T>(ids: seq<T>, x: T)
    requires NoRepeat(ids)
    ensures multiset(ids)[x] == if x in ids then 1 else 0
  {
    if ids != [] {
      var front, last := ids[..|ids| - 1], ids[|ids| - 1];
      assert ids == front + [last];
      NoRepeatSnoc(front, last);
      CountOfDistinct(front, x);
    }
  }
}
