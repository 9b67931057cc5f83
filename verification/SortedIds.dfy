// Identifiers in Python's string order, and sorting them by a number and then by themselves.
module SortedIds {
  import opened Lists

  predicate StrLess(a: string, b: string) {
    b != [] && (a == [] || a[0] < b[0] || (a[0] == b[0] && StrLess(a[1..], b[1..])))
  }

  lemma {:induction false} StrLessIsOrder(a: string, b: string, c: string)
    ensures !StrLess(a, a)
    ensures StrLess(a, b) || a == b || StrLess(b, a)
    ensures StrLess(a, b) ==> !StrLess(b, a)
    ensures StrLess(a, b) && StrLess(b, c) ==> StrLess(a, c)
    decreases |a| + |b| + |c|
  {
    if a != [] {
      var b' := if b == [] then [] else b[1..];
      var c' := if c == [] then [] else c[1..];
      StrLessIsOrder(a[1..], b', c');
      if b != [] && a[0] == b[0] && a[1..] == b[1..] {
        assert a == [a[0]] + a[1..] && b == [b[0]] + b[1..];
      }
    }
  }

  // At the first place where they differ, a has ended or has the smaller character.
  ghost predicate ComesBefore(a: string, b: string) {
    exists k: nat :: k <= |a| && k < |b| && a[..k] == b[..k] && (k == |a| || a[k] < b[k])
  }

  lemma {:induction false} StrLessMeans(a: string, b: string)
    ensures StrLess(a, b) <==> ComesBefore(a, b)
  {
    if a == [] {
      if b != [] {
        assert a[..0] == b[..0];
      }
    } else if b != [] {
      StrLessMeans(a[1..], b[1..]);
      if a[0] < b[0] {
        assert a[..0] == b[..0];
      }
      if a[0] == b[0] && ComesBefore(a[1..], b[1..]) {
        var k: nat :| k <= |a[1..]| && k < |b[1..]| && a[1..][..k] == b[1..][..k] && (k == |a[1..]| || a[1..][k] < b[1..][k]);
        assert a[..k + 1] == [a[0]] + a[1..][..k] && b[..k + 1] == [b[0]] + b[1..][..k];
      }
      if ComesBefore(a, b) {
        var k: nat :| k <= |a| && k < |b| && a[..k] == b[..k] && (k == |a| || a[k] < b[k]);
        if k > 0 {
          assert a[..k][0] == b[..k][0];
          assert a[1..][..k - 1] == a[..k][1..] && b[1..][..k - 1] == b[..k][1..];
        }
      }
    }
  }

  // The order of sorted(..., key=lambda id: (rank(id), id)).
  predicate Before(rank: string -> real, a: string, b: string) {
    rank(a) < rank(b) || (rank(a) == rank(b) && StrLess(a, b))
  }

  lemma BeforeIsOrder(rank: string -> real, a: string, b: string, c: string)
    ensures !Before(rank, a, a)
    ensures Before(rank, a, b) || a == b || Before(rank, b, a)
    ensures Before(rank, a, b) ==> !Before(rank, b, a)
    ensures Before(rank, a, b) && Before(rank, b, c) ==> Before(rank, a, c)
  {
    StrLessIsOrder(a, b, c);
    StrLessIsOrder(a, a, a);
  }

  // Plain string order.
  function ById(): string -> real {
    (id: string) => 0.0
  }

  predicate Increasing(rank: string -> real, s: seq<string>) {
    forall i, j :: 0 <= i < j < |s| ==> Before(rank, s[i], s[j])
  }

  function Insert(rank: string -> real, s: seq<string>, x: string): seq<string> {
    if s == [] || Before(rank, x, s[0]) then [x] + s else [s[0]] + Insert(rank, s[1..], x)
  }

  function SortBy(rank: string -> real, s: seq<string>): seq<string> {
    if s == [] then [] else Insert(rank, SortBy(rank, s[1..]), s[0])
  }

  lemma {:induction false} InsertMultiset(rank: string -> real, s: seq<string>, x: string)
    ensures multiset(Insert(rank, s, x)) == multiset(s) + multiset{x}
  {
    if !(s == [] || Before(rank, x, s[0])) {
      InsertMultiset(rank, s[1..], x);
      assert s == [s[0]] + s[1..];
    }
  }

  lemma {:induction false} SortMultiset(rank: string -> real, s: seq<string>)
    ensures multiset(SortBy(rank, s)) == multiset(s)
  {
    if s != [] {
      SortMultiset(rank, s[1..]);
      InsertMultiset(rank, SortBy(rank, s[1..]), s[0]);
      assert s == [s[0]] + s[1..];
    }
  }

  lemma SortElements(rank: string -> real, s: seq<string>)
    ensures forall x :: x in SortBy(rank, s) <==> x in s
    ensures |SortBy(rank, s)| == |s|
  {
    SortMultiset(rank, s);
    forall x ensures x in SortBy(rank, s) <==> x in s {
      assert x in multiset(SortBy(rank, s)) <==> x in multiset(s);
    }
    assert |SortBy(rank, s)| == |multiset(SortBy(rank, s))| == |multiset(s)| == |s|;
  }

  lemma {:induction false} InsertIncreasing(rank: string -> real, s: seq<string>, x: string)
    requires Increasing(rank, s) && x !in s
    ensures Increasing(rank, Insert(rank, s, x))
  {
    var r := Insert(rank, s, x);
    if s == [] {
    } else if Before(rank, x, s[0]) {
      forall i, j | 0 <= i < j < |r| ensures Before(rank, r[i], r[j]) {
        if i == 0 {
          BeforeIsOrder(rank, x, s[0], s[j - 1]);
        }
      }
    } else {
      var rest := Insert(rank, s[1..], x);
      assert forall y :: y in s[1..] ==> y in s;
      InsertIncreasing(rank, s[1..], x);
      InsertMultiset(rank, s[1..], x);
      forall j | 0 <= j < |rest| ensures Before(rank, s[0], rest[j]) {
        assert rest[j] in multiset(s[1..]) + multiset{x};
        if rest[j] == x {
          BeforeIsOrder(rank, x, s[0], s[0]);
        } else {
          assert rest[j] in s[1..];
          var k :| 0 <= k < |s[1..]| && s[1..][k] == rest[j];
          assert s[k + 1] == rest[j];
        }
      }
    }
  }

  // Sorting distinct identifiers yields them in strictly increasing order.
  lemma {:induction false} SortIncreasing(rank: string -> real, s: seq<string>)
    requires NoRepeat(s)
    ensures Increasing(rank, SortBy(rank, s))
  {
    if s != [] {
      forall i, j | 0 <= i < j < |s[1..]| ensures s[1..][i] != s[1..][j] {
        assert s[i + 1] != s[j + 1];
      }
      SortIncreasing(rank, s[1..]);
      SortElements(rank, s[1..]);
      forall k | 0 <= k < |s[1..]| ensures s[1..][k] != s[0] {
        assert s[0] != s[k + 1];
      }
      InsertIncreasing(rank, SortBy(rank, s[1..]), s[0]);
    }
  }

  // There is only one strictly increasing listing of a set.
  lemma {:induction false} IncreasingIsUnique(rank: string -> real, s: seq<string>, t: seq<string>)
    requires Increasing(rank, s) && Increasing(rank, t)
    requires forall x :: x in s <==> x in t
    ensures s == t
  {
    assert forall k :: 0 <= k < |t| ==> t[k] in s;
    assert forall k :: 0 <= k < |s| ==> s[k] in t;
    if s != [] {
      FirstIsLeast(rank, s, t[0]);
      FirstIsLeast(rank, t, s[0]);
      BeforeIsOrder(rank, t[0], s[0], t[0]);
      forall x ensures x in s[1..] <==> x in t[1..] {
        TailHas(rank, s, x);
        TailHas(rank, t, x);
      }
      IncreasingIsUnique(rank, s[1..], t[1..]);
    }
  }

  lemma FirstIsLeast(rank: string -> real, s: seq<string>, x: string)
    requires Increasing(rank, s) && x in s
    ensures x == s[0] || Before(rank, s[0], x)
  {
    var k :| 0 <= k < |s| && s[k] == x;
    assert 0 < k ==> Before(rank, s[0], s[k]);
  }

  lemma TailHas(rank: string -> real, s: seq<string>, x: string)
    requires s != [] && Increasing(rank, s)
    ensures x in s[1..] <==> x in s && x != s[0]
  {
    if x in s[1..] {
      var k :| 0 <= k < |s[1..]| && s[1..][k] == x;
      assert s[k + 1] == x;
      BeforeIsOrder(rank, s[0], x, x);
    }
    if x in s && x != s[0] {
      var k :| 0 <= k < |s| && s[k] == x;
      assert s[1..][k - 1] == x;
    }
  }

  ghost predicate Ascending(s: seq<string>) {
    forall i, j :: 0 <= i < j < |s| ==> ComesBefore(s[i], s[j])
  }

  lemma IncreasingMeans(s: seq<string>)
    ensures Increasing(ById(), s) <==> Ascending(s)
  {
    hide ComesBefore, StrLess;
    forall i, j | 0 <= i < j < |s| ensures Before(ById(), s[i], s[j]) <==> ComesBefore(s[i], s[j]) {
      StrLessMeans(s[i], s[j]);
    }
  }

  // In an increasing list, what comes before in order comes before in place.
  lemma IndexOrder(rank: string -> real, s: seq<string>, i: nat, j: nat)
    requires Increasing(rank, s) && i < |s| && j < |s|
    ensures Before(rank, s[i], s[j]) ==> i < j
  {
    BeforeIsOrder(rank, s[i], s[j], s[i]);
    assert j < i ==> Before(rank, s[j], s[i]);
  }

  lemma IncreasingNoRepeat(rank: string -> real, s: seq<string>)
    requires Increasing(rank, s)
    ensures NoRepeat(s)
  {
    forall i, j | 0 <= i < j < |s| ensures s[i] != s[j] {
      BeforeIsOrder(rank, s[i], s[j], s[i]);
    }
  }

  // Sorting gives the same result for any order of the same distinct identifiers.
  lemma SortIgnoresOrder(rank: string -> real, s: seq<string>, t: seq<string>)
    requires NoRepeat(s) && NoRepeat(t) && forall x :: x in s <==> x in t
    ensures SortBy(rank, s) == SortBy(rank, t)
  {
    SortIncreasing(rank, s);
    SortIncreasing(rank, t);
    SortElements(rank, s);
    SortElements(rank, t);
    IncreasingIsUnique(rank, SortBy(rank, s), SortBy(rank, t));
  }

  function Dedup(s: seq<string>): (r: seq<string>)
    ensures forall x :: x in r <==> x in s
    ensures NoRepeat(r)
  {
    if s == [] then []
    else
      var rest := Dedup(s[..|s| - 1]);
      if s[|s| - 1] in rest then rest else rest + [s[|s| - 1]]
  }

  // tuple(sorted(set(s)))
  function SortedSet(s: seq<string>): seq<string> {
    SortBy(ById(), Dedup(s))
  }

  // The members of the list, each once, in ascending order.
  lemma SortedSetIs(s: seq<string>)
    ensures Ascending(SortedSet(s)) && forall x :: x in SortedSet(s) <==> x in s
    ensures SortedSet(s) == [] <==> s == []
  {
    hide SortBy, Ascending;
    SortIncreasing(ById(), Dedup(s));
    SortElements(ById(), Dedup(s));
    IncreasingMeans(SortedSet(s));
    if s != [] {
      assert s[0] in SortedSet(s);
    }
    if SortedSet(s) != [] {
      assert SortedSet(s)[0] in s;
    }
  }
}
