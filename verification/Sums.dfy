// Sums and means of a real-valued view of the items of a list.
module Sums {
  import opened Rounding

  function SumBy<T>(f: T -> real, s: seq<T>): real {
    if s == [] then 0.0 else SumBy(f, s[..|s| - 1]) + f(s[|s| - 1])
  }

  lemma SumSnoc<T>(f: T -> real, s: seq<T>, x: T)
    ensures SumBy(f, s + [x]) == SumBy(f, s) + f(x)
  {
    assert (s + [x])[..|s|] == s;
  }

  lemma {:induction false} SumConcat<T>(f: T -> real, s: seq<T>, t: seq<T>)
    ensures SumBy(f, s + t) == SumBy(f, s) + SumBy(f, t)
  {
    if t == [] {
      assert s + t == s;
    } else {
      var u := t[..|t| - 1];
      SumConcat(f, s, u);
      assert s + t == (s + u) + [t[|t| - 1]];
      SumSnoc(f, s + u, t[|t| - 1]);
    }
  }

  // A sum does not depend on the order of its terms.
  lemma {:induction false} SumPermute<T>(f: T -> real, s: seq<T>, t: seq<T>)
    requires multiset(s) == multiset(t)
    ensures SumBy(f, s) == SumBy(f, t)
    decreases |s|
  {
    if s == [] {
      assert |multiset(t)| == 0;
      assert t == [];
    } else {
      var n := |s| - 1;
      var x := s[n];
      assert s == s[..n] + [x];
      assert x in multiset(t);
      var k :| 0 <= k < |t| && t[k] == x;
      var u := t[..k] + t[k + 1..];
      assert t == t[..k] + [x] + t[k + 1..];
      assert multiset(u) == multiset(t) - multiset{x};
      assert multiset(s[..n]) == multiset(s) - multiset{x};
      SumPermute(f, s[..n], u);
      SumConcat(f, t[..k], t[k + 1..]);
      SumConcat(f, t[..k] + [x], t[k + 1..]);
      SumSnoc(f, t[..k], x);
    }
  }

  function Mean<T>(f: T -> real, s: seq<T>): real
    requires s != []
  {
    SumBy(f, s) / |s| as real
  }

  lemma {:induction false} SumWithin<T(!new)>(f: T -> real, s: seq<T>, lo: real, hi: real)
    requires forall r :: r in s ==> lo <= f(r) <= hi
    ensures lo * |s| as real <= SumBy(f, s) <= hi * |s| as real
  {
    if s != [] {
      SumWithin(f, s[..|s| - 1], lo, hi);
      NextMultiple(lo, |s| - 1);
      NextMultiple(hi, |s| - 1);
    }
  }

  lemma ScaleStrict(a: real, b: real, n: real)
    requires a < b && n > 0.0
    ensures a * n < b * n
  {
  }

  lemma DivideBounds(lo: real, hi: real, total: real, n: real)
    requires n > 0.0 && lo * n <= total <= hi * n
    ensures lo <= total / n <= hi
  {
    var q := total / n;
    assert q * n == total;
    if q < lo {
      ScaleStrict(q, lo, n);
    } else if q > hi {
      ScaleStrict(hi, q, n);
    }
  }

  // A mean stays inside the range of its terms.
  lemma MeanWithin<T(!new)>(f: T -> real, s: seq<T>, lo: real, hi: real)
    requires s != []
    requires forall r :: r in s ==> lo <= f(r) <= hi
    ensures lo <= Mean(f, s) <= hi
  {
    SumWithin(f, s, lo, hi);
    DivideBounds(lo, hi, SumBy(f, s), |s| as real);
  }

  lemma NextMultiple(a: real, n: nat)
    ensures a * (n + 1) as real == a * n as real + a
  {
    assert (n + 1) as real == n as real + 1.0;
  }

  lemma AddTriangle(x: real, y: real)
    ensures Abs(x + y) <= Abs(x) + Abs(y)
  {
  }

  lemma DivideGap(a: real, v: real, g: real, n: real)
    requires n > 0.0 && Abs(a * n - v) <= g
    ensures Abs(a - v / n) <= g / n
  {
    var q, h := v / n, g / n;
    assert q * n == v && h * n == g;
    if a - q > h {
      ScaleStrict(h, a - q, n);
    } else if q - a > h {
      ScaleStrict(h, q - a, n);
    }
  }
}
