// The program publishes every number through `round(x, 3)`.  Floats are modelled
// by reals, so the rounding is the exact one: nearest thousandth, ties to even.
module Rounding {
  function Abs(x: real): (r: real)
    ensures r >= 0.0 && (r == x || r == -x)
  {
    if x < 0.0 then -x else x
  }

  function Max(x: real, y: real): (r: real)
    ensures r >= x && r >= y && (r == x || r == y)
  {
    if x < y then y else x
  }

  function Min(x: real, y: real): (r: real)
    ensures r <= x && r <= y && (r == x || r == y)
  {
    if y < x then y else x
  }

  function RoundHalfEven(x: real): int {
    var below := x.Floor;
    var part := x - below as real;
    if part < 0.5 || (part == 0.5 && below % 2 == 0) then below else below + 1
  }

  function Round3(x: real): real {
    RoundHalfEven(x * 1000.0) as real / 1000.0
  }

  // The largest distance between a number and its published form.
  const HALF_STEP := 0.0005

  // No thousandth is nearer to x than Round3(x) is.
  lemma Round3IsNearest(x: real, k: int)
    ensures Abs(Round3(x) - x) <= Abs(k as real / 1000.0 - x)
    ensures Abs(Round3(x) - x) <= HALF_STEP
  {
    var y := x * 1000.0;
    var n := RoundHalfEven(y);
    assert Abs(n as real - y) <= 0.5;
    assert Abs(n as real - y) <= Abs(k as real - y) by {
      if k <= y.Floor {
        assert k as real <= y.Floor as real;
      } else {
        assert k as real >= y.Floor as real + 1.0;
      }
    }
  }

  // n thousandths are nearest to x, and even if another count is as near.
  ghost predicate CountsThousandths(n: int, x: real) {
    Abs(n as real - x * 1000.0) <= 0.5 && (Abs(n as real - x * 1000.0) == 0.5 ==> n % 2 == 0)
  }

  // y is x as it is published: the nearest thousandth, of two equally near ones the even one.
  ghost predicate IsPublished(y: real, x: real) {
    exists n: int :: CountsThousandths(n, x) && y == n as real / 1000.0
  }

  lemma Round3IsPublished(x: real)
    ensures IsPublished(Round3(x), x)
  {
    assert CountsThousandths(RoundHalfEven(x * 1000.0), x);
  }

  // So there is one published form of a number.
  lemma PublishedOnce(y: real, z: real, x: real)
    requires IsPublished(y, x) && IsPublished(z, x)
    ensures y == z
  {
    var m: int :| CountsThousandths(m, x) && y == m as real / 1000.0;
    var n: int :| CountsThousandths(n, x) && z == n as real / 1000.0;
    assert Abs((m - n) as real) <= 1.0;
  }

  lemma Round3Monotone(x: real, y: real)
    requires x <= y
    ensures Round3(x) <= Round3(y)
  {
    var a, b := x * 1000.0, y * 1000.0;
    assert a.Floor <= b.Floor;
    assert RoundHalfEven(a) <= RoundHalfEven(b);
  }

  // Published numbers are fixed points.
  lemma Round3OnGrid(k: int)
    ensures Round3(k as real / 1000.0) == k as real / 1000.0
  {
    assert (k as real / 1000.0) * 1000.0 == k as real;
  }

  lemma Round3Error(x: real)
    ensures -HALF_STEP <= Round3(x) - x <= HALF_STEP
  {
    Round3IsNearest(x, 0);
  }
}
