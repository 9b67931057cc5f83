// Python strings: code points, and the UTF-16 code units in which JSON escapes them.
module Texts {
  // A Python string is a list of code points; lone surrogates are allowed.
  type CodePoint = p: int | 0 <= p < 0x110000

  type CodeUnit = u: int | 0 <= u < 0x10000

  function PointUnits(p: CodePoint): seq<CodeUnit> {
    if p < 0x10000 then [p] else [0xD800 + (p - 0x10000) / 0x400, 0xDC00 + (p - 0x10000) % 0x400]
  }

  function Units(text: seq<CodePoint>): seq<CodeUnit> {
    if text == [] then [] else PointUnits(text[0]) + Units(text[1..])
  }

  predicate IsHigh(p: int) {
    0xD800 <= p < 0xDC00
  }

  predicate IsLow(p: int) {
    0xDC00 <= p < 0xE000
  }

  // No high surrogate is directly followed by a low one.
  predicate PairFree(text: seq<CodePoint>) {
    forall i :: 0 <= i < |text| - 1 ==> !(IsHigh(text[i]) && IsLow(text[i + 1]))
  }

  function Points(key: string): seq<CodePoint> {
    seq(|key|, i requires 0 <= i < |key| => key[i] as int)
  }

  lemma FirstUnit(text: seq<CodePoint>)
    ensures text == [] <==> Units(text) == []
    ensures text != [] ==> (if text[0] < 0x10000 then Units(text)[0] == text[0]
                            else IsHigh(Units(text)[0]) && |Units(text)| >= 2 && IsLow(Units(text)[1]))
  {
  }

  lemma TailPairFree(text: seq<CodePoint>)
    requires text != [] && PairFree(text)
    ensures PairFree(text[1..])
  {
    forall i | 0 <= i < |text[1..]| - 1 ensures !(IsHigh(text[1..][i]) && IsLow(text[1..][i + 1])) {
      assert text[1..][i] == text[i + 1] && text[1..][i + 1] == text[i + 2];
    }
  }

  // Code units determine a text in which no two lone surrogates pair up.
  lemma {:induction false} UnitsAreInjective(a: seq<CodePoint>, b: seq<CodePoint>)
    requires PairFree(a) && PairFree(b) && Units(a) == Units(b)
    ensures a == b
    decreases |a|
  {
    FirstUnit(a);
    FirstUnit(b);
    if a != [] {
      FirstPoints(a, b);
      assert Units(a)[|PointUnits(a[0])|..] == Units(a[1..]);
      assert Units(b)[|PointUnits(b[0])|..] == Units(b[1..]);
      TailPairFree(a);
      TailPairFree(b);
      UnitsAreInjective(a[1..], b[1..]);
      assert a == [a[0]] + a[1..] && b == [b[0]] + b[1..];
    }
  }

  lemma FirstPoints(a: seq<CodePoint>, b: seq<CodePoint>)
    requires PairFree(a) && PairFree(b) && Units(a) == Units(b) && a != [] && b != []
    ensures a[0] == b[0]
  {
    FirstUnit(a);
    FirstUnit(b);
    if a[0] < 0x10000 && b[0] >= 0x10000 {
      LoneIsNotPaired(a);
    } else if a[0] >= 0x10000 && b[0] < 0x10000 {
      LoneIsNotPaired(b);
    } else if a[0] >= 0x10000 {
      assert Units(a)[0] == PointUnits(a[0])[0] && Units(a)[1] == PointUnits(a[0])[1];
      assert Units(b)[0] == PointUnits(b[0])[0] && Units(b)[1] == PointUnits(b[0])[1];
    }
  }

  lemma LoneIsNotPaired(text: seq<CodePoint>)
    requires PairFree(text) && text != [] && text[0] < 0x10000
    ensures !(IsHigh(Units(text)[0]) && |Units(text)| >= 2 && IsLow(Units(text)[1]))
  {
    FirstUnit(text);
    assert Units(text)[1..] == Units(text[1..]);
    FirstUnit(text[1..]);
    if |text| >= 2 {
      assert text[1..][0] == text[1];
    }
  }

  // Two lone surrogates and the character they would encode have the same code units.
  lemma SurrogatesCollide()
    ensures Units([0xD800, 0xDC00]) == Units([0x10000])
  {
    var a: seq<CodePoint> := [0xD800, 0xDC00];
    assert a[1..] == [0xDC00] && a[1..][1..] == [];
    assert Units([0xDC00]) == [0xDC00];
    var b: seq<CodePoint> := [0x10000];
    assert b[1..] == [];
  }

  // Texts of Unicode scalar values are determined by their code units.
  lemma PointsAreInjective(k: string, l: string)
    requires Units(Points(k)) == Units(Points(l))
    ensures k == l
  {
    PointsArePairFree(k);
    PointsArePairFree(l);
    UnitsAreInjective(Points(k), Points(l));
    assert |Points(k)| == |k| && |Points(l)| == |l|;
    forall i | 0 <= i < |k| ensures k[i] == l[i] {
      assert Points(k)[i] == Points(l)[i];
      assert k[i] as int == l[i] as int;
    }
  }

  lemma PointsArePairFree(k: string)
    ensures PairFree(Points(k))
  {
    forall i | 0 <= i < |Points(k)| - 1 ensures !(IsHigh(Points(k)[i]) && IsLow(Points(k)[i + 1])) {
      assert Points(k)[i] == k[i] as int;
    }
  }
}
