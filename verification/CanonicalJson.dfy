// Canonical JSON text of a record: sorted keys, no spaces, every character outside printable
// ASCII escaped as UTF-16 code units (sections 4, 5, 6 and 7 of RFC 8259).
module CanonicalJson {
  import opened Lists
  import opened SortedIds
  import opened Texts

  // ---- trees and their text ----

  datatype Json =
    | JNull
    | JBool(value: bool)
    | JInt(number: int)
    | JText(units: seq<CodeUnit>)
    | JArray(items: seq<Json>)
    | JObject(fields: map<string, Json>)

  function HexDigit(d: int): char
    requires 0 <= d < 16
  {
    if d < 10 then '0' + d as char else 'a' + (d - 10) as char
  }

  function Hex4(u: CodeUnit): string {
    [HexDigit(u / 4096), HexDigit(u / 256 % 16), HexDigit(u / 16 % 16), HexDigit(u % 16)]
  }

  function EscapeUnit(u: CodeUnit): string {
    if u == 0x22 then "\\\""
    else if u == 0x5C then "\\\\"
    else if u == 8 then "\\b"
    else if u == 9 then "\\t"
    else if u == 10 then "\\n"
    else if u == 12 then "\\f"
    else if u == 13 then "\\r"
    else if 0x20 <= u <= 0x7E then [u as char]
    else "\\u" + Hex4(u)
  }

  function EscapeUnits(units: seq<CodeUnit>): string {
    if units == [] then "" else EscapeUnit(units[0]) + EscapeUnits(units[1..])
  }

  function Quoted(units: seq<CodeUnit>): string {
    "\"" + EscapeUnits(units) + "\""
  }

  function Decimal(n: nat): string {
    if n < 10 then ['0' + n as char] else Decimal(n / 10) + ['0' + (n % 10) as char]
  }

  function Integer(n: int): string {
    if n < 0 then "-" + Decimal(-n) else Decimal(n)
  }

  // Some listing of a set without repeats.
  ghost function Listing(keys: set<string>): (r: seq<string>)
    ensures NoRepeat(r) && forall k :: k in r <==> k in keys
  {
    if keys == {} then []
    else
      var k :| k in keys;
      NoRepeatSnoc(Listing(keys - {k}), k);
      Listing(keys - {k}) + [k]
  }

  ghost function SortedKeys(fields: map<string, Json>): (r: seq<string>)
    ensures forall k :: k in r <==> k in fields
  {
    SortElements(ById(), Listing(fields.Keys));
    SortBy(ById(), Listing(fields.Keys))
  }

  ghost function Text(j: Json): string
    decreases j, 1, 0
  {
    match j
    case JNull => "null"
    case JBool(value) => if value then "true" else "false"
    case JInt(number) => Integer(number)
    case JText(units) => Quoted(units)
    case JArray(items) => "[" + ItemsText(j, 0) + "]"
    case JObject(fields) => "{" + MembersText(j, SortedKeys(fields)) + "}"
  }

  ghost function ItemsText(j: Json, from: nat): string
    requires j.JArray? && from <= |j.items|
    decreases j, 0, |j.items| - from
  {
    if from == |j.items| then ""
    else Text(j.items[from]) + (if from + 1 == |j.items| then "" else "," + ItemsText(j, from + 1))
  }

  ghost function MembersText(j: Json, keys: seq<string>): string
    requires j.JObject? && forall k :: k in keys ==> k in j.fields
    decreases j, 0, |keys|
  {
    if keys == [] then ""
    else
      Quoted(Units(Points(keys[0]))) + ":" + Text(j.fields[keys[0]])
      + (if |keys| == 1 then "" else "," + MembersText(j, keys[1..]))
  }

  // ---- prefix codes ----

  lemma HexDigits(d: int, e: int)
    requires 0 <= d < 16 && 0 <= e < 16 && HexDigit(d) == HexDigit(e)
    ensures d == e
  {
  }

  lemma Nibbles(u: CodeUnit)
    ensures u == 4096 * (u / 4096) + 256 * (u / 256 % 16) + 16 * (u / 16 % 16) + u % 16
  {
    assert u / 16 == 16 * (u / 256) + u / 16 % 16;
    assert u / 256 == 16 * (u / 4096) + u / 256 % 16;
  }

  lemma Hex4IsInjective(u: CodeUnit, v: CodeUnit)
    requires Hex4(u) == Hex4(v)
    ensures u == v
  {
    hide HexDigit;
    var s, t := Hex4(u), Hex4(v);
    assert s[0] == t[0] && s[1] == t[1] && s[2] == t[2] && s[3] == t[3];
    HexDigits(u / 4096, v / 4096);
    HexDigits(u / 256 % 16, v / 256 % 16);
    HexDigits(u / 16 % 16, v / 16 % 16);
    HexDigits(u % 16, v % 16);
    Nibbles(u);
    Nibbles(v);
  }

  // The two kinds of escape, by their second character.
  lemma EscapeShape(u: CodeUnit)
    ensures |EscapeUnit(u)| >= 1 && EscapeUnit(u)[0] != '\"'
    ensures EscapeUnit(u)[0] == '\\' <==> |EscapeUnit(u)| > 1
    ensures |EscapeUnit(u)| == 1 ==> EscapeUnit(u)[0] == u as char && u <= 0x7E
    ensures |EscapeUnit(u)| > 1 ==> |EscapeUnit(u)| == if EscapeUnit(u)[1] == 'u' then 6 else 2
  {
  }

  lemma EscapeUnitIsInjective(u: CodeUnit, v: CodeUnit)
    requires EscapeUnit(u) == EscapeUnit(v)
    ensures u == v
  {
    EscapeShape(u);
    EscapeShape(v);
    if |EscapeUnit(u)| == 6 {
      assert EscapeUnit(u)[2..] == Hex4(u) && EscapeUnit(v)[2..] == Hex4(v);
      Hex4IsInjective(u, v);
    } else if |EscapeUnit(u)| == 2 {
      assert EscapeUnit(u)[1] == EscapeUnit(v)[1];
    }
  }

  lemma UnitIsPrefixCode(u: CodeUnit, v: CodeUnit, x: string, y: string)
    requires EscapeUnit(u) + x == EscapeUnit(v) + y
    ensures u == v && x == y
  {
    EscapeShape(u);
    EscapeShape(v);
    var s := EscapeUnit(u) + x;
    assert s[0] == EscapeUnit(u)[0] == EscapeUnit(v)[0];
    if |EscapeUnit(u)| > 1 {
      assert s[1] == EscapeUnit(u)[1] == EscapeUnit(v)[1];
    }
    SameLengthPrefix(EscapeUnit(u), EscapeUnit(v), x, y);
    EscapeUnitIsInjective(u, v);
  }

  lemma SameLengthPrefix(a: string, b: string, x: string, y: string)
    requires |a| == |b| && a + x == b + y
    ensures a == b && x == y
  {
    assert a == (a + x)[..|a|] && b == (b + y)[..|b|];
    assert x == (a + x)[|a|..] && y == (b + y)[|b|..];
  }

  lemma EscapedStart(s: seq<CodeUnit>, x: string)
    ensures (EscapeUnits(s) + "\"" + x)[0] == '\"' <==> s == []
    ensures s == [] ==> (EscapeUnits(s) + "\"" + x)[1..] == x
    ensures s != [] ==> EscapeUnits(s) + "\"" + x == EscapeUnit(s[0]) + (EscapeUnits(s[1..]) + "\"" + x)
  {
    hide EscapeUnit;
    if s != [] {
      EscapeShape(s[0]);
      Regroup(EscapeUnit(s[0]), EscapeUnits(s[1..]), x);
    }
  }

  lemma Regroup(first: string, rest: string, x: string)
    requires first != ""
    ensures first + rest + "\"" + x == first + (rest + "\"" + x)
    ensures (first + rest + "\"" + x)[0] == first[0]
  {
  }

  // Escaped text ends at the first bare quotation mark.
  lemma {:induction false} EscapedIsPrefixCode(s: seq<CodeUnit>, t: seq<CodeUnit>, x: string, y: string)
    requires EscapeUnits(s) + "\"" + x == EscapeUnits(t) + "\"" + y
    ensures s == t && x == y
    decreases |s|
  {
    hide EscapeUnit, EscapeUnits;
    EscapedStart(s, x);
    EscapedStart(t, y);
    if s != [] {
      UnitIsPrefixCode(s[0], t[0], EscapeUnits(s[1..]) + "\"" + x, EscapeUnits(t[1..]) + "\"" + y);
      EscapedIsPrefixCode(s[1..], t[1..], x, y);
      assert s == [s[0]] + s[1..] && t == [t[0]] + t[1..];
    }
  }

  lemma QuotedBody(s: seq<CodeUnit>, x: string)
    ensures (Quoted(s) + x)[1..] == EscapeUnits(s) + "\"" + x
  {
    hide EscapeUnits;
  }

  lemma QuotedIsPrefixCode(s: seq<CodeUnit>, t: seq<CodeUnit>, x: string, y: string)
    requires Quoted(s) + x == Quoted(t) + y
    ensures s == t && x == y
  {
    hide EscapeUnits;
    QuotedBody(s, x);
    QuotedBody(t, y);
    EscapedIsPrefixCode(s, t, x, y);
  }

  predicate IsDigit(c: char) {
    '0' <= c <= '9'
  }

  predicate AllDigits(s: string) {
    forall i :: 0 <= i < |s| ==> IsDigit(s[i])
  }

  lemma {:induction false} DecimalDigits(n: nat)
    ensures AllDigits(Decimal(n)) && Decimal(n) != ""
  {
    if n >= 10 {
      DecimalDigits(n / 10);
    }
  }

  lemma {:induction false} DecimalIsInjective(m: nat, n: nat)
    requires Decimal(m) == Decimal(n)
    ensures m == n
    decreases m
  {
    var s, t := Decimal(m), Decimal(n);
    if m >= 10 {
      DecimalDigits(m / 10);
    }
    if n >= 10 {
      DecimalDigits(n / 10);
    }
    if m >= 10 && n >= 10 {
      assert s[..|s| - 1] == Decimal(m / 10) && t[..|t| - 1] == Decimal(n / 10);
      assert s[|s| - 1] == '0' + (m % 10) as char && t[|t| - 1] == '0' + (n % 10) as char;
      DecimalIsInjective(m / 10, n / 10);
    }
  }

  // What may follow a value inside a text.
  predicate Delimited(x: string) {
    x == "" || x[0] == ',' || x[0] == ']' || x[0] == '}'
  }

  lemma DigitsEndTogether(s: string, t: string, x: string, y: string)
    requires AllDigits(s) && AllDigits(t) && Delimited(x) && Delimited(y) && s + x == t + y
    ensures s == t && x == y
  {
    var w := s + x;
    assert |s| < |w| ==> w[|s|] == x[0];
    assert |t| < |w| ==> w[|t|] == y[0];
    assert forall i :: 0 <= i < |s| ==> w[i] == s[i];
    assert forall i :: 0 <= i < |t| ==> w[i] == t[i];
    SameLengthPrefix(s, t, x, y);
  }

  lemma IntegerStart(n: int, x: string)
    ensures Integer(n) != "" && ((Integer(n) + x)[0] == '-' <==> n < 0)
    ensures n < 0 ==> (Integer(n) + x)[1..] == Decimal(-n) + x
  {
    hide Decimal;
    DecimalDigits(if n < 0 then -n else n);
  }

  lemma IntegerIsPrefixCode(m: int, n: int, x: string, y: string)
    requires Integer(m) + x == Integer(n) + y && Delimited(x) && Delimited(y)
    ensures m == n && x == y
  {
    hide Decimal, AllDigits, Delimited;
    IntegerStart(m, x);
    IntegerStart(n, y);
    var a: nat, b: nat := if m < 0 then -m else m, if n < 0 then -n else n;
    DecimalDigits(a);
    DecimalDigits(b);
    DigitsEndTogether(Decimal(a), Decimal(b), x, y);
    DecimalIsInjective(a, b);
  }

  // ---- trees are a prefix code too ----

  // The first character of a text tells which kind of value it is.
  predicate StartsAs(j: Json, c: char) {
    match j
    case JNull => c == 'n'
    case JBool(value) => c == if value then 't' else 'f'
    case JInt(_) => c == '-' || IsDigit(c)
    case JText(_) => c == '\"'
    case JArray(_) => c == '['
    case JObject(_) => c == '{'
  }

  lemma TextStarts(j: Json)
    ensures Text(j) != "" && StartsAs(j, Text(j)[0])
  {
    hide Decimal, EscapeUnits, ItemsText, MembersText, SortedKeys;
    if j.JInt? {
      var n := j.number;
      DecimalDigits(if n < 0 then -n else n);
    }
  }

  lemma SameStart(a: Json, b: Json, x: string, y: string)
    requires Text(a) + x == Text(b) + y
    ensures a.JNull? == b.JNull? && a.JBool? == b.JBool? && a.JInt? == b.JInt?
    ensures a.JText? == b.JText? && a.JArray? == b.JArray? && a.JObject? == b.JObject?
    ensures a.JBool? ==> a.value == b.value
  {
    hide Text;
    TextStarts(a);
    TextStarts(b);
    assert (Text(a) + x)[0] == Text(a)[0] && (Text(b) + y)[0] == Text(b)[0];
  }

  // Two texts, each followed by a delimiter, are equal only when the values are.
  lemma {:induction false} TextIsPrefixCode(a: Json, b: Json, x: string, y: string)
    requires Text(a) + x == Text(b) + y && Delimited(x) && Delimited(y)
    ensures a == b && x == y
    decreases a, 1, 0
  {
    hide Integer, Quoted, ItemsText, MembersText, SortedKeys, Delimited;
    SameStart(a, b, x, y);
    match a
    case JNull =>
      SameLengthPrefix(Text(a), Text(b), x, y);
    case JBool(_) =>
      SameLengthPrefix(Text(a), Text(b), x, y);
    case JInt(number) =>
      IntegerIsPrefixCode(number, b.number, x, y);
    case JText(units) =>
      QuotedIsPrefixCode(units, b.units, x, y);
    case JArray(items) =>
      assert (Text(a) + x)[1..] == ItemsText(a, 0) + "]" + x;
      assert (Text(b) + y)[1..] == ItemsText(b, 0) + "]" + y;
      ItemsArePrefixCode(a, 0, b, 0, x, y);
      assert items == items[0..] && b.items == b.items[0..];
    case JObject(fields) =>
      var keys, others := SortedKeys(fields), SortedKeys(b.fields);
      assert (Text(a) + x)[1..] == MembersText(a, keys) + "}" + x;
      assert (Text(b) + y)[1..] == MembersText(b, others) + "}" + y;
      MembersArePrefixCode(a, keys, b, others, x, y);
      assert fields.Keys == b.fields.Keys;
      assert fields == b.fields;
  }

  lemma ItemsStart(j: Json, from: nat, x: string)
    requires j.JArray? && from <= |j.items|
    ensures from == |j.items| <==> (ItemsText(j, from) + "]" + x)[0] == ']'
    ensures from == |j.items| ==> (ItemsText(j, from) + "]" + x)[1..] == x
    ensures from < |j.items| ==>
              var rest := if from + 1 == |j.items| then "]" + x else "," + (ItemsText(j, from + 1) + "]" + x);
              ItemsText(j, from) + "]" + x == Text(j.items[from]) + rest && Delimited(rest)
  {
    hide Text;
    if from < |j.items| {
      TextStarts(j.items[from]);
    }
  }

  lemma {:induction false} ItemsArePrefixCode(a: Json, i: nat, b: Json, k: nat, x: string, y: string)
    requires a.JArray? && b.JArray? && i <= |a.items| && k <= |b.items|
    requires ItemsText(a, i) + "]" + x == ItemsText(b, k) + "]" + y
    ensures a.items[i..] == b.items[k..] && x == y
    decreases a, 0, |a.items| - i
  {
    hide Text, ItemsText, Delimited;
    ItemsStart(a, i, x);
    ItemsStart(b, k, y);
    if i < |a.items| {
      var rest := if i + 1 == |a.items| then "]" + x else "," + (ItemsText(a, i + 1) + "]" + x);
      var other := if k + 1 == |b.items| then "]" + y else "," + (ItemsText(b, k + 1) + "]" + y);
      TextIsPrefixCode(a.items[i], b.items[k], rest, other);
      assert rest[0] == other[0] && rest[1..] == other[1..];
      assert a.items[i..] == [a.items[i]] + a.items[i + 1..] && b.items[k..] == [b.items[k]] + b.items[k + 1..];
      if i + 1 < |a.items| {
        assert rest[1..] == ItemsText(a, i + 1) + "]" + x && other[1..] == ItemsText(b, k + 1) + "]" + y;
        ItemsArePrefixCode(a, i + 1, b, k + 1, x, y);
      } else {
        assert rest[1..] == x && other[1..] == y;
      }
    }
  }

  lemma NoMembers(j: Json, x: string)
    requires j.JObject?
    ensures MembersText(j, []) + "}" + x == "}" + x
  {
  }

  // The text after the value of the first of some members.
  ghost function AfterMember(j: Json, keys: seq<string>, x: string): string
    requires keys != [] && j.JObject? && forall k :: k in keys ==> k in j.fields
  {
    if |keys| == 1 then "}" + x else "," + (MembersText(j, keys[1..]) + "}" + x)
  }

  lemma SomeMembers(j: Json, keys: seq<string>, x: string)
    requires keys != [] && j.JObject? && forall k :: k in keys ==> k in j.fields
    ensures MembersText(j, keys) + "}" + x
         == Quoted(Units(Points(keys[0]))) + (":" + (Text(j.fields[keys[0]]) + AfterMember(j, keys, x)))
    ensures (MembersText(j, keys) + "}" + x)[0] == '\"'
  {
    hide Text, Units, Points, Quoted;
    var quoted, value := Quoted(Units(Points(keys[0]))), Text(j.fields[keys[0]]);
    var tail := if |keys| == 1 then "" else "," + MembersText(j, keys[1..]);
    assert MembersText(j, keys) == quoted + ":" + value + tail;
    QuotedStart(Units(Points(keys[0])));
    Reassociate(quoted, value, tail, x);
    if |keys| == 1 {
      assert tail + "}" + x == "}" + x;
    } else {
      Joined(MembersText(j, keys[1..]), x);
    }
  }

  lemma Joined(members: string, x: string)
    ensures "," + members + "}" + x == "," + (members + "}" + x)
  {
  }

  lemma MembersDelimit(j: Json, keys: seq<string>, x: string)
    requires keys != [] && j.JObject? && forall k :: k in keys ==> k in j.fields
    ensures Delimited(AfterMember(j, keys, x))
  {
    hide MembersText;
  }

  lemma QuotedStart(units: seq<CodeUnit>)
    ensures Quoted(units) != "" && Quoted(units)[0] == '\"'
  {
  }

  lemma Reassociate(quoted: string, value: string, tail: string, x: string)
    requires quoted != ""
    ensures quoted + ":" + value + tail + "}" + x == quoted + (":" + (value + (tail + "}" + x)))
    ensures (quoted + ":" + value + tail + "}" + x)[0] == quoted[0]
  {
  }

  lemma {:induction false} MembersArePrefixCode(a: Json, keys: seq<string>, b: Json, others: seq<string>, x: string, y: string)
    requires a.JObject? && b.JObject?
    requires (forall k :: k in keys ==> k in a.fields) && (forall k :: k in others ==> k in b.fields)
    requires MembersText(a, keys) + "}" + x == MembersText(b, others) + "}" + y
    ensures keys == others && x == y && forall k :: k in keys ==> a.fields[k] == b.fields[k]
    decreases a, 0, |keys|
  {
    hide Text, MembersText, Delimited, Units, Points, Quoted;
    NoMembers(a, x);
    NoMembers(b, y);
    if keys != [] {
      SomeMembers(a, keys, x);
    }
    if others != [] {
      SomeMembers(b, others, y);
    }
    if keys == [] || others == [] {
      assert ("}" + x)[0] == ("}" + y)[0] == '}';
      assert ("}" + x)[1..] == x && ("}" + y)[1..] == y;
    } else {
      var k, l := keys[0], others[0];
      var rest, other := AfterMember(a, keys, x), AfterMember(b, others, y);
      var valueA, valueB := Text(a.fields[k]) + rest, Text(b.fields[l]) + other;
      QuotedIsPrefixCode(Units(Points(k)), Units(Points(l)), ":" + valueA, ":" + valueB);
      PointsAreInjective(k, l);
      assert (":" + valueA)[1..] == valueA && (":" + valueB)[1..] == valueB;
      assert Delimited(rest) && Delimited(other) by {
        MembersDelimit(a, keys, x);
        MembersDelimit(b, others, y);
      }
      TextIsPrefixCode(a.fields[k], b.fields[l], rest, other);
      assert rest[0] == other[0] && rest[1..] == other[1..];
      assert keys == [k] + keys[1..] && others == [l] + others[1..];
      if |keys| > 1 {
        assert rest[1..] == MembersText(a, keys[1..]) + "}" + x && other[1..] == MembersText(b, others[1..]) + "}" + y;
        MembersArePrefixCode(a, keys[1..], b, others[1..], x, y);
      } else {
        assert rest[1..] == x && other[1..] == y;
      }
    }
  }

  // Equal canonical texts come from equal trees.
  lemma TextIsInjective(a: Json, b: Json)
    requires Text(a) == Text(b)
    ensures a == b
  {
    hide Text;
    assert Text(a) + "" == Text(a) && Text(b) + "" == Text(b);
    TextIsPrefixCode(a, b, "", "");
  }
}
