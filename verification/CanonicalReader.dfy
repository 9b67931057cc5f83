// A reader of JSON text (sections 2 to 7 of RFC 8259, without insignificant whitespace, in ASCII), and what it makes
// of canonical text: the tree the text was written from.
module CanonicalReader {
  import opened Wrappers
  import opened Lists
  import opened SortedIds
  import opened Texts
  import opened CanonicalJson

  // ---- strings ----

  function HexValue(c: char): Option<int> {
    if '0' <= c <= '9' then Some(c as int - '0' as int)
    else if 'a' <= c <= 'f' then Some(c as int - 'a' as int + 10)
    else if 'A' <= c <= 'F' then Some(c as int - 'A' as int + 10)
    else None
  }

  // Four hexadecimal digits of either case.
  function ReadHex(s: string): Option<int>
    requires |s| == 4
  {
    var a, b, c, d := HexValue(s[0]), HexValue(s[1]), HexValue(s[2]), HexValue(s[3]);
    if a.None? || b.None? || c.None? || d.None? then None
    else Some(((a.value * 16 + b.value) * 16 + c.value) * 16 + d.value)
  }

  function Unescaped(c: char): Option<CodeUnit> {
    match c
    case '\"' => Some(0x22)
    case '\\' => Some(0x5C)
    case '/' => Some(0x2F)
    case 'b' => Some(8)
    case 'f' => Some(12)
    case 'n' => Some(10)
    case 'r' => Some(13)
    case 't' => Some(9)
    case _ => None
  }

  function ReadUnit(s: string): (r: Option<(CodeUnit, string)>)
    ensures r.Some? ==> |r.value.1| < |s|
  {
    if s == "" || s[0] == '\"' then None
    else if s[0] != '\\' then
      if 0x20 <= s[0] as int < 0x80 then Some((s[0] as int, s[1..])) else None
    else if |s| >= 6 && s[1] == 'u' then
      var u := ReadHex(s[2..6]);
      if u.Some? && 0 <= u.value < 0x10000 then Some((u.value, s[6..])) else None
    else if |s| >= 2 && Unescaped(s[1]).Some? then Some((Unescaped(s[1]).value, s[2..]))
    else None
  }

  // The code units up to the closing quotation mark.
  function ReadUnits(s: string): (r: Option<(seq<CodeUnit>, string)>)
    ensures r.Some? ==> |r.value.1| < |s|
    decreases |s|
  {
    if s == "" then None
    else if s[0] == '\"' then Some(([], s[1..]))
    else
      match ReadUnit(s)
      case None => None
      case Some((u, rest)) =>
        match ReadUnits(rest)
        case None => None
        case Some((units, after)) => Some(([u] + units, after))
  }

  // The code point of a surrogate pair.
  function Combined(high: int, low: int): int {
    0x10000 + (high - 0xD800) * 0x400 + (low - 0xDC00)
  }

  // The characters that code units encode, a surrogate pair giving one character.
  function KeyOf(units: seq<CodeUnit>): Option<string> {
    if units == [] then Some("")
    else if IsHigh(units[0]) && |units| >= 2 && IsLow(units[1]) then
      match KeyOf(units[2..])
      case None => None
      case Some(rest) => Some([Combined(units[0], units[1]) as char] + rest)
    else if IsHigh(units[0]) || IsLow(units[0]) then None
    else
      match KeyOf(units[1..])
      case None => None
      case Some(rest) => Some([units[0] as char] + rest)
  }

  // ---- numbers ----

  function DigitRun(s: string): (n: nat)
    ensures n <= |s| && AllDigits(s[..n])
  {
    if s == "" || !IsDigit(s[0]) then 0
    else
      var n := DigitRun(s[1..]);
      assert s[..n + 1] == [s[0]] + s[1..][..n];
      n + 1
  }

  function DigitValue(c: char): nat
    requires IsDigit(c)
  {
    c as int - '0' as int
  }

  function NumberOf(digits: string): nat
    requires AllDigits(digits)
  {
    if digits == "" then 0
    else
      var last := digits[|digits| - 1];
      assert IsDigit(last);
      10 * NumberOf(digits[..|digits| - 1]) + DigitValue(last)
  }

  function ReadInteger(s: string): (r: Option<(int, string)>)
    ensures r.Some? ==> |r.value.1| < |s|
  {
    var negative := s != "" && s[0] == '-';
    var body := if negative then s[1..] else s;
    var n := DigitRun(body);
    if n == 0 then None
    else
      var value: int := NumberOf(body[..n]);
      Some((if negative then -value else value, body[n..]))
  }

  // ---- values ----

  function ReadWord(s: string, word: string, j: Json): (r: Option<(Json, string)>)
    requires word != ""
    ensures r.Some? ==> |r.value.1| < |s|
  {
    if |s| >= |word| && s[..|word|] == word then Some((j, s[|word|..])) else None
  }

  function ReadValue(s: string): (r: Option<(Json, string)>)
    ensures r.Some? ==> |r.value.1| < |s|
    decreases |s|, 0
  {
    if s == "" then None
    else if s[0] == 'n' then ReadWord(s, "null", JNull)
    else if s[0] == 't' then ReadWord(s, "true", JBool(true))
    else if s[0] == 'f' then ReadWord(s, "false", JBool(false))
    else if s[0] == '\"' then
      match ReadUnits(s[1..])
      case None => None
      case Some((units, rest)) => Some((JText(units), rest))
    else if s[0] == '[' then
      if |s| >= 2 && s[1] == ']' then Some((JArray([]), s[2..]))
      else
        match ReadItems(s[1..])
        case None => None
        case Some((items, rest)) => Some((JArray(items), rest))
    else if s[0] == '{' then
      if |s| >= 2 && s[1] == '}' then Some((JObject(map[]), s[2..]))
      else
        match ReadMembers(s[1..])
        case None => None
        case Some((fields, rest)) => Some((JObject(fields), rest))
    else
      match ReadInteger(s)
      case None => None
      case Some((n, rest)) => Some((JInt(n), rest))
  }

  function ReadItems(s: string): (r: Option<(seq<Json>, string)>)
    ensures r.Some? ==> |r.value.1| < |s|
    decreases |s|, 1
  {
    match ReadValue(s)
    case None => None
    case Some((item, rest)) =>
      if rest == "" then None
      else if rest[0] == ']' then Some(([item], rest[1..]))
      else if rest[0] == ',' then
        match ReadItems(rest[1..])
        case None => None
        case Some((items, after)) => Some(([item] + items, after))
      else None
  }

  // A key may not be repeated.
  function ReadMembers(s: string): (r: Option<(map<string, Json>, string)>)
    ensures r.Some? ==> |r.value.1| < |s|
    decreases |s|, 1
  {
    match ReadKey(s)
    case None => None
    case Some((key, body)) =>
      match ReadValue(body)
      case None => None
      case Some((value, rest)) =>
        if rest == "" then None
        else if rest[0] == '}' then Some((map[key := value], rest[1..]))
        else if rest[0] == ',' then
          match ReadMembers(rest[1..])
          case None => None
          case Some((fields, after)) => if key in fields then None else Some((fields[key := value], after))
        else None
  }

  // A quoted key and the colon after it.
  function ReadKey(s: string): (r: Option<(string, string)>)
    ensures r.Some? ==> |r.value.1| < |s|
  {
    if s == "" || s[0] != '\"' then None
    else
      match ReadUnits(s[1..])
      case None => None
      case Some((units, rest)) =>
        if KeyOf(units).None? || rest == "" || rest[0] != ':' then None else Some((KeyOf(units).value, rest[1..]))
  }

  // ---- canonical text is read back ----

  lemma HexRead(d: int)
    requires 0 <= d < 16
    ensures HexValue(HexDigit(d)) == Some(d)
  {
  }

  lemma Hex4Read(u: CodeUnit)
    ensures ReadHex(Hex4(u)) == Some(u)
  {
    hide HexValue, HexDigit;
    HexRead(u / 4096);
    HexRead(u / 256 % 16);
    HexRead(u / 16 % 16);
    HexRead(u % 16);
    Nibbles(u);
  }

  lemma UnitRead(u: CodeUnit, x: string)
    ensures ReadUnit(EscapeUnit(u) + x) == Some((u, x))
  {
    hide ReadHex, HexDigit;
    EscapeShape(u);
    var s := EscapeUnit(u) + x;
    assert s[|EscapeUnit(u)|..] == x;
    if |EscapeUnit(u)| == 6 {
      assert s[2..6] == Hex4(u);
      Hex4Read(u);
    }
  }

  lemma {:induction false} UnitsRead(units: seq<CodeUnit>, x: string)
    ensures ReadUnits(EscapeUnits(units) + "\"" + x) == Some((units, x))
  {
    hide EscapeUnit, EscapeUnits, ReadUnit;
    EscapedStart(units, x);
    if units != [] {
      UnitRead(units[0], EscapeUnits(units[1..]) + "\"" + x);
      UnitsRead(units[1..], x);
      assert units == [units[0]] + units[1..];
    } else {
      assert EscapeUnits(units) + "\"" + x != "";
    }
  }

  lemma {:induction false} KeyRead(key: string)
    ensures KeyOf(Units(Points(key))) == Some(key)
  {
    if key != "" {
      var points, units := Points(key), Units(Points(key));
      assert points[1..] == Points(key[1..]);
      KeyRead(key[1..]);
      assert units[|PointUnits(points[0])|..] == Units(points[1..]);
      assert key == [key[0]] + key[1..];
      PointRead(key[0]);
    }
  }

  lemma PointRead(c: char)
    ensures var units := PointUnits(c as int);
            if c as int < 0x10000 then units == [c as int] && !IsHigh(units[0]) && !IsLow(units[0])
            else
              && |units| == 2 && IsHigh(units[0]) && IsLow(units[1])
              && Combined(units[0], units[1]) == c as int
  {
  }

  lemma {:induction false} DecimalRead(n: nat)
    ensures AllDigits(Decimal(n)) && NumberOf(Decimal(n)) == n
  {
    DecimalDigits(n);
    if n >= 10 {
      DecimalRead(n / 10);
      assert Decimal(n)[..|Decimal(n)| - 1] == Decimal(n / 10);
    }
  }

  lemma {:induction false} RunOfDigits(digits: string, x: string)
    requires AllDigits(digits) && Delimited(x)
    ensures DigitRun(digits + x) == |digits|
  {
    if digits == "" {
      assert digits + x == x;
    } else {
      RunOfDigits(digits[1..], x);
      assert (digits + x)[1..] == digits[1..] + x;
    }
  }

  lemma IntegerRead(n: int, x: string)
    requires Delimited(x)
    ensures ReadInteger(Integer(n) + x) == Some((n, x))
  {
    hide Decimal, AllDigits, Delimited, NumberOf, DigitRun;
    IntegerStart(n, x);
    var digits := Decimal(if n < 0 then -n else n);
    DecimalDigits(if n < 0 then -n else n);
    DecimalRead(if n < 0 then -n else n);
    RunOfDigits(digits, x);
    assert (digits + x)[..|digits|] == digits && (digits + x)[|digits|..] == x;
  }

  lemma WordRead(word: string, x: string, j: Json)
    requires word != ""
    ensures ReadWord(word + x, word, j) == Some((j, x))
  {
  }

  lemma IntegerIsRead(n: int, x: string)
    requires Delimited(x)
    ensures ReadValue(Integer(n) + x) == Some((JInt(n), x))
  {
    hide Decimal, ReadInteger, ReadUnits, ReadItems, ReadMembers, ReadWord;
    IntegerRead(n, x);
    DecimalDigits(if n < 0 then -n else n);
    assert (Integer(n) + x)[0] == Integer(n)[0];
  }

  // Canonical text, followed by anything that may follow a value, is read as the tree it was written from.
  lemma {:induction false} TextIsRead(j: Json, x: string)
    requires Delimited(x)
    ensures ReadValue(Text(j) + x) == Some((j, x))
    decreases j, 2, 0
  {
    hide Integer, EscapeUnits, ItemsText, MembersText, SortedKeys, Delimited, ReadInteger, ReadUnits, ReadItems, ReadMembers,
         ReadWord;
    match j
    case JNull => WordRead("null", x, j);
    case JBool(value) => WordRead(if value then "true" else "false", x, j);
    case JInt(number) => IntegerIsRead(number, x);
    case JText(units) =>
      QuotedBody(units, x);
      UnitsRead(units, x);
    case JArray(_) => ArrayIsRead(j, x);
    case JObject(_) => ObjectIsRead(j, x);
  }

  lemma {:induction false} ArrayIsRead(j: Json, x: string)
    requires j.JArray? && Delimited(x)
    ensures ReadValue(Text(j) + x) == Some((j, x))
    decreases j, 1, 0
  {
    hide ItemsText, Delimited, ReadInteger, ReadUnits, ReadItems, ReadMembers, ReadWord;
    var s := Text(j) + x;
    assert s[0] == '[' && s[1..] == ItemsText(j, 0) + "]" + x;
    ItemsStart(j, 0, x);
    assert s[1] == s[1..][0] && s[2..] == s[1..][1..];
    if j.items != [] {
      ItemsAreRead(j, 0, x);
      assert j.items[0..] == j.items;
    }
  }

  lemma {:induction false} ObjectIsRead(j: Json, x: string)
    requires j.JObject? && Delimited(x)
    ensures ReadValue(Text(j) + x) == Some((j, x))
    decreases j, 1, 0
  {
    hide MembersText, SortedKeys, Delimited, ReadInteger, ReadUnits, ReadItems, ReadMembers, ReadWord;
    var s, keys := Text(j) + x, SortedKeys(j.fields);
    assert s[0] == '{' && s[1..] == MembersText(j, keys) + "}" + x;
    assert s[1] == s[1..][0] && s[2..] == s[1..][1..];
    if keys == [] {
      NoMembers(j, x);
      assert j.fields == map[];
    } else {
      SomeMembers(j, keys, x);
      KeysDoNotRepeat(j.fields);
      MembersAreRead(j, keys, x);
      assert (map k | k in keys :: j.fields[k]) == j.fields;
    }
  }

  lemma KeysDoNotRepeat(fields: map<string, Json>)
    ensures NoRepeat(SortedKeys(fields)) && Ascending(SortedKeys(fields))
  {
    hide SortBy, Increasing, Ascending;
    SortIncreasing(ById(), Listing(fields.Keys));
    IncreasingNoRepeat(ById(), SortedKeys(fields));
    IncreasingMeans(SortedKeys(fields));
  }

  lemma {:induction false} ItemsAreRead(j: Json, from: nat, x: string)
    requires j.JArray? && from < |j.items|
    ensures ReadItems(ItemsText(j, from) + "]" + x) == Some((j.items[from..], x))
    decreases j, 0, |j.items| - from
  {
    hide Text, ItemsText, Delimited, ReadValue;
    ItemsStart(j, from, x);
    var rest := if from + 1 == |j.items| then "]" + x else "," + (ItemsText(j, from + 1) + "]" + x);
    TextIsRead(j.items[from], rest);
    assert j.items[from..] == [j.items[from]] + j.items[from + 1..];
    if from + 1 < |j.items| {
      ItemsAreRead(j, from + 1, x);
      assert rest[1..] == ItemsText(j, from + 1) + "]" + x;
    } else {
      assert rest[1..] == x && j.items[from..] == [j.items[from]];
    }
  }

  lemma KeyIsRead(key: string, body: string)
    ensures ReadKey(Quoted(Units(Points(key))) + (":" + body)) == Some((key, body))
  {
    hide Units, Points, EscapeUnits, ReadUnits, KeyOf;
    QuotedBody(Units(Points(key)), ":" + body);
    QuotedStart(Units(Points(key)));
    UnitsRead(Units(Points(key)), ":" + body);
    KeyRead(key);
    assert (":" + body)[1..] == body;
  }

  lemma {:induction false} MembersAreRead(j: Json, keys: seq<string>, x: string)
    requires j.JObject? && keys != [] && NoRepeat(keys) && forall k :: k in keys ==> k in j.fields
    ensures ReadMembers(MembersText(j, keys) + "}" + x) == Some((map k | k in keys :: j.fields[k], x))
    decreases j, 0, |keys|
  {
    hide Text, MembersText, Delimited, Units, Points, Quoted, ReadKey, ReadValue;
    SomeMembers(j, keys, x);
    MembersDelimit(j, keys, x);
    var key, rest := keys[0], AfterMember(j, keys, x);
    KeyIsRead(key, Text(j.fields[key]) + rest);
    TextIsRead(j.fields[key], rest);
    assert keys == [key] + keys[1..];
    if |keys| > 1 {
      RestOfKeys(keys);
      MembersAreRead(j, keys[1..], x);
      assert rest[1..] == MembersText(j, keys[1..]) + "}" + x;
      assert (map k | k in keys[1..] :: j.fields[k])[key := j.fields[key]] == map k | k in keys :: j.fields[k];
    } else {
      assert rest[1..] == x;
      assert map[key := j.fields[key]] == map k | k in keys :: j.fields[k];
    }
  }

  lemma RestOfKeys(keys: seq<string>)
    requires keys != [] && NoRepeat(keys)
    ensures NoRepeat(keys[1..]) && keys[0] !in keys[1..]
  {
    assert forall i :: 0 <= i < |keys[1..]| ==> keys[1..][i] == keys[i + 1];
  }

  // The whole of a canonical text is read as its tree.
  lemma CanonicalRoundTrip(j: Json)
    ensures ReadValue(Text(j)) == Some((j, ""))
  {
    hide Text, ReadValue;
    TextIsRead(j, "");
    assert Text(j) + "" == Text(j);
  }

  // ---- of all texts that are read as a tree, the canonical one ----

  // The keys of some members in the order in which they stand.
  function KeysInOrder(s: string): seq<string>
    decreases |s|
  {
    match ReadKey(s)
    case None => []
    case Some((key, body)) =>
      match ReadValue(body)
      case None => []
      case Some((_, rest)) => [key] + if rest != "" && rest[0] == ',' then KeysInOrder(rest[1..]) else []
  }

  lemma {:induction false} KeysStandInOrder(j: Json, keys: seq<string>, x: string)
    requires j.JObject? && keys != [] && forall k :: k in keys ==> k in j.fields
    ensures KeysInOrder(MembersText(j, keys) + "}" + x) == keys
    decreases |keys|
  {
    hide Text, MembersText, Delimited, Units, Points, Quoted, ReadKey, ReadValue;
    SomeMembers(j, keys, x);
    MembersDelimit(j, keys, x);
    var key, rest := keys[0], AfterMember(j, keys, x);
    KeyIsRead(key, Text(j.fields[key]) + rest);
    TextIsRead(j.fields[key], rest);
    assert keys == [key] + keys[1..];
    if |keys| > 1 {
      KeysStandInOrder(j, keys[1..], x);
      assert rest[1..] == MembersText(j, keys[1..]) + "}" + x;
    }
  }

  // The members of a canonical object stand in ascending order of their keys.
  lemma KeysAscend(j: Json)
    requires j.JObject? && j.fields != map[]
    ensures var keys := KeysInOrder(Text(j)[1..]);
            Ascending(keys) && forall k :: k in keys <==> k in j.fields
  {
    hide MembersText, SortedKeys, KeysInOrder, Ascending;
    var keys := SortedKeys(j.fields);
    assert keys != [] by {
      var k :| k in j.fields;
      assert k in keys;
    }
    KeysDoNotRepeat(j.fields);
    KeysStandInOrder(j, keys, "");
    assert MembersText(j, keys) + "}" + "" == Text(j)[1..];
  }

  // Printable ASCII units stand for themselves, seven have a short escape, and all others have four digits in lower case.
  lemma EscapesAreShortest(u: CodeUnit)
    ensures |EscapeUnit(u)| == 1 <==> 0x20 <= u <= 0x7E && u != 0x22 && u != 0x5C
    ensures |EscapeUnit(u)| == 2 <==> u in {0x22, 0x5C, 8, 9, 10, 12, 13}
    ensures |EscapeUnit(u)| > 2 ==>
              |EscapeUnit(u)| == 6 && forall i :: 2 <= i < 6 ==> '0' <= EscapeUnit(u)[i] <= '9' || 'a' <= EscapeUnit(u)[i] <= 'f'
    ensures forall i :: 0 <= i < |EscapeUnit(u)| ==> 0x20 <= EscapeUnit(u)[i] as int <= 0x7E
    ensures ' ' in EscapeUnit(u) ==> u == 0x20
  {
  }

  // A number has no leading zero.
  lemma {:induction false} NumbersArePlain(n: nat)
    ensures Decimal(n) != "" && (Decimal(n)[0] == '0' ==> n == 0)
  {
    if n >= 10 {
      NumbersArePlain(n / 10);
      assert Decimal(n)[0] == Decimal(n / 10)[0];
    }
  }

  ghost predicate Printable(s: string) {
    forall i :: 0 <= i < |s| ==> 0x20 <= s[i] as int <= 0x7E
  }

  // No text and no key inside the tree holds a blank.
  predicate Blankless(j: Json) {
    match j
    case JText(units) => 0x20 !in units
    case JArray(items) => forall i :: 0 <= i < |items| ==> Blankless(items[i])
    case JObject(fields) => forall k :: k in fields ==> 0x20 !in Units(Points(k)) && Blankless(fields[k])
    case _ => true
  }

  // Canonical text is printable ASCII, and a blank in it stands inside a string.
  ghost predicate Compact(s: string, blankless: bool) {
    Printable(s) && (blankless ==> ' ' !in s)
  }

  lemma Both(s: string, t: string, blankless: bool)
    requires Compact(s, blankless) && Compact(t, blankless)
    ensures Compact(s + t, blankless)
  {
  }

  lemma {:induction false} EscapedIsCompact(units: seq<CodeUnit>)
    ensures Compact(EscapeUnits(units), 0x20 !in units)
  {
    hide EscapeUnit;
    if units != [] {
      EscapedIsCompact(units[1..]);
      EscapesAreShortest(units[0]);
      assert units == [units[0]] + units[1..];
      assert Compact(EscapeUnit(units[0]), 0x20 !in units);
      Both(EscapeUnit(units[0]), EscapeUnits(units[1..]), 0x20 !in units);
    }
  }

  lemma QuotedIsCompact(units: seq<CodeUnit>)
    ensures Compact(Quoted(units), 0x20 !in units)
  {
    hide EscapeUnits;
    EscapedIsCompact(units);
    Both("\"", EscapeUnits(units), 0x20 !in units);
    Both("\"" + EscapeUnits(units), "\"", 0x20 !in units);
  }

  lemma IntegerIsCompact(n: int)
    ensures Compact(Integer(n), true)
  {
    hide Decimal;
    DecimalDigits(if n < 0 then -n else n);
  }

  lemma {:induction false} TextIsCompact(j: Json)
    ensures Compact(Text(j), Blankless(j))
    decreases j, 1, 0
  {
    hide Integer, Quoted, ItemsText, MembersText, SortedKeys, Compact;
    match j
    case JNull => WordsAreCompact();
    case JBool(_) => WordsAreCompact();
    case JInt(number) => IntegerIsCompact(number);
                         WordsAreCompact();
    case JText(units) => QuotedIsCompact(units);
    case JArray(_) =>
      ItemsAreCompact(j, 0);
      WordsAreCompact();
      Both("[", ItemsText(j, 0), Blankless(j));
      Both("[" + ItemsText(j, 0), "]", Blankless(j));
    case JObject(fields) =>
      MembersAreCompact(j, SortedKeys(fields));
      WordsAreCompact();
      Both("{", MembersText(j, SortedKeys(fields)), Blankless(j));
      Both("{" + MembersText(j, SortedKeys(fields)), "}", Blankless(j));
  }

  lemma WordsAreCompact()
    ensures forall b :: Compact("null", b) && Compact("true", b) && Compact("false", b)
    ensures forall b :: Compact("[", b) && Compact("]", b) && Compact("{", b) && Compact("}", b) && Compact(",", b) && Compact(":", b)
    ensures forall s, b :: Compact(s, true) ==> Compact(s, b)
    ensures forall b :: Compact("", b)
  {
  }

  lemma {:induction false} ItemsAreCompact(j: Json, from: nat)
    requires j.JArray? && from <= |j.items|
    ensures Compact(ItemsText(j, from), Blankless(j))
    decreases j, 0, |j.items| - from
  {
    hide Text, Compact;
    WordsAreCompact();
    if from < |j.items| {
      TextIsCompact(j.items[from]);
      WeakerCompact(Text(j.items[from]), Blankless(j.items[from]), Blankless(j));
      if from + 1 < |j.items| {
        ItemsAreCompact(j, from + 1);
        Both(",", ItemsText(j, from + 1), Blankless(j));
        Both(Text(j.items[from]), "," + ItemsText(j, from + 1), Blankless(j));
      } else {
        Both(Text(j.items[from]), "", Blankless(j));
      }
    }
  }

  lemma WeakerCompact(s: string, a: bool, b: bool)
    requires Compact(s, a) && (b ==> a)
    ensures Compact(s, b)
  {
  }

  lemma {:induction false} MembersAreCompact(j: Json, keys: seq<string>)
    requires j.JObject? && forall k :: k in keys ==> k in j.fields
    ensures Compact(MembersText(j, keys), Blankless(j))
    decreases j, 0, |keys|
  {
    hide Text, Compact, Quoted, Units, Points;
    WordsAreCompact();
    if keys != [] {
      var key, b := keys[0], Blankless(j);
      var quoted, value := Quoted(Units(Points(key))), Text(j.fields[key]);
      QuotedIsCompact(Units(Points(key)));
      WeakerCompact(quoted, 0x20 !in Units(Points(key)), b);
      TextIsCompact(j.fields[key]);
      WeakerCompact(value, Blankless(j.fields[key]), b);
      Both(quoted, ":", b);
      Both(quoted + ":", value, b);
      if |keys| > 1 {
        MembersAreCompact(j, keys[1..]);
        Both(",", MembersText(j, keys[1..]), b);
        Both(quoted + ":" + value, "," + MembersText(j, keys[1..]), b);
      } else {
        Both(quoted + ":" + value, "", b);
      }
    }
  }
}
