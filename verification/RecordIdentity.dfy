// Frozen records: how a payload is frozen and thawed, what that preserves, and what its
// content id identifies.
module RecordIdentity {
  import opened Wrappers
  import opened Texts
  import opened CanonicalJson

  // Payload values, with the container kinds that freezing tells apart.
  datatype Value =
    | Nothing
    | Truth(value: bool)
    | Number(number: int)
    | Str(text: seq<CodePoint>)
    | List(items: seq<Value>)
    | Tuple(items: seq<Value>)
    | Dict(fields: map<string, Value>)
    | Proxy(fields: map<string, Value>)

  predicate IsMapping(v: Value) {
    v.Dict? || v.Proxy?
  }

  // Mappings and tuples are thawed all the way down; a list is returned as it is.
  function Thaw(v: Value): Value {
    match v
    case Dict(fields) => Dict(map k | k in fields :: Thaw(fields[k]))
    case Proxy(fields) => Dict(map k | k in fields :: Thaw(fields[k]))
    case Tuple(items) => List(seq(|items|, i requires 0 <= i < |items| => Thaw(items[i])))
    case _ => v
  }

  // Mappings and lists are frozen all the way down; a tuple is returned as it is.
  function Freeze(v: Value): Value {
    match v
    case Dict(fields) => Proxy(map k | k in fields :: Freeze(fields[k]))
    case Proxy(fields) => Proxy(map k | k in fields :: Freeze(fields[k]))
    case List(items) => Tuple(seq(|items|, i requires 0 <= i < |items| => Freeze(items[i])))
    case _ => v
  }

  // No container that could still be changed.
  predicate Frozen(v: Value) {
    match v
    case List(_) => false
    case Dict(_) => false
    case Tuple(items) => forall i :: 0 <= i < |items| ==> Frozen(items[i])
    case Proxy(fields) => forall k :: k in fields ==> Frozen(fields[k])
    case _ => true
  }

  // ---- when freezing reaches everything ----

  // Inside a list nothing is thawed first, so a tuple there must be frozen already.
  predicate FreezesFully(v: Value) {
    match v
    case Tuple(_) => Frozen(v)
    case List(items) => forall i :: 0 <= i < |items| ==> FreezesFully(items[i])
    case Dict(fields) => forall k :: k in fields ==> FreezesFully(fields[k])
    case Proxy(fields) => forall k :: k in fields ==> FreezesFully(fields[k])
    case _ => true
  }

  predicate Freezable(v: Value) {
    match v
    case Tuple(items) => forall i :: 0 <= i < |items| ==> Freezable(items[i])
    case List(items) => forall i :: 0 <= i < |items| ==> FreezesFully(items[i])
    case Dict(fields) => forall k :: k in fields ==> Freezable(fields[k])
    case Proxy(fields) => forall k :: k in fields ==> Freezable(fields[k])
    case _ => true
  }

  lemma {:induction false} FreezeResult(v: Value)
    ensures Frozen(Freeze(v)) <==> FreezesFully(v)
  {
    match v
    case List(items) =>
      forall i | 0 <= i < |items| ensures Frozen(Freeze(items[i])) <==> FreezesFully(items[i]) {
        FreezeResult(items[i]);
      }
      assert forall i :: 0 <= i < |items| ==> Freeze(v).items[i] == Freeze(items[i]);
    case Dict(fields) =>
      forall k | k in fields ensures Frozen(Freeze(fields[k])) <==> FreezesFully(fields[k]) {
        FreezeResult(fields[k]);
      }
      assert forall k :: k in fields ==> Freeze(v).fields[k] == Freeze(fields[k]);
    case Proxy(fields) =>
      forall k | k in fields ensures Frozen(Freeze(fields[k])) <==> FreezesFully(fields[k]) {
        FreezeResult(fields[k]);
      }
      assert forall k :: k in fields ==> Freeze(v).fields[k] == Freeze(fields[k]);
    case _ =>
  }

  // The stored payload of a record.
  function Stored(payload: Value): Value {
    Freeze(Thaw(payload))
  }

  lemma StoredParts(v: Value)
    ensures IsMapping(v) ==> Stored(v).Proxy? && Stored(v).fields.Keys == v.fields.Keys
                             && forall k :: k in v.fields ==> Stored(v).fields[k] == Stored(v.fields[k])
    ensures v.Tuple? ==> Stored(v).Tuple? && |Stored(v).items| == |v.items|
                         && forall i :: 0 <= i < |v.items| ==> Stored(v).items[i] == Stored(v.items[i])
    ensures v.List? ==> Stored(v) == Freeze(v)
  {
  }

  // What a record stores is frozen throughout exactly when its payload hides no unfrozen tuple in a list.
  lemma {:induction false} StoredIsFrozen(v: Value)
    ensures Frozen(Stored(v)) <==> Freezable(v)
  {
    StoredParts(v);
    match v
    case List(items) =>
      FreezeResult(v);
    case Tuple(items) =>
      forall i | 0 <= i < |items| ensures Frozen(Stored(items[i])) <==> Freezable(items[i]) {
        StoredIsFrozen(items[i]);
      }
    case Dict(fields) =>
      forall k | k in fields ensures Frozen(Stored(fields[k])) <==> Freezable(fields[k]) {
        StoredIsFrozen(fields[k]);
      }
    case Proxy(fields) =>
      forall k | k in fields ensures Frozen(Stored(fields[k])) <==> Freezable(fields[k]) {
        StoredIsFrozen(fields[k]);
      }
    case _ =>
  }

  // Storing is a normal form exactly on frozen values.
  lemma {:induction false} StoredTwice(v: Value)
    ensures Stored(v) == v <==> Frozen(v)
  {
    StoredParts(v);
    match v
    case Tuple(items) =>
      forall i | 0 <= i < |items| ensures Stored(items[i]) == items[i] <==> Frozen(items[i]) {
        StoredTwice(items[i]);
      }
      if Frozen(v) {
        assert Stored(v).items == items;
      }
    case Proxy(fields) =>
      forall k | k in fields ensures Stored(fields[k]) == fields[k] <==> Frozen(fields[k]) {
        StoredTwice(fields[k]);
      }
      if Frozen(v) {
        assert Stored(v).fields == fields;
      }
    case _ =>
  }

  // What a strict JSON parser builds: dictionaries and lists only.
  predicate Plain(v: Value) {
    match v
    case Tuple(_) => false
    case Proxy(_) => false
    case List(items) => forall i :: 0 <= i < |items| ==> Plain(items[i])
    case Dict(fields) => forall k :: k in fields ==> Plain(fields[k])
    case _ => true
  }

  // A payload read from JSON comes back from its record unchanged.
  lemma {:induction false} PlainRoundTrip(v: Value)
    requires Plain(v)
    ensures Thaw(v) == v && Thaw(Freeze(v)) == v
  {
    match v
    case List(items) =>
      forall i | 0 <= i < |items| ensures Thaw(Freeze(items[i])) == items[i] {
        PlainRoundTrip(items[i]);
      }
      var frozen := Freeze(v).items;
      assert forall i :: 0 <= i < |items| ==> frozen[i] == Freeze(items[i]);
      assert Thaw(Tuple(frozen)).items == items;
    case Dict(fields) =>
      forall k | k in fields ensures Thaw(fields[k]) == fields[k] && Thaw(Freeze(fields[k])) == fields[k] {
        PlainRoundTrip(fields[k]);
      }
      var frozen := Freeze(v).fields;
      assert frozen.Keys == fields.Keys && forall k :: k in fields ==> frozen[k] == Freeze(fields[k]);
      assert Thaw(v).fields == fields;
      assert Thaw(Proxy(frozen)).fields == fields;
    case _ =>
  }

  // ---- content ----

  // The JSON tree of a value: lists and tuples, dictionaries and proxies look the same.
  function Content(v: Value): Json {
    match v
    case Nothing => JNull
    case Truth(value) => JBool(value)
    case Number(number) => JInt(number)
    case Str(text) => JText(Units(text))
    case List(items) => JArray(seq(|items|, i requires 0 <= i < |items| => Content(items[i])))
    case Tuple(items) => JArray(seq(|items|, i requires 0 <= i < |items| => Content(items[i])))
    case Dict(fields) => JObject(map k | k in fields :: Content(fields[k]))
    case Proxy(fields) => JObject(map k | k in fields :: Content(fields[k]))
  }

  lemma {:induction false} ThawKeepsContent(v: Value)
    ensures Content(Thaw(v)) == Content(v)
  {
    match v
    case Tuple(items) =>
      forall i | 0 <= i < |items| ensures Content(Thaw(items[i])) == Content(items[i]) {
        ThawKeepsContent(items[i]);
      }
      assert Content(Thaw(v)).items == Content(v).items;
    case Dict(fields) =>
      forall k | k in fields ensures Content(Thaw(fields[k])) == Content(fields[k]) {
        ThawKeepsContent(fields[k]);
      }
      assert Content(Thaw(v)).fields == Content(v).fields;
    case Proxy(fields) =>
      forall k | k in fields ensures Content(Thaw(fields[k])) == Content(fields[k]) {
        ThawKeepsContent(fields[k]);
      }
      assert Content(Thaw(v)).fields == Content(v).fields;
    case _ =>
  }

  lemma {:induction false} FreezeKeepsContent(v: Value)
    ensures Content(Freeze(v)) == Content(v)
  {
    match v
    case List(items) =>
      forall i | 0 <= i < |items| ensures Content(Freeze(items[i])) == Content(items[i]) {
        FreezeKeepsContent(items[i]);
      }
      assert Content(Freeze(v)).items == Content(v).items;
    case Dict(fields) =>
      forall k | k in fields ensures Content(Freeze(fields[k])) == Content(fields[k]) {
        FreezeKeepsContent(fields[k]);
      }
      assert Content(Freeze(v)).fields == Content(v).fields;
    case Proxy(fields) =>
      forall k | k in fields ensures Content(Freeze(fields[k])) == Content(fields[k]) {
        FreezeKeepsContent(fields[k]);
      }
      assert Content(Freeze(v)).fields == Content(v).fields;
    case _ =>
  }

  // ---- canonical bytes ----

  // json.dumps takes dictionaries, lists and tuples, but no mapping proxy.
  predicate Serializable(v: Value) {
    match v
    case Proxy(_) => false
    case List(items) => forall i :: 0 <= i < |items| ==> Serializable(items[i])
    case Tuple(items) => forall i :: 0 <= i < |items| ==> Serializable(items[i])
    case Dict(fields) => forall k :: k in fields ==> Serializable(fields[k])
    case _ => true
  }

  lemma {:induction false} ThawStaysSerializable(v: Value)
    requires Serializable(v)
    ensures Serializable(Thaw(v))
  {
    match v
    case Tuple(items) =>
      forall i | 0 <= i < |items| ensures Serializable(Thaw(items[i])) {
        ThawStaysSerializable(items[i]);
      }
    case Dict(fields) =>
      forall k | k in fields ensures Serializable(Thaw(fields[k])) {
        ThawStaysSerializable(fields[k]);
      }
    case _ =>
  }

  lemma {:induction false} ThawedAgainIsSerializable(v: Value)
    requires Serializable(v)
    ensures Serializable(Thaw(Freeze(v)))
  {
    match v
    case Tuple(items) =>
      ThawStaysSerializable(v);
    case List(items) =>
      forall i | 0 <= i < |items| ensures Serializable(Thaw(Freeze(items[i]))) {
        ThawedAgainIsSerializable(items[i]);
      }
    case Dict(fields) =>
      forall k | k in fields ensures Serializable(Thaw(Freeze(fields[k]))) {
        ThawedAgainIsSerializable(fields[k]);
      }
    case _ =>
  }

  function Without(fields: map<string, Value>, id: string): map<string, Value> {
    map k | k in fields && k != id :: fields[k]
  }

  // The bytes that are hashed: the thawed payload without its own id. A mapping proxy left
  // inside a list makes the serializer raise.
  ghost function CanonicalBytes(payload: Value, id: string): Option<string>
    requires IsMapping(payload)
  {
    var bare := Dict(Without(Thaw(payload).fields, id));
    if Serializable(bare) then Some(Text(Content(bare))) else None
  }

  // The content a payload's id speaks for.
  function Body(payload: Value, id: string): Json
    requires IsMapping(payload)
  {
    JObject(map k | k in payload.fields && k != id :: Content(payload.fields[k]))
  }

  lemma BytesOfBody(payload: Value, id: string)
    requires IsMapping(payload) && CanonicalBytes(payload, id).Some?
    ensures CanonicalBytes(payload, id).value == Text(Body(payload, id))
  {
    hide Text, Serializable;
    var bare := Dict(Without(Thaw(payload).fields, id));
    forall k | k in payload.fields ensures Content(Thaw(payload.fields[k])) == Content(payload.fields[k]) {
      ThawKeepsContent(payload.fields[k]);
    }
    assert Content(bare).fields == Body(payload, id).fields;
  }

  lemma BodyIsStored(payload: Value, id: string)
    requires IsMapping(payload)
    ensures IsMapping(Stored(payload)) && Body(Stored(payload), id) == Body(payload, id)
  {
    StoredParts(payload);
    forall k | k in payload.fields ensures Content(Stored(payload).fields[k]) == Content(payload.fields[k]) {
      ThawKeepsContent(payload.fields[k]);
      FreezeKeepsContent(Thaw(payload.fields[k]));
    }
    assert Body(Stored(payload), id).fields == Body(payload, id).fields;
  }

  // Storing a payload leaves its canonical bytes alone.
  lemma StoringKeepsBytes(payload: Value, id: string)
    requires IsMapping(payload) && CanonicalBytes(payload, id).Some?
    ensures IsMapping(Stored(payload)) && CanonicalBytes(Stored(payload), id) == CanonicalBytes(payload, id)
  {
    hide Text, Body;
    StoredParts(payload);
    BodyIsStored(payload, id);
    StoredIsSerializable(payload, id);
    BytesOfBody(payload, id);
    BytesOfBody(Stored(payload), id);
  }

  lemma StoredIsSerializable(payload: Value, id: string)
    requires IsMapping(payload) && Serializable(Dict(Without(Thaw(payload).fields, id)))
    ensures IsMapping(Stored(payload)) && Serializable(Dict(Without(Thaw(Stored(payload)).fields, id)))
  {
    StoredParts(payload);
    var bare, again := Without(Thaw(payload).fields, id), Without(Thaw(Stored(payload)).fields, id);
    forall k | k in again ensures Serializable(again[k]) {
      assert again[k] == Thaw(Freeze(Thaw(payload.fields[k])));
      assert bare[k] == Thaw(payload.fields[k]) && Serializable(bare[k]);
      ThawedAgainIsSerializable(bare[k]);
    }
  }

  // Equal bytes mean equal content, id aside.
  lemma BytesDetermineBody(a: Value, b: Value, id: string)
    requires IsMapping(a) && IsMapping(b) && CanonicalBytes(a, id).Some?
    requires CanonicalBytes(a, id) == CanonicalBytes(b, id)
    ensures Body(a, id) == Body(b, id)
  {
    hide Text, Body, CanonicalBytes;
    BytesOfBody(a, id);
    BytesOfBody(b, id);
    TextIsInjective(Body(a, id), Body(b, id));
  }

  // ---- records ----

  // A record is made from any mapping whose content passes the contract and can be hashed.
  // The contract looks at content alone: it takes a list or a tuple, and any mapping.
  ghost function Construct(accepts: Json -> bool, payload: Value, id: string): Option<Value>
    requires IsMapping(payload)
  {
    if accepts(Content(payload)) && CanonicalBytes(payload, id).Some? then Some(Stored(payload)) else None
  }

  lemma StoredContent(payload: Value)
    ensures Content(Stored(payload)) == Content(payload)
  {
    ThawKeepsContent(payload);
    FreezeKeepsContent(Thaw(payload));
  }

  // For any test of the content: what a record prints is accepted again with the same bytes, and
  // stored as the same record exactly when the payload is one that freezing reaches throughout.
  lemma ReparsedExactlyWhen(accepts: Json -> bool, payload: Value, id: string)
    requires IsMapping(payload) && Construct(accepts, payload, id).Some?
    ensures var record := Construct(accepts, payload, id).value;
            var printed := Thaw(record);
            && IsMapping(record) && IsMapping(printed)
            && Construct(accepts, printed, id).Some?
            && CanonicalBytes(printed, id) == CanonicalBytes(payload, id)
            && (Construct(accepts, printed, id) == Some(record) <==> Freezable(payload))
  {
    hide CanonicalBytes, Content, Frozen, Freezable;
    var record := Stored(payload);
    var printed := Thaw(record);
    StoringKeepsBytes(payload, id);
    StoredContent(payload);
    ThawKeepsContent(record);
    PrintedBytes(record, id);
    StoredIsFrozen(payload);
    StoredTwice(record);
    ThawTwice(record);
  }

  lemma PrintedBytes(record: Value, id: string)
    requires IsMapping(record) && CanonicalBytes(record, id).Some?
    ensures IsMapping(Thaw(record)) && CanonicalBytes(Thaw(record), id) == CanonicalBytes(record, id)
  {
    hide Text, Content;
    ThawTwice(record);
  }

  lemma {:induction false} ThawTwice(v: Value)
    ensures Thaw(Thaw(v)) == Thaw(v)
  {
    match v
    case Dict(fields) =>
      forall k | k in fields ensures Thaw(Thaw(fields[k])) == Thaw(fields[k]) {
        ThawTwice(fields[k]);
      }
      assert Thaw(Thaw(v)).fields == Thaw(v).fields;
    case Proxy(fields) =>
      forall k | k in fields ensures Thaw(Thaw(fields[k])) == Thaw(fields[k]) {
        ThawTwice(fields[k]);
      }
      assert Thaw(Thaw(v)).fields == Thaw(v).fields;
    case _ =>
  }

  // ---- the shape of the records ----

  predicate IsLeaf(j: Json) {
    !j.JArray? && !j.JObject?
  }

  predicate IsLeafArray(j: Json) {
    j.JArray? && forall i :: 0 <= i < |j.items| ==> IsLeaf(j.items[i])
  }

  // An object of leaves and arrays of leaves.
  predicate IsFlat(j: Json) {
    j.JObject? && forall k :: k in j.fields ==> IsLeaf(j.fields[k]) || IsLeafArray(j.fields[k])
  }

  predicate IsFlatArray(j: Json) {
    j.JArray? && forall i :: 0 <= i < |j.items| ==> IsFlat(j.items[i])
  }

  predicate RecordShape(j: Json) {
    j.JObject? && forall k :: k in j.fields ==>
      IsLeaf(j.fields[k]) || IsLeafArray(j.fields[k]) || IsFlat(j.fields[k]) || IsFlatArray(j.fields[k])
  }

  lemma LeafArrayFreezes(v: Value)
    requires IsLeaf(Content(v)) || IsLeafArray(Content(v))
    ensures FreezesFully(v) && Freezable(v)
  {
    if v.List? || v.Tuple? {
      forall i | 0 <= i < |v.items| ensures IsLeaf(Content(v.items[i])) {
        assert Content(v).items[i] == Content(v.items[i]);
      }
    }
  }

  lemma FlatFreezes(v: Value)
    requires IsFlat(Content(v))
    ensures FreezesFully(v) && Freezable(v)
  {
    forall k | k in v.fields ensures FreezesFully(v.fields[k]) && Freezable(v.fields[k]) {
      assert Content(v).fields[k] == Content(v.fields[k]);
      LeafArrayFreezes(v.fields[k]);
    }
  }

  lemma FlatArrayFreezes(v: Value)
    requires IsFlatArray(Content(v))
    ensures Freezable(v)
  {
    forall i | 0 <= i < |v.items| ensures FreezesFully(v.items[i]) && Freezable(v.items[i]) {
      assert Content(v).items[i] == Content(v.items[i]);
      FlatFreezes(v.items[i]);
    }
  }

  // Freezing reaches every part of a payload with the shape of a record, whatever its containers are.
  lemma RecordShapeIsFreezable(v: Value)
    requires RecordShape(Content(v))
    ensures Freezable(v)
  {
    hide IsLeafArray, IsFlat, IsFlatArray;
    forall k | k in v.fields ensures Freezable(v.fields[k]) {
      var j := Content(v.fields[k]);
      assert Content(v).fields[k] == j;
      if IsLeaf(j) || IsLeafArray(j) {
        LeafArrayFreezes(v.fields[k]);
      } else if IsFlat(j) {
        FlatFreezes(v.fields[k]);
      } else {
        FlatArrayFreezes(v.fields[k]);
      }
    }
  }

  // A record read back from what it prints is the same record.
  lemma RecordRoundTrip(accepts: Json -> bool, payload: Value, id: string)
    requires forall j :: accepts(j) ==> RecordShape(j)
    requires IsMapping(payload) && Construct(accepts, payload, id).Some?
    ensures var record := Construct(accepts, payload, id).value;
            IsMapping(Thaw(record)) && Construct(accepts, Thaw(record), id) == Some(record)
  {
    hide CanonicalBytes, Content, Stored, RecordShape, Freezable;
    RecordShapeIsFreezable(payload);
    ReparsedExactlyWhen(accepts, payload, id);
  }

  // ---- duplicate keys in the JSON text ----

  predicate KeysDistinct(pairs: seq<(string, Value)>) {
    forall i, j :: 0 <= i < j < |pairs| ==> pairs[i].0 != pairs[j].0
  }

  // The hook called with the members of each parsed object.
  method NoDuplicates(pairs: seq<(string, Value)>) returns (r: Option<map<string, Value>>)
    ensures r.Some? <==> KeysDistinct(pairs)
    ensures r.Some? ==> (forall k :: k in r.value <==> exists i :: 0 <= i < |pairs| && pairs[i].0 == k)
                        && forall i :: 0 <= i < |pairs| ==> r.value[pairs[i].0] == pairs[i].1
  {
    var fields: map<string, Value> := map[];
    for i := 0 to |pairs|
      invariant KeysDistinct(pairs[..i])
      invariant forall k :: k in fields <==> exists j :: 0 <= j < i && pairs[j].0 == k
      invariant forall j :: 0 <= j < i ==> pairs[j].0 in fields && fields[pairs[j].0] == pairs[j].1
    {
      if pairs[i].0 in fields {
        return None;
      }
      assert forall j, k :: 0 <= j < k < i ==> pairs[..i][j].0 != pairs[..i][k].0;
      fields := fields[pairs[i].0 := pairs[i].1];
    }
    assert pairs[..|pairs|] == pairs;
    return Some(fields);
  }
}
