/** JSON values as the client sees them: objects keep the order in which their
    keys were first inserted, so an object is a sequence of fields. */
module JsonValue {

  datatype Option<+T> = None | Some(value: T)

  const U64_LIMIT: int := 0x1_0000_0000_0000_0000
  const I64_LIMIT: int := 0x8000_0000_0000_0000

  /** The integers a JSON number can hold exactly: an unsigned or a signed 64-bit word. */
  type WireInt = x: int | -0x8000_0000_0000_0000 <= x < 0x1_0000_0000_0000_0000

  /** A number outside the integer words is a floating-point number; its rounding
      is not modelled, so it is a real. */
  datatype Number = Integer(value: WireInt) | Float(approx: real)

  datatype Json =
    | Null
    | Bool(flag: bool)
    | Num(number: Number)
    | Str(text: string)
    | Arr(items: seq<Json>)
    | Obj(fields: Fields)

  datatype Field = Field(key: string, value: Json)

  type Fields = seq<Field>

  function AsU64(n: Number): Option<nat> {
    if n.Integer? && 0 <= n.value then Some(n.value) else None
  }

  function AsI64(n: Number): Option<int> {
    if n.Integer? && n.value < I64_LIMIT then Some(n.value) else None
  }

  function AsReal(n: Number): real {
    if n.Integer? then n.value as real else n.approx
  }

  predicate SameKind(a: Json, b: Json) {
    match a
    case Null => b.Null?
    case Bool(_) => b.Bool?
    case Num(_) => b.Num?
    case Str(_) => b.Str?
    case Arr(_) => b.Arr?
    case Obj(_) => b.Obj?
  }

  // ----- Ordered objects -----

  /** The position of the first field named `key`, or the number of fields. */
  function IndexOf(o: Fields, key: string): (i: nat)
    ensures i <= |o|
    ensures forall j :: 0 <= j < i ==> o[j].key != key
    ensures i < |o| ==> o[i].key == key
  {
    if o == [] then 0
    else if o[0].key == key then 0
    else
      var r := IndexOf(o[1..], key);
      assert forall j :: 0 < j < 1 + r ==> o[j] == o[1..][j - 1];
      1 + r
  }

  predicate Has(o: Fields, key: string) {
    IndexOf(o, key) < |o|
  }

  function Get(o: Fields, key: string): Option<Json> {
    var i := IndexOf(o, key);
    if i < |o| then Some(o[i].value) else None
  }

  /** Insert: a known key keeps its position, a new key goes last. */
  function Put(o: Fields, key: string, value: Json): Fields {
    var i := IndexOf(o, key);
    if i < |o| then o[i := Field(key, value)] else o + [Field(key, value)]
  }

  function Keys(o: Fields): (ks: seq<string>)
    ensures |ks| == |o|
    ensures forall i :: 0 <= i < |o| ==> ks[i] == o[i].key
  {
    seq(|o|, i requires 0 <= i < |o| => o[i].key)
  }

  /** No key occurs twice: true of every object the parser or `insert` builds. */
  ghost predicate UniqueKeys(o: Fields) {
    forall i, j :: 0 <= i < j < |o| ==> o[i].key != o[j].key
  }

  /** Unique keys in every object, at every depth. */
  ghost predicate WellFormed(v: Json) {
    match v
    case Arr(items) => forall i :: 0 <= i < |items| ==> WellFormed(items[i])
    case Obj(fields) => WellFormedFields(fields)
    case _ => true
  }

  ghost predicate WellFormedFields(o: Fields) {
    UniqueKeys(o) && forall i :: 0 <= i < |o| ==> WellFormed(o[i].value)
  }

  lemma {:induction false} IndexOfIs(o: Fields, key: string, i: nat)
    requires i <= |o|
    requires forall j :: 0 <= j < i ==> o[j].key != key
    requires i < |o| ==> o[i].key == key
    ensures IndexOf(o, key) == i
  {
  }

  lemma {:induction false} HasIffKey(o: Fields, key: string)
    ensures Has(o, key) <==> key in Keys(o)
  {
    if Has(o, key) {
      assert Keys(o)[IndexOf(o, key)] == key;
    }
  }

  lemma {:induction false} UniqueIndex(o: Fields, i: nat)
    requires UniqueKeys(o) && i < |o|
    ensures IndexOf(o, o[i].key) == i
  {
    IndexOfIs(o, o[i].key, i);
  }

  /** `Put` changes the looked-up value of its own key and of no other. */
  lemma {:induction false} GetPut(o: Fields, key: string, value: Json, other: string)
    ensures Get(Put(o, key, value), other) == if other == key then Some(value) else Get(o, other)
    ensures Keys(Put(o, key, value)) == if Has(o, key) then Keys(o) else Keys(o) + [key]
    ensures UniqueKeys(o) ==> UniqueKeys(Put(o, key, value))
  {
    var i, p := IndexOf(o, key), Put(o, key, value);
    assert forall j :: 0 <= j < |o| ==> p[j].key == o[j].key;
    if other == key {
      IndexOfIs(p, key, i);
    } else {
      var r := IndexOf(o, other);
      IndexOfIs(p, other, if r < |o| then r else |p|);
    }
    if UniqueKeys(o) && i == |o| {
      assert forall j :: 0 <= j < |o| ==> p[j].key != key;
    }
  }

  /** Objects with unique keys are determined by their key order and their lookups. */
  lemma {:induction false} ObjectExtensionality(a: Fields, b: Fields)
    requires UniqueKeys(a) && UniqueKeys(b)
    requires Keys(a) == Keys(b)
    requires forall k :: k in Keys(a) ==> Get(a, k) == Get(b, k)
    ensures a == b
  {
    assert |a| == |Keys(a)| == |Keys(b)| == |b|;
    forall i | 0 <= i < |a| ensures a[i] == b[i] {
      assert Keys(a)[i] == Keys(b)[i];
      UniqueIndex(a, i);
      UniqueIndex(b, i);
      assert Get(a, a[i].key) == Get(b, b[i].key);
    }
  }
}
