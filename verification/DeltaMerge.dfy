/** The delta merge that accumulates untyped chunk fields. The functions say what
    the merge computes; the methods are the in-place loops of the client, each
    proved equal to its function. Values are trees with a single owner, so an
    in-place update is a method that returns the new value. */
module DeltaMerge {
  import opened JsonValue

  /** `index` keys array entries and `type` discriminates unions: both are replaced. */
  predicate ReplacedKey(key: string) {
    key == "index" || key == "type"
  }

  predicate IsScalar(v: Json) {
    v.Str? || v.Num? || v.Bool?
  }

  predicate ScalarsOnly(items: seq<Json>) {
    forall i :: 0 <= i < |items| ==> IsScalar(items[i])
  }

  /** Both addends sit in one 64-bit integer word and so does their sum. */
  predicate ExactSum(a: Number, b: Number) {
    if AsU64(a).Some? && AsU64(b).Some? then a.value + b.value < U64_LIMIT
    else AsI64(a).Some? && AsI64(b).Some? && -I64_LIMIT <= a.value + b.value < I64_LIMIT
  }

  function SumNumbers(a: Number, b: Number): Number {
    if AsU64(a).Some? && AsU64(b).Some? then
      if a.value + b.value < U64_LIMIT then Integer(a.value + b.value) else Float(a.value as real + b.value as real)
    else if AsI64(a).Some? && AsI64(b).Some? then
      if -I64_LIMIT <= a.value + b.value < I64_LIMIT then Integer(a.value + b.value)
      else Float(a.value as real + b.value as real)
    else Float(AsReal(a) + AsReal(b))
  }

  /** The array position an entry addresses: the unsigned integer under its `index` key. */
  function EntryIndex(entry: Json): Option<nat> {
    if !entry.Obj? then None
    else match Get(entry.fields, "index")
      case Some(Num(n)) => AsU64(n)
      case _ => None
  }

  // ----- What the merge computes -----

  function MergeValue(acc: Json, delta: Json): Json
    decreases delta, 0
  {
    if acc.Null? then delta
    else if acc.Obj? && delta.Obj? then Obj(MergeFields(acc.fields, delta.fields))
    else if acc.Str? && delta.Str? then Str(acc.text + delta.text)
    else if acc.Num? && delta.Num? then Num(SumNumbers(acc.number, delta.number))
    else if acc.Arr? && delta.Arr? then Arr(MergeItems(acc.items, delta.items))
    else acc
  }

  function MergeFields(acc: Fields, delta: Fields): Fields
    decreases delta, 1
  {
    if delta == [] then acc
    else MergeField(MergeFields(acc, delta[..|delta| - 1]), delta[|delta| - 1])
  }

  function MergeField(acc: Fields, f: Field): Fields
    decreases f, 0
  {
    var slot := Get(acc, f.key);
    if ReplacedKey(f.key) || slot.None? || slot.value.Null? then Put(acc, f.key, f.value)
    else Put(acc, f.key, MergeValue(slot.value, f.value))
  }

  function MergeItems(acc: seq<Json>, delta: seq<Json>): seq<Json>
    decreases delta, 2
  {
    if ScalarsOnly(acc) then acc + delta else MergeEntries(acc, delta)
  }

  function MergeEntries(acc: seq<Json>, delta: seq<Json>): seq<Json>
    decreases delta, 1
  {
    if delta == [] then acc
    else MergeEntry(MergeEntries(acc, delta[..|delta| - 1]), delta[|delta| - 1])
  }

  function MergeEntry(acc: seq<Json>, entry: Json): seq<Json>
    decreases entry, 1
  {
    match EntryIndex(entry)
    case None => acc
    case Some(i) => if i < |acc| then acc[i := MergeValue(acc[i], entry)] else acc + [entry]
  }

  /** One whole run of deltas, oldest first. */
  function MergeRun(acc: Fields, deltas: seq<Fields>): Fields {
    if deltas == [] then acc
    else MergeFields(MergeRun(acc, deltas[..|deltas| - 1]), deltas[|deltas| - 1])
  }

  // ----- The loops that compute it -----

  method MergeDeltaObject(acc: Fields, delta: Fields) returns (merged: Fields)
    ensures merged == MergeFields(acc, delta)
    decreases delta, 1
  {
    merged := acc;
    for i := 0 to |delta|
      invariant merged == MergeFields(acc, delta[..i])
    {
      assert delta[..i + 1][..i] == delta[..i];
      var key, deltaValue := delta[i].key, delta[i].value;
      var replace := key == "index" || key == "type" || !Has(merged, key) || Get(merged, key) == Some(Null);
      if replace {
        merged := Put(merged, key, deltaValue);
      } else {
        var slot := MergeDeltaValue(Get(merged, key).value, deltaValue);
        merged := Put(merged, key, slot);
      }
    }
    assert delta[..|delta|] == delta;
  }

  method MergeDeltaValue(acc: Json, delta: Json) returns (merged: Json)
    ensures merged == MergeValue(acc, delta)
    decreases delta, 0
  {
    if acc.Null? {
      return delta;
    }
    match (acc, delta) {
      case (Obj(accFields), Obj(deltaFields)) =>
        var fields := MergeDeltaObject(accFields, deltaFields);
        merged := Obj(fields);
      case (Str(accumulated), Str(text)) => merged := Str(accumulated + text);
      case (Num(accumulated), Num(addend)) => merged := Num(SumNumbers(accumulated, addend));
      case (Arr(accumulated), Arr(entries)) =>
        var items := MergeDeltaArray(accumulated, entries);
        merged := Arr(items);
      case (_, _) => merged := acc;
    }
  }

  method MergeDeltaArray(acc: seq<Json>, delta: seq<Json>) returns (merged: seq<Json>)
    ensures merged == MergeItems(acc, delta)
    decreases delta, 2
  {
    if ScalarsOnly(acc) {
      return acc + delta;
    }
    merged := acc;
    for n := 0 to |delta|
      invariant merged == MergeEntries(acc, delta[..n])
    {
      assert delta[..n + 1][..n] == delta[..n];
      var index := EntryIndex(delta[n]);
      if index.Some? {
        if index.value < |merged| {
          var slot := MergeDeltaValue(merged[index.value], delta[n]);
          merged := merged[index.value := slot];
        } else {
          merged := merged + [delta[n]];
        }
      }
    }
    assert delta[..|delta|] == delta;
  }
}
