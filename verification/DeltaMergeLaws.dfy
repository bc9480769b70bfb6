/** Algebra of the delta merge: null is its identity, deltas may be batched, and
    nothing already accumulated is ever lost. */
module DeltaMergeLaws {
  import opened JsonValue
  import opened DeltaMerge
  import opened Sequences

  // ----- Identity -----

  /** JSON null is a two-sided identity of the value merge. */
  lemma {:induction false} NullIsIdentity(v: Json)
    ensures MergeValue(Null, v) == v
    ensures MergeValue(v, Null) == v
  {
  }

  // ----- The object merge, key by key -----

  /** What merging does to one key, absent or present on either side. */
  function Combine(key: string, acc: Option<Json>, delta: Option<Json>): Option<Json> {
    if delta.None? then acc
    else if acc.None? || ReplacedKey(key) then delta
    else Some(MergeValue(acc.value, delta.value))
  }

  /** The keys of `more` that `known` lacks, in the order of `more`. */
  function NewKeys(known: seq<string>, more: seq<string>): seq<string> {
    if more == [] then []
    else NewKeys(known, more[..|more| - 1]) +
         if more[|more| - 1] in known then [] else [more[|more| - 1]]
  }

  lemma {:induction false} GetDropLast(o: Fields, key: string)
    requires o != [] && UniqueKeys(o)
    ensures UniqueKeys(o[..|o| - 1])
    ensures Get(o, key) == if key == o[|o| - 1].key then Some(o[|o| - 1].value) else Get(o[..|o| - 1], key)
    ensures Get(o[..|o| - 1], o[|o| - 1].key) == None
  {
    var n := |o| - 1;
    var i := IndexOf(o, key);
    IndexOfIs(o[..n], key, if i < n then i else n);
    IndexOfIs(o[..n], o[n].key, n);
    UniqueIndex(o, n);
  }

  /** Looking a key up after a merge combines the two lookups. */
  lemma {:induction false} GetMerged(acc: Fields, delta: Fields, key: string)
    requires UniqueKeys(delta)
    ensures Get(MergeFields(acc, delta), key) == Combine(key, Get(acc, key), Get(delta, key))
  {
    if delta != [] {
      var init, last := delta[..|delta| - 1], delta[|delta| - 1];
      GetDropLast(delta, key);
      GetMerged(acc, init, key);
      var mid := MergeFields(acc, init);
      var slot := Get(mid, last.key);
      GetPut(mid, last.key,
             if ReplacedKey(last.key) || slot.None? || slot.value.Null? then last.value
             else MergeValue(slot.value, last.value), key);
    }
  }

  /** Accumulated keys keep their places; the delta's new keys follow in its order. */
  lemma {:induction false} KeysMerged(acc: Fields, delta: Fields)
    requires UniqueKeys(delta)
    ensures Keys(MergeFields(acc, delta)) == Keys(acc) + NewKeys(Keys(acc), Keys(delta))
    ensures UniqueKeys(acc) ==> UniqueKeys(MergeFields(acc, delta))
  {
    if delta != [] {
      var init, last := delta[..|delta| - 1], delta[|delta| - 1];
      GetDropLast(delta, last.key);
      KeysMerged(acc, init);
      var mid := MergeFields(acc, init);
      GetMerged(acc, init, last.key);
      HasIffKey(acc, last.key);
      var slot := Get(mid, last.key);
      GetPut(mid, last.key,
             if ReplacedKey(last.key) || slot.None? || slot.value.Null? then last.value
             else MergeValue(slot.value, last.value), last.key);
      assert Keys(delta)[..|delta| - 1] == Keys(init);
      assert Keys(delta)[|delta| - 1] == last.key;
    } else {
      assert NewKeys(Keys(acc), []) == [];
    }
  }

  /** A key on both sides: `index` and `type` are replaced; otherwise null gives way, texts are
      concatenated, numbers added, and anything else is merged inside or kept. */
  lemma {:induction false} MergedAt(acc: Fields, delta: Fields, key: string, old_: Json, new_: Json)
    requires UniqueKeys(delta) && Get(acc, key) == Some(old_) && Get(delta, key) == Some(new_)
    ensures key == "index" || key == "type" ==> Get(MergeFields(acc, delta), key) == Some(new_)
    ensures key != "index" && key != "type" ==>
            Get(MergeFields(acc, delta), key) ==
            Some(match (old_, new_)
                 case (Null, _) => new_
                 case (Str(a), Str(b)) => Str(a + b)
                 case (Num(a), Num(b)) => Num(SumNumbers(a, b))
                 case (Arr(a), Arr(b)) => Arr(MergeItems(a, b))
                 case (Obj(a), Obj(b)) => Obj(MergeFields(a, b))
                 case (_, _) => old_)
  {
    GetMerged(acc, delta, key);
  }

  /** Arrays of texts, numbers and booleans alone are appended to; any other array takes entries by
      their `index`, and takes none without a non-negative integer there. */
  lemma {:induction false} ArrayMerged(acc: seq<Json>, entry: Json)
    ensures (forall i :: 0 <= i < |acc| ==> acc[i].Str? || acc[i].Num? || acc[i].Bool?) ==>
              MergeItems(acc, [entry]) == acc + [entry]
    ensures (exists i :: 0 <= i < |acc| && (acc[i].Null? || acc[i].Arr? || acc[i].Obj?)) ==>
            MergeItems(acc, [entry]) ==
            if entry.Obj? && exists k: WireInt :: k >= 0 && Get(entry.fields, "index") == Some(Num(Integer(k))) then
              var k: WireInt :| k >= 0 && Get(entry.fields, "index") == Some(Num(Integer(k)));
              if k < |acc| then acc[k := MergeValue(acc[k], entry)] else acc + [entry]
            else acc
  {
    assert [entry][..0] == [];
    assert MergeEntries(acc, [entry]) == MergeEntry(acc, entry);
  }

  // ----- Well-formedness is preserved -----

  lemma {:induction false} MergeValueWellFormed(acc: Json, delta: Json)
    requires WellFormed(acc) && WellFormed(delta)
    ensures WellFormed(MergeValue(acc, delta))
    decreases delta, 0
  {
    if acc.Obj? && delta.Obj? {
      MergeFieldsWellFormed(acc.fields, delta.fields);
    } else if acc.Arr? && delta.Arr? {
      MergeItemsWellFormed(acc.items, delta.items);
    }
  }

  lemma {:induction false} MergeFieldsWellFormed(acc: Fields, delta: Fields)
    requires WellFormedFields(acc) && WellFormedFields(delta)
    ensures WellFormedFields(MergeFields(acc, delta))
    decreases delta, 1
  {
    if delta != [] {
      var init, last := delta[..|delta| - 1], delta[|delta| - 1];
      MergeFieldsWellFormed(acc, init);
      var mid := MergeFields(acc, init);
      assert WellFormed(last.value);
      if Has(mid, last.key) {
        assert WellFormed(mid[IndexOf(mid, last.key)].value);
        MergeValueWellFormed(Get(mid, last.key).value, last.value);
      }
      KeysMerged(acc, delta);
    }
  }

  lemma {:induction false} MergeItemsWellFormed(acc: seq<Json>, delta: seq<Json>)
    requires WellFormed(Arr(acc)) && WellFormed(Arr(delta))
    ensures WellFormed(Arr(MergeItems(acc, delta)))
    decreases delta, 2
  {
    if !ScalarsOnly(acc) {
      MergeEntriesWellFormed(acc, delta);
    }
  }

  lemma {:induction false} MergeEntriesWellFormed(acc: seq<Json>, delta: seq<Json>)
    requires WellFormed(Arr(acc)) && WellFormed(Arr(delta))
    ensures WellFormed(Arr(MergeEntries(acc, delta)))
    decreases delta, 1
  {
    if delta != [] {
      var init, last := delta[..|delta| - 1], delta[|delta| - 1];
      MergeEntriesWellFormed(acc, init);
      var mid := MergeEntries(acc, init);
      var index := EntryIndex(last);
      if index.Some? && index.value < |mid| {
        assert WellFormed(Arr(mid).items[index.value]);
        MergeValueWellFormed(mid[index.value], last);
      }
    }
  }

  // ----- Deltas that change nothing -----

  /** An addend that leaves the sum as it was: an integer zero, or on a floating-point number
      any zero. */
  predicate NeutralNumber(acc: Number, n: Number) {
    if acc.Integer? then n == Integer(0) else AsReal(n) == 0.0
  }

  /** A delta of the accumulated kind changes nothing when it is empty, zero, or an object of
      known keys that change nothing; a delta of another kind never does. Entries of object
      arrays are applied one after another, so there only the whole can be neutral. */
  ghost predicate Neutral(acc: Json, delta: Json)
    decreases delta
  {
    if acc.Null? then delta.Null?
    else if !SameKind(acc, delta) then true
    else match delta
      case Str(text) => text == ""
      case Num(n) => NeutralNumber(acc.number, n)
      case Arr(items) => if ScalarsOnly(acc.items) then items == [] else MergeEntries(acc.items, items) == acc.items
      case Obj(fields) => NeutralFields(acc.fields, fields)
      case _ => true
  }

  ghost predicate NeutralFields(acc: Fields, delta: Fields)
    decreases delta
  {
    forall i :: 0 <= i < |delta| ==>
      Has(acc, delta[i].key) && var slot := Get(acc, delta[i].key).value;
        if ReplacedKey(delta[i].key) then slot == delta[i].value else Neutral(slot, delta[i].value)
  }

  /** A merge changes nothing if and only if the delta is neutral. */
  lemma {:induction false} NeutralMeans(acc: Json, delta: Json)
    requires WellFormed(acc) && WellFormed(delta)
    ensures MergeValue(acc, delta) == acc <==> Neutral(acc, delta)
    decreases delta, 0
  {
    if !acc.Null? && SameKind(acc, delta) {
      match delta {
        case Obj(fields) => NeutralFieldsMeans(acc.fields, fields);
        case Str(text) => AppendingNothing(acc.text, text);
        case Arr(items) => AppendingNothing(acc.items, items);
        case _ =>
      }
    }
  }

  lemma {:induction false} NeutralFieldsMeans(acc: Fields, delta: Fields)
    requires WellFormedFields(acc) && WellFormedFields(delta)
    ensures MergeFields(acc, delta) == acc <==> NeutralFields(acc, delta)
    decreases delta, 2
  {
    forall i | 0 <= i < |delta|
      ensures Get(MergeFields(acc, delta), delta[i].key) == Get(acc, delta[i].key) <==> NeutralAt(acc, delta, i)
    {
      NeutralLookup(acc, delta, i);
    }
    if NeutralFields(acc, delta) {
      NoNewKeys(acc, delta);
      KeysMerged(acc, delta);
      assert Keys(acc) + [] == Keys(acc);
      forall key ensures Get(MergeFields(acc, delta), key) == Get(acc, key) {
        GetMerged(acc, delta, key);
        if Has(delta, key) { assert NeutralAt(acc, delta, IndexOf(delta, key)); }
      }
      ObjectExtensionality(MergeFields(acc, delta), acc);
    }
  }

  /** The condition of `NeutralFields` at one field. */
  ghost predicate NeutralAt(acc: Fields, delta: Fields, i: nat)
    requires i < |delta|
  {
    Has(acc, delta[i].key) && var slot := Get(acc, delta[i].key).value;
      if ReplacedKey(delta[i].key) then slot == delta[i].value else Neutral(slot, delta[i].value)
  }

  lemma {:induction false} NeutralLookup(acc: Fields, delta: Fields, i: nat)
    requires WellFormedFields(acc) && WellFormedFields(delta) && i < |delta|
    ensures Get(MergeFields(acc, delta), delta[i].key) == Get(acc, delta[i].key) <==> NeutralAt(acc, delta, i)
    decreases delta, 1
  {
    GetMerged(acc, delta, delta[i].key);
    UniqueIndex(delta, i);
    if Has(acc, delta[i].key) {
      assert WellFormed(acc[IndexOf(acc, delta[i].key)].value);
      NeutralMeans(Get(acc, delta[i].key).value, delta[i].value);
    }
  }

  lemma {:induction false} NoNewKeys(acc: Fields, delta: Fields)
    requires forall i :: 0 <= i < |delta| ==> Has(acc, delta[i].key)
    ensures NewKeys(Keys(acc), Keys(delta)) == []
  {
    var left := NewKeys(Keys(acc), Keys(delta));
    assert left != [] ==> left[0] in left;
    forall key ensures key !in left {
      NewKeysMembers(Keys(acc), Keys(delta), key);
      HasIffKey(acc, key);
    }
  }

  // ----- Batching -----

  /** Adding in either grouping stays within the integer words alike. */
  predicate SumsAgree(a: Number, b: Number, c: Number) {
    a.Integer? && b.Integer? && c.Integer? ==>
      (ExactSum(a, b) && ExactSum(SumNumbers(a, b), c) <==> ExactSum(b, c) && ExactSum(a, SumNumbers(b, c)))
  }

  /** A sum is an integer if and only if both addends are, and either both and the sum are
      unsigned 64-bit words, or both and the sum are signed ones; it is always the sum. */
  lemma {:induction false} SumMeans(a: Number, b: Number)
    ensures SumNumbers(a, b) ==
            if a.Integer? && b.Integer?
               && ((a.value >= 0 && b.value >= 0 && a.value + b.value < 0x1_0000_0000_0000_0000)
                   || (a.value < 0x8000_0000_0000_0000 && b.value < 0x8000_0000_0000_0000
                       && -0x8000_0000_0000_0000 <= a.value + b.value < 0x8000_0000_0000_0000))
            then Integer(a.value + b.value)
            else Float((if a.Integer? then a.value as real else a.approx) + if b.Integer? then b.value as real else b.approx)
  {
  }

  lemma {:induction false} SumsAgreeMeans(a: Number, b: Number, c: Number)
    ensures SumNumbers(SumNumbers(a, b), c) == SumNumbers(a, SumNumbers(b, c)) <==> SumsAgree(a, b, c)
  {
    SumIsReal(a, b);
    SumIsReal(b, c);
    SumIsReal(SumNumbers(a, b), c);
    SumIsReal(a, SumNumbers(b, c));
  }

  lemma {:induction false} SumIsReal(a: Number, b: Number)
    ensures AsReal(SumNumbers(a, b)) == AsReal(a) + AsReal(b)
    ensures SumNumbers(a, b).Integer? <==> a.Integer? && b.Integer? && ExactSum(a, b)
  {
  }

  /** Arrays that meet at one path can be appended: the first delta brings scalars only, or
      there is nothing before it or after it. Values of different kinds, and what sits under
      replaced keys, are unconstrained. */
  ghost predicate Appends(acc: Json, d1: Json, d2: Json)
    decreases d1
  {
    SameKind(acc, d1) && SameKind(d1, d2) ==>
      match d1
      case Arr(items) => AppendsItems(acc.items, items, d2.items)
      case Obj(fields) => AppendsFields(acc.fields, fields, d2.fields)
      case _ => true
  }

  ghost predicate AppendsItems(acc: seq<Json>, d1: seq<Json>, d2: seq<Json>) { acc == [] || d2 == [] || ScalarsOnly(d1) }

  /** Field `i` of the first delta meets a field on both other sides and is merged with them. */
  ghost predicate Meets(acc: Fields, d1: Fields, d2: Fields, i: nat) {
    i < |d1| && !ReplacedKey(d1[i].key) && Has(acc, d1[i].key) && Has(d2, d1[i].key)
  }

  ghost predicate AppendsFields(acc: Fields, d1: Fields, d2: Fields)
    decreases d1
  {
    forall i | 0 <= i < |d1| && Meets(acc, d1, d2, i) :: Appends(Get(acc, d1[i].key).value, d1[i].value, Get(d2, d1[i].key).value)
  }

  /** When batching is safe: a first delta of a rejected kind must not hide a second one that
      changes something, sums must leave the integer words alike, and so on at every key that
      all three sides have. */
  ghost predicate Batches(acc: Json, d1: Json, d2: Json)
    decreases d1
  {
    if acc.Null? || d1.Null? || d2.Null? then true
    else if !SameKind(acc, d1) then Neutral(acc, d2)
    else if !SameKind(d1, d2) then true
    else match d1
      case Num(n) => SumsAgree(acc.number, n, d2.number)
      case Obj(fields) => BatchesFields(acc.fields, fields, d2.fields)
      case _ => true
  }

  ghost predicate BatchesFields(acc: Fields, d1: Fields, d2: Fields)
    decreases d1
  {
    forall i | 0 <= i < |d1| && Meets(acc, d1, d2, i) :: Batches(Get(acc, d1[i].key).value, d1[i].value, Get(d2, d1[i].key).value)
  }

  /** Merging two deltas one after the other equals merging their merge if and only if the three
      values batch. */
  lemma {:induction false} BatchValue(acc: Json, d1: Json, d2: Json)
    requires WellFormed(acc) && WellFormed(d1) && WellFormed(d2) && Appends(acc, d1, d2)
    ensures MergeValue(MergeValue(acc, d1), d2) == MergeValue(acc, MergeValue(d1, d2)) <==> Batches(acc, d1, d2)
    decreases d1, 0
  {
    if acc.Null? || d1.Null? || d2.Null? {
    } else if !SameKind(acc, d1) {
      NeutralMeans(acc, d2);
    } else if SameKind(d1, d2) {
      match d1 {
        case Obj(fields) => BatchFields(acc.fields, fields, d2.fields);
        case Str(text) => SeqAssociative(acc.text, text, d2.text);
        case Num(n) => SumsAgreeMeans(acc.number, n, d2.number);
        case Arr(items) => BatchItems(acc.items, items, d2.items);
        case _ =>
      }
    }
  }

  lemma {:induction false} BatchItems(acc: seq<Json>, d1: seq<Json>, d2: seq<Json>)
    requires AppendsItems(acc, d1, d2)
    ensures MergeItems(MergeItems(acc, d1), d2) == MergeItems(acc, MergeItems(d1, d2))
  {
    if acc == [] || d2 == [] {
      assert [] + d1 == d1 && [] + MergeItems(d1, d2) == MergeItems(d1, d2);
      assert MergeItems(acc, d1) + [] == MergeItems(acc, d1) && d1 + [] == d1;
    } else if ScalarsOnly(acc) {
      SeqAssociative(acc, d1, d2);
    } else {
      MergeEntriesConcat(acc, d1, d2);
      ScalarsAreSkipped(acc, d1);
    }
  }

  lemma {:induction false} MergeEntriesConcat(acc: seq<Json>, a: seq<Json>, b: seq<Json>)
    ensures MergeEntries(acc, a + b) == MergeEntries(MergeEntries(acc, a), b)
  {
    if b == [] {
      assert a + b == a;
    } else {
      MergeEntriesConcat(acc, a, b[..|b| - 1]);
      assert (a + b)[..|a + b| - 1] == a + b[..|b| - 1];
    }
  }

  lemma {:induction false} ScalarsAreSkipped(acc: seq<Json>, scalars: seq<Json>)
    requires ScalarsOnly(scalars)
    ensures MergeEntries(acc, scalars) == acc
  {
    if scalars != [] { ScalarsAreSkipped(acc, scalars[..|scalars| - 1]); }
  }

  lemma {:induction false} BatchFields(acc: Fields, d1: Fields, d2: Fields)
    requires WellFormedFields(acc) && WellFormedFields(d1) && WellFormedFields(d2) && AppendsFields(acc, d1, d2)
    ensures MergeFields(MergeFields(acc, d1), d2) == MergeFields(acc, MergeFields(d1, d2)) <==> BatchesFields(acc, d1, d2)
    decreases d1, 2
  {
    var left, right := MergeFields(MergeFields(acc, d1), d2), MergeFields(acc, MergeFields(d1, d2));
    forall key ensures Get(left, key) == Get(right, key) <==> BatchesAt(acc, d1, d2, key) {
      BatchLookup(acc, d1, d2, key);
    }
    if BatchesFields(acc, d1, d2) {
      assert forall key :: BatchesAt(acc, d1, d2, key);
      BatchKeys(acc, d1, d2);
      ObjectExtensionality(left, right);
    } else {
      var i :| 0 <= i < |d1| && Meets(acc, d1, d2, i) &&
               !Batches(Get(acc, d1[i].key).value, d1[i].value, Get(d2, d1[i].key).value);
      UniqueIndex(d1, i);
      assert !BatchesAt(acc, d1, d2, d1[i].key);
    }
  }

  /** The condition of `BatchesFields` at one key. */
  ghost predicate BatchesAt(acc: Fields, d1: Fields, d2: Fields, key: string) {
    var i := IndexOf(d1, key);
    Meets(acc, d1, d2, i) ==> Batches(Get(acc, key).value, d1[i].value, Get(d2, key).value)
  }

  lemma {:induction false} BatchLookup(acc: Fields, d1: Fields, d2: Fields, key: string)
    requires WellFormedFields(acc) && WellFormedFields(d1) && WellFormedFields(d2) && AppendsFields(acc, d1, d2)
    ensures Get(MergeFields(MergeFields(acc, d1), d2), key) == Get(MergeFields(acc, MergeFields(d1, d2)), key) <==>
            BatchesAt(acc, d1, d2, key)
    decreases d1, 1
  {
    KeysMerged(d1, d2);
    GetMerged(acc, d1, key);
    GetMerged(MergeFields(acc, d1), d2, key);
    GetMerged(d1, d2, key);
    GetMerged(acc, MergeFields(d1, d2), key);
    var x, y, z := IndexOf(acc, key), IndexOf(d1, key), IndexOf(d2, key);
    if Meets(acc, d1, d2, y) {
      BatchValue(acc[x].value, d1[y].value, d2[z].value);
    }
  }

  lemma {:induction false} BatchKeys(acc: Fields, d1: Fields, d2: Fields)
    requires UniqueKeys(acc) && UniqueKeys(d1) && UniqueKeys(d2)
    ensures Keys(MergeFields(MergeFields(acc, d1), d2)) == Keys(MergeFields(acc, MergeFields(d1, d2)))
    ensures UniqueKeys(MergeFields(MergeFields(acc, d1), d2)) && UniqueKeys(MergeFields(acc, MergeFields(d1, d2)))
  {
    KeysMerged(acc, d1);
    KeysMerged(MergeFields(acc, d1), d2);
    KeysMerged(d1, d2);
    KeysMerged(acc, MergeFields(d1, d2));
    var a, b, c := Keys(acc), Keys(d1), Keys(d2);
    NewKeysNested(a, b, c);
    NewKeysConcat(a, b, NewKeys(b, c));
    SeqAssociative(a, NewKeys(a, b), NewKeys(a, NewKeys(b, c)));
  }

  lemma {:induction false} NewKeysConcat(known: seq<string>, x: seq<string>, y: seq<string>)
    ensures NewKeys(known, x + y) == NewKeys(known, x) + NewKeys(known, y)
  {
    if y == [] {
      assert x + y == x;
    } else {
      var n := |y| - 1;
      NewKeysConcat(known, x, y[..n]);
      assert (x + y)[..|x| + n] == x + y[..n];
    }
  }

  lemma {:induction false} NewKeysNested(a: seq<string>, b: seq<string>, c: seq<string>)
    ensures NewKeys(a + NewKeys(a, b), c) == NewKeys(a, NewKeys(b, c))
  {
    if c != [] {
      var n := |c| - 1;
      NewKeysNested(a, b, c[..n]);
      NewKeysMembers(a, b, c[n]);
      NewKeysConcat(a, NewKeys(b, c[..n]), if c[n] in b then [] else [c[n]]);
    }
  }

  lemma {:induction false} NewKeysMembers(a: seq<string>, b: seq<string>, key: string)
    ensures key in NewKeys(a, b) <==> key in b && key !in a
  {
    if b != [] {
      NewKeysMembers(a, b[..|b| - 1], key);
      assert b == b[..|b| - 1] + [b[|b| - 1]];
    }
  }

  /** Each path keeps one kind, numbers are non-negative integers whose total fits an unsigned
      word, and appended arrays hold scalars. */
  ghost predicate OneKind(acc: Json, d1: Json, d2: Json)
    decreases d1
  {
    acc.Null? || d1.Null? || d2.Null? ||
    (SameKind(acc, d1) && SameKind(d1, d2) &&
     match d1
     case Num(n) =>
       && AsU64(acc.number).Some? && AsU64(n).Some? && AsU64(d2.number).Some?
       && acc.number.value + n.value + d2.number.value < U64_LIMIT
     case Arr(items) => ScalarsOnly(items)
     case Obj(fields) =>
       forall i | 0 <= i < |fields| && Meets(acc.fields, fields, d2.fields, i) ::
         OneKind(Get(acc.fields, fields[i].key).value, fields[i].value, Get(d2.fields, fields[i].key).value)
     case _ => true)
  }

  /** Deltas whose paths keep one kind can always be batched. */
  lemma {:induction false} OneKindBatches(acc: Json, d1: Json, d2: Json)
    requires OneKind(acc, d1, d2)
    ensures Appends(acc, d1, d2) && Batches(acc, d1, d2)
    decreases d1
  {
    if !acc.Null? && !d1.Null? && !d2.Null? && d1.Obj? {
      var a, b, c := acc.fields, d1.fields, d2.fields;
      forall i | 0 <= i < |b| && Meets(a, b, c, i)
        ensures Appends(Get(a, b[i].key).value, b[i].value, Get(c, b[i].key).value)
        ensures Batches(Get(a, b[i].key).value, b[i].value, Get(c, b[i].key).value)
      {
        OneKindBatches(Get(a, b[i].key).value, b[i].value, Get(c, b[i].key).value);
      }
    }
  }

  /** Batching can fail: a delta of a rejected kind hides a later one of the accumulated kind,
      and a batched object array merges by its own positions. */
  lemma {:induction false} BatchingNeedsItsConditions()
    ensures var acc, d1, d2 := Str("a"), Bool(true), Str("b");
            MergeValue(MergeValue(acc, d1), d2) != MergeValue(acc, MergeValue(d1, d2))
    ensures
      var acc, d1, d2 := Arr([IndexOnly(0)]), Arr([IndexOnly(1)]), Arr([IndexOnly(0)]);
      MergeValue(MergeValue(acc, d1), d2) != MergeValue(acc, MergeValue(d1, d2))
  {
    var zero, one := IndexOnly(0), IndexOnly(1);
    assert MergeValue(MergeValue(Arr([zero]), Arr([one])), Arr([zero])) == Arr([zero, one]) by {
      MergeIndexOnly([zero], 1);
      assert MergeItems([zero], [one]) == [zero, one];
      MergeIndexOnly([zero, one], 0);
      assert MergeItems([zero, one], [zero]) == [zero, one];
    }
    assert MergeValue(Arr([zero]), MergeValue(Arr([one]), Arr([zero]))) == Arr([zero]) by {
      MergeIndexOnly([one], 0);
      assert MergeItems([one], [zero]) == [zero];
      MergeIndexOnly([zero], 0);
      assert MergeItems([zero], [zero]) == [zero];
    }
  }

  function IndexOnly(i: WireInt): Json {
    Obj([Field("index", Num(Integer(i)))])
  }

  lemma {:induction false} MergeIndexOnly(acc: seq<Json>, i: nat)
    requires i < 2 && acc != [] && forall j :: 0 <= j < |acc| ==> acc[j] == IndexOnly(0) || acc[j] == IndexOnly(1)
    ensures MergeItems(acc, [IndexOnly(i)]) == if i < |acc| then acc[i := IndexOnly(i)] else acc + [IndexOnly(i)]
  {
    var entry := IndexOnly(i);
    assert EntryIndex(entry) == Some(i);
    assert [entry][..0] == [];
    assert MergeEntries(acc, [entry]) == MergeEntry(acc, entry);
    assert !IsScalar(acc[0]);
    if i < |acc| {
      assert entry.fields[..0] == [];
      assert acc[i].fields[0].key == "index" && |acc[i].fields| == 1;
      assert MergeFields(acc[i].fields, entry.fields) == MergeField(acc[i].fields, entry.fields[0]);
      assert IndexOf(acc[i].fields, "index") == 0;
      assert MergeFields(acc[i].fields, entry.fields) == entry.fields;
    }
  }
}
