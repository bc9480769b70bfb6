/** Monotone growth: along any run of deltas nothing accumulated is lost, and object
    arrays keep entry k at position k exactly while no index jumps ahead. */
module DeltaGrowth {
  import opened JsonValue
  import opened DeltaMerge
  import DeltaMergeLaws

  // ----- The growth order -----

  /** `after` still holds everything in `before`: null may become anything, any other kind
      is kept, strings and arrays only gain a suffix, keys keep their places. What sits
      under a replaced key is unconstrained. */
  ghost predicate Grows(before: Json, after: Json) {
    match before
    case Null => true
    case Bool(_) => after == before
    case Num(_) => after.Num?
    case Str(text) => after.Str? && text <= after.text
    case Arr(items) =>
      && after.Arr? && |items| <= |after.items|
      && forall i :: 0 <= i < |items| ==> Grows(items[i], after.items[i])
    case Obj(fields) => after.Obj? && GrowsFields(fields, after.fields)
  }

  ghost predicate GrowsFields(before: Fields, after: Fields) {
    && |before| <= |after|
    && (forall i :: 0 <= i < |before| ==> before[i].key == after[i].key)
    && forall i :: 0 <= i < |before| && !ReplacedKey(before[i].key) ==> Grows(before[i].value, after[i].value)
  }

  lemma {:induction false} GrowsReflexive(v: Json)
    ensures Grows(v, v)
  {
    match v {
      case Arr(items) =>
        forall i | 0 <= i < |items| ensures Grows(items[i], items[i]) { GrowsReflexive(items[i]); }
      case Obj(fields) =>
        forall i | 0 <= i < |fields| ensures Grows(fields[i].value, fields[i].value) { GrowsReflexive(fields[i].value); }
      case _ =>
    }
  }

  lemma {:induction false} GrowsTransitive(a: Json, b: Json, c: Json)
    requires Grows(a, b) && Grows(b, c)
    ensures Grows(a, c)
  {
    match a {
      case Arr(items) =>
        forall i | 0 <= i < |items| ensures Grows(items[i], c.items[i]) {
          GrowsTransitive(items[i], b.items[i], c.items[i]);
        }
      case Obj(fields) =>
        forall i | 0 <= i < |fields| && !ReplacedKey(fields[i].key) ensures Grows(fields[i].value, c.fields[i].value) {
          GrowsTransitive(fields[i].value, b.fields[i].value, c.fields[i].value);
        }
      case _ =>
    }
  }

  // ----- Every merge grows -----

  lemma {:induction false} MergeValueGrows(acc: Json, delta: Json)
    ensures Grows(acc, MergeValue(acc, delta))
    decreases delta, 0
  {
    if acc.Obj? && delta.Obj? {
      MergeFieldsGrows(acc.fields, delta.fields);
    } else if acc.Arr? && delta.Arr? {
      if ScalarsOnly(acc.items) {
        forall i | 0 <= i < |acc.items| ensures Grows(acc.items[i], (acc.items + delta.items)[i]) {
          GrowsReflexive(acc.items[i]);
        }
      } else {
        MergeEntriesGrows(acc.items, delta.items);
      }
    } else {
      GrowsReflexive(acc);
    }
  }

  lemma {:induction false} MergeFieldsGrows(acc: Fields, delta: Fields)
    ensures GrowsFields(acc, MergeFields(acc, delta))
    decreases delta, 1
  {
    if delta == [] {
      GrowsReflexive(Obj(acc));
    } else {
      var init, last := delta[..|delta| - 1], delta[|delta| - 1];
      var mid := MergeFields(acc, init);
      MergeFieldsGrows(acc, init);
      assert GrowsFields(mid, MergeField(mid, last)) by {
        GrowsReflexive(Obj(mid));
        if Has(mid, last.key) {
          MergeValueGrows(Get(mid, last.key).value, last.value);
        }
      }
      GrowsTransitive(Obj(acc), Obj(mid), Obj(MergeField(mid, last)));
    }
  }

  lemma {:induction false} MergeEntriesGrows(acc: seq<Json>, delta: seq<Json>)
    ensures Grows(Arr(acc), Arr(MergeEntries(acc, delta)))
    decreases delta, 1
  {
    if delta == [] {
      GrowsReflexive(Arr(acc));
    } else {
      var init, last := delta[..|delta| - 1], delta[|delta| - 1];
      var mid := MergeEntries(acc, init);
      MergeEntriesGrows(acc, init);
      MergeEntryGrows(mid, last);
      GrowsTransitive(Arr(acc), Arr(mid), Arr(MergeEntry(mid, last)));
    }
  }

  lemma {:induction false} MergeEntryGrows(acc: seq<Json>, entry: Json)
    ensures Grows(Arr(acc), Arr(MergeEntry(acc, entry)))
    decreases entry, 1
  {
    var after, index := MergeEntry(acc, entry), EntryIndex(entry);
    forall i | 0 <= i < |acc| ensures Grows(acc[i], after[i]) {
      if index == Some(i) {
        MergeValueGrows(acc[i], entry);
      } else {
        GrowsReflexive(acc[i]);
      }
    }
  }

  // ----- Whole runs, read path by path -----

  datatype Step = Key(key: string) | Index(index: nat)

  /** The value at a path, if the path leads anywhere. */
  function At(v: Json, path: seq<Step>): Option<Json> {
    if path == [] then Some(v)
    else match path[0]
      case Key(k) => if v.Obj? && Has(v.fields, k) then At(Get(v.fields, k).value, path[1..]) else None
      case Index(i) => if v.Arr? && i < |v.items| then At(v.items[i], path[1..]) else None
  }

  ghost predicate MergedPath(path: seq<Step>) {
    forall i :: 0 <= i < |path| && path[i].Key? ==> !ReplacedKey(path[i].key)
  }

  /** Growth seen from one path that avoids replaced keys. */
  lemma {:induction false} GrowsAt(before: Json, after: Json, path: seq<Step>)
    requires Grows(before, after) && MergedPath(path)
    requires At(before, path).Some?
    ensures At(after, path).Some? && Grows(At(before, path).value, At(after, path).value)
    decreases path
  {
    if path != [] {
      var rest := path[1..];
      assert MergedPath(rest);
      match path[0] {
        case Key(k) =>
          var i := IndexOf(before.fields, k);
          IndexOfIs(after.fields, k, i);
          GrowsAt(before.fields[i].value, after.fields[i].value, rest);
        case Index(i) => GrowsAt(before.items[i], after.items[i], rest);
      }
    }
  }

  /** Along any run of deltas, what was there at some point of the run is still there at
      every later point, at every path that avoids replaced keys. */
  lemma {:induction false} RunGrows(acc: Fields, deltas: seq<Fields>, earlier: nat, later: nat, path: seq<Step>)
    requires earlier <= later <= |deltas| && MergedPath(path)
    requires At(Obj(MergeRun(acc, deltas[..earlier])), path).Some?
    ensures var before := At(Obj(MergeRun(acc, deltas[..earlier])), path).value;
            var after := At(Obj(MergeRun(acc, deltas[..later])), path);
            after.Some? && Grows(before, after.value)
    decreases later - earlier
  {
    var before := MergeRun(acc, deltas[..earlier]);
    if earlier == later {
      GrowsReflexive(At(Obj(before), path).value);
    } else {
      var mid := MergeRun(acc, deltas[..later - 1]);
      RunGrows(acc, deltas, earlier, later - 1, path);
      assert deltas[..later][..later - 1] == deltas[..later - 1];
      MergeFieldsGrows(mid, deltas[later - 1]);
      GrowsAt(Obj(mid), Obj(MergeRun(acc, deltas[..later])), path);
      GrowsTransitive(At(Obj(before), path).value, At(Obj(mid), path).value,
                      At(Obj(MergeRun(acc, deltas[..later])), path).value);
    }
  }

  // ----- Index density -----

  /** Entry k of the array is an object whose `index` is k. */
  ghost predicate Dense(items: seq<Json>) {
    forall k :: 0 <= k < |items| ==> EntryIndex(items[k]) == Some(k)
  }

  /** Merging one entry that carries an index keeps a dense array dense exactly when the
      index does not jump past the end. */
  lemma {:induction false} MergeEntryDense(acc: seq<Json>, entry: Json)
    requires Dense(acc) && WellFormed(entry)
    ensures Dense(MergeEntry(acc, entry)) <==> EntryIndex(entry).None? || EntryIndex(entry).value <= |acc|
  {
    var after, index := MergeEntry(acc, entry), EntryIndex(entry);
    if index.Some? && index.value < |acc| {
      var i := index.value;
      assert EntryIndex(acc[i]) == Some(i);
      MergedIndexWins(acc[i].fields, entry.fields);
      assert EntryIndex(after[i]) == Some(i);
    } else if index.Some? {
      assert after[|acc|] == entry;
    }
  }

  /** The delta's `index` replaces the accumulated one. */
  lemma {:induction false} MergedIndexWins(acc: Fields, delta: Fields)
    requires UniqueKeys(delta) && Has(delta, "index")
    ensures Get(MergeFields(acc, delta), "index") == Get(delta, "index")
  {
    DeltaMergeLaws.GetMerged(acc, delta, "index");
  }

  /** No entry of `delta` jumps past the end of the array as it is when the entry arrives. */
  ghost predicate NoJump(acc: seq<Json>, delta: seq<Json>) {
    forall n :: 0 <= n < |delta| ==>
      EntryIndex(delta[n]).None? || EntryIndex(delta[n]).value <= |MergeEntries(acc, delta[..n])|
  }

  /** A dense array of objects stays dense at every moment of a merge if and only if no
      incoming index jumps past the current end. */
  lemma {:induction false} DenseThroughoutIffNoJump(acc: seq<Json>, delta: seq<Json>)
    requires acc != [] && Dense(acc) && WellFormed(Arr(delta))
    ensures MergeItems(acc, delta) == MergeEntries(acc, delta)
    ensures (forall n :: 0 <= n <= |delta| ==> Dense(MergeEntries(acc, delta[..n]))) <==> NoJump(acc, delta)
  {
    assert EntryIndex(acc[0]) == Some(0);
    assert !IsScalar(acc[0]);
    if NoJump(acc, delta) {
      forall n | 0 <= n <= |delta| ensures Dense(MergeEntries(acc, delta[..n])) {
        DenseUpTo(acc, delta, n);
      }
    } else if forall n :: 0 <= n <= |delta| ==> Dense(MergeEntries(acc, delta[..n])) {
      forall n | 0 <= n < |delta|
        ensures EntryIndex(delta[n]).None? || EntryIndex(delta[n]).value <= |MergeEntries(acc, delta[..n])|
      {
        assert delta[..n + 1][..n] == delta[..n] && WellFormed(Arr(delta).items[n]);
        assert Dense(MergeEntries(acc, delta[..n + 1]));
        MergeEntryDense(MergeEntries(acc, delta[..n]), delta[n]);
      }
    }
  }

  lemma {:induction false} DenseUpTo(acc: seq<Json>, delta: seq<Json>, n: nat)
    requires Dense(acc) && WellFormed(Arr(delta)) && NoJump(acc, delta) && n <= |delta|
    ensures Dense(MergeEntries(acc, delta[..n]))
  {
    if n != 0 {
      DenseUpTo(acc, delta, n - 1);
      assert delta[..n][..n - 1] == delta[..n - 1] && WellFormed(Arr(delta).items[n - 1]);
      MergeEntryDense(MergeEntries(acc, delta[..n - 1]), delta[n - 1]);
    }
  }
}
