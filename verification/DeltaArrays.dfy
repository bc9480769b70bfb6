/** Batching of object arrays: entries merge by index, so two deltas may be merged first as long
    as the positions of the first are its indices. */
module DeltaArrays {
  import opened JsonValue
  import opened DeltaMerge
  import opened DeltaMergeLaws
  import opened DeltaGrowth

  function Longer(a: seq<Json>, b: seq<Json>): nat { if |a| < |b| then |b| else |a| }

  /** Two arrays merged position by position. */
  function Zip(acc: seq<Json>, delta: seq<Json>): seq<Json> {
    seq(Longer(acc, delta), k requires 0 <= k < Longer(acc, delta) =>
      if k < |acc| && k < |delta| then MergeValue(acc[k], delta[k]) else if k < |acc| then acc[k] else delta[k])
  }

  /** Merging entries whose positions are their indices merges position by position. */
  lemma {:induction false} DenseMerge(acc: seq<Json>, delta: seq<Json>)
    requires Dense(delta)
    ensures MergeEntries(acc, delta) == Zip(acc, delta)
  {
    if delta == [] {
      assert Zip(acc, delta) == acc;
    } else {
      var n := |delta| - 1;
      var init := delta[..n];
      assert Dense(init) by { assert forall k :: 0 <= k < n ==> init[k] == delta[k]; }
      DenseMerge(acc, init);
      assert EntryIndex(delta[n]) == Some(n) && delta == init + [delta[n]];
      ZipNext(acc, init, delta[n]);
    }
  }

  lemma {:induction false} ZipNext(acc: seq<Json>, delta: seq<Json>, last: Json)
    ensures var n, before := |delta|, Zip(acc, delta);
            && |before| == Longer(acc, delta) && (n < |acc| ==> before[n] == acc[n])
            && Zip(acc, delta + [last]) == if n < |acc| then before[n := MergeValue(acc[n], last)] else before + [last]
  {
  }

  /** The entry meets the accumulated array and the first delta only where batching is safe. */
  ghost predicate EntryBatches(acc: seq<Json>, delta: seq<Json>, entry: Json) {
    match EntryIndex(entry)
    case None => true
    case Some(k) => k < |acc| && k < |delta| ==> Appends(acc[k], delta[k], entry) && Batches(acc[k], delta[k], entry)
  }

  /** One more entry of the second delta. */
  lemma {:induction false} NextEntry(acc: seq<Json>, delta: seq<Json>, entry: Json)
    requires WellFormed(Arr(acc)) && WellFormed(Arr(delta)) && WellFormed(entry)
    requires EntryIndex(entry).None? || EntryIndex(entry).value <= |delta|
    requires EntryBatches(acc, delta, entry)
    ensures MergeEntry(Zip(acc, delta), entry) == Zip(acc, MergeEntry(delta, entry))
  {
    var index := EntryIndex(entry);
    if index.Some? {
      var k := index.value;
      if k < |acc| && k < |delta| {
        assert WellFormed(Arr(acc).items[k]) && WellFormed(Arr(delta).items[k]);
        BatchValue(acc[k], delta[k], entry);
      }
      var left, right := MergeEntry(Zip(acc, delta), entry), Zip(acc, MergeEntry(delta, entry));
      assert |left| == |right| && forall i :: 0 <= i < |left| ==> left[i] == right[i];
    }
  }

  lemma {:induction false} BatchUpTo(acc: seq<Json>, d1: seq<Json>, d2: seq<Json>, n: nat)
    requires WellFormed(Arr(acc)) && WellFormed(Arr(d1)) && WellFormed(Arr(d2)) && Dense(d1) && NoJump(d1, d2) && n <= |d2|
    requires forall i :: 0 <= i < |d2| ==> EntryBatches(acc, MergeEntries(d1, d2[..i]), d2[i])
    ensures MergeEntries(Zip(acc, d1), d2[..n]) == Zip(acc, MergeEntries(d1, d2[..n]))
  {
    if n > 0 {
      var i := n - 1;
      BatchUpTo(acc, d1, d2, i);
      assert d2[..n][..i] == d2[..i] && WellFormed(Arr(d2).items[i]);
      PrefixWellFormed(d2, i);
      MergeEntriesWellFormed(d1, d2[..i]);
      NextEntry(acc, MergeEntries(d1, d2[..i]), d2[i]);
    }
  }

  lemma {:induction false} PrefixWellFormed(items: seq<Json>, n: nat)
    requires WellFormed(Arr(items)) && n <= |items|
    ensures WellFormed(Arr(items[..n]))
  {
    assert forall i :: 0 <= i < n ==> Arr(items[..n]).items[i] == Arr(items).items[i];
  }

  /** Object arrays batch when the first delta's positions are its indices, no index of the second
      jumps past it, and every entry batches where it meets both. */
  lemma {:induction false} BatchEntries(acc: seq<Json>, d1: seq<Json>, d2: seq<Json>)
    requires WellFormed(Arr(acc)) && WellFormed(Arr(d1)) && WellFormed(Arr(d2))
    requires !ScalarsOnly(acc) && d1 != [] && Dense(d1) && NoJump(d1, d2)
    requires forall i :: 0 <= i < |d2| ==> EntryBatches(acc, MergeEntries(d1, d2[..i]), d2[i])
    ensures MergeItems(MergeItems(acc, d1), d2) == MergeItems(acc, MergeItems(d1, d2))
  {
    DenseMerge(acc, d1);
    StaysIndexed(acc, d1);
    BatchUpTo(acc, d1, d2, |d2|);
    assert d2[..|d2|] == d2;
    Indexed(d1);
    MergedIsZip(acc, d1, d2);
  }

  lemma {:induction false} Indexed(items: seq<Json>)
    requires items != [] && Dense(items)
    ensures !ScalarsOnly(items)
  {
    assert EntryIndex(items[0]) == Some(0) && !IsScalar(items[0]);
  }

  lemma {:induction false} MergedIsZip(acc: seq<Json>, d1: seq<Json>, d2: seq<Json>)
    requires WellFormed(Arr(d2)) && Dense(d1) && NoJump(d1, d2)
    ensures MergeEntries(acc, MergeEntries(d1, d2)) == Zip(acc, MergeEntries(d1, d2))
  {
    DenseUpTo(d1, d2, |d2|);
    assert d2[..|d2|] == d2;
    DenseMerge(acc, MergeEntries(d1, d2));
  }

  lemma {:induction false} StaysIndexed(acc: seq<Json>, delta: seq<Json>)
    requires !ScalarsOnly(acc) && Dense(delta)
    ensures !ScalarsOnly(Zip(acc, delta))
  {
    var k :| 0 <= k < |acc| && !IsScalar(acc[k]);
    if k < |delta| { assert EntryIndex(delta[k]) == Some(k); }
    assert !IsScalar(Zip(acc, delta)[k]);
  }
}
