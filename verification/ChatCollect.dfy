/** Reducing a whole chat stream to its completion. */
module ChatCollect {
  import opened JsonValue
  import opened Lanes
  import opened SseFormat
  import opened ChatFold
  import opened ChatAccumulator
  import opened ChatSnapshot
  import opened ChatStream

  datatype Collected =
    | Completion(snapshot: Fields)
    | Aborted(error: StreamError)
    | Unfinished       // no stop reason and no end-of-stream mark
    | NothingObserved  // no chunk of the right kind

  function ErrorIn(item: Item): Option<StreamError> { if item.Failure? then Some(item.error) else None }
  function ChunkIn(item: Item): seq<Chunk> { if item.Yield? then [item.chunk] else [] }

  /** The completion of a history of chunks, in closed form. */
  ghost function CompletionOf(history: seq<Chunk>): Collected {
    if !Any(history, IsChunk) then NothingObserved
    else
      FoldedKeysAreWords(EventsOf(history));
      Completion(SnapshotObject(TopOf(Where(history, IsChunk)), ChoicesOf(EventsOf(history)), true))
  }

  /** What collecting a stream means: its first error, or the completion of all its chunks. */
  ghost function CollectedFrom(past: seq<Chunk>, items: seq<Item>): Collected {
    var error := First(items, ErrorIn);
    if error.Some? then Aborted(error.value) else CompletionOf(past + Joined(items, ChunkIn))
  }

  /** `finish`: the snapshot, if a terminal condition and at least one chunk were observed. */
  method Finish(acc: Accumulator) returns (r: Collected)
    requires acc.Valid()
    ensures r.Unfinished? <==> !acc.done && !Any(EventsOf(acc.history), HasFinish)
    ensures !r.Unfinished? ==> r == CompletionOf(acc.history)
  {
    var isDone := acc.IsDone();
    if !isDone {
      return Unfinished;
    }
    if !acc.started {
      return NothingObserved;
    }
    FoldedKeysAreWords(EventsOf(acc.history));
    r := Completion(SnapshotObject(acc.top, acc.choices, true));
  }

  lemma {:induction false} NextItem(past: seq<Chunk>, items: seq<Item>, n: nat)
    requires n < |items| && First(items[..n], ErrorIn).None?
    ensures items[n].Failure? ==> First(items, ErrorIn) == Some(items[n].error)
    ensures items[n].Yield? ==> First(items[..n + 1], ErrorIn).None? &&
                                past + Joined(items[..n + 1], ChunkIn) == (past + Joined(items[..n], ChunkIn)) + [items[n].chunk]
  {
    assert items[..n + 1][..n] == items[..n];
    if items[n].Failure? {
      FirstConcat(items[..n + 1], items[n + 1..], ErrorIn);
      assert items[..n + 1] + items[n + 1..] == items;
    }
  }

  /** `collect_with`: push every chunk, abort on the first error, mark the end, finish. */
  method CollectWith(acc: Accumulator, items: seq<Item>) returns (r: Collected)
    requires acc.Valid()
    modifies acc
    ensures acc.Valid() && r == CollectedFrom(old(acc.history), items)
  {
    ghost var past := acc.history;
    assert past + [] == past;
    for n := 0 to |items|
      invariant acc.Valid() && acc.history == past + Joined(items[..n], ChunkIn)
      invariant First(items[..n], ErrorIn).None?
    {
      NextItem(past, items, n);
      if items[n].Failure? {
        return Aborted(items[n].error);
      }
      acc.Push(items[n].chunk);
    }
    assert items[..|items|] == items;
    acc.MarkDone();
    r := Finish(acc);
  }

  /** `collect_final` over a transport: the completion of what the stream yields. */
  method CollectFinal(codec: Codec, limits: Limits, arrivals: seq<Arrival>) returns (r: Collected)
    requires limits.maxLineBytes > 0
    ensures r == CollectedFrom([], Output(codec, limits, LEGACY_DONE, arrivals))
  {
    var items := Drive(codec, limits, LEGACY_DONE, arrivals);
    var acc := new Accumulator();
    r := CollectWith(acc, items);
  }

  /** End to end: the collected completion of an uninterrupted response depends only on the
      bytes of its body, not on how the transport cut them. */
  lemma {:induction false} CollectIgnoresChunking(codec: Codec, limits: Limits, one: seq<Arrival>, two: seq<Arrival>)
    requires Uninterrupted(one) && Uninterrupted(two) && Input(one) == Input(two)
    ensures CollectedFrom([], Output(codec, limits, LEGACY_DONE, one)) ==
            CollectedFrom([], Output(codec, limits, LEGACY_DONE, two))
  {
  }

  /** Collecting succeeds exactly on an error-free run with at least one accepted chunk, and
      then all delivered chunks are folded. */
  lemma {:induction false} CollectSucceeds(past: seq<Chunk>, items: seq<Item>)
    ensures CollectedFrom(past, items).Completion? <==>
            (forall i :: 0 <= i < |items| ==> items[i].Yield?) && Any(past + Joined(items, ChunkIn), IsChunk)
    ensures (forall i :: 0 <= i < |items| ==> items[i].Yield?) ==>
            |Joined(items, ChunkIn)| == |items| && forall i :: 0 <= i < |items| ==> Joined(items, ChunkIn)[i] == items[i].chunk
  {
    FirstMeans(items, ErrorIn);
    if forall i :: 0 <= i < |items| ==> items[i].Yield? {
      AllJoined(items);
      assert forall i :: 0 <= i < |items| ==> ErrorIn(items[i]).None?;
    } else {
      var i :| 0 <= i < |items| && items[i].Failure?;
      assert ErrorIn(items[i]).Some?;
    }
  }

  lemma {:induction false} AllJoined(items: seq<Item>)
    requires forall i :: 0 <= i < |items| ==> items[i].Yield?
    ensures |Joined(items, ChunkIn)| == |items| && forall i :: 0 <= i < |items| ==> Joined(items, ChunkIn)[i] == items[i].chunk
  {
    if items != [] {
      AllJoined(items[..|items| - 1]);
    }
  }
}
