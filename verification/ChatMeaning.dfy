/** What a chat stream yields, frame by frame, in terms of the JSON parser and the typed decoder. */
module ChatMeaning {
  import opened JsonValue
  import opened Octets
  import opened Sequences
  import opened SseFormat
  import opened SseStream
  import opened SseMeaning
  import opened ChatFold
  import opened ChatStream

  // ----- One frame -----

  /** The values of an `error` member that do not mark a remote error. */
  ghost predicate NoError(e: Json) {
    || e == Null || e == Bool(false) || e == Num(Integer(0)) || e == Num(Float(0.0))
    || e == Str("") || e == Arr([]) || e == Obj([])
  }

  /** The data parses to an object with an `error` member that marks a remote error. */
  ghost predicate Marked(codec: Codec, data: Bytes) {
    var v := codec.parse(data);
    v.Some? && v.value.Obj? && exists e :: Get(v.value.fields, "error") == Some(e) && !NoError(e)
  }

  /** The chunk that the data parses and decodes to. */
  ghost function Typed(codec: Codec, data: Bytes): Option<Chunk> {
    if codec.parse(data).None? then None else codec.typed(codec.parse(data).value)
  }

  ghost predicate IsRemote(codec: Codec, d: Dispatch) { d.RemoteError? || Marked(codec, d.frame.data) }

  ghost predicate IsGood(codec: Codec, d: Dispatch) { !IsRemote(codec, d) && Typed(codec, d.frame.data).Some? }

  /** The item of a dispatched frame: a remote error by its event or its data, otherwise the chunk
      it decodes to, otherwise a decode failure. */
  ghost predicate ItemIs(codec: Codec, d: Dispatch, item: Item) {
    var data := d.frame.data;
    && (item == Failure(Remote(data)) <==> IsRemote(codec, d))
    && (forall c :: item == Yield(c) <==> !IsRemote(codec, d) && Typed(codec, data) == Some(c))
    && (item == Failure(Undecodable(data)) <==> !IsRemote(codec, d) && Typed(codec, data).None?)
  }

  lemma {:induction false} TruthyMeans(e: Json)
    ensures ErrorIsTruthy(e) <==> !NoError(e)
  {
  }

  lemma {:induction false} DecodeMeans(codec: Codec, data: Bytes)
    ensures DecodeChunk(codec, data) ==
            if Marked(codec, data) then Failure(Remote(data))
            else if Typed(codec, data).Some? then Yield(Typed(codec, data).value)
            else Failure(Undecodable(data))
  {
    var v := codec.parse(data);
    if v.Some? && v.value.Obj? && Has(v.value.fields, "error") {
      TruthyMeans(Get(v.value.fields, "error").value);
    }
  }

  lemma {:induction false} ItemMeans(codec: Codec, d: Dispatch)
    ensures ItemIs(codec, d, ItemOf(codec, d))
  {
    DecodeMeans(codec, d.frame.data);
  }

  // ----- Any stream -----

  /** The dispatches of a stream, and the error that ends it after them. */
  ghost function Dispatched(limits: Limits, policy: Policy, arrivals: seq<Arrival>): seq<Dispatch> {
    if Uninterrupted(arrivals) then Reference(limits, policy, Input(arrivals)).dispatches
    else DispatchesOf(policy, FedWith(limits, policy, arrivals).frames)
  }

  ghost function FedWith(limits: Limits, policy: Policy, arrivals: seq<Arrival>): SseDecoding.Fed {
    SseDecoding.Feed(limits, Stops(policy), SseDecoding.START, Input(arrivals))
  }

  /** Every item is that of its dispatch; a stream without a failure yields all of them; and the
      stream ends with a remote error if and only if the first dispatch that is not good is one. */
  lemma {:induction false} OutputMeans(codec: Codec, limits: Limits, policy: Policy, arrivals: seq<Arrival>)
    ensures var items, ds := Output(codec, limits, policy, arrivals), Dispatched(limits, policy, arrivals);
            && (forall i :: 0 <= i < |items| && i < |ds| ==> ItemIs(codec, ds[i], items[i]))
            && ((forall i :: 0 <= i < |items| ==> items[i].Yield?) ==> |items| == |ds|)
            && (EndsRemote(items) <==> FirstBadIsRemote(codec, ds))
  {
    var ds := Dispatched(limits, policy, arrivals);
    var o := Reference(limits, policy, Input(arrivals));
    var fed := FedWith(limits, policy, arrivals);
    var error := if Uninterrupted(arrivals) then FramingError(o.error)
                 else match fed.status case Open(_) => Some(Transport) case Halted => None case Faulty(e) => Some(Framing(e));
    FinallyMeans(codec, ds, error);
  }

  ghost predicate EndsRemote(items: seq<Item>) {
    items != [] && items[|items| - 1].Failure? && items[|items| - 1].error.Remote?
  }

  ghost predicate FirstBadIsRemote(codec: Codec, ds: seq<Dispatch>) {
    exists n :: 0 <= n < |ds| && IsRemote(codec, ds[n]) && forall m :: 0 <= m < n ==> IsGood(codec, ds[m])
  }

  lemma {:induction false} FinallyMeans(codec: Codec, ds: seq<Dispatch>, error: Option<StreamError>)
    requires error.Some? ==> !error.value.Remote?
    ensures var items := Finally(codec, ds, error);
            && (forall i :: 0 <= i < |items| && i < |ds| ==> ItemIs(codec, ds[i], items[i]))
            && ((forall i :: 0 <= i < |items| ==> items[i].Yield?) ==> |items| == |ds|)
            && (EndsRemote(items) <==> FirstBadIsRemote(codec, ds))
  {
    var delivered := Deliver(codec, ds);
    DeliverMeans(codec, ds);
    forall i | 0 <= i < |delivered| ensures ItemIs(codec, ds[i], delivered[i]) {
      ItemMeans(codec, ds[i]);
    }
    RemoteMeans(codec, ds, delivered);
    var items := Finally(codec, ds, error);
    if Fails(delivered) || error.None? {
      assert items == delivered;
    } else {
      assert items == delivered + [Failure(error.value)] && items[|items| - 1] == Failure(error.value);
    }
    if Fails(items) {
      assert items[|items| - 1].Failure?;
    }
  }

  lemma {:induction false} RemoteMeans(codec: Codec, ds: seq<Dispatch>, items: seq<Item>)
    requires |items| <= |ds| && (!Fails(items) ==> |items| == |ds|)
    requires forall i :: 0 <= i < |items| ==> ItemIs(codec, ds[i], items[i])
    requires forall i :: 0 <= i < |items| - 1 ==> items[i].Yield?
    ensures EndsRemote(items) <==> FirstBadIsRemote(codec, ds)
    ensures FirstBadIsRemote(codec, ds) ==> Fails(items)
  {
    forall i | 0 <= i < |items|
      ensures items[i].Yield? <==> IsGood(codec, ds[i])
      ensures items[i].Failure? && items[i].error.Remote? <==> IsRemote(codec, ds[i])
    {
      KindOfItem(codec, ds[i], items[i]);
    }
    if EndsRemote(items) {
      assert IsRemote(codec, ds[|items| - 1]);
    }
    if FirstBadIsRemote(codec, ds) {
      var n :| 0 <= n < |ds| && IsRemote(codec, ds[n]) && forall m :: 0 <= m < n ==> IsGood(codec, ds[m]);
      assert n < |items| ==> !items[n].Yield?;
    }
  }

  lemma {:induction false} KindOfItem(codec: Codec, d: Dispatch, item: Item)
    requires ItemIs(codec, d, item)
    ensures item.Yield? <==> IsGood(codec, d)
    ensures item.Failure? && item.error.Remote? <==> IsRemote(codec, d)
  {
    var data := d.frame.data;
    if IsGood(codec, d) {
      assert item == Yield(Typed(codec, data).value);
    }
    if item.Yield? {
      assert item == Yield(item.chunk);
    }
  }

  // ----- A chat stream, from its blocks -----

  /** What the frames of a chat stream yield: `[DONE]` ends the stream, an `error` event or an
      error in the data fails it, so does data that does not decode, and so does what is wrong
      with the body after them. */
  ghost function ChatItems(codec: Codec, frames: seq<Frame>, wrong: DecodeError): seq<Item> {
    if frames == [] then [Failure(Framing(wrong))]
    else
      var f := frames[0];
      if f.data == Ascii("[DONE]") then []
      else if f.event == Some(Ascii("error")) || Marked(codec, f.data) then [Failure(Remote(f.data))]
      else if Typed(codec, f.data).None? then [Failure(Undecodable(f.data))]
      else [Yield(Typed(codec, f.data).value)] + ChatItems(codec, frames[1..], wrong)
  }

  lemma {:induction false} LegacyClass(f: Frame)
    ensures Classify(LEGACY_DONE, f) ==
            if f.data == Ascii("[DONE]") then ConsumedTerminal
            else if f.event == Some(Ascii("error")) then RemoteFailure
            else Plain
  {
    assert Ascii("[DONE]") == [91, 68, 79, 78, 69, 93];
    assert Ascii("error") == [101, 114, 114, 111, 114];
  }

  /** Any uninterrupted body whose blocks the decoder takes: the items of its frames, in order,
      and a failure if it ends without `[DONE]`. */
  lemma {:induction false} ChatStreamMeans(codec: Codec, limits: Limits, arrivals: seq<Arrival>, blocks: seq<seq<Bytes>>,
                                           last: seq<Bytes>)
    requires Uninterrupted(arrivals) && AllLines(StripBom(Input(arrivals))) == ClosedAll(blocks) + last
    requires NoBlank(last) && forall i :: 0 <= i < |blocks| ==> NoBlank(blocks[i])
    requires AllTaken(limits, blocks) && Taken(limits, last)
    ensures Output(codec, limits, LEGACY_DONE, arrivals) ==
            ChatItems(codec, FramesOf(None, blocks) + FrameOf(IdAfterAll(None, blocks), last), UnexpectedEof)
  {
    var frames := FramesOf(None, blocks) + FrameOf(IdAfterAll(None, blocks), last);
    StreamMeans(limits, LEGACY_DONE, Input(arrivals), blocks, last);
    ShownItems(codec, frames, UnexpectedEof);
    if NoneStops(Stops(LEGACY_DONE), frames) {
      UntilStopNever(Stops(LEGACY_DONE), frames);
    }
  }

  /** Any uninterrupted body with a line that is not taken: the items of the frames before it, in
      order, and a failure with what is wrong with that line if they do not end the stream. */
  lemma {:induction false} ChatStreamBreaks(codec: Codec, limits: Limits, arrivals: seq<Arrival>, blocks: seq<seq<Bytes>>,
                                            before: seq<Bytes>, line: Bytes, rest: seq<Bytes>)
    requires Uninterrupted(arrivals)
    requires AllLines(StripBom(Input(arrivals))) == ClosedAll(blocks) + (before + ([line] + rest))
    requires AllTaken(limits, blocks) && forall i :: 0 <= i < |blocks| ==> NoBlank(blocks[i])
    requires Spoils(limits, before, line)
    ensures Output(codec, limits, LEGACY_DONE, arrivals) ==
            ChatItems(codec, FramesOf(None, blocks), Complaint(limits, before, line))
  {
    FailureMeans(limits, LEGACY_DONE, Input(arrivals), blocks, before, line, rest);
    ShownItems(codec, FramesOf(None, blocks), Complaint(limits, before, line));
    if NoneStops(Stops(LEGACY_DONE), FramesOf(None, blocks)) {
      UntilStopNever(Stops(LEGACY_DONE), FramesOf(None, blocks));
    }
  }

  /** The error after the frames that are shown. */
  ghost function LastError(policy: Policy, frames: seq<Frame>, wrong: DecodeError): Option<StreamError> {
    if NoneStops(Stops(policy), frames) then Some(Framing(wrong)) else None
  }

  lemma {:induction false} ShownItems(codec: Codec, frames: seq<Frame>, wrong: DecodeError)
    ensures Finally(codec, DispatchesOf(LEGACY_DONE, UntilStop(Stops(LEGACY_DONE), frames)),
                    LastError(LEGACY_DONE, frames, wrong)) ==
            ChatItems(codec, frames, wrong)
  {
    if frames != [] {
      var f, rest := frames[0], frames[1..];
      ShownItems(codec, rest, wrong);
      LegacyClass(f);
      FirstShown(LEGACY_DONE, f, rest, wrong);
      assert frames == [f] + rest;
      DecodeMeans(codec, f.data);
      if Classify(LEGACY_DONE, f) == Plain {
        FinallyNext(codec, Event(f), DispatchesOf(LEGACY_DONE, UntilStop(Stops(LEGACY_DONE), rest)),
                    LastError(LEGACY_DONE, rest, wrong));
      } else {
        OneDelivered(codec, DispatchOf(LEGACY_DONE, f));
      }
    }
  }

  lemma {:induction false} FirstShown(policy: Policy, f: Frame, rest: seq<Frame>, wrong: DecodeError)
    ensures var shown := DispatchesOf(policy, UntilStop(Stops(policy), [f] + rest));
            var more := DispatchesOf(policy, UntilStop(Stops(policy), rest));
            if Classify(policy, f) == Plain
            then shown == [Event(f)] + more && LastError(policy, [f] + rest, wrong) == LastError(policy, rest, wrong)
            else shown == DispatchOf(policy, f) && LastError(policy, [f] + rest, wrong) == None
  {
    var stop, head := Stops(policy), [f];
    UntilStopConcat(stop, head, rest);
    NoneStopsConcat(stop, head, rest);
    DispatchesConcat(policy, head, UntilStop(stop, rest));
    assert head[..0] == [] && head[1..] == [];
    assert [] + DispatchOf(policy, f) == DispatchOf(policy, f);
  }

  lemma {:induction false} OneDelivered(codec: Codec, ds: seq<Dispatch>)
    requires |ds| <= 1
    ensures Finally(codec, ds, None) == if ds == [] then [] else [ItemOf(codec, ds[0])]
  {
    if ds != [] {
      var before: seq<Dispatch> := [];
      assert ds[..|ds| - 1] == before && Deliver(codec, before) == [];
      assert Deliver(codec, ds) == [ItemOf(codec, ds[0])];
    }
  }

  lemma {:induction false} FinallyNext(codec: Codec, d: Dispatch, ds: seq<Dispatch>, error: Option<StreamError>)
    ensures var item := ItemOf(codec, d);
            Finally(codec, [d] + ds, error) == if item.Failure? then [item] else [item] + Finally(codec, ds, error)
  {
    var head, items := [d], Deliver(codec, ds);
    assert head[..0] == [] && Deliver(codec, head) == [ItemOf(codec, d)];
    DeliverConcat(codec, head, ds);
    assert items == [] ==> !Fails(items);
    if error.Some? {
      SeqAssociative([ItemOf(codec, d)], items, [Failure(error.value)]);
    }
  }
}
