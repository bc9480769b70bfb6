/** The chat event stream: transport chunks go through the stream decoder, every dispatched
    frame is decoded, and the first failure ends the stream. */
module ChatStream {
  import opened JsonValue
  import opened SseFormat
  import opened Octets
  import opened SseDecoding
  import opened SseStream
  import opened ChatFold

  // ----- One frame -----

  /** The JSON parser and the typed decoder are the caller's. */
  datatype Codec = Codec(parse: Bytes -> Option<Json>, typed: Json -> Option<Chunk>)

  datatype StreamError = Transport | Framing(error: DecodeError) | Undecodable(data: Bytes) | Remote(data: Bytes)

  datatype Item = Yield(chunk: Chunk) | Failure(error: StreamError)

  /** Null, false, zero and empty values pass; any other `error` marks a remote error. */
  predicate ErrorIsTruthy(error: Json) {
    match error
    case Null => false
    case Bool(flag) => flag
    case Num(n) => AsReal(n) != 0.0
    case Str(text) => text != ""
    case Arr(items) => items != []
    case Obj(fields) => fields != []
  }

  function DecodeChunk(codec: Codec, data: Bytes): Item {
    match codec.parse(data)
    case None => Failure(Undecodable(data))
    case Some(value) =>
      if value.Obj? && Has(value.fields, "error") && ErrorIsTruthy(Get(value.fields, "error").value) then Failure(Remote(data))
      else match codec.typed(value)
        case Some(chunk) => Yield(chunk)
        case None => Failure(Undecodable(data))
  }

  function ItemOf(codec: Codec, d: Dispatch): Item {
    if d.RemoteError? then Failure(Remote(d.frame.data)) else DecodeChunk(codec, d.frame.data)
  }

  // ----- What a whole stream yields -----

  /** The items of the dispatches, up to and including the first failure. */
  function Deliver(codec: Codec, ds: seq<Dispatch>): seq<Item> {
    if ds == [] then []
    else
      var sofar := Deliver(codec, ds[..|ds| - 1]);
      if Fails(sofar) then sofar else sofar + [ItemOf(codec, ds[|ds| - 1])]
  }

  predicate Fails(items: seq<Item>) {
    items != [] && items[|items| - 1].Failure?
  }

  /** Deliver the dispatches, then the error that ended the stream, if nothing failed before. */
  function Finally(codec: Codec, ds: seq<Dispatch>, error: Option<StreamError>): seq<Item> {
    var items := Deliver(codec, ds);
    if Fails(items) || error.None? then items else items + [Failure(error.value)]
  }

  function FramingError(e: Option<DecodeError>): Option<StreamError> {
    if e.Some? then Some(Framing(e.value)) else None
  }

  /** The legacy policy: `[DONE]` ends the stream, an `error` event is a remote error, and the
      end of the body without either is a failure. */
  const LEGACY_DONE := Policy(false, [], [[91, 68, 79, 78, 69, 93]], [[101, 114, 114, 111, 114]])

  datatype Arrival = Received(bytes: Bytes) | Interrupted

  ghost predicate Uninterrupted(arrivals: seq<Arrival>) {
    forall i :: 0 <= i < |arrivals| ==> arrivals[i].Received?
  }

  /** The bytes received before the first interruption. */
  ghost function Input(arrivals: seq<Arrival>): Bytes {
    if arrivals == [] then []
    else
      var init, last := arrivals[..|arrivals| - 1], arrivals[|arrivals| - 1];
      if Uninterrupted(init) && last.Received? then Input(init) + last.bytes else Input(init)
  }

  /** Everything the stream yields. An uninterrupted stream is a function of its bytes alone. */
  ghost function Output(codec: Codec, limits: Limits, policy: Policy, arrivals: seq<Arrival>): seq<Item> {
    if Uninterrupted(arrivals) then WholeOutput(codec, Reference(limits, policy, Input(arrivals)))
    else CutOutput(codec, policy, Feed(limits, Stops(policy), START, Input(arrivals)))
  }

  function WholeOutput(codec: Codec, o: Outcome): seq<Item> {
    Finally(codec, o.dispatches, FramingError(o.error))
  }

  function CutOutput(codec: Codec, policy: Policy, fed: Fed): seq<Item> {
    Finally(codec, DispatchesOf(policy, fed.frames),
            match fed.status case Open(_) => Some(Transport) case Halted => None case Faulty(e) => Some(Framing(e)))
  }

  // ----- Laws of delivery -----

  /** Delivery is item by item, in order, nothing skipped and nothing twice, up to the first
      failure; no item but the last is a failure. */
  lemma {:induction false} DeliverMeans(codec: Codec, ds: seq<Dispatch>)
    ensures var items := Deliver(codec, ds);
            && |items| <= |ds| && (!Fails(items) ==> |items| == |ds|)
            && (forall i :: 0 <= i < |items| ==> items[i] == ItemOf(codec, ds[i]))
            && (forall i :: 0 <= i < |items| - 1 ==> items[i].Yield?)
  {
    if ds != [] {
      DeliverMeans(codec, ds[..|ds| - 1]);
    }
  }

  lemma {:induction false} DeliverConcat(codec: Codec, a: seq<Dispatch>, b: seq<Dispatch>)
    ensures Fails(Deliver(codec, a)) ==> Deliver(codec, a + b) == Deliver(codec, a)
    ensures !Fails(Deliver(codec, a)) ==> Deliver(codec, a + b) == Deliver(codec, a) + Deliver(codec, b)
  {
    if b == [] {
      assert a + b == a;
    } else {
      DeliverConcat(codec, a, b[..|b| - 1]);
      assert (a + b)[..|a + b| - 1] == a + b[..|b| - 1];
      assert Fails(Deliver(codec, b[..|b| - 1])) ==> Deliver(codec, b[..|b| - 1]) != [];
    }
  }

  /** The output is a run of chunks followed by at most one error, which is last. */
  lemma {:induction false} OutputShape(codec: Codec, limits: Limits, policy: Policy, arrivals: seq<Arrival>)
    ensures var items := Output(codec, limits, policy, arrivals); forall i :: 0 <= i < |items| - 1 ==> items[i].Yield?
  {
    var ds := if Uninterrupted(arrivals) then Reference(limits, policy, Input(arrivals)).dispatches
              else DispatchesOf(policy, Feed(limits, Stops(policy), START, Input(arrivals)).frames);
    DeliverMeans(codec, ds);
  }

  // ----- The generator -----

  /** Decode and yield the dispatches of one push; stop at the first failure. */
  method YieldAll(codec: Codec, ds: seq<Dispatch>) returns (items: seq<Item>)
    ensures items == Deliver(codec, ds)
  {
    items := [];
    for i := 0 to |ds|
      invariant items == Deliver(codec, ds[..i]) && !Fails(items)
    {
      assert ds[..i + 1][..i] == ds[..i];
      var item := ItemOf(codec, ds[i]);
      items := items + [item];
      if item.Failure? {
        DeliverConcat(codec, ds[..i + 1], ds[i + 1..]);
        assert ds[..i + 1] + ds[i + 1..] == ds;
        return;
      }
    }
    assert ds[..|ds|] == ds;
  }

  /** The stream is open after `input`, and has yielded `items` without a failure. */
  ghost predicate Yielded(codec: Codec, limits: Limits, policy: Policy, input: Bytes, core: Core, items: seq<Item>) {
    var fed := Feed(limits, Stops(policy), START, input);
    fed.status == Open(core) && items == Deliver(codec, DispatchesOf(policy, fed.frames)) && !Fails(items)
  }

  /** The stream yields nothing more: an item failed, or the decoder stopped. */
  ghost predicate Over(codec: Codec, policy: Policy, fed: Fed) {
    !fed.status.Open? || Fails(Deliver(codec, DispatchesOf(policy, fed.frames)))
  }

  lemma {:induction false} YieldedNothing(codec: Codec, limits: Limits, policy: Policy)
    ensures Yielded(codec, limits, policy, [], START, [])
  {
    FeedNothing(limits, Stops(policy), START);
  }

  /** One more chunk: what it dispatches is delivered after what came before. */
  lemma {:induction false} YieldedMore(codec: Codec, limits: Limits, policy: Policy, input: Bytes, core: Core,
                                       items: seq<Item>, chunk: Bytes, fed: Fed, next: seq<Item>)
    requires Yielded(codec, limits, policy, input, core, items)
    requires fed == Feed(limits, Stops(policy), core, chunk)
    requires next == items + Deliver(codec, DispatchesOf(policy, fed.frames))
    ensures var all := Feed(limits, Stops(policy), START, input + chunk);
            all.status == fed.status && Deliver(codec, DispatchesOf(policy, all.frames)) == next
  {
    FeedConcat(limits, Stops(policy), START, input, chunk);
    var first := Feed(limits, Stops(policy), START, input);
    DispatchesConcat(policy, first.frames, fed.frames);
    DeliverConcat(codec, DispatchesOf(policy, first.frames), DispatchesOf(policy, fed.frames));
  }

  lemma {:induction false} Concluded(codec: Codec, ds: seq<Dispatch>, items: seq<Item>, more: seq<Item>,
                                     error: Option<StreamError>)
    requires Deliver(codec, ds) == items + more && !Fails(items)
    ensures Fails(items + more) <==> Fails(more)
    ensures Finally(codec, ds, error) ==
            if Fails(more) || error.None? then items + more else items + more + [Failure(error.value)]
  {
  }

  /** Feed one chunk and yield what it completes; `stopped` says that the stream is over. */
  method DriveChunk(codec: Codec, stream: SseStreamDecoder, chunk: Bytes, items: seq<Item>, ghost input: Bytes)
    returns (next: seq<Item>, stopped: bool)
    requires stream.Valid() && stream.state == StreamActive
    requires Yielded(codec, stream.decoder.limits, stream.policy, input, stream.decoder.View(), items)
    modifies stream, stream.decoder
    ensures stream.Valid()
    ensures var fed := Feed(stream.decoder.limits, Stops(stream.policy), START, input + chunk);
            if stopped then Over(codec, stream.policy, fed) && next == CutOutput(codec, stream.policy, fed)
            else stream.state == StreamActive &&
                 Yielded(codec, stream.decoder.limits, stream.policy, input + chunk, stream.decoder.View(), next)
  {
    ghost var core := stream.decoder.View();
    ghost var fed := Feed(stream.decoder.limits, Stops(stream.policy), core, chunk);
    var dispatches, error := stream.PushWithFlushed(chunk);
    var more := YieldAll(codec, dispatches);
    next := items + more;
    YieldedMore(codec, stream.decoder.limits, stream.policy, input, core, items, chunk, fed, next);
    ghost var all := Feed(stream.decoder.limits, Stops(stream.policy), START, input + chunk);
    Concluded(codec, DispatchesOf(stream.policy, all.frames), items, more, FramingError(error));
    if Fails(more) {
      return next, true;
    }
    if error.Some? {
      return next + [Failure(Framing(error.value))], true;
    }
    stopped := stream.state != StreamActive;
  }

  /** End the body and yield what that flushes. */
  method DriveEnd(codec: Codec, stream: SseStreamDecoder, items: seq<Item>, ghost input: Bytes)
    returns (next: seq<Item>)
    requires stream.Valid() && stream.state == StreamActive
    requires Yielded(codec, stream.decoder.limits, stream.policy, input, stream.decoder.View(), items)
    modifies stream, stream.decoder
    ensures next == WholeOutput(codec, Reference(stream.decoder.limits, stream.policy, input))
  {
    ghost var core := stream.decoder.View();
    var dispatches, error := stream.FinishWithFlushed();
    var more := YieldAll(codec, dispatches);
    YieldedAll(codec, stream.decoder.limits, stream.policy, input, core, items);
    Concluded(codec, Reference(stream.decoder.limits, stream.policy, input).dispatches, items, more, FramingError(error));
    next := items + more;
    if Fails(more) {
      return;
    }
    if error.Some? {
      next := next + [Failure(Framing(error.value))];
    }
  }

  /** The flush is delivered after everything that came before. */
  lemma {:induction false} YieldedAll(codec: Codec, limits: Limits, policy: Policy, input: Bytes, core: Core, items: seq<Item>)
    requires Yielded(codec, limits, policy, input, core, items)
    ensures var whole, end := Reference(limits, policy, input), FlushStream(limits, policy, core);
            whole.error == end.error && Deliver(codec, whole.dispatches) == items + Deliver(codec, end.dispatches)
  {
    DecoderIsReference(limits, policy, input);
    var fed := Feed(limits, Stops(policy), START, input);
    DeliverConcat(codec, DispatchesOf(policy, fed.frames), FlushStream(limits, policy, core).dispatches);
  }

  /** The stream loop: it yields exactly the output of its arrivals. */
  method Drive(codec: Codec, limits: Limits, policy: Policy, arrivals: seq<Arrival>) returns (items: seq<Item>)
    requires limits.maxLineBytes > 0
    ensures items == Output(codec, limits, policy, arrivals)
  {
    var stream := new SseStreamDecoder(limits, policy);
    items := [];
    YieldedNothing(codec, limits, policy);
    for n := 0 to |arrivals|
      invariant stream.Valid() && stream.state == StreamActive && fresh(stream) && fresh(stream.decoder)
      invariant stream.policy == policy && stream.decoder.limits == limits
      invariant Uninterrupted(arrivals[..n])
      invariant Yielded(codec, limits, policy, Input(arrivals[..n]), stream.decoder.View(), items)
    {
      if arrivals[n].Interrupted? {
        CutShort(codec, limits, policy, arrivals, n, stream.decoder.View(), items);
        return items + [Failure(Transport)];
      }
      ghost var input := Input(arrivals[..n]);
      InputSnoc(arrivals, n);
      var stopped;
      items, stopped := DriveChunk(codec, stream, arrivals[n].bytes, items, input);
      if stopped {
        OverEarly(codec, limits, policy, arrivals, n + 1);
        return;
      }
    }
    assert arrivals[..|arrivals|] == arrivals;
    items := DriveEnd(codec, stream, items, Input(arrivals));
  }

  lemma {:induction false} InputSnoc(arrivals: seq<Arrival>, n: nat)
    requires n < |arrivals| && Uninterrupted(arrivals[..n]) && arrivals[n].Received?
    ensures Uninterrupted(arrivals[..n + 1]) && Input(arrivals[..n + 1]) == Input(arrivals[..n]) + arrivals[n].bytes
  {
    assert arrivals[..n + 1][..n] == arrivals[..n];
  }

  /** An interruption of an open stream is the one failure it yields. */
  lemma {:induction false} CutShort(codec: Codec, limits: Limits, policy: Policy, arrivals: seq<Arrival>, n: nat,
                                    core: Core, items: seq<Item>)
    requires n < |arrivals| && arrivals[n].Interrupted?
    requires Yielded(codec, limits, policy, Input(arrivals[..n]), core, items)
    ensures items + [Failure(Transport)] == Output(codec, limits, policy, arrivals)
  {
    InputStops(arrivals, n);
  }

  /** A chat completion stream: two ways of cutting the same body into chunks yield the same. */
  method ChatEvents(codec: Codec, limits: Limits, arrivals: seq<Arrival>) returns (items: seq<Item>)
    requires limits.maxLineBytes > 0
    ensures Uninterrupted(arrivals) ==> items == WholeOutput(codec, Reference(limits, LEGACY_DONE, Input(arrivals)))
    ensures !Uninterrupted(arrivals) ==>
            items == CutOutput(codec, LEGACY_DONE, Feed(limits, Stops(LEGACY_DONE), START, Input(arrivals)))
  {
    items := Drive(codec, limits, LEGACY_DONE, arrivals);
  }

  /** Later arrivals only extend the input. */
  lemma {:induction false} InputExtends(arrivals: seq<Arrival>, n: nat) returns (more: Bytes)
    requires n <= |arrivals|
    ensures Input(arrivals) == Input(arrivals[..n]) + more
  {
    if n == |arrivals| {
      more := [];
      assert arrivals[..n] == arrivals;
    } else {
      var init := arrivals[..|arrivals| - 1];
      more := InputExtends(init, n);
      assert init[..n] == arrivals[..n];
      if Uninterrupted(init) && arrivals[|arrivals| - 1].Received? {
        more := more + arrivals[|arrivals| - 1].bytes;
      }
    }
  }

  /** Nothing counts after an interruption. */
  lemma {:induction false} InputStops(arrivals: seq<Arrival>, n: nat)
    requires n < |arrivals| && arrivals[n].Interrupted?
    ensures Input(arrivals) == Input(arrivals[..n]) && !Uninterrupted(arrivals)
  {
    var init := arrivals[..|arrivals| - 1];
    if n < |arrivals| - 1 {
      InputStops(init, n);
      assert init[..n] == arrivals[..n];
    }
  }

  /** A stream that stopped before all arrivals were read is not changed by the rest. */
  lemma {:induction false} StoppedEarly(codec: Codec, limits: Limits, policy: Policy, arrivals: seq<Arrival>, n: nat)
    requires n <= |arrivals|
    requires !Feed(limits, Stops(policy), START, Input(arrivals[..n])).status.Open?
    ensures Output(codec, limits, policy, arrivals) ==
            CutOutput(codec, policy, Feed(limits, Stops(policy), START, Input(arrivals[..n])))
  {
    var more := InputExtends(arrivals, n);
    FeedConcat(limits, Stops(policy), START, Input(arrivals[..n]), more);
    DecoderIsReference(limits, policy, Input(arrivals));
  }

  /** A stream whose item failed is not changed by the rest. */
  lemma {:induction false} FailedEarly(codec: Codec, limits: Limits, policy: Policy, arrivals: seq<Arrival>, n: nat)
    requires n <= |arrivals|
    requires Fails(Deliver(codec, DispatchesOf(policy, Feed(limits, Stops(policy), START, Input(arrivals[..n])).frames)))
    ensures Output(codec, limits, policy, arrivals) ==
            Deliver(codec, DispatchesOf(policy, Feed(limits, Stops(policy), START, Input(arrivals[..n])).frames))
  {
    var input := Input(arrivals[..n]);
    var fed := Feed(limits, Stops(policy), START, input);
    if fed.status.Open? {
      var more := InputExtends(arrivals, n);
      FeedConcat(limits, Stops(policy), START, input, more);
      var whole, rest := Feed(limits, Stops(policy), START, Input(arrivals)), Feed(limits, Stops(policy), fed.status.core, more);
      DispatchesConcat(policy, fed.frames, rest.frames);
      DeliverConcat(codec, DispatchesOf(policy, fed.frames), DispatchesOf(policy, rest.frames));
      DecoderIsReference(limits, policy, Input(arrivals));
      if whole.status.Open? {
        DeliverConcat(codec, DispatchesOf(policy, whole.frames), FlushStream(limits, policy, whole.status.core).dispatches);
      }
    } else {
      StoppedEarly(codec, limits, policy, arrivals, n);
    }
  }

  lemma {:induction false} OverEarly(codec: Codec, limits: Limits, policy: Policy, arrivals: seq<Arrival>, n: nat)
    requires n <= |arrivals| && Over(codec, policy, Feed(limits, Stops(policy), START, Input(arrivals[..n])))
    ensures Output(codec, limits, policy, arrivals) ==
            CutOutput(codec, policy, Feed(limits, Stops(policy), START, Input(arrivals[..n])))
  {
    if !Feed(limits, Stops(policy), START, Input(arrivals[..n])).status.Open? {
      StoppedEarly(codec, limits, policy, arrivals, n);
    } else {
      FailedEarly(codec, limits, policy, arrivals, n);
    }
  }
}
