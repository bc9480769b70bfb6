/** A persistent event connection: what each call does to it, and what every sequence of
    calls over every script of frames and faults keeps. */
module BetaSocket {
  import opened JsonValue
  import opened Octets

  // ----- The peer and the wire -----

  datatype CloseFrame = CloseFrame(code: nat, reason: string)

  datatype Message =
    | TextMessage(text: Bytes)
    | Binary(bytes: Bytes)
    | Ping
    | Pong
    | Closing(frame: Option<CloseFrame>)
    | RawFrame

  datatype Incoming = Received(message: Message) | ReadFault

  /** What the wire will do: the frames that come in before the stream ends, and whether each
      write and each close handshake succeeds. */
  datatype Wire = Wire(incoming: seq<Incoming>, writeOk: nat -> bool, closeOk: nat -> bool)

  /** The event decoder, and the limit on messages. */
  datatype Rules<!E> = Rules(decode: Bytes -> Option<E>, maxMessageBytes: nat)

  /** An event of the client: its encoding, if it has one, and the encoded value. */
  datatype ClientEvent = ClientEvent(encoded: Option<Bytes>, value: Json)

  // ----- Connection state and results -----

  /** The connection and how often its socket was used: polled, written to, asked to close. */
  datatype State = State(closed: bool, lastClose: Option<CloseFrame>, polls: nat, written: seq<Bytes>, closings: nat)

  const FRESH := State(false, None, 0, [], 0)

  datatype Call = Recv | Send(event: ClientEvent) | Close

  datatype Result<E> =
    | Event(event: E)
    | Ended
    | DecodeFailed
    | ReadFailed
    | Oversized
    | BinaryRefused
    | RawRefused
    | Sent
    | SendOnClosed
    | NotEncoded
    | BadStreamId
    | TooLarge
    | WriteFailed
    | Closed
    | CloseFailed

  predicate LaneChar(c: char) { 'a' <= c <= 'z' || 'A' <= c <= 'Z' || '0' <= c <= '9' || c == '_' || c == '.' || c == '-' }

  predicate StreamIdOk(value: Json) {
    if !value.Obj? || Get(value.fields, "stream_id").None? then true
    else
      var id := Get(value.fields, "stream_id").value;
      id.Str? && id.text != "" && |id.text| <= 256 && forall i :: 0 <= i < |id.text| ==> LaneChar(id.text[i])
  }

  // ----- The connection -----

  class BetaResponsesWebSocket<E(!new)> {
    const wire: Wire
    const rules: Rules<E>
    var closed: bool
    var lastClose: Option<CloseFrame>
    var polls: nat
    var written: seq<Bytes>
    var closings: nat

    function Now(): State
      reads this
    {
      State(closed, lastClose, polls, written, closings)
    }

    constructor (wire: Wire, rules: Rules<E>)
      ensures this.wire == wire && this.rules == rules && Now() == FRESH
    {
      this.wire, this.rules := wire, rules;
      closed, lastClose, polls, written, closings := false, None, 0, [], 0;
    }

    method Recv() returns (r: Result<E>)
      modifies this
      ensures (Now(), r) == Receive(wire, rules, old(Now()))
    {
      if closed {
        return Ended;
      }
      while true
        invariant !closed
        invariant Receive(wire, rules, Now()) == Receive(wire, rules, old(Now()))
        decreases |wire.incoming| - polls
      {
        polls := polls + 1;
        if polls > |wire.incoming| {
          closed := true;
          return Ended;
        }
        match wire.incoming[polls - 1] {
          case ReadFault =>
            closed := true;
            return ReadFailed;
          case Received(message) =>
            match message {
              case TextMessage(text) =>
                if |text| > rules.maxMessageBytes {
                  closed := true;
                  return Oversized;
                }
                var event := rules.decode(text);
                if event.None? {
                  return DecodeFailed;
                }
                return Event(event.value);
              case Ping =>
              case Pong =>
              case Closing(frame) =>
                closed := true;
                if frame.Some? {
                  lastClose := frame;
                }
                return Ended;
              case Binary(_) =>
                closed := true;
                return BinaryRefused;
              case RawFrame =>
                closed := true;
                return RawRefused;
            }
        }
      }
    }

    method SendEvent(event: ClientEvent) returns (r: Result<E>)
      modifies this
      ensures (Now(), r) == SendStep(wire, rules, old(Now()), event)
    {
      if closed {
        return SendOnClosed;
      }
      if event.encoded.None? {
        return NotEncoded;
      }
      if !StreamIdOk(event.value) {
        return BadStreamId;
      }
      if |event.encoded.value| > rules.maxMessageBytes {
        return TooLarge;
      }
      var ok := wire.writeOk(|written|);
      written := written + [event.encoded.value];
      if ok {
        return Sent;
      }
      closed := true;
      return WriteFailed;
    }

    method CloseSocket() returns (r: Result<E>)
      modifies this
      ensures (Now(), r) == CloseStep(wire, rules, old(Now()))
    {
      if !closed {
        var ok := wire.closeOk(closings);
        closings := closings + 1;
        if !ok {
          return CloseFailed;
        }
        closed := true;
      }
      return Closed;
    }

    /** Any sequence of calls. */
    method Session(calls: seq<Call>) returns (results: seq<Result<E>>)
      modifies this
      ensures (Now(), results) == Run(wire, rules, old(Now()), calls)
    {
      results := [];
      for i := 0 to |calls|
        invariant (Now(), results) == Run(wire, rules, old(Now()), calls[..i])
      {
        var r;
        match calls[i] {
          case Recv => r := Recv();
          case Send(event) => r := SendEvent(event);
          case Close => r := CloseSocket();
        }
        RunNext(wire, rules, old(Now()), calls, i);
        results := results + [r];
      }
      assert calls[..|calls|] == calls;
    }
  }

  // ----- The calls as steps -----

  function Receive<E>(wire: Wire, rules: Rules<E>, s: State): (State, Result<E>)
    decreases |wire.incoming| - s.polls
  {
    if s.closed then (s, Ended)
    else if s.polls >= |wire.incoming| then (s.(closed := true, polls := s.polls + 1), Ended)
    else
      var next := s.(polls := s.polls + 1);
      var shut := next.(closed := true);
      match wire.incoming[s.polls]
      case ReadFault => (shut, ReadFailed)
      case Received(Ping) => Receive(wire, rules, next)
      case Received(Pong) => Receive(wire, rules, next)
      case Received(TextMessage(text)) =>
        if |text| > rules.maxMessageBytes then (shut, Oversized)
        else if rules.decode(text).None? then (next, DecodeFailed)
        else (next, Event(rules.decode(text).value))
      case Received(Closing(frame)) => (shut.(lastClose := if frame.Some? then frame else s.lastClose), Ended)
      case Received(Binary(_)) => (shut, BinaryRefused)
      case Received(RawFrame) => (shut, RawRefused)
  }

  function SendStep<E>(wire: Wire, rules: Rules<E>, s: State, event: ClientEvent): (State, Result<E>) {
    if s.closed then (s, SendOnClosed)
    else if event.encoded.None? then (s, NotEncoded)
    else if !StreamIdOk(event.value) then (s, BadStreamId)
    else if |event.encoded.value| > rules.maxMessageBytes then (s, TooLarge)
    else
      var next := s.(written := s.written + [event.encoded.value]);
      if wire.writeOk(|s.written|) then (next, Sent) else (next.(closed := true), WriteFailed)
  }

  function CloseStep<E>(wire: Wire, rules: Rules<E>, s: State): (State, Result<E>) {
    if s.closed then (s, Closed)
    else
      var next := s.(closings := s.closings + 1);
      if wire.closeOk(s.closings) then (next.(closed := true), Closed) else (next, CloseFailed)
  }

  function Step<E>(wire: Wire, rules: Rules<E>, s: State, call: Call): (State, Result<E>) {
    match call
    case Recv => Receive(wire, rules, s)
    case Send(event) => SendStep(wire, rules, s, event)
    case Close => CloseStep(wire, rules, s)
  }

  function Run<E>(wire: Wire, rules: Rules<E>, s: State, calls: seq<Call>): (State, seq<Result<E>>) {
    if calls == [] then (s, [])
    else
      var before := Run(wire, rules, s, calls[..|calls| - 1]);
      var last := Step(wire, rules, before.0, calls[|calls| - 1]);
      (last.0, before.1 + [last.1])
  }

  lemma {:induction false} RunNext<E>(wire: Wire, rules: Rules<E>, s: State, calls: seq<Call>, i: nat)
    requires i < |calls|
    ensures var before := Run(wire, rules, s, calls[..i]); var last := Step(wire, rules, before.0, calls[i]);
            Run(wire, rules, s, calls[..i + 1]) == (last.0, before.1 + [last.1])
  {
    assert calls[..i + 1][..i] == calls[..i];
  }

  // ----- A closed connection stays closed and untouched -----

  /** Every later call finds the connection as it was, and reports it closed. */
  lemma {:induction false} ClosedForGood<E>(wire: Wire, rules: Rules<E>, s: State, calls: seq<Call>)
    requires s.closed
    ensures var run := Run(wire, rules, s, calls);
            && run.0 == s && |run.1| == |calls|
            && forall i :: 0 <= i < |calls| ==>
                 run.1[i] == match calls[i] case Recv => Ended case Send(_) => SendOnClosed case Close => Closed
  {
    if calls != [] {
      ClosedForGood(wire, rules, s, calls[..|calls| - 1]);
    }
  }

  // ----- Which calls retire the connection -----

  predicate Heartbeat(i: Incoming) { i.Received? && (i.message.Ping? || i.message.Pong?) }

  /** One receive: the frames it passes over are pings and pongs, and the frame it stops at, or
      the end of the stream, decides everything else. */
  lemma {:induction false} ReceiveMeans<E>(wire: Wire, rules: Rules<E>, s: State) returns (at: nat)
    requires !s.closed && s.polls <= |wire.incoming|
    ensures s.polls <= at <= |wire.incoming|
    ensures forall i :: s.polls <= i < at ==> Heartbeat(wire.incoming[i])
    ensures at < |wire.incoming| ==> !Heartbeat(wire.incoming[at])
    ensures Receive(wire, rules, s) == Receive(wire, rules, s.(polls := at)) && Receive(wire, rules, s).0.polls == at + 1
    decreases |wire.incoming| - s.polls
  {
    at := s.polls;
    if at < |wire.incoming| && Heartbeat(wire.incoming[at]) {
      at := ReceiveMeans(wire, rules, s.(polls := s.polls + 1));
    }
  }

  ghost predicate Reads(wire: Wire, at: nat, m: Message) { at < |wire.incoming| && wire.incoming[at] == Received(m) }

  /** What a receive reports is decided by the first frame that is not a heartbeat: a text is
      delivered unless it is over the limit or does not decode, and every other frame has its own
      result. */
  lemma {:induction false} ReceiveReports<E>(wire: Wire, rules: Rules<E>, s: State) returns (at: nat)
    requires !s.closed && s.polls <= |wire.incoming|
    ensures s.polls <= at <= |wire.incoming| && forall i :: s.polls <= i < at ==> Heartbeat(wire.incoming[i])
    ensures var r := Receive(wire, rules, s).1;
            && (r.Ended? <==> at == |wire.incoming| || exists frame :: Reads(wire, at, Closing(frame)))
            && (r.ReadFailed? <==> at < |wire.incoming| && wire.incoming[at].ReadFault?)
            && (r.BinaryRefused? <==> exists bytes :: Reads(wire, at, Binary(bytes)))
            && (r.RawRefused? <==> Reads(wire, at, RawFrame))
            && (r.Oversized? <==> exists text :: Reads(wire, at, TextMessage(text)) && |text| > rules.maxMessageBytes)
            && (r.DecodeFailed? <==>
                exists text :: Reads(wire, at, TextMessage(text)) && |text| <= rules.maxMessageBytes && rules.decode(text).None?)
            && forall e :: r == Event(e) <==>
                 exists text :: Reads(wire, at, TextMessage(text)) && |text| <= rules.maxMessageBytes
                   && rules.decode(text) == Some(e)
  {
    at := ReceiveMeans(wire, rules, s);
  }

  /** What a send on an open connection reports: the first complaint, in this order. */
  lemma {:induction false} SendReports<E>(wire: Wire, rules: Rules<E>, s: State, event: ClientEvent)
    requires !s.closed
    ensures var r := SendStep(wire, rules, s, event).1;
            && (r.NotEncoded? <==> event.encoded.None?)
            && (r.TooLarge? <==> event.encoded.Some? && !r.BadStreamId? && |event.encoded.value| > rules.maxMessageBytes)
            && (r.WriteFailed? <==> event.encoded.Some? && !r.BadStreamId? && !r.TooLarge? && !wire.writeOk(|s.written|))
            && (r.Sent? <==> event.encoded.Some? && !r.BadStreamId? && !r.TooLarge? && wire.writeOk(|s.written|))
  {
  }

  /** The failures that leave an open connection open. */
  predicate Recoverable<E>(r: Result<E>) {
    r.DecodeFailed? || r.NotEncoded? || r.BadStreamId? || r.TooLarge? || r.CloseFailed?
  }

  predicate Succeeds<E>(r: Result<E>) { r.Event? || r.Sent? }

  /** A call retires an open connection exactly when it neither succeeds nor fails recoverably:
      every end of stream, read fault, forbidden frame and write fault retires it, and so does a
      completed close. */
  lemma {:induction false} Retires<E>(wire: Wire, rules: Rules<E>, s: State, call: Call)
    requires !s.closed && s.polls <= |wire.incoming|
    ensures var (after, r) := Step(wire, rules, s, call); after.closed <==> !Succeeds(r) && !Recoverable(r)
  {
    if call.Recv? {
      var at := ReceiveMeans(wire, rules, s);
    }
  }

  /** What local checks refuse never reaches the socket. */
  lemma {:induction false} RefusedUntouched<E>(wire: Wire, rules: Rules<E>, s: State, event: ClientEvent)
    ensures var (after, r) := Step(wire, rules, s, Send(event));
            (r.NotEncoded? || r.BadStreamId? || r.TooLarge? || r.SendOnClosed? <==> !r.Sent? && !r.WriteFailed?)
            && (!r.Sent? && !r.WriteFailed? <==> after == s)
  {
    var (after, r) := Step(wire, rules, s, Send(event));
    if r.Sent? || r.WriteFailed? { assert |after.written| == |s.written| + 1; }
  }

  /** The characters a lane key may have: digits, ASCII letters, underscore, dot and hyphen. */
  ghost predicate KeyCharacter(c: char) {
    var n := c as int;
    48 <= n <= 57 || 65 <= n <= 90 || 97 <= n <= 122 || n == 95 || n == 46 || n == 45
  }

  /** A send is refused for its stream id if and only if the encoded value is an object whose
      `stream_id` is not a text of 1 to 256 such characters; a value without one is not refused. */
  lemma {:induction false} BadStreamIdMeans<E>(wire: Wire, rules: Rules<E>, s: State, event: ClientEvent)
    requires !s.closed && event.encoded.Some?
    ensures SendStep(wire, rules, s, event).1.BadStreamId? <==>
            && event.value.Obj?
            && exists id :: Get(event.value.fields, "stream_id") == Some(id) &&
                 !(id.Str? && 1 <= |id.text| <= 256 && forall i :: 0 <= i < |id.text| ==> KeyCharacter(id.text[i]))
  {
    forall c ensures LaneChar(c) <==> KeyCharacter(c) { LaneCharMeans(c); }
    if event.value.Obj? && Get(event.value.fields, "stream_id").Some? {
      var id := Get(event.value.fields, "stream_id").value;
      assert StreamIdOk(event.value) <==>
             id.Str? && 1 <= |id.text| <= 256 && forall i :: 0 <= i < |id.text| ==> KeyCharacter(id.text[i]);
    }
  }

  lemma {:induction false} LaneCharMeans(c: char)
    ensures LaneChar(c) <==> KeyCharacter(c)
  {
  }

  /** A failed write retires the connection if and only if it is not the write of the close
      handshake: a call that hits a fault on the way out leaves the connection usable exactly
      when it is a close. */
  lemma {:induction false} WriteFaultRetires<E>(wire: Wire, rules: Rules<E>, s: State, call: Call)
    requires !s.closed && !call.Recv?
    ensures var (after, r) := Step(wire, rules, s, call);
            r.WriteFailed? || r.CloseFailed? ==> (after.closed <==> !call.Close?)
  {
  }

  /** After a failed close the connection still takes events: a good event is written to the
      socket and reported as sent. */
  lemma {:induction false} FailedCloseStaysOpen<E>(wire: Wire, rules: Rules<E>, s: State, event: ClientEvent)
    requires !s.closed && !wire.closeOk(s.closings) && wire.writeOk(|s.written|)
    requires event.encoded.Some? && StreamIdOk(event.value) && |event.encoded.value| <= rules.maxMessageBytes
    ensures Run(wire, rules, s, [Close, Send(event)]) ==
            (s.(closings := s.closings + 1, written := s.written + [event.encoded.value]), [CloseFailed, Sent])
  {
    var calls := [Close, Send(event)];
    var failed := s.(closings := s.closings + 1);
    assert calls[..0] == [] && calls[..2] == calls;
    RunNext(wire, rules, s, calls, 0);
    assert Run(wire, rules, s, []) == (s, []);
    assert Step(wire, rules, s, calls[0]) == (failed, CloseFailed);
    var first := Run(wire, rules, s, calls[..1]);
    assert first.0 == failed && first.1 == [CloseFailed];
    RunNext(wire, rules, s, calls, 1);
    assert Step(wire, rules, failed, calls[1]) == (failed.(written := s.written + [event.encoded.value]), Sent);
    assert first.1 + [Sent] == [CloseFailed, Sent];
    assert Run(wire, rules, s, calls).1 == [CloseFailed, Sent];
  }

  // ----- Whole sessions -----

  function ClosingOf(wire: Wire, polls: nat): Option<CloseFrame> {
    if 0 < polls <= |wire.incoming| && wire.incoming[polls - 1].Received? && wire.incoming[polls - 1].message.Closing?
    then wire.incoming[polls - 1].message.frame
    else None
  }

  /** The events of the decodable texts among the first frames, in order. */
  function Decodable<E>(rules: Rules<E>, incoming: seq<Incoming>): seq<E> {
    if incoming == [] then []
    else
      Decodable(rules, incoming[..|incoming| - 1]) + DecodedFrom(rules, incoming[|incoming| - 1])
  }

  function DecodedFrom<E>(rules: Rules<E>, i: Incoming): seq<E> {
    if i.Received? && i.message.TextMessage? && |i.message.text| <= rules.maxMessageBytes && rules.decode(i.message.text).Some?
    then [rules.decode(i.message.text).value]
    else []
  }

  function Delivered<E>(results: seq<Result<E>>): seq<E> {
    if results == [] then []
    else Delivered(results[..|results| - 1]) + if results[|results| - 1].Event? then [results[|results| - 1].event] else []
  }

  /** Frames that end the connection when they are read. */
  predicate Retiring<E>(rules: Rules<E>, i: Incoming) {
    match i
    case ReadFault => true
    case Received(TextMessage(text)) => |text| > rules.maxMessageBytes
    case Received(Ping) => false
    case Received(Pong) => false
    case Received(_) => true
  }

  function Seen(wire: Wire, polls: nat): seq<Incoming> {
    if polls <= |wire.incoming| then wire.incoming[..polls] else wire.incoming
  }

  /** What every session keeps: a recorded close belongs to the frame read last and implies a
      closed connection; every frame read is harmless except a last one that closed it; the
      stream is polled past its end at most once. */
  ghost predicate Sound<E>(wire: Wire, rules: Rules<E>, s: State) {
    && s.polls <= |wire.incoming| + 1
    && s.lastClose == ClosingOf(wire, s.polls)
    && (s.lastClose.Some? ==> s.closed)
    && (s.polls == |wire.incoming| + 1 ==> s.closed)
    && (forall i :: 0 <= i < s.polls && i < |wire.incoming| ==>
          (Retiring(rules, wire.incoming[i]) ==> i == s.polls - 1 && s.closed))
  }

  lemma {:induction false} DecodableNext<E>(rules: Rules<E>, incoming: seq<Incoming>, n: nat)
    requires n < |incoming|
    ensures Decodable(rules, incoming[..n + 1]) == Decodable(rules, incoming[..n]) + DecodedFrom(rules, incoming[n])
  {
    assert incoming[..n + 1][..n] == incoming[..n];
  }

  lemma {:induction false} SoundAfter<E>(wire: Wire, rules: Rules<E>, s: State, after: State)
    requires Sound(wire, rules, s) && !s.closed && s.polls < |wire.incoming|
    requires after.polls == s.polls + 1 && after.lastClose == ClosingOf(wire, after.polls)
    requires (after.lastClose.Some? ==> after.closed) && (Retiring(rules, wire.incoming[s.polls]) ==> after.closed)
    ensures Sound(wire, rules, after)
  {
  }

  /** Reading one frame that is not a heartbeat. */
  lemma {:induction false} FrameKeeps<E>(wire: Wire, rules: Rules<E>, s: State)
    requires Sound(wire, rules, s) && !s.closed && s.polls < |wire.incoming| && !Heartbeat(wire.incoming[s.polls])
    ensures var (after, r) := Receive(wire, rules, s);
            && Sound(wire, rules, after) && after.polls == s.polls + 1
            && DecodedFrom(rules, wire.incoming[s.polls]) == if r.Event? then [r.event] else []
  {
    SoundAfter(wire, rules, s, Receive(wire, rules, s).0);
  }

  lemma {:induction false} ReceiveKeeps<E>(wire: Wire, rules: Rules<E>, s: State)
    requires Sound(wire, rules, s) && !s.closed
    ensures var (after, r) := Receive(wire, rules, s);
            && Sound(wire, rules, after)
            && Decodable(rules, Seen(wire, after.polls)) ==
               Decodable(rules, Seen(wire, s.polls)) + if r.Event? then [r.event] else []
    decreases |wire.incoming| - s.polls
  {
    var before := Decodable(rules, Seen(wire, s.polls));
    assert before + [] == before;
    if s.polls == |wire.incoming| {
      assert Seen(wire, s.polls) == wire.incoming;
    } else {
      DecodableNext(rules, wire.incoming, s.polls);
      if Heartbeat(wire.incoming[s.polls]) {
        var next := s.(polls := s.polls + 1);
        SoundAfter(wire, rules, s, next);
        ReceiveKeeps(wire, rules, next);
      } else {
        FrameKeeps(wire, rules, s);
      }
    }
  }

  /** Every session of a fresh connection keeps the invariant, and the events it delivers are
      exactly those of the decodable texts among the frames read, in order. */
  lemma {:induction false} SessionIsSound<E>(wire: Wire, rules: Rules<E>, calls: seq<Call>)
    ensures var (after, results) := Run(wire, rules, FRESH, calls);
            Sound(wire, rules, after) && Delivered(results) == Decodable(rules, Seen(wire, after.polls))
  {
    if calls == [] {
      assert Seen(wire, 0) == [];
    } else {
      var n := |calls| - 1;
      SessionIsSound(wire, rules, calls[..n]);
      var before := Run(wire, rules, FRESH, calls[..n]);
      var last := Step(wire, rules, before.0, calls[n]);
      SoundStep(wire, rules, before.0, calls[n]);
      assert (before.1 + [last.1])[..n] == before.1 by { RunLength(wire, rules, FRESH, calls[..n]); }
      assert Delivered(before.1 + [last.1]) == Delivered(before.1) + if last.1.Event? then [last.1.event] else [];
    }
  }

  lemma {:induction false} RunLength<E>(wire: Wire, rules: Rules<E>, s: State, calls: seq<Call>)
    ensures |Run(wire, rules, s, calls).1| == |calls|
  {
    if calls != [] { RunLength(wire, rules, s, calls[..|calls| - 1]); }
  }

  lemma {:induction false} SoundStep<E>(wire: Wire, rules: Rules<E>, s: State, call: Call)
    requires Sound(wire, rules, s)
    ensures var (after, r) := Step(wire, rules, s, call);
            && Sound(wire, rules, after)
            && Decodable(rules, Seen(wire, after.polls)) ==
               Decodable(rules, Seen(wire, s.polls)) + if r.Event? then [r.event] else []
  {
    var seen := Decodable(rules, Seen(wire, s.polls));
    assert seen + [] == seen;
    if call.Recv? && !s.closed { ReceiveKeeps(wire, rules, s); }
  }

  /** The length of the harmless beginning of the stream. */
  function FirstRetiring<E>(rules: Rules<E>, incoming: seq<Incoming>): (n: nat)
    ensures n <= |incoming|
    ensures forall i :: 0 <= i < n ==> !Retiring(rules, incoming[i])
    ensures n < |incoming| ==> Retiring(rules, incoming[n])
  {
    if incoming == [] || Retiring(rules, incoming[0]) then 0 else 1 + FirstRetiring(rules, incoming[1..])
  }

  /** No session delivers anything after the first retiring frame, and one whose receiving side
      ended the connection delivered every decodable text before it. */
  lemma {:induction false} DeliveryStopsAtFirstRetiring<E>(wire: Wire, rules: Rules<E>, calls: seq<Call>)
    ensures var (after, results) := Run(wire, rules, FRESH, calls);
            var all := Decodable(rules, wire.incoming[..FirstRetiring(rules, wire.incoming)]);
            && Delivered(results) <= all
            && (after.polls > FirstRetiring(rules, wire.incoming) ==> after.closed && Delivered(results) == all)
  {
    SessionIsSound(wire, rules, calls);
    SeenUpToFirst(wire, rules, Run(wire, rules, FRESH, calls).0);
  }

  lemma {:induction false} SeenUpToFirst<E>(wire: Wire, rules: Rules<E>, s: State)
    requires Sound(wire, rules, s)
    ensures var all := Decodable(rules, wire.incoming[..FirstRetiring(rules, wire.incoming)]);
            && Decodable(rules, Seen(wire, s.polls)) <= all
            && (s.polls > FirstRetiring(rules, wire.incoming) ==> s.closed && Decodable(rules, Seen(wire, s.polls)) == all)
  {
    var first := FirstRetiring(rules, wire.incoming);
    if s.polls <= first {
      DecodablePrefix(rules, wire.incoming, s.polls, first);
    } else if first < |wire.incoming| {
      assert Retiring(rules, wire.incoming[first]);
      assert s.polls == first + 1;
      DecodableNext(rules, wire.incoming, first);
      RetiringDecodesToNothing(rules, wire.incoming[first]);
    } else {
      assert wire.incoming[..first] == wire.incoming;
    }
  }

  lemma {:induction false} RetiringDecodesToNothing<E>(rules: Rules<E>, i: Incoming)
    requires Retiring(rules, i)
    ensures DecodedFrom(rules, i) == []
  {
  }

  lemma {:induction false} DecodablePrefix<E>(rules: Rules<E>, incoming: seq<Incoming>, m: nat, n: nat)
    requires m <= n <= |incoming|
    ensures Decodable(rules, incoming[..m]) <= Decodable(rules, incoming[..n])
    decreases n
  {
    if m < n {
      DecodablePrefix(rules, incoming, m, n - 1);
      DecodableNext(rules, incoming, n - 1);
    }
  }

  /** A recorded close is never changed: it is written at most once. */
  lemma {:induction false} CloseRecordedOnce<E>(wire: Wire, rules: Rules<E>, calls: seq<Call>, more: seq<Call>)
    ensures var s := Run(wire, rules, FRESH, calls).0;
            s.lastClose.Some? ==> s.closed && Run(wire, rules, FRESH, calls + more).0 == s
  {
    SessionIsSound(wire, rules, calls);
    var s := Run(wire, rules, FRESH, calls).0;
    if s.lastClose.Some? {
      ClosedForGood(wire, rules, s, more);
      RunConcat(wire, rules, FRESH, calls, more);
    }
  }

  lemma {:induction false} RunConcat<E>(wire: Wire, rules: Rules<E>, s: State, calls: seq<Call>, more: seq<Call>)
    ensures var (mid, first) := Run(wire, rules, s, calls); var (end, rest) := Run(wire, rules, mid, more);
            Run(wire, rules, s, calls + more) == (end, first + rest)
  {
    if more == [] {
      var (mid, first) := Run(wire, rules, s, calls);
      assert calls + more == calls && first + [] == first;
    } else {
      var n := |more| - 1;
      RunConcat(wire, rules, s, calls, more[..n]);
      var whole := calls + more;
      assert whole[..|whole| - 1] == calls + more[..n] && whole[|whole| - 1] == more[n];
      var (mid, first) := Run(wire, rules, s, calls);
      var (end, rest) := Run(wire, rules, mid, more[..n]);
      var last := Step(wire, rules, end, more[n]);
      assert first + (rest + [last.1]) == (first + rest) + [last.1];
    }
  }

  /** The events accepted by the sends of a session, in order. */
  function Accepted<E>(calls: seq<Call>, results: seq<Result<E>>): seq<Bytes>
    requires |calls| == |results|
  {
    if calls == [] then []
    else
      var n := |calls| - 1;
      Accepted(calls[..n], results[..n]) +
      if calls[n].Send? && calls[n].event.encoded.Some? && (results[n].Sent? || results[n].WriteFailed?)
      then [calls[n].event.encoded.value] else []
  }

  /** Each piece written fits the limit, and only the last write can have failed, and only if it
      closed the connection. */
  ghost predicate WritesSound<E>(wire: Wire, rules: Rules<E>, s: State) {
    forall i :: 0 <= i < |s.written| ==>
      |s.written[i]| <= rules.maxMessageBytes && (!wire.writeOk(i) ==> i == |s.written| - 1 && s.closed)
  }

  lemma {:induction false} WriteStep<E>(wire: Wire, rules: Rules<E>, s: State, call: Call)
    requires WritesSound(wire, rules, s)
    ensures var (after, r) := Step(wire, rules, s, call);
            && WritesSound(wire, rules, after)
            && after.written == s.written +
                 if call.Send? && call.event.encoded.Some? && (r.Sent? || r.WriteFailed?) then [call.event.encoded.value] else []
  {
    assert s.written + [] == s.written;
    ReceiveWritesNothing(wire, rules, s);
  }

  /** What reached the socket is what the sends accepted, in order. */
  lemma {:induction false} WrittenMeans<E>(wire: Wire, rules: Rules<E>, calls: seq<Call>)
    ensures var (after, results) := Run(wire, rules, FRESH, calls);
            |results| == |calls| && after.written == Accepted(calls, results) && WritesSound(wire, rules, after)
  {
    if calls != [] {
      var n := |calls| - 1;
      WrittenMeans(wire, rules, calls[..n]);
      var before := Run(wire, rules, FRESH, calls[..n]);
      WriteStep(wire, rules, before.0, calls[n]);
      var last := Step(wire, rules, before.0, calls[n]);
      assert (before.1 + [last.1])[..n] == before.1;
    }
  }

  lemma {:induction false} ReceiveWritesNothing<E>(wire: Wire, rules: Rules<E>, s: State)
    ensures Receive(wire, rules, s).0.written == s.written && Receive(wire, rules, s).0.closings == s.closings
    ensures s.closed ==> Receive(wire, rules, s).0.closed
    ensures !Receive(wire, rules, s).1.Sent? && !Receive(wire, rules, s).1.WriteFailed?
    decreases |wire.incoming| - s.polls
  {
    if !s.closed && s.polls < |wire.incoming| && Heartbeat(wire.incoming[s.polls]) {
      ReceiveWritesNothing(wire, rules, s.(polls := s.polls + 1));
    }
  }
}
