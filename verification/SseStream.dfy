/** The endpoint-aware stream decoder: frames are classified, a terminal marker or remote
    error stops the stream, and nothing after it is decoded. */
module SseStream {
  import opened JsonValue
  import opened SseFormat
  import opened Octets
  import opened Sequences
  import opened SseDecoding

  // ----- Endpoint policies -----

  datatype Policy = Policy(eofCompletes: bool, terminalEvents: seq<Bytes>, sentinels: seq<Bytes>, errorEvents: seq<Bytes>)

  datatype Class = Plain | EmittedTerminal | ConsumedTerminal | RemoteFailure

  datatype Dispatch = Event(frame: Frame) | Terminal(frame: Frame) | RemoteError(frame: Frame)

  /** The data sentinel is checked before any event name. */
  function Classify(policy: Policy, f: Frame): Class {
    if f.data in policy.sentinels then ConsumedTerminal
    else if f.event.Some? && f.event.value in policy.errorEvents then RemoteFailure
    else if f.event.Some? && f.event.value in policy.terminalEvents then EmittedTerminal
    else Plain
  }

  function Stops(policy: Policy): Frame -> bool {
    (f: Frame) => Classify(policy, f) != Plain
  }

  function DispatchOf(policy: Policy, f: Frame): seq<Dispatch> {
    match Classify(policy, f)
    case Plain => [Event(f)]
    case EmittedTerminal => [Terminal(f)]
    case ConsumedTerminal => []
    case RemoteFailure => [RemoteError(f)]
  }

  function DispatchesOf(policy: Policy, frames: seq<Frame>): seq<Dispatch> {
    if frames == [] then [] else DispatchesOf(policy, frames[..|frames| - 1]) + DispatchOf(policy, frames[|frames| - 1])
  }

  /** The state a stopping frame leaves the stream in. */
  function EndState(policy: Policy, f: Frame): StreamState {
    if Classify(policy, f) == RemoteFailure then StreamRemoteError else StreamCompleted
  }

  // ----- The whole stream, from the format alone -----

  /** Everything a stream delivers and how it ends. */
  datatype Outcome = Outcome(dispatches: seq<Dispatch>, end: StreamState, error: Option<DecodeError>)

  function EndWith(policy: Policy, frames: seq<Frame>, error: Option<DecodeError>): Outcome
    requires error.Some? || frames != []
  {
    Outcome(DispatchesOf(policy, frames), if error.Some? then StreamFailed else EndState(policy, frames[|frames| - 1]), error)
  }

  function AtEof(policy: Policy, frames: seq<Frame>): Outcome {
    if policy.eofCompletes then Outcome(DispatchesOf(policy, frames), StreamCompleted, None)
    else Outcome(DispatchesOf(policy, frames), StreamFailed, Some(UnexpectedEof))
  }

  /** How a stream ends after a run of its lines: a stop or a failure ends it, otherwise the
      pending event is flushed and the end-of-file rule applies. */
  function EndOf(policy: Policy, frames: seq<Frame>, run: Run): Outcome
    requires run.status.Stopped? ==> run.frames != []
  {
    var shown := frames + run.frames;
    match run.status
    case Broken(e) => EndWith(policy, shown, Some(e))
    case Stopped => EndWith(policy, shown, None)
    case Going(p) =>
      var last := TakeEvent(p).1;
      if last.None? then AtEof(policy, shown)
      else if Stops(policy)(last.value) then EndWith(policy, shown + [last.value], None)
      else AtEof(policy, shown + [last.value])
  }

  /** The reference: strip the mark, split the finished body into lines, and process them in
      order. */
  function Reference(limits: Limits, policy: Policy, input: Bytes): Outcome {
    var lines := AllLines(StripBom(input));
    StoppedHasFrame(limits, Stops(policy), FRESH, lines);
    EndOf(policy, [], RunLines(limits, Stops(policy), FRESH, lines))
  }

  lemma {:induction false} StoppedHasFrame(limits: Limits, stop: Frame -> bool, p: Pending, lines: seq<Bytes>)
    ensures var run := RunLines(limits, stop, p, lines);
            && (run.status.Stopped? ==> run.frames != [] && stop(run.frames[|run.frames| - 1]))
            && (run.status.Stopped? ==> forall i :: 0 <= i < |run.frames| - 1 ==> !stop(run.frames[i]))
            && (!run.status.Stopped? ==> forall i :: 0 <= i < |run.frames| ==> !stop(run.frames[i]))
  {
    if lines != [] {
      StoppedHasFrame(limits, stop, p, lines[..|lines| - 1]);
    }
  }

  /** The first frames of a sequence, up to and including the first that stops. */
  function UntilStop(stop: Frame -> bool, frames: seq<Frame>): seq<Frame> {
    if frames == [] then [] else if stop(frames[0]) then [frames[0]] else [frames[0]] + UntilStop(stop, frames[1..])
  }

  lemma {:induction false} DispatchesNext(policy: Policy, frames: seq<Frame>, i: nat)
    requires i < |frames|
    ensures DispatchesOf(policy, frames[..i + 1]) == DispatchesOf(policy, frames[..i]) + DispatchOf(policy, frames[i])
  {
    assert frames[..i + 1][..i] == frames[..i];
  }

  lemma {:induction false} UntilStopAt(stop: Frame -> bool, frames: seq<Frame>, i: nat)
    requires i < |frames| && stop(frames[i]) && forall j :: 0 <= j < i ==> !stop(frames[j])
    ensures UntilStop(stop, frames) == frames[..i + 1]
  {
    if i > 0 {
      UntilStopAt(stop, frames[1..], i - 1);
      assert frames[..i + 1] == [frames[0]] + frames[1..][..i];
    }
  }

  lemma {:induction false} UntilStopNever(stop: Frame -> bool, frames: seq<Frame>)
    requires forall j :: 0 <= j < |frames| ==> !stop(frames[j])
    ensures UntilStop(stop, frames) == frames
  {
    if frames != [] {
      UntilStopNever(stop, frames[1..]);
    }
  }

  lemma {:induction false} DispatchesConcat(policy: Policy, a: seq<Frame>, b: seq<Frame>)
    ensures DispatchesOf(policy, a + b) == DispatchesOf(policy, a) + DispatchesOf(policy, b)
  {
    if b == [] {
      assert a + b == a;
    } else {
      var init, last := b[..|b| - 1], b[|b| - 1];
      DispatchesConcat(policy, a, init);
      assert (a + b)[..|a + b| - 1] == a + init;
      SeqAssociative(DispatchesOf(policy, a), DispatchesOf(policy, init), DispatchOf(policy, last));
    }
  }

  /** What the end of the input does to an open stream. */
  function FlushStream(limits: Limits, policy: Policy, core: Core): Outcome {
    FlushOutcome(policy, Flush(limits, core))
  }

  function FlushOutcome(policy: Policy, flushed: Result<seq<Frame>>): Outcome {
    match flushed
    case Err(e) => Outcome([], StreamFailed, Some(e))
    case Ok(frames) =>
      var shown := UntilStop(Stops(policy), frames);
      if shown != [] && Stops(policy)(shown[|shown| - 1]) then EndWith(policy, shown, None) else AtEof(policy, frames)
  }

  lemma {:induction false} ShortUntilStop(stop: Frame -> bool, frames: seq<Frame>)
    requires |frames| <= 1
    ensures UntilStop(stop, frames) == frames
  {
    if frames != [] { assert frames[1..] == [] && frames == [frames[0]]; }
  }

  // ----- At most one line per slice -----

  /** A slice that completes at most one line: nothing but its last byte can be a break, and
      after a pending CR it is a single byte. */
  ghost predicate ShortBytes(partial: Partial, bytes: Bytes) {
    bytes == [] || if partial.cr then |bytes| == 1 else BreakFree(bytes[..|bytes| - 1])
  }

  ghost predicate ShortSlice(core: Core, slice: Bytes) {
    ShortBytes(LastPartial(core), slice)
  }

  lemma {:induction false} ShortLines(partial: Partial, bytes: Bytes)
    requires ShortBytes(partial, bytes)
    ensures |Lines(partial, bytes)| <= 1
    ensures Lines(partial, bytes) != [] ==> |After(partial, bytes).text| <= 1
  {
    if bytes != [] {
      var init, last := bytes[..|bytes| - 1], bytes[|bytes| - 1];
      assert bytes == init + [last];
      SplitConcat(partial, init, [last]);
      if !partial.cr {
        NoBreaks(partial, init);
      }
      OneByte(After(partial, init), last);
    }
  }

  /** With at most one line, decoding first and classifying afterwards is the same as
      stopping at the classified frame. */
  lemma {:induction false} ShortBody(limits: Limits, stop: Frame -> bool, p: Pending, partial: Partial, bytes: Bytes)
    requires ShortBytes(partial, bytes) && limits.maxLineBytes > 0
    ensures StopsAlike(stop, FeedBody(limits, Never, p, partial, bytes), FeedBody(limits, stop, p, partial, bytes))
  {
    ShortLines(partial, bytes);
    var lines := Lines(partial, bytes);
    if lines != [] {
      assert lines == [lines[0]];
      SingleLine(limits, Never, p, lines[0]);
      SingleLine(limits, stop, p, lines[0]);
      OneLineAlike(limits, stop, p, lines[0]);
    }
  }

  lemma {:induction false} OneLineAlike(limits: Limits, stop: Frame -> bool, p: Pending, line: Bytes)
    ensures var plain, stopping := OneLine(limits, Never, p, line), OneLine(limits, stop, p, line);
            && |plain.frames| <= 1 && stopping.frames == plain.frames
            && !plain.status.Stopped? && (plain.status.Broken? ==> plain.frames == [])
            && stopping.status == if plain.frames != [] && stop(plain.frames[0]) then Stopped else plain.status
  {
  }

  ghost predicate StopsAlike(stop: Frame -> bool, plain: Fed, stopping: Fed) {
    match plain.status
    case Open(_) =>
      && |plain.frames| <= 1
      && stopping == if plain.frames == [] || !stop(plain.frames[0]) then plain else Fed([plain.frames[0]], Halted)
    case Faulty(_) => plain.frames == [] && stopping == plain
    case Halted => false
  }

  lemma {:induction false} ShortFeed(limits: Limits, stop: Frame -> bool, core: Core, slice: Bytes)
    requires Settled(limits, core) && ShortSlice(core, slice) && limits.maxLineBytes > 0
    ensures StopsAlike(stop, Feed(limits, Never, core, slice), Feed(limits, stop, core, slice))
  {
    if core.bomChecked {
      ShortBody(limits, stop, core.pending, core.partial, slice);
    } else if !BomPending(core.held + slice) {
      var all := core.held + slice;
      assert BreakFree(core.held);
      assert BreakFree(all[..|all| - 1]) by {
        assert all[..|all| - 1] == core.held + slice[..|slice| - 1];
      }
      var body := StripBom(all);
      assert body != [] ==> BreakFree(body[..|body| - 1]) by {
        if body != [] && body != all { assert body[..|body| - 1] == all[..|all| - 1][3..]; }
      }
      ShortBody(limits, stop, core.pending, EMPTY, body);
    }
  }

  // ----- The stream decoder -----

  class SseStreamDecoder {
    const decoder: SseDecoder
    const policy: Policy
    var state: StreamState

    ghost predicate Valid()
      reads this, decoder
    {
      decoder.Valid() && decoder.limits.maxLineBytes > 0 && (state == StreamActive <==> decoder.state == DecoderActive)
    }

    constructor (limits: Limits, policy: Policy)
      requires limits.maxLineBytes > 0
      ensures Valid() && fresh(decoder) && decoder.limits == limits && this.policy == policy
      ensures state == StreamActive && decoder.View() == START
    {
      decoder := new SseDecoder(limits);
      this.policy := policy;
      state := StreamActive;
    }

    /** Feed a transport chunk, keeping the events completed before a framing error. */
    method PushWithFlushed(chunk: Bytes) returns (dispatches: seq<Dispatch>, error: Option<DecodeError>)
      requires Valid()
      modifies this, decoder
      ensures Valid()
      ensures old(state) != StreamActive ==>
        dispatches == [] && error == Some(StreamInactive(old(state))) && state == old(state)
      ensures old(state) == StreamActive ==>
        FedLike(Feed(decoder.limits, Stops(policy), old(decoder.View()), chunk), dispatches, error)
    {
      if state != StreamActive {
        return [], Some(StreamInactive(state));
      }
      dispatches, error := [], None;
      ghost var start, limits := decoder.View(), decoder.limits;
      ghost var frames: seq<Frame> := [];
      var offset := 0;
      FeedNothing(limits, Stops(policy), start);
      assert chunk[..0] == [];
      while offset < |chunk|
        invariant offset <= |chunk| && state == StreamActive && Valid() && error.None?
        invariant Feed(limits, Stops(policy), start, chunk[..offset]) == Fed(frames, Open(decoder.View()))
        invariant dispatches == DispatchesOf(policy, frames)
      {
        var end := SliceEnd(chunk, offset);
        ghost var fed := Feed(limits, Stops(policy), decoder.View(), chunk[offset..end]);
        FeedSlice(limits, Stops(policy), start, chunk, offset, end);
        var more;
        more, error := FeedLine(chunk[offset..end]);
        DispatchesConcat(policy, frames, fed.frames);
        dispatches := dispatches + more;
        if error.Some? || state != StreamActive {
          FeedFault(limits, Stops(policy), start, chunk, end);
          return;
        }
        frames := frames + fed.frames;
        offset := end;
      }
      assert chunk[..offset] == chunk;
    }

    /** Push no more than one line, and classify what it completes. */
    method FeedLine(slice: Bytes) returns (dispatches: seq<Dispatch>, error: Option<DecodeError>)
      requires Valid() && state == StreamActive && ShortSlice(decoder.View(), slice)
      modifies this, decoder
      ensures Valid() && FedLike(Feed(decoder.limits, Stops(policy), old(decoder.View()), slice), dispatches, error)
    {
      ShortFeed(decoder.limits, Stops(policy), decoder.View(), slice);
      var pushed := decoder.Push(slice);
      if pushed.Err? {
        state := StreamFailed;
        return [], Some(pushed.error);
      }
      dispatches := ClassifyFrames(pushed.value);
      error := None;
      ShortUntilStop(Stops(policy), pushed.value);
    }

    /** The outcome of a push agrees with what feeding computes. */
    ghost predicate FedLike(fed: Fed, dispatches: seq<Dispatch>, error: Option<DecodeError>)
      reads this, decoder
    {
      && dispatches == DispatchesOf(policy, fed.frames)
      && match fed.status
         case Open(core) => error == None && state == StreamActive && decoder.View() == core
         case Faulty(e) => error == Some(e) && state == StreamFailed
         case Halted => error == None && fed.frames != [] && state == EndState(policy, fed.frames[|fed.frames| - 1])
    }

    /** Feed no farther than the next line boundary, so that nothing after a terminal marker
        is parsed; after a pending CR, feed one byte. */
    method SliceEnd(chunk: Bytes, offset: nat) returns (end: nat)
      requires Valid() && state == StreamActive && offset < |chunk|
      ensures offset < end <= |chunk| && ShortSlice(decoder.View(), chunk[offset..end])
    {
      if decoder.lineBuffer != [] && decoder.lineBuffer[|decoder.lineBuffer| - 1] == CR {
        return offset + 1;
      }
      end := offset;
      while end < |chunk|
        invariant offset <= end <= |chunk| && BreakFree(chunk[offset..end])
      {
        end := end + 1;
        assert chunk[offset..end] == chunk[offset..end - 1] + [chunk[end - 1]];
        if IsBreak(chunk[end - 1]) {
          assert chunk[offset..end][..end - offset - 1] == chunk[offset..end - 1];
          return;
        }
      }
      assert BreakFree(chunk[offset..end][..end - offset - 1]);
    }

    method ClassifyFrames(frames: seq<Frame>) returns (dispatches: seq<Dispatch>)
      requires decoder.Valid() && state == StreamActive
      modifies this, decoder
      ensures decoder.Valid()
      ensures dispatches == DispatchesOf(policy, UntilStop(Stops(policy), frames))
      ensures var shown := UntilStop(Stops(policy), frames);
              if shown != [] && Stops(policy)(shown[|shown| - 1])
              then decoder.state != DecoderActive && state == EndState(policy, shown[|shown| - 1])
              else state == StreamActive && decoder.View() == old(decoder.View()) && decoder.state == old(decoder.state)
                   && shown == frames
    {
      dispatches := [];
      for i := 0 to |frames|
        invariant decoder.Valid() && state == StreamActive
        invariant decoder.View() == old(decoder.View()) && decoder.state == old(decoder.state)
        invariant forall j :: 0 <= j < i ==> !Stops(policy)(frames[j])
        invariant dispatches == DispatchesOf(policy, frames[..i])
      {
        DispatchesNext(policy, frames, i);
        var class_ := Classify(policy, frames[i]);
        dispatches := dispatches + DispatchOf(policy, frames[i]);
        if class_ != Plain {
          UntilStopAt(Stops(policy), frames, i);
          decoder.Close();
          state := if class_ == RemoteFailure then StreamRemoteError else StreamCompleted;
          return;
        }
      }
      assert frames[..|frames|] == frames;
      UntilStopNever(Stops(policy), frames);
    }

    /** Process the end of the input, keeping the events it flushes even when the missing
        terminal marker makes it a failure. */
    method FinishWithFlushed() returns (dispatches: seq<Dispatch>, error: Option<DecodeError>)
      requires Valid()
      modifies this, decoder
      ensures Valid() && state != StreamActive
      ensures old(state) != StreamActive ==>
        dispatches == [] && error == Some(StreamInactive(old(state))) && state == old(state)
      ensures old(state) == StreamActive ==>
        Outcome(dispatches, state, error) == FlushStream(decoder.limits, policy, old(decoder.View()))
    {
      if state != StreamActive {
        return [], Some(StreamInactive(state));
      }
      var finished := decoder.Finish();
      if finished.Err? {
        state := StreamFailed;
        return [], Some(finished.error);
      }
      dispatches := ClassifyFrames(finished.value);
      if state != StreamActive {
        return dispatches, None;
      }
      if policy.eofCompletes {
        state := StreamCompleted;
        return dispatches, None;
      }
      state := StreamFailed;
      return dispatches, Some(UnexpectedEof);
    }
  }

  // ----- The incremental decoder is the reference -----

  /** Add what the flush delivers to what was delivered before. */
  function Flushed(limits: Limits, policy: Policy, frames: seq<Frame>, core: Core): Outcome {
    Preceded(DispatchesOf(policy, frames), FlushStream(limits, policy, core))
  }

  /** Emitting a frame leaves nothing to flush. */
  lemma {:induction false} EmptyAfterFrame(limits: Limits, p: Pending, line: Bytes)
    ensures var done := ProcessLine(limits, p, line);
            done.LineDone? && done.frame.Some? ==> TakeEvent(done.pending).1.None?
  {
  }

  /** `stopping` is `plain` except that it stops at the one frame it emits. */
  ghost predicate RunsAlike(stop: Frame -> bool, plain: Run, stopping: Run) {
    match plain.status
    case Broken(_) => plain.frames == [] && stopping == plain
    case Going(next) =>
      && |plain.frames| <= 1 && (plain.frames != [] ==> TakeEvent(next).1.None?)
      && stopping == if plain.frames == [] || !stop(plain.frames[0]) then plain else Run(plain.frames, Stopped)
    case Stopped => false
  }

  lemma {:induction false} LastLineAlike(limits: Limits, stop: Frame -> bool, p: Pending, lines: seq<Bytes>)
    requires |lines| <= 1
    ensures RunsAlike(stop, RunLines(limits, Never, p, lines), RunLines(limits, stop, p, lines))
  {
    if lines != [] {
      SingleLine(limits, stop, p, lines[0]);
      SingleLine(limits, Never, p, lines[0]);
      EmptyAfterFrame(limits, p, lines[0]);
      assert lines == [lines[0]];
    }
  }

  function Preceded(dispatches: seq<Dispatch>, rest: Outcome): Outcome {
    rest.(dispatches := dispatches + rest.dispatches)
  }

  lemma {:induction false} ShowLast(policy: Policy, frames: seq<Frame>, tail: seq<Frame>)
    requires |tail| <= 1
    ensures AtEof(policy, frames + tail) == Preceded(DispatchesOf(policy, frames), AtEof(policy, tail))
    ensures tail != [] ==>
            EndWith(policy, frames + tail, None) == Preceded(DispatchesOf(policy, frames), EndWith(policy, tail, None))
    ensures UntilStop(Stops(policy), tail) == tail
  {
    ShortUntilStop(Stops(policy), tail);
    DispatchesConcat(policy, frames, tail);
  }

  /** Flushing first and classifying afterwards ends the stream as stopping in order does. */
  lemma {:induction false} EndsAlike(policy: Policy, frames: seq<Frame>, plain: Run, stopping: Run)
    requires RunsAlike(Stops(policy), plain, stopping)
    ensures EndOf(policy, frames, stopping) == Preceded(DispatchesOf(policy, frames), FlushOutcome(policy, FlushRun(plain)))
  {
    if plain.status.Broken? {
      assert frames + [] == frames && DispatchesOf(policy, frames) + [] == DispatchesOf(policy, frames);
    } else {
      var last := TakeEvent(plain.status.pending).1;
      if last.Some? {
        assert frames + [] == frames && [] + [last.value] == [last.value];
        ShowLast(policy, frames, [last.value]);
      } else {
        assert plain.frames + [] == plain.frames;
        ShowLast(policy, frames, plain.frames);
      }
    }
  }

  lemma {:induction false} ReferenceSplits(limits: Limits, policy: Policy, input: Bytes, lines: seq<Bytes>, last: seq<Bytes>)
    requires AllLines(StripBom(input)) == lines + last
    ensures var run := RunLines(limits, Stops(policy), FRESH, lines);
            match run.status
            case Going(p) =>
              var more := RunLines(limits, Stops(policy), p, last);
              (more.status.Stopped? ==> more.frames != []) && Reference(limits, policy, input) == EndOf(policy, run.frames, more)
            case Stopped => run.frames != [] && Reference(limits, policy, input) == EndWith(policy, run.frames, None)
            case Broken(e) => Reference(limits, policy, input) == EndWith(policy, run.frames, Some(e))
  {
    var run := RunLines(limits, Stops(policy), FRESH, lines);
    RunLinesConcat(limits, Stops(policy), FRESH, lines, last);
    StoppedHasFrame(limits, Stops(policy), FRESH, lines);
    if run.status.Going? {
      StoppedHasFrame(limits, Stops(policy), run.status.pending, last);
    }
    var whole := RunLines(limits, Stops(policy), FRESH, lines + last);
    assert [] + whole.frames == whole.frames;
  }

  /** Feeding the whole input and then ending it delivers exactly the reference, so by
      `FeedConcat` every way of cutting the input into chunks does. */
  lemma {:induction false} DecoderIsReference(limits: Limits, policy: Policy, input: Bytes)
    ensures var fed := Feed(limits, Stops(policy), START, input);
            match fed.status
            case Open(core) => Reference(limits, policy, input) == Flushed(limits, policy, fed.frames, core)
            case Halted => fed.frames != [] && Reference(limits, policy, input) == EndWith(policy, fed.frames, None)
            case Faulty(e) => Reference(limits, policy, input) == EndWith(policy, fed.frames, Some(e))
  {
    var stop, body := Stops(policy), StripBom(input);
    assert START.held + input == input;
    if BomPending(input) {
      NoBreaks(EMPTY, input);
      assert EMPTY.text + input == input;
      var last := LastLine(Partial(input, false));
      assert AllLines(body) == [] + last;
      ReferenceSplits(limits, policy, input, [], last);
      LastLineAlike(limits, stop, FRESH, last);
      EndsAlike(policy, [], RunLines(limits, Never, FRESH, last), RunLines(limits, stop, FRESH, last));
    } else {
      BodyIsReference(limits, policy, input);
    }
  }

  lemma {:induction false} BodyIsReference(limits: Limits, policy: Policy, input: Bytes)
    ensures var fed := FeedBody(limits, Stops(policy), FRESH, EMPTY, StripBom(input));
            match fed.status
            case Open(core) => Reference(limits, policy, input) == Flushed(limits, policy, fed.frames, core)
            case Halted => fed.frames != [] && Reference(limits, policy, input) == EndWith(policy, fed.frames, None)
            case Faulty(e) => Reference(limits, policy, input) == EndWith(policy, fed.frames, Some(e))
  {
    var lines, rest := Lines(EMPTY, StripBom(input)), After(EMPTY, StripBom(input));
    var run := RunLines(limits, Stops(policy), FRESH, lines);
    ReferenceSplits(limits, policy, input, lines, LastLine(rest));
    if run.status.Going? {
      if |rest.text| > limits.maxLineBytes {
        OverlongFirst(limits, Stops(policy), run.status.pending, LastLine(rest));
        assert run.frames + [] == run.frames;
      } else {
        var p, last := run.status.pending, LastLine(rest);
        LastLineAlike(limits, Stops(policy), p, last);
        EndsAlike(policy, run.frames, RunLines(limits, Never, p, last), RunLines(limits, Stops(policy), p, last));
      }
    }
  }
}
