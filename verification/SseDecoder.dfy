/** The incremental decoder: arbitrary chunks go in, complete events come out. Feeding is
    specified as a function of the bytes so far, and feeding in pieces is feeding at once. */
module SseDecoding {
  import opened SseFormat
  import opened Octets
  import opened Sequences

  datatype Result<+T> = Ok(value: T) | Err(error: DecodeError)

  /** Large chunks are copied in slices of this size. */
  const FEED_SLICE_BYTES: nat := 8192

  // ----- What feeding computes -----

  /** What is retained between calls: bytes that may be the byte-order mark, the line and
      the event under construction. */
  datatype Core = Core(bomChecked: bool, held: Bytes, partial: Partial, pending: Pending)

  datatype FedStatus = Open(core: Core) | Halted | Faulty(error: DecodeError)

  datatype Fed = Fed(frames: seq<Frame>, status: FedStatus)

  const START := Core(false, [], EMPTY, FRESH)

  function FeedBody(limits: Limits, stop: Frame -> bool, p: Pending, partial: Partial, bytes: Bytes): Fed {
    var run, rest := RunLines(limits, stop, p, Lines(partial, bytes)), After(partial, bytes);
    Fed(run.frames, match run.status
      case Stopped => Halted
      case Broken(e) => Faulty(e)
      case Going(next) =>
        if |rest.text| > limits.maxLineBytes then Faulty(LineTooLarge(limits.maxLineBytes))
        else Open(Core(true, [], rest, next)))
  }

  /** Feed bytes, stopping at the first frame that `stop` selects. */
  function Feed(limits: Limits, stop: Frame -> bool, core: Core, bytes: Bytes): Fed {
    if core.bomChecked then FeedBody(limits, stop, core.pending, core.partial, bytes)
    else if BomPending(core.held + bytes) then Fed([], Open(core.(held := core.held + bytes)))
    else FeedBody(limits, stop, core.pending, EMPTY, StripBom(core.held + bytes))
  }

  /** Go on feeding after a first outcome, if it is still open. */
  function Resume(limits: Limits, stop: Frame -> bool, first: Fed, bytes: Bytes): Fed {
    if !first.status.Open? then first
    else var second := Feed(limits, stop, first.status.core, bytes); Fed(first.frames + second.frames, second.status)
  }

  /** Feeding `a` and then `b` is feeding them at once: chunk boundaries do not matter. */
  lemma {:induction false} FeedConcat(limits: Limits, stop: Frame -> bool, core: Core, a: Bytes, b: Bytes)
    ensures Feed(limits, stop, core, a + b) == Resume(limits, stop, Feed(limits, stop, core, a), b)
  {
    if core.bomChecked {
      FeedBodyConcat(limits, stop, core.pending, core.partial, a, b);
    } else {
      var all := core.held + a;
      assert core.held + (a + b) == all + b;
      if BomPending(all) {
        var second := Feed(limits, stop, core.(held := all), b);
        assert [] + second.frames == second.frames;
      } else {
        StripBomGrows(all, b);
        FeedBodyConcat(limits, stop, core.pending, EMPTY, StripBom(all), b);
      }
    }
  }

  lemma {:induction false} FeedBodyConcat(limits: Limits, stop: Frame -> bool, p: Pending, partial: Partial, a: Bytes, b: Bytes)
    ensures FeedBody(limits, stop, p, partial, a + b) == Resume(limits, stop, FeedBody(limits, stop, p, partial, a), b)
  {
    var lines, rest := Lines(partial, a), After(partial, a);
    var more := Lines(rest, b);
    SplitConcat(partial, a, b);
    RunLinesConcat(limits, stop, p, lines, more);
    var run := RunLines(limits, stop, p, lines);
    if run.status.Going? && |rest.text| > limits.maxLineBytes {
      LineOnlyGrows(rest, b);
      if more != [] {
        OverlongFirst(limits, stop, run.status.pending, more);
      }
      assert run.frames + [] == run.frames;
    }
  }

  lemma {:induction false} StripBomGrows(all: Bytes, b: Bytes)
    requires !BomPending(all)
    ensures StripBom(all + b) == StripBom(all) + b && !BomPending(all + b)
  {
    if |all| >= 3 {
      assert (all + b)[..3] == all[..3];
    } else {
      var i :| 0 <= i < |all| && all[i] != BOM[i];
      assert (all + b)[i] != BOM[i];
      if |all + b| >= 3 { assert (all + b)[..3][i] != BOM[i]; }
    }
  }

  // ----- Lines in a buffer -----

  /** A line found in a buffer: its length and that of its terminator. */
  datatype Cut = NoCut | Cut(end: nat, terminator: nat)

  /** No break, or only a final CR that an LF may still follow. */
  ghost predicate Quiet(buf: Bytes) {
    BreakFree(buf) || (buf != [] && buf[|buf| - 1] == CR && BreakFree(buf[..|buf| - 1]))
  }

  /** `c` is the first line break of the buffer, if its line can be told to have ended. */
  ghost predicate Finds(buf: Bytes, eof: bool, c: Cut) {
    if c.NoCut? then (if eof then BreakFree(buf) else Quiet(buf))
    else
      && c.end < |buf| && BreakFree(buf[..c.end])
      && if buf[c.end] == LF then c.terminator == 1
         else
           && buf[c.end] == CR && (eof || c.end + 1 < |buf|)
           && c.terminator == if c.end + 1 < |buf| && buf[c.end + 1] == LF then 2 else 1
  }

  /** The partial line a quiet buffer stands for. */
  function PartialOf(buf: Bytes): Partial {
    if buf != [] && buf[|buf| - 1] == CR then Partial(buf[..|buf| - 1], true) else Partial(buf, false)
  }

  /** Scanning a quiet buffer completes nothing. */
  lemma {:induction false} QuietScan(buf: Bytes)
    requires Quiet(buf)
    ensures After(EMPTY, buf) == PartialOf(buf) && Lines(EMPTY, buf) == []
  {
    if BreakFree(buf) {
      NoBreaks(EMPTY, buf);
      assert EMPTY.text + buf == buf;
    } else {
      assert buf == buf[..|buf| - 1] + [CR];
      QuietReturn(buf[..|buf| - 1]);
    }
  }

  lemma {:induction false} QuietReturn(text: Bytes)
    requires BreakFree(text)
    ensures After(EMPTY, text + [CR]) == Partial(text, true) && Lines(EMPTY, text + [CR]) == []
  {
    var cr: Bytes := [CR];
    NoBreaks(EMPTY, text);
    assert EMPTY.text + text == text;
    SplitConcat(EMPTY, text, cr);
    OneByte(Partial(text, false), CR);
  }

  /** Cutting off the first line of a buffer, before the end of the input. */
  lemma {:induction false} CutScan(buf: Bytes, c: Cut)
    requires c.Cut? && Finds(buf, false, c)
    ensures c.end + c.terminator <= |buf|
    ensures var tail := buf[c.end + c.terminator..];
            After(EMPTY, buf) == After(EMPTY, tail) && Lines(EMPTY, buf) == [buf[..c.end]] + Lines(EMPTY, tail)
  {
    var text, end, tail := buf[..c.end], buf[c.end..c.end + c.terminator], buf[c.end + c.terminator..];
    assert buf == text + (end + tail);
    assert end == [LF] || end == [CR, LF] || (end == [CR] && tail != [] && tail[0] != LF);
    LineThenTail(text, end, tail);
  }

  predicate Never(f: Frame) { false }

  /** At the end of the input, bytes held back as a possible mark are an ordinary line. */
  function LastPartial(core: Core): Partial {
    if core.bomChecked then core.partial else Partial(core.held, false)
  }

  /** What the end of the input still emits: the last line, then the pending event. */
  function Flush(limits: Limits, core: Core): Result<seq<Frame>> {
    FlushRun(RunLines(limits, Never, core.pending, LastLine(LastPartial(core))))
  }

  function FlushRun(run: Run): Result<seq<Frame>> {
    match run.status
    case Broken(e) => Err(e)
    case Stopped => Ok(run.frames)
    case Going(p) => var last := TakeEvent(p).1; Ok(run.frames + if last.Some? then [last.value] else [])
  }

  /** One more slice of a chunk. */
  lemma {:induction false} FeedSlice(limits: Limits, stop: Frame -> bool, start: Core, chunk: Bytes, offset: nat, end: nat)
    requires offset <= end <= |chunk|
    ensures Feed(limits, stop, start, chunk[..end]) ==
            Resume(limits, stop, Feed(limits, stop, start, chunk[..offset]), chunk[offset..end])
  {
    var a, b := chunk[..offset], chunk[offset..end];
    assert chunk[..end] == a + b;
    FeedConcat(limits, stop, start, a, b);
  }

  /** What stops at a slice stops the chunk. */
  lemma {:induction false} FeedFault(limits: Limits, stop: Frame -> bool, start: Core, chunk: Bytes, end: nat)
    requires end <= |chunk|
    requires !Feed(limits, stop, start, chunk[..end]).status.Open?
    ensures Feed(limits, stop, start, chunk) == Feed(limits, stop, start, chunk[..end])
  {
    var a, b := chunk[..end], chunk[end..];
    assert chunk == a + b;
    FeedConcat(limits, stop, start, a, b);
  }

  /** The limit and the mark are respected between calls. */
  ghost predicate Settled(limits: Limits, core: Core) {
    if core.bomChecked then core.held == [] && |core.partial.text| <= limits.maxLineBytes
    else core.partial == EMPTY && BomPending(core.held)
  }

  lemma {:induction false} FeedNothing(limits: Limits, stop: Frame -> bool, core: Core)
    requires Settled(limits, core)
    ensures Feed(limits, stop, core, []) == Fed([], Open(core))
  {
    assert core.held + [] == core.held;
  }

  /** The first lines of a body have been processed, and the buffer holds the rest. */
  ghost predicate Drained(limits: Limits, start: Pending, body: Bytes, done: seq<Bytes>, frames: seq<Frame>,
                          p: Pending, buffer: Bytes) {
    && Lines(EMPTY, body) == done + Lines(EMPTY, buffer) && After(EMPTY, body) == After(EMPTY, buffer)
    && RunLines(limits, Never, start, done) == Run(frames, Going(p))
  }

  lemma {:induction false} DrainOne(limits: Limits, start: Pending, body: Bytes, done: seq<Bytes>, frames: seq<Frame>, p: Pending,
                                    buffer: Bytes, cut: Cut)
    requires Drained(limits, start, body, done, frames, p, buffer) && cut.Cut? && Finds(buffer, false, cut)
    ensures 0 < cut.end + cut.terminator <= |buffer|
    ensures match ProcessLine(limits, p, buffer[..cut.end])
      case LineDone(next, frame) =>
        Drained(limits, start, body, done + [buffer[..cut.end]], frames + (if frame.Some? then [frame.value] else []), next,
                buffer[cut.end + cut.terminator..])
      case LineFailed(e) => RunLines(limits, Never, start, Lines(EMPTY, body)).status == Broken(e)
  {
    CutScan(buffer, cut);
    OneMoreLine(limits, start, done, frames, p, buffer[..cut.end], Lines(EMPTY, buffer[cut.end + cut.terminator..]));
  }

  lemma {:induction false} DrainedAll(limits: Limits, start: Pending, body: Bytes, done: seq<Bytes>,
                                      frames: seq<Frame>, p: Pending, buffer: Bytes)
    requires Drained(limits, start, body, done, frames, p, buffer) && Quiet(buffer)
    ensures RunLines(limits, Never, start, Lines(EMPTY, body)) == Run(frames, Going(p)) && After(EMPTY, body) == PartialOf(buffer)
  {
    QuietScan(buffer);
    assert done + [] == done;
  }

  // ----- The decoder -----

  class SseDecoder {
    const limits: Limits
    var state: DecoderState
    var lineBuffer: Bytes
    /** Bytes before this position are known to hold no line break. */
    var searchFrom: nat
    var bomChecked: bool
    var pending: Pending

    ghost function View(): Core
      reads this
    {
      if bomChecked then Core(true, [], PartialOf(lineBuffer), pending) else Core(false, lineBuffer, EMPTY, pending)
    }

    ghost predicate Searched()
      reads this
    {
      searchFrom <= |lineBuffer| && BreakFree(lineBuffer[..searchFrom])
    }

    /** Between calls the buffer holds no complete line. */
    ghost predicate Valid()
      reads this
    {
      state.DecoderActive? ==> Searched() && Settled(limits, View()) && (bomChecked ==> Quiet(lineBuffer))
    }

    constructor (limits: Limits)
      ensures Valid() && this.limits == limits && state == DecoderActive && View() == START
    {
      this.limits := limits;
      state := DecoderActive;
      lineBuffer, searchFrom, bomChecked, pending := [], 0, false, FRESH;
    }

    /** Feed a chunk; an error is fail-stop and releases what was retained. */
    method Push(chunk: Bytes) returns (r: Result<seq<Frame>>)
      requires Valid()
      modifies this
      ensures Valid()
      ensures old(state) != DecoderActive ==> r == Err(DecoderInactive(old(state))) && state == old(state)
      ensures old(state) == DecoderActive ==> FedLike(Feed(limits, Never, old(View()), chunk), r)
    {
      if state != DecoderActive {
        return Err(DecoderInactive(state));
      }
      ghost var start := View();
      var frames := [];
      var offset := 0;
      FeedNothing(limits, Never, start);
      assert chunk[..0] == [];
      while offset < |chunk|
        invariant offset <= |chunk| && state == DecoderActive && Valid()
        invariant Feed(limits, Never, start, chunk[..offset]) == Fed(frames, Open(View()))
      {
        var end := if offset + FEED_SLICE_BYTES < |chunk| then offset + FEED_SLICE_BYTES else |chunk|;
        FeedSlice(limits, Never, start, chunk, offset, end);
        var fed := PushSlice(chunk[offset..end]);
        if fed.Err? {
          FeedFault(limits, Never, start, chunk, end);
          Fail();
          return fed;
        }
        frames := frames + fed.value;
        offset := end;
      }
      assert chunk[..offset] == chunk;
      r := Ok(frames);
    }

    /** The outcome of a call agrees with what feeding computes. */
    ghost predicate FedLike(fed: Fed, r: Result<seq<Frame>>)
      reads this
    {
      match fed.status
      case Open(core) => r == Ok(fed.frames) && state == DecoderActive && View() == core
      case Faulty(e) => r == Err(e) && state == DecoderFailed && Released()
      case Halted => false
    }

    ghost predicate Released()
      reads this
    {
      lineBuffer == [] && pending == FRESH && searchFrom == 0
    }

    method Fail()
      modifies this
      ensures state == DecoderFailed && Released() && bomChecked == old(bomChecked)
    {
      ClearRetained();
      state := DecoderFailed;
    }

    method ClearRetained()
      modifies this
      ensures Released() && state == old(state) && bomChecked == old(bomChecked)
    {
      lineBuffer, searchFrom, pending := [], 0, FRESH;
    }

    /** Discard what is buffered because a higher layer saw the end of the stream. */
    method Close()
      requires Valid()
      modifies this
      ensures Valid()
      ensures old(state) == DecoderActive ==> state == DecoderFinished && Released()
      ensures old(state) != DecoderActive ==> state == old(state) && View() == old(View())
    {
      if state == DecoderActive {
        ClearRetained();
        state := DecoderFinished;
      }
    }

    method PushSlice(slice: Bytes) returns (r: Result<seq<Frame>>)
      requires Valid() && state == DecoderActive
      modifies this
      ensures state == DecoderActive
      ensures var fed := Feed(limits, Never, old(View()), slice);
              match fed.status
              case Open(core) => r == Ok(fed.frames) && View() == core && Valid()
              case Faulty(e) => r == Err(e)
              case Halted => false
    {
      FeedBuffered(limits, bomChecked, lineBuffer, pending, slice);
      assert (lineBuffer + slice)[..searchFrom] == lineBuffer[..searchFrom];
      ghost var fed := Feed(limits, Never, View(), slice);
      ghost var waiting := !bomChecked && BomPending(lineBuffer + slice);
      lineBuffer := lineBuffer + slice;
      r := DrainCompleteLines();
      if r.Err? { return; }
      if !bomChecked && BomPending(lineBuffer) {
        assert waiting;
        return;
      }
      assert !waiting && PartialOf(lineBuffer) == View().partial;
      var contentLength := if lineBuffer != [] && lineBuffer[|lineBuffer| - 1] == CR then |lineBuffer| - 1 else |lineBuffer|;
      if contentLength > limits.maxLineBytes {
        r := Err(LineTooLarge(limits.maxLineBytes));
      }
    }

    /** Process every complete line of the buffer. */
    method DrainCompleteLines() returns (r: Result<seq<Frame>>)
      requires Searched() && state == DecoderActive
      modifies this
      ensures state == DecoderActive
      ensures var waiting := !old(bomChecked) && BomPending(old(lineBuffer));
              var body := if old(bomChecked) then old(lineBuffer) else StripBom(old(lineBuffer));
              var run := RunLines(limits, Never, old(pending), Lines(EMPTY, body));
              if waiting then r == Ok([]) && View() == old(View()) && Searched()
              else match run.status
                case Going(p) =>
                  r == Ok(run.frames) && View() == Core(true, [], After(EMPTY, body), p) && Searched() && Quiet(lineBuffer)
                case Broken(e) => r == Err(e)
                case Stopped => false
    {
      var ready := EnsureBomChecked(false);
      if !ready {
        return Ok([]);
      }
      r := DrainLines();
    }

    /** The loop over the complete lines, once the mark is decided. */
    method DrainLines() returns (r: Result<seq<Frame>>)
      requires Searched() && state == DecoderActive && bomChecked
      modifies this
      ensures state == DecoderActive
      ensures var body := old(lineBuffer);
              var run := RunLines(limits, Never, old(pending), Lines(EMPTY, body));
              match run.status
              case Going(p) =>
                r == Ok(run.frames) && View() == Core(true, [], After(EMPTY, body), p) && Searched() && Quiet(lineBuffer)
              case Broken(e) => r == Err(e)
              case Stopped => false
    {
      ghost var body, start := lineBuffer, pending;
      ghost var done: seq<Bytes> := [];
      var frames := [];
      var cut := NextLine(false);
      while cut.Cut?
        invariant state == DecoderActive && bomChecked && Searched() && Finds(lineBuffer, false, cut)
        invariant Drained(limits, start, body, done, frames, pending, lineBuffer)
        decreases |lineBuffer|
      {
        ghost var line := lineBuffer[..cut.end];
        r := DrainLine(cut, start, body, done, frames);
        if r.Err? { return; }
        frames, done := frames + r.value, done + [line];
        cut := NextLine(false);
      }
      DrainedAll(limits, start, body, done, frames, pending, lineBuffer);
      r := Ok(frames);
    }

    /** Take one complete line off the buffer and process it. */
    method DrainLine(cut: Cut, ghost start: Pending, ghost body: Bytes, ghost done: seq<Bytes>, ghost frames: seq<Frame>)
      returns (r: Result<seq<Frame>>)
      requires Searched() && Drained(limits, start, body, done, frames, pending, lineBuffer)
      requires cut.Cut? && Finds(lineBuffer, false, cut)
      modifies `lineBuffer, `searchFrom, `pending
      ensures Searched() && |lineBuffer| < |old(lineBuffer)|
      ensures if r.Ok?
        then Drained(limits, start, body, done + [old(lineBuffer)[..cut.end]], frames + r.value, pending, lineBuffer)
        else RunLines(limits, Never, start, Lines(EMPTY, body)).status == Broken(r.error)
    {
      DrainOne(limits, start, body, done, frames, pending, lineBuffer, cut);
      var line := lineBuffer[..cut.end];
      lineBuffer := lineBuffer[cut.end + cut.terminator..];
      searchFrom := 0;
      var processed := ProcessLine(limits, pending, line);
      if processed.LineFailed? {
        return Err(processed.error);
      }
      pending := processed.pending;
      r := Ok(if processed.frame.Some? then [processed.frame.value] else []);
    }

    /** Process the end of the input: an unterminated last line counts, and the pending
        event is flushed even without its blank line. */
    method Finish() returns (r: Result<seq<Frame>>)
      requires Valid()
      modifies this
      ensures Valid()
      ensures old(state) != DecoderActive ==> r == Err(DecoderInactive(old(state))) && state == old(state)
      ensures old(state) == DecoderActive ==>
        r == Flush(limits, old(View())) && Released() && state == if r.Ok? then DecoderFinished else DecoderFailed
    {
      if state != DecoderActive {
        return Err(DecoderInactive(state));
      }
      r := FinishInner();
      if r.Ok? {
        ClearRetained();
        state := DecoderFinished;
      } else {
        Fail();
      }
    }

    method FinishInner() returns (r: Result<seq<Frame>>)
      requires Valid() && state == DecoderActive
      modifies this
      ensures r == Flush(limits, old(View()))
    {
      ghost var partial := LastPartial(View());
      var ready := EnsureBomChecked(true);
      assert PartialOf(lineBuffer) == partial && Quiet(lineBuffer);
      var frames := [];
      // The buffer holds at most one line, so the draining loop runs at most once here.
      var cut := NextLine(true);
      if cut.Cut? {
        var line := lineBuffer[..cut.end];
        lineBuffer := lineBuffer[cut.end + cut.terminator..];
        searchFrom := 0;
        assert partial == Partial(line, true) && lineBuffer == [];
        r := FinishLine(line);
        if r.Err? { return; }
        frames := r.value;
      }
      if lineBuffer != [] {
        var line := lineBuffer;
        lineBuffer, searchFrom := [], 0;
        assert partial == Partial(line, false);
        r := FinishLine(line);
        if r.Err? { return; }
        frames := r.value;
      }
      var (rest, last) := TakeEvent(pending);
      pending := rest;
      r := Ok(frames + if last.Some? then [last.value] else []);
    }

    /** The last line of the input. */
    method FinishLine(line: Bytes) returns (r: Result<seq<Frame>>)
      modifies `pending
      ensures var run := RunLines(limits, Never, old(pending), [line]);
              if r.Ok? then run == Run(r.value, Going(pending)) else run.status == Broken(r.error)
    {
      SingleLine(limits, Never, pending, line);
      var processed := ProcessLine(limits, pending, line);
      if processed.LineFailed? {
        return Err(processed.error);
      }
      pending := processed.pending;
      r := Ok(if processed.frame.Some? then [processed.frame.value] else []);
    }

    method EnsureBomChecked(eof: bool) returns (ready: bool)
      requires Searched()
      modifies this
      ensures state == old(state) && pending == old(pending) && Searched()
      ensures ready == !(!old(bomChecked) && !eof && BomPending(old(lineBuffer)))
      ensures ready ==> bomChecked && lineBuffer == if old(bomChecked) then old(lineBuffer) else StripBom(old(lineBuffer))
      ensures !ready ==> View() == old(View())
    {
      if bomChecked { return true; }
      if !eof && |lineBuffer| < 3 && BOM[..|lineBuffer|] == lineBuffer { return false; }
      if |lineBuffer| >= 3 && lineBuffer[..3] == BOM {
        ghost var searched := lineBuffer[..searchFrom];
        lineBuffer := lineBuffer[3..];
        searchFrom := if searchFrom < 3 then 0 else searchFrom - 3;
        assert forall i :: 0 <= i < searchFrom ==> lineBuffer[..searchFrom][i] == searched[i + 3];
      }
      bomChecked := true;
      return true;
    }

    /** Find the next line, resuming the search where the last one stopped. */
    method NextLine(eof: bool) returns (cut: Cut)
      requires Searched()
      modifies `searchFrom
      ensures Searched() && Finds(lineBuffer, eof, cut)
    {
      var cursor := searchFrom;
      while cursor < |lineBuffer|
        invariant searchFrom <= cursor <= |lineBuffer| && searchFrom == old(searchFrom)
        invariant BreakFree(lineBuffer[..cursor])
      {
        if lineBuffer[cursor] == LF { return Cut(cursor, 1); }
        if lineBuffer[cursor] == CR {
          if cursor + 1 < |lineBuffer| {
            return Cut(cursor, if lineBuffer[cursor + 1] == LF then 2 else 1);
          }
          if eof { return Cut(cursor, 1); }
          searchFrom := cursor;
          return NoCut;
        }
        cursor := cursor + 1;
      }
      assert lineBuffer[..cursor] == lineBuffer;
      searchFrom := |lineBuffer|;
      return NoCut;
    }
  }

  /** Feeding a buffered decoder is feeding its buffer and the new bytes from scratch. */
  lemma {:induction false} FeedBuffered(limits: Limits, bomChecked: bool, buffer: Bytes, p: Pending, slice: Bytes)
    requires bomChecked ==> Quiet(buffer)
    ensures var core := if bomChecked then Core(true, [], PartialOf(buffer), p) else Core(false, buffer, EMPTY, p);
            var fed := Feed(limits, Never, core, slice);
            && !fed.status.Halted?
            && (bomChecked || !BomPending(buffer + slice) ==>
                  fed == FeedBody(limits, Never, p, EMPTY, if bomChecked then buffer + slice else StripBom(buffer + slice)))
  {
    if bomChecked {
      FeedQuiet(limits, buffer, p, slice);
      BodyNeverHalts(limits, p, EMPTY, buffer + slice);
    } else {
      BodyNeverHalts(limits, p, EMPTY, StripBom(buffer + slice));
    }
  }

  lemma {:induction false} FeedQuiet(limits: Limits, buffer: Bytes, p: Pending, slice: Bytes)
    requires Quiet(buffer)
    ensures FeedBody(limits, Never, p, PartialOf(buffer), slice) == FeedBody(limits, Never, p, EMPTY, buffer + slice)
  {
    QuietThen(buffer, slice);
  }

  lemma {:induction false} QuietThen(buffer: Bytes, slice: Bytes)
    requires Quiet(buffer)
    ensures Lines(EMPTY, buffer + slice) == Lines(PartialOf(buffer), slice)
    ensures After(EMPTY, buffer + slice) == After(PartialOf(buffer), slice)
  {
    QuietScan(buffer);
    SplitConcat(EMPTY, buffer, slice);
    var lines := Lines(PartialOf(buffer), slice);
    assert [] + lines == lines;
  }

  lemma {:induction false} BodyNeverHalts(limits: Limits, p: Pending, partial: Partial, body: Bytes)
    ensures !FeedBody(limits, Never, p, partial, body).status.Halted?
  {
    NeverHalts(limits, p, Lines(partial, body));
  }

  /** Processing one more line of a run: its effect, and that its failure is the run's. */
  lemma {:induction false} OneMoreLine(limits: Limits, start: Pending, done: seq<Bytes>, frames: seq<Frame>, p: Pending,
                                       line: Bytes, after: seq<Bytes>)
    requires RunLines(limits, Never, start, done) == Run(frames, Going(p))
    ensures match ProcessLine(limits, p, line)
      case LineDone(next, frame) =>
        RunLines(limits, Never, start, done + [line]) == Run(frames + (if frame.Some? then [frame.value] else []), Going(next))
      case LineFailed(e) => RunLines(limits, Never, start, done + ([line] + after)).status == Broken(e)
    ensures done + ([line] + after) == (done + [line]) + after
  {
    RunLinesConcat(limits, Never, start, done, [line]);
    SingleLine(limits, Never, p, line);
    SeqAssociative(done, [line], after);
    RunLinesConcat(limits, Never, start, done + [line], after);
  }

  lemma {:induction false} NeverHalts(limits: Limits, p: Pending, lines: seq<Bytes>)
    ensures !RunLines(limits, Never, p, lines).status.Stopped?
  {
    if lines != [] {
      NeverHalts(limits, p, lines[..|lines| - 1]);
    }
  }
}
