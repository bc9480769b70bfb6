/** What an event is, block by block: the lines of a block are read as fields, and its event is
    made of the field values. */
module SseMeaning {
  import opened JsonValue
  import opened Octets
  import opened Sequences
  import opened Lanes
  import opened SseFormat
  import opened SseStream

  // ----- Fields of a line -----

  const EVENT: Bytes := [101, 118, 101, 110, 116]
  const DATA: Bytes := [100, 97, 116, 97]
  const ID: Bytes := [105, 100]
  const RETRY: Bytes := [114, 101, 116, 114, 121]

  datatype Line = Comment | Assign(name: Bytes, value: Bytes)

  function DropSpace(value: Bytes): Bytes { if value != [] && value[0] == SPACE then value[1..] else value }

  /** How a line that is not blank reads. */
  function Read(line: Bytes): Line {
    var colon := FirstColon(line, 0);
    if colon == |line| then Assign(line, [])
    else if colon == 0 then Comment
    else Assign(line[..colon], DropSpace(line[colon + 1..]))
  }

  /** A name without a colon reads back from any of the ways to write a field; a line that starts
      with a colon is a comment. */
  lemma {:induction false} FieldReads(name: Bytes, value: Bytes)
    requires name != [] && COLON !in name
    ensures Read(name) == Assign(name, [])
    ensures Read(name + ([COLON] + ([SPACE] + value))) == Assign(name, value)
    ensures value == [] || value[0] != SPACE ==> Read(name + ([COLON] + value)) == Assign(name, value)
    ensures Read([COLON] + value) == Comment
  {
    NoColon(name, 0);
    ColonAfter(name, [SPACE] + value, 0);
    ColonAfter(name, value, 0);
    var spaced, plain := name + ([COLON] + ([SPACE] + value)), name + ([COLON] + value);
    assert spaced[..|name|] == name && spaced[|name| + 1..] == [SPACE] + value;
    assert ([SPACE] + value)[1..] == value;
    assert plain[..|name|] == name && plain[|name| + 1..] == value;
  }

  lemma {:induction false} NoColon(name: Bytes, from: nat)
    requires COLON !in name && from <= |name|
    ensures FirstColon(name, from) == |name|
    decreases |name| - from
  {
    if from < |name| { NoColon(name, from + 1); }
  }

  lemma {:induction false} ColonAfter(name: Bytes, rest: Bytes, from: nat)
    requires COLON !in name && from <= |name|
    ensures FirstColon(name + ([COLON] + rest), from) == |name|
    decreases |name| - from
  {
    var line := name + ([COLON] + rest);
    if from < |name| {
      assert line[from] == name[from] && name[from] in name;
      ColonAfter(name, rest, from + 1);
    } else {
      assert line[from] == COLON;
    }
  }

  // ----- What the lines of a block say -----

  function Named(line: Bytes, name: Bytes): Option<Bytes> {
    var r := Read(line);
    if r.Assign? && r.name == name then Some(r.value) else None
  }

  function DataOf(line: Bytes): seq<Bytes> {
    var value := Named(line, DATA); if value.Some? then [value.value] else []
  }

  function EventOf(line: Bytes): Option<Bytes> { Named(line, EVENT) }

  /** An id with a NUL is not accepted. */
  function IdOf(line: Bytes): Option<Bytes> {
    var value := Named(line, ID); if value.Some? && 0 !in value.value then value else None
  }

  predicate IsCount(value: Bytes) { value != [] && forall i :: 0 <= i < |value| ==> 48 <= value[i] < 58 }

  /** A retry time is a number of milliseconds that fits a machine word. */
  function RetryOf(line: Bytes): Option<nat> {
    var value := Named(line, RETRY);
    if value.Some? && IsCount(value.value) && Decimal(value.value) < U64_LIMIT then Some(Decimal(value.value)) else None
  }

  /** The values, separated by line feeds. */
  function Unlines(values: seq<Bytes>): Bytes {
    if values == [] then []
    else if |values| == 1 then values[0]
    else Unlines(values[..|values| - 1]) + [LF] + values[|values| - 1]
  }

  function DataValues(block: seq<Bytes>): seq<Bytes> { Joined(block, DataOf) }

  /** The last event name of a block; an empty one stands for none. */
  function EventName(block: seq<Bytes>): Option<Bytes> {
    var name := Last(block, EventOf); if name == Some([]) then None else name
  }

  function Or<T>(o: Option<T>, other: Option<T>): Option<T> { if o.Some? then o else other }

  /** The last accepted id, of the block or from before it. */
  function IdAfter(before: Option<Bytes>, block: seq<Bytes>): Option<Bytes> { Or(Last(block, IdOf), before) }

  /** The names of the four fields, as text. */
  lemma {:induction false} NamesAreText()
    ensures DATA == Ascii("data") && EVENT == Ascii("event") && ID == Ascii("id") && RETRY == Ascii("retry")
  {
  }

  /** The separator of a field, and the three ways to end a line. */
  lemma {:induction false} MarksAreText()
    ensures [COLON] + [SPACE] == Ascii(": ")
    ensures BreakBytes(Lf) == Ascii("\n") && BreakBytes(CrLf) == Ascii("\r\n") && BreakBytes(Cr) == Ascii("\r")
  {
  }

  /** What the line of a field says, for any value. */
  lemma {:induction false} FieldsSay(v: Bytes)
    ensures DataOf(DATA + ([COLON] + ([SPACE] + v))) == [v]
    ensures EventOf(EVENT + ([COLON] + ([SPACE] + v))) == Some(v)
    ensures IdOf(ID + ([COLON] + ([SPACE] + v))) == if 0 in v then None else Some(v)
    ensures RetryOf(RETRY + ([COLON] + ([SPACE] + v))) ==
            if IsCount(v) && Decimal(v) < U64_LIMIT then Some(Decimal(v)) else None
  {
    NamedReads(DATA, v);
    NamedReads(EVENT, v);
    NamedReads(ID, v);
    NamedReads(RETRY, v);
  }

  lemma {:induction false} NamedReads(name: Bytes, v: Bytes)
    requires name != [] && COLON !in name
    ensures Named(name + ([COLON] + ([SPACE] + v)), name) == Some(v)
  {
    FieldReads(name, v);
  }

  // ----- Blocks -----

  /** Between events: nothing of an event has been read. */
  predicate Between(p: Pending) { p.name == None && p.data == [] && p.dataLines == 0 && p.retry == None }

  /** The event under construction after the lines of a block. */
  function After(p: Pending, block: seq<Bytes>): Pending {
    Pending(EventName(block), Unlines(DataValues(block)), |DataValues(block)|, IdAfter(p.lastId, block),
            Last(block, RetryOf), Or(Last(block, RetryOf), p.reconnect))
  }

  predicate Sound(limits: Limits, line: Bytes) { |line| <= limits.maxLineBytes && Utf8Fault(line, 0).None? }

  /** A block the decoder takes: sound lines, and data within its limits. */
  ghost predicate Taken(limits: Limits, block: seq<Bytes>) {
    && (forall i :: 0 <= i < |block| ==> Sound(limits, block[i]))
    && |DataValues(block)| <= limits.maxDataLines && |Unlines(DataValues(block))| <= limits.maxEventBytes
  }

  ghost predicate NoBlank(block: seq<Bytes>) { forall i :: 0 <= i < |block| ==> block[i] != [] }

  /** The event under construction after one more line, field by field. */
  function Extended(q: Pending, line: Bytes): Pending {
    var data := DataOf(line);
    Pending(if EventOf(line) == Some([]) then None else Or(EventOf(line), q.name),
            if data == [] then q.data else if q.dataLines == 0 then data[0] else q.data + [LF] + data[0],
            q.dataLines + |data|, Or(IdOf(line), q.lastId), Or(RetryOf(line), q.retry), Or(RetryOf(line), q.reconnect))
  }

  lemma {:induction false} AfterSnoc(p: Pending, block: seq<Bytes>, line: Bytes)
    ensures After(p, block + [line]) == Extended(After(p, block), line)
  {
    LastSnoc(block, line, EventOf);
    LastSnoc(block, line, IdOf);
    LastSnoc(block, line, RetryOf);
    JoinedSnoc(block, line, DataOf);
    DataSnoc(DataValues(block), DataOf(line));
  }

  lemma {:induction false} DataSnoc(values: seq<Bytes>, more: seq<Bytes>)
    requires |more| <= 1
    ensures Unlines(values + more) ==
            if more == [] then Unlines(values) else if values == [] then more[0] else Unlines(values) + [LF] + more[0]
    ensures |Unlines(values)| <= |Unlines(values + more)|
  {
    if more == [] {
      assert values + more == values;
    } else {
      assert (values + more)[..|values|] == values;
    }
  }

  /** A sound line of a field adds to the event under construction, or fails on its data. */
  lemma {:induction false} FieldMeans(limits: Limits, q: Pending, line: Bytes)
    requires line != [] && Sound(limits, line) && (q.dataLines == 0 ==> q.data == [])
    requires q.dataLines <= limits.maxDataLines && |q.data| <= limits.maxEventBytes
    ensures var next := Extended(q, line);
            if next.dataLines <= limits.maxDataLines && |next.data| <= limits.maxEventBytes
            then ProcessLine(limits, q, line) == LineDone(next, None) else ProcessLine(limits, q, line).LineFailed?
  {
    LineFields(limits, q, line);
    var r := Read(line);
    if r.Assign? {
      NamesDiffer();
      if r.name == DATA {
        assert [] + r.value == r.value;
      } else if r.name == RETRY {
        RetryMeans(q, r.value);
      }
    }
  }

  lemma {:induction false} NamesDiffer()
    ensures EVENT != DATA && EVENT != ID && EVENT != RETRY && DATA != ID && DATA != RETRY && ID != RETRY
  {
    assert |EVENT| == 5 && |DATA| == 4 && |ID| == 2 && |RETRY| == 5 && EVENT[1] != RETRY[1];
  }

  lemma {:induction false} RetryMeans(q: Pending, value: Bytes)
    ensures SetRetry(q, value) ==
            if IsCount(value) && Decimal(value) < U64_LIMIT
            then q.(retry := Some(Decimal(value)), reconnect := Some(Decimal(value))) else q
  {
  }

  /** One line that is not blank, in terms of the fields of its block. */
  lemma {:induction false} LineMeans(limits: Limits, p: Pending, block: seq<Bytes>, line: Bytes)
    requires line != [] && Taken(limits, block)
    ensures var done := ProcessLine(limits, After(p, block), line);
            if Taken(limits, block + [line]) then done == LineDone(After(p, block + [line]), None) else done.LineFailed?
  {
    AfterSnoc(p, block, line);
    TakenSnoc(limits, block, line);
    if Sound(limits, line) {
      FieldMeans(limits, After(p, block), line);
    }
  }

  /** A line is judged by its own soundness, and by the data of the block with it. */
  lemma {:induction false} TakenSnoc(limits: Limits, block: seq<Bytes>, line: Bytes)
    requires Taken(limits, block)
    ensures Taken(limits, block + [line]) <==>
            && Sound(limits, line) && |DataValues(block + [line])| <= limits.maxDataLines
            && |Unlines(DataValues(block + [line]))| <= limits.maxEventBytes
  {
  }

  /** What a sound line does, by the field it reads as. */
  lemma {:induction false} LineFields(limits: Limits, p: Pending, line: Bytes)
    requires line != [] && Sound(limits, line)
    ensures ProcessLine(limits, p, line) ==
            match Read(line)
            case Comment => LineDone(p, None)
            case Assign(name, value) => FieldLine(limits, p, name, value)
  {
    var colon := FirstColon(line, 0);
    if colon == |line| { assert line[..colon] == line; }
    if line[0] == COLON { assert colon == 0; }
  }

  /** The lines of a block emit nothing; they are taken if and only if every line is sound and the
      data of the block is within the limits; and then the event under construction is made of
      their fields. */
  lemma {:induction false} BlockMeans(limits: Limits, stop: Frame -> bool, p: Pending, block: seq<Bytes>)
    requires Between(p) && NoBlank(block)
    ensures var run := RunLines(limits, stop, p, block);
            && run.frames == [] && (run.status.Going? <==> Taken(limits, block)) && !run.status.Stopped?
            && (run.status.Going? ==> run.status.pending == After(p, block))
  {
    if block != [] {
      var n := |block| - 1;
      var init, line := block[..n], block[n];
      BlockMeans(limits, stop, p, init);
      assert block == init + [line];
      if Taken(limits, init) {
        LineMeans(limits, p, init, line);
      } else {
        StaysUntaken(limits, init, line);
      }
    }
  }

  /** What is too much stays too much. */
  lemma {:induction false} StaysUntaken(limits: Limits, block: seq<Bytes>, line: Bytes)
    ensures Taken(limits, block + [line]) ==> Taken(limits, block)
  {
    JoinedSnoc(block, line, DataOf);
    DataSnoc(DataValues(block), DataOf(line));
    if Taken(limits, block + [line]) {
      assert forall i :: 0 <= i < |block| ==> (block + [line])[i] == block[i];
    }
  }

  /** The event of a block, if it has data: the data values joined by line feeds, the last event
      name, the last accepted id so far, and the last retry time. */
  function FrameOf(before: Option<Bytes>, block: seq<Bytes>): seq<Frame> {
    if DataValues(block) == [] then []
    else [Frame(EventName(block), Unlines(DataValues(block)), IdAfter(before, block), Last(block, RetryOf))]
  }

  /** The state after a block and its blank line: only id and reconnection time carry over. */
  function Carried(p: Pending, block: seq<Bytes>): Pending {
    Pending(None, [], 0, IdAfter(p.lastId, block), None, Or(Last(block, RetryOf), p.reconnect))
  }

  function Closed(block: seq<Bytes>): seq<Bytes> { block + [[]] }

  lemma {:induction false} ClosedBlockMeans(limits: Limits, stop: Frame -> bool, p: Pending, block: seq<Bytes>)
    requires Between(p) && NoBlank(block)
    ensures var run := RunLines(limits, stop, p, Closed(block));
            if !Taken(limits, block) then run.frames == [] && run.status.Broken?
            else
              && run.frames == FrameOf(p.lastId, block)
              && run.status == if run.frames != [] && stop(run.frames[0]) then Stopped else Going(Carried(p, block))
  {
    BlockMeans(limits, stop, p, block);
    var blank: Bytes := [];
    RunLinesConcat(limits, stop, p, block, [blank]);
    if Taken(limits, block) {
      SingleLine(limits, stop, After(p, block), blank);
      NoData(DataValues(block));
      assert [] + FrameOf(p.lastId, block) == FrameOf(p.lastId, block);
    }
  }

  lemma {:induction false} NoData(values: seq<Bytes>)
    ensures values == [] ==> Unlines(values) == []
  {
  }

  // ----- Whole bodies -----

  function ClosedAll(blocks: seq<seq<Bytes>>): seq<Bytes> {
    if blocks == [] then [] else ClosedAll(blocks[..|blocks| - 1]) + Closed(blocks[|blocks| - 1])
  }

  function FramesOf(before: Option<Bytes>, blocks: seq<seq<Bytes>>): seq<Frame> {
    if blocks == [] then []
    else FramesOf(before, blocks[..|blocks| - 1]) + FrameOf(IdAfterAll(before, blocks[..|blocks| - 1]), blocks[|blocks| - 1])
  }

  function IdAfterAll(before: Option<Bytes>, blocks: seq<seq<Bytes>>): Option<Bytes> {
    if blocks == [] then before else IdAfter(IdAfterAll(before, blocks[..|blocks| - 1]), blocks[|blocks| - 1])
  }

  ghost predicate NoneStops(stop: Frame -> bool, frames: seq<Frame>) {
    forall i :: 0 <= i < |frames| ==> !stop(frames[i])
  }

  lemma {:induction false} NoneStopsConcat(stop: Frame -> bool, a: seq<Frame>, b: seq<Frame>)
    ensures NoneStops(stop, a + b) <==> NoneStops(stop, a) && NoneStops(stop, b)
  {
    if NoneStops(stop, a + b) {
      assert forall i :: 0 <= i < |a| ==> (a + b)[i] == a[i];
      assert forall i :: 0 <= i < |b| ==> (a + b)[|a| + i] == b[i];
    }
  }

  ghost predicate AllTaken(limits: Limits, blocks: seq<seq<Bytes>>) {
    forall i :: 0 <= i < |blocks| ==> Taken(limits, blocks[i])
  }

  /** A run gets through its lines if and only if they are taken and no frame stops it, and then
      it has emitted `frames` and carries the id `id`; if they are taken and a frame stops it, it
      has emitted the frames up to that one. */
  ghost predicate Through(run: Run, stop: Frame -> bool, taken: bool, frames: seq<Frame>, id: Option<Bytes>) {
    && (run.status.Going? <==> taken && NoneStops(stop, frames))
    && (run.status.Going? ==> run.frames == frames && Between(run.status.pending) && run.status.pending.lastId == id)
    && (taken && !NoneStops(stop, frames) ==> run.status.Stopped? && run.frames == UntilStop(stop, frames))
  }

  lemma {:induction false} UntilStopConcat(stop: Frame -> bool, a: seq<Frame>, b: seq<Frame>)
    ensures UntilStop(stop, a + b) == if NoneStops(stop, a) then a + UntilStop(stop, b) else UntilStop(stop, a)
  {
    if a == [] {
      assert a + b == b;
    } else {
      var head, tail := [a[0]], a[1..];
      UntilStopConcat(stop, tail, b);
      assert a == head + tail && (a + b)[1..] == tail + b;
      NoneStopsConcat(stop, head, tail);
      SeqAssociative(head, tail, UntilStop(stop, b));
    }
  }

  lemma {:induction false} ClosedThrough(limits: Limits, stop: Frame -> bool, p: Pending, block: seq<Bytes>)
    requires Between(p) && NoBlank(block)
    ensures Through(RunLines(limits, stop, p, Closed(block)), stop, Taken(limits, block),
                    FrameOf(p.lastId, block), IdAfter(p.lastId, block))
  {
    ClosedBlockMeans(limits, stop, p, block);
  }

  lemma {:induction false} ThroughConcat(stop: Frame -> bool, first: Run, taken: bool, frames: seq<Frame>, id: Option<Bytes>,
                                         second: Run, more: bool, moreFrames: seq<Frame>, last: Option<Bytes>)
    requires Through(first, stop, taken, frames, id) && (first.status.Going? ==> Through(second, stop, more, moreFrames, last))
    ensures Through(if !first.status.Going? then first else Run(first.frames + second.frames, second.status),
                    stop, taken && more, frames + moreFrames, last)
  {
    NoneStopsConcat(stop, frames, moreFrames);
    UntilStopConcat(stop, frames, moreFrames);
  }

  lemma {:induction false} NextBlock(limits: Limits, stop: Frame -> bool, p: Pending, lines: seq<Bytes>, taken: bool,
                                     frames: seq<Frame>, id: Option<Bytes>, block: seq<Bytes>)
    requires Through(RunLines(limits, stop, p, lines), stop, taken, frames, id) && NoBlank(block)
    ensures Through(RunLines(limits, stop, p, lines + Closed(block)), stop, taken && Taken(limits, block),
                    frames + FrameOf(id, block), IdAfter(id, block))
  {
    var first := RunLines(limits, stop, p, lines);
    var second := first;
    if first.status.Going? {
      second := RunLines(limits, stop, first.status.pending, Closed(block));
      ClosedThrough(limits, stop, first.status.pending, block);
    }
    RunLinesConcat(limits, stop, p, lines, Closed(block));
    ThroughConcat(stop, first, taken, frames, id, second, Taken(limits, block), FrameOf(id, block), IdAfter(id, block));
  }

  lemma {:induction false} AllTakenSnoc(limits: Limits, blocks: seq<seq<Bytes>>)
    requires blocks != []
    ensures AllTaken(limits, blocks) <==> AllTaken(limits, blocks[..|blocks| - 1]) && Taken(limits, blocks[|blocks| - 1])
  {
  }

  /** Any number of blocks, each ended by a blank line. The decoder gets through them if and only
      if it takes every block and no frame stops it, and then the frames are those of the blocks,
      in order. */
  lemma {:induction false} FramesMean(limits: Limits, stop: Frame -> bool, p: Pending, blocks: seq<seq<Bytes>>)
    requires Between(p) && forall i :: 0 <= i < |blocks| ==> NoBlank(blocks[i])
    ensures Through(RunLines(limits, stop, p, ClosedAll(blocks)), stop, AllTaken(limits, blocks), FramesOf(p.lastId, blocks),
                    IdAfterAll(p.lastId, blocks))
  {
    if blocks != [] {
      var n := |blocks| - 1;
      FramesMean(limits, stop, p, blocks[..n]);
      NextBlock(limits, stop, p, ClosedAll(blocks[..n]), AllTaken(limits, blocks[..n]), FramesOf(p.lastId, blocks[..n]),
                IdAfterAll(p.lastId, blocks[..n]), blocks[n]);
      AllTakenSnoc(limits, blocks);
    }
  }

  /** All lines fall into blocks ended by blank lines, and a last block that is not ended. */
  lemma {:induction false} EveryBodyHasBlocks(lines: seq<Bytes>) returns (blocks: seq<seq<Bytes>>, last: seq<Bytes>)
    ensures lines == ClosedAll(blocks) + last && NoBlank(last) && forall i :: 0 <= i < |blocks| ==> NoBlank(blocks[i])
  {
    if lines == [] {
      blocks, last := [], [];
    } else {
      var n := |lines| - 1;
      blocks, last := EveryBodyHasBlocks(lines[..n]);
      assert lines == lines[..n] + [lines[n]];
      if lines[n] == [] {
        assert (blocks + [last])[..|blocks|] == blocks;
        blocks, last := blocks + [last], [];
      } else {
        last := last + [lines[n]];
      }
    }
  }

  /** The whole stream: when the decoder takes every block of the input, it delivers the events of
      the blocks in order, the unended one included, up to and with the first that stops it. */
  lemma {:induction false} StreamMeans(limits: Limits, policy: Policy, input: Bytes, blocks: seq<seq<Bytes>>, last: seq<Bytes>)
    requires AllLines(StripBom(input)) == ClosedAll(blocks) + last
    requires NoBlank(last) && forall i :: 0 <= i < |blocks| ==> NoBlank(blocks[i])
    requires AllTaken(limits, blocks) && Taken(limits, last)
    ensures var frames := FramesOf(None, blocks) + FrameOf(IdAfterAll(None, blocks), last);
            if NoneStops(Stops(policy), frames) then Reference(limits, policy, input) == AtEof(policy, frames)
            else UntilStop(Stops(policy), frames) != [] &&
                 Reference(limits, policy, input) == EndWith(policy, UntilStop(Stops(policy), frames), None)
  {
    var stop, closed := Stops(policy), FramesOf(None, blocks);
    var flushed := FrameOf(IdAfterAll(None, blocks), last);
    FramesMean(limits, stop, FRESH, blocks);
    NoneStopsConcat(stop, closed, flushed);
    UntilStopConcat(stop, closed, flushed);
    var first := RunLines(limits, stop, FRESH, ClosedAll(blocks));
    RunLinesConcat(limits, stop, FRESH, ClosedAll(blocks), last);
    StoppedHasFrame(limits, stop, FRESH, ClosedAll(blocks) + last);
    if first.status.Going? {
      BlockMeans(limits, stop, first.status.pending, last);
      FlushMeans(policy, closed, first.status.pending, last);
      assert closed + [] == closed;
    }
    assert [] + first.frames == first.frames;
  }

  // ----- Bodies the decoder does not take -----

  /** What is wrong with the first line that a block is not taken with: it is too long, it is not
      UTF-8, it is one data line too many, or it makes the data of its block too large. */
  function Complaint(limits: Limits, before: seq<Bytes>, line: Bytes): DecodeError {
    if |line| > limits.maxLineBytes then LineTooLarge(limits.maxLineBytes)
    else match Utf8Fault(line, 0)
      case Some((validUpTo, errorLen)) => InvalidUtf8(validUpTo, errorLen)
      case None =>
        if |DataValues(before + [line])| > limits.maxDataLines then TooManyDataLines(limits.maxDataLines)
        else EventTooLarge(limits.maxEventBytes)
  }

  /** `line` is the first with which the block it belongs to is not taken. */
  ghost predicate Spoils(limits: Limits, before: seq<Bytes>, line: Bytes) {
    line != [] && NoBlank(before) && Taken(limits, before) && !Taken(limits, before + [line])
  }

  lemma {:induction false} SpoiledLine(limits: Limits, p: Pending, before: seq<Bytes>, line: Bytes)
    requires Spoils(limits, before, line)
    ensures ProcessLine(limits, After(p, before), line) == LineFailed(Complaint(limits, before, line))
  {
    AfterSnoc(p, before, line);
    TakenSnoc(limits, before, line);
    if Sound(limits, line) {
      LineMeans(limits, p, before, line);
      LineFields(limits, After(p, before), line);
      JoinedSnoc(before, line, DataOf);
      DataSnoc(DataValues(before), DataOf(line));
    }
  }

  lemma {:induction false} SpoiledRun(limits: Limits, stop: Frame -> bool, p: Pending, before: seq<Bytes>, line: Bytes,
                                      rest: seq<Bytes>)
    requires Between(p) && Spoils(limits, before, line)
    ensures RunLines(limits, stop, p, before + ([line] + rest)) == Run([], Broken(Complaint(limits, before, line)))
  {
    BlockMeans(limits, stop, p, before);
    RunLinesConcat(limits, stop, p, before, [line] + rest);
    RunLinesConcat(limits, stop, After(p, before), [line], rest);
    SingleLine(limits, stop, After(p, before), line);
    SpoiledLine(limits, p, before, line);
  }

  /** A body with a first line that is not taken: the events of the blocks before it are delivered
      in order, up to and with the first that stops the stream; if none does, the stream fails
      with what is wrong with that line, and nothing after it matters. */
  lemma {:induction false} FailureMeans(limits: Limits, policy: Policy, input: Bytes, blocks: seq<seq<Bytes>>,
                                        before: seq<Bytes>, line: Bytes, rest: seq<Bytes>)
    requires AllLines(StripBom(input)) == ClosedAll(blocks) + (before + ([line] + rest))
    requires AllTaken(limits, blocks) && forall i :: 0 <= i < |blocks| ==> NoBlank(blocks[i])
    requires Spoils(limits, before, line)
    ensures var frames := FramesOf(None, blocks);
            if NoneStops(Stops(policy), frames)
            then Reference(limits, policy, input) == EndWith(policy, frames, Some(Complaint(limits, before, line)))
            else UntilStop(Stops(policy), frames) != [] &&
                 Reference(limits, policy, input) == EndWith(policy, UntilStop(Stops(policy), frames), None)
  {
    var stop, frames, after := Stops(policy), FramesOf(None, blocks), before + ([line] + rest);
    FramesMean(limits, stop, FRESH, blocks);
    RunLinesConcat(limits, stop, FRESH, ClosedAll(blocks), after);
    StoppedHasFrame(limits, stop, FRESH, ClosedAll(blocks) + after);
    var first := RunLines(limits, stop, FRESH, ClosedAll(blocks));
    if first.status.Going? {
      SpoiledRun(limits, stop, first.status.pending, before, line, rest);
      assert frames + [] == frames;
    }
    assert [] + first.frames == first.frames;
  }

  /** Every list of lines is blocks that are taken, and then a last block that is taken and not
      ended, or a first line that is not taken. */
  lemma {:induction false} TakenOrSpoiled(limits: Limits, lines: seq<Bytes>)
    returns (blocks: seq<seq<Bytes>>, before: seq<Bytes>, rest: seq<Bytes>)
    ensures lines == ClosedAll(blocks) + (before + rest)
    ensures AllTaken(limits, blocks) && forall i :: 0 <= i < |blocks| ==> NoBlank(blocks[i])
    ensures NoBlank(before) && Taken(limits, before) && (rest != [] ==> Spoils(limits, before, rest[0]))
  {
    if lines == [] {
      blocks, before, rest := [], [], [];
    } else {
      var n := |lines| - 1;
      var last := lines[n];
      blocks, before, rest := TakenOrSpoiled(limits, lines[..n]);
      assert lines == lines[..n] + [last];
      if rest != [] || (last != [] && !Taken(limits, before + [last])) {
        rest := rest + [last];
      } else if last == [] {
        assert (blocks + [before])[..|blocks|] == blocks;
        blocks, before := blocks + [before], [];
      } else {
        before := before + [last];
      }
    }
  }

  // ----- The end of the input -----

  /** The end of the input emits the event of the block that was not ended. */
  lemma {:induction false} FlushMeans(policy: Policy, closed: seq<Frame>, p: Pending, last: seq<Bytes>)
    requires Between(p) && NoneStops(Stops(policy), closed)
    ensures var flushed := FrameOf(p.lastId, last); var all := closed + flushed;
            EndOf(policy, [], Run(closed, Going(After(p, last)))) ==
            if NoneStops(Stops(policy), all) then AtEof(policy, all) else EndWith(policy, all, None)
    ensures var flushed := FrameOf(p.lastId, last);
            !NoneStops(Stops(policy), closed + flushed) ==> closed + UntilStop(Stops(policy), flushed) == closed + flushed
  {
    var flushed := FrameOf(p.lastId, last);
    NoneStopsConcat(Stops(policy), closed, flushed);
    assert [] + closed == closed && closed + [] == closed;
    assert flushed != [] ==> flushed[1..] == [];
  }
}
