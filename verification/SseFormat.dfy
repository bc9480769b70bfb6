/** The event-stream format on whole byte strings: how a body splits into lines, what
    each line does to the event under construction, and what a whole run of lines emits. */
module SseFormat {
  import opened JsonValue
  import opened Octets
  import opened Sequences

  const LF: byte := 10
  const CR: byte := 13
  const COLON: byte := 58
  const SPACE: byte := 32
  const BOM: Bytes := [0xEF, 0xBB, 0xBF]

  datatype Limits = Limits(maxLineBytes: nat, maxEventBytes: nat, maxDataLines: nat)

  datatype Frame = Frame(event: Option<Bytes>, data: Bytes, id: Option<Bytes>, retry: Option<nat>)

  datatype DecoderState = DecoderActive | DecoderFinished | DecoderFailed
  datatype StreamState = StreamActive | StreamCompleted | StreamRemoteError | StreamFailed

  datatype DecodeError =
    | LineTooLarge(limit: nat)
    | EventTooLarge(limit: nat)
    | TooManyDataLines(limit: nat)
    | InvalidUtf8(validUpTo: nat, errorLen: Option<nat>)
    | DecoderInactive(decoder: DecoderState)
    | StreamInactive(stream: StreamState)
    | UnexpectedEof

  // ----- Lines -----

  predicate IsBreak(b: byte) { b == LF || b == CR }

  /** A line under construction: its bytes so far, and whether a CR that may still turn
      out to be the first half of a CRLF has ended it. */
  datatype Partial = Partial(text: Bytes, cr: bool)

  const EMPTY := Partial([], false)

  /** The partial line after one more byte. */
  function Scan(s: Partial, b: byte): Partial {
    if b == LF then EMPTY
    else if b == CR then Partial(if s.cr then [] else s.text, true)
    else Partial(if s.cr then [b] else s.text + [b], false)
  }

  /** The line, if any, that one more byte completes. */
  function Completed(s: Partial, b: byte): seq<Bytes> {
    if s.cr || b == LF then [s.text] else []
  }

  function After(s: Partial, bytes: Bytes): Partial {
    if bytes == [] then s else Scan(After(s, bytes[..|bytes| - 1]), bytes[|bytes| - 1])
  }

  /** The lines completed by `bytes`, whatever follows. */
  function Lines(s: Partial, bytes: Bytes): seq<Bytes> {
    if bytes == [] then []
    else Lines(s, bytes[..|bytes| - 1]) + Completed(After(s, bytes[..|bytes| - 1]), bytes[|bytes| - 1])
  }

  /** The end of the input completes a line that is not empty or whose CR was pending. */
  function LastLine(s: Partial): seq<Bytes> {
    if s.cr || s.text != [] then [s.text] else []
  }

  /** All lines of a finished body. */
  function AllLines(body: Bytes): seq<Bytes> {
    Lines(EMPTY, body) + LastLine(After(EMPTY, body))
  }

  /** Bytes that may still turn out to be the byte-order mark. */
  predicate BomPending(buf: Bytes) { |buf| < 3 && buf == BOM[..|buf|] }

  function StripBom(buf: Bytes): Bytes {
    if |buf| >= 3 && buf[..3] == BOM then buf[3..] else buf
  }

  // ----- UTF-8 -----

  predicate Continuation(b: byte) { 0x80 <= b < 0xC0 }

  /** The first byte sequence that is not UTF-8, if any: where it starts and how long it is
      (no length when the input ends inside a sequence). */
  function Utf8Fault(s: Bytes, i: nat): Option<(nat, Option<nat>)>
    requires i <= |s|
    decreases |s| - i
  {
    if i == |s| then None
    else if s[i] < 0x80 then Utf8Fault(s, i + 1)
    else if 0xC2 <= s[i] < 0xE0 then
      if i + 1 == |s| then Some((i, None))
      else if !Continuation(s[i + 1]) then Some((i, Some(1)))
      else Utf8Fault(s, i + 2)
    else if 0xE0 <= s[i] < 0xF0 then
      if i + 1 == |s| then Some((i, None))
      else if !SecondOfThree(s[i], s[i + 1]) then Some((i, Some(1)))
      else if i + 2 == |s| then Some((i, None))
      else if !Continuation(s[i + 2]) then Some((i, Some(2)))
      else Utf8Fault(s, i + 3)
    else if 0xF0 <= s[i] < 0xF5 then
      if i + 1 == |s| then Some((i, None))
      else if !SecondOfFour(s[i], s[i + 1]) then Some((i, Some(1)))
      else if i + 2 == |s| then Some((i, None))
      else if !Continuation(s[i + 2]) then Some((i, Some(2)))
      else if i + 3 == |s| then Some((i, None))
      else if !Continuation(s[i + 3]) then Some((i, Some(3)))
      else Utf8Fault(s, i + 4)
    else Some((i, Some(1)))
  }

  predicate SecondOfThree(first: byte, second: byte) {
    if first == 0xE0 then 0xA0 <= second < 0xC0
    else if first == 0xED then 0x80 <= second < 0xA0
    else Continuation(second)
  }

  predicate SecondOfFour(first: byte, second: byte) {
    if first == 0xF0 then 0x90 <= second < 0xC0
    else if first == 0xF4 then 0x80 <= second < 0x90
    else Continuation(second)
  }

  // ----- What one line does -----

  /** The event under construction, and what persists from event to event. */
  datatype Pending = Pending(name: Option<Bytes>, data: Bytes, dataLines: nat, lastId: Option<Bytes>,
                             retry: Option<nat>, reconnect: Option<nat>)

  const FRESH := Pending(None, [], 0, None, None, None)

  datatype LineResult = LineFailed(error: DecodeError) | LineDone(pending: Pending, frame: Option<Frame>)

  function TakeEvent(p: Pending): (Pending, Option<Frame>) {
    if p.dataLines == 0 then (p.(name := None, retry := None), None)
    else (p.(name := None, data := [], dataLines := 0, retry := None), Some(Frame(p.name, p.data, p.lastId, p.retry)))
  }

  function PushData(limits: Limits, p: Pending, value: Bytes): LineResult {
    var joined := if p.dataLines != 0 then p.data + [LF] + value else p.data + value;
    if p.dataLines >= limits.maxDataLines then LineFailed(TooManyDataLines(limits.maxDataLines))
    else if |joined| > limits.maxEventBytes then LineFailed(EventTooLarge(limits.maxEventBytes))
    else LineDone(p.(data := joined, dataLines := p.dataLines + 1), None)
  }

  function Decimal(digits: Bytes): nat
    requires forall i :: 0 <= i < |digits| ==> 48 <= digits[i] < 58
  {
    if digits == [] then 0 else Decimal(digits[..|digits| - 1]) * 10 + (digits[|digits| - 1] - 48)
  }

  function SetRetry(p: Pending, value: Bytes): Pending {
    if value == [] || (exists i :: 0 <= i < |value| && !(48 <= value[i] < 58)) then p
    else if Decimal(value) >= U64_LIMIT then p
    else p.(retry := Some(Decimal(value)), reconnect := Some(Decimal(value)))
  }

  function FirstColon(line: Bytes, from: nat): (i: nat)
    requires from <= |line|
    ensures from <= i <= |line|
    decreases |line| - from
  {
    if from == |line| || line[from] == COLON then from else FirstColon(line, from + 1)
  }

  function FieldLine(limits: Limits, p: Pending, field: Bytes, value: Bytes): LineResult {
    if field == [101, 118, 101, 110, 116] then  // event
      LineDone(p.(name := if value == [] then None else Some(value)), None)
    else if field == [100, 97, 116, 97] then  // data
      PushData(limits, p, value)
    else if field == [105, 100] && 0 !in value then  // id
      LineDone(p.(lastId := Some(value)), None)
    else if field == [114, 101, 116, 114, 121] then  // retry
      LineDone(SetRetry(p, value), None)
    else LineDone(p, None)
  }

  function ProcessLine(limits: Limits, p: Pending, line: Bytes): LineResult {
    if |line| > limits.maxLineBytes then LineFailed(LineTooLarge(limits.maxLineBytes))
    else match Utf8Fault(line, 0)
      case Some((validUpTo, errorLen)) => LineFailed(InvalidUtf8(validUpTo, errorLen))
      case None =>
        if line == [] then var (rest, frame) := TakeEvent(p); LineDone(rest, frame)
        else if line[0] == COLON then LineDone(p, None)
        else
          var colon := FirstColon(line, 0);
          var value := if colon == |line| then [] else line[colon + 1..];
          FieldLine(limits, p, line[..colon], if value != [] && value[0] == SPACE then value[1..] else value)
  }

  // ----- What a run of lines emits -----

  /** A run goes on, was stopped by a frame, or failed. */
  datatype Status = Going(pending: Pending) | Stopped | Broken(error: DecodeError)

  datatype Run = Run(frames: seq<Frame>, status: Status)

  function OneLine(limits: Limits, stop: Frame -> bool, p: Pending, line: Bytes): Run {
    match ProcessLine(limits, p, line)
    case LineFailed(e) => Run([], Broken(e))
    case LineDone(next, None) => Run([], Going(next))
    case LineDone(next, Some(frame)) => Run([frame], if stop(frame) then Stopped else Going(next))
  }

  /** Lines are processed in order until one fails or emits a stopping frame. */
  function RunLines(limits: Limits, stop: Frame -> bool, p: Pending, lines: seq<Bytes>): Run {
    if lines == [] then Run([], Going(p))
    else
      var sofar := RunLines(limits, stop, p, lines[..|lines| - 1]);
      if !sofar.status.Going? then sofar
      else
        var last := OneLine(limits, stop, sofar.status.pending, lines[|lines| - 1]);
        Run(sofar.frames + last.frames, last.status)
  }

  lemma {:induction false} RunLinesConcat(limits: Limits, stop: Frame -> bool, p: Pending, a: seq<Bytes>, b: seq<Bytes>)
    ensures var first := RunLines(limits, stop, p, a);
            RunLines(limits, stop, p, a + b) ==
              if !first.status.Going? then first
              else var second := RunLines(limits, stop, first.status.pending, b); Run(first.frames + second.frames, second.status)
  {
    if b == [] {
      assert a + b == a;
    } else {
      var init := b[..|b| - 1];
      RunLinesConcat(limits, stop, p, a, init);
      assert (a + b)[..|a + b| - 1] == a + init;
      var first := RunLines(limits, stop, p, a);
      if first.status.Going? {
        var second := RunLines(limits, stop, first.status.pending, init);
        if second.status.Going? {
          SeqAssociative(first.frames, second.frames, OneLine(limits, stop, second.status.pending, b[|b| - 1]).frames);
        }
      }
    }
  }

  lemma {:induction false} SingleLine(limits: Limits, stop: Frame -> bool, p: Pending, line: Bytes)
    ensures RunLines(limits, stop, p, [line]) == OneLine(limits, stop, p, line)
  {
    var one: seq<Bytes> := [line];
    assert one[..0] == [];
    assert [] + OneLine(limits, stop, p, line).frames == OneLine(limits, stop, p, line).frames;
  }

  // ----- Splitting -----

  lemma {:induction false} SplitConcat(s: Partial, a: Bytes, b: Bytes)
    ensures After(s, a + b) == After(After(s, a), b)
    ensures Lines(s, a + b) == Lines(s, a) + Lines(After(s, a), b)
  {
    if b == [] {
      assert a + b == a;
    } else {
      var init, last := b[..|b| - 1], b[|b| - 1];
      SplitConcat(s, a, init);
      assert (a + b)[..|a + b| - 1] == a + init && (a + b)[|a + b| - 1] == last;
      SeqAssociative(Lines(s, a), Lines(After(s, a), init), Completed(After(s, a + init), last));
    }
  }

  /** Bytes without a break only extend the line. */
  lemma {:induction false} NoBreaks(s: Partial, bytes: Bytes)
    requires !s.cr && forall i :: 0 <= i < |bytes| ==> !IsBreak(bytes[i])
    ensures After(s, bytes) == Partial(s.text + bytes, false) && Lines(s, bytes) == []
  {
    if bytes != [] {
      NoBreaks(s, bytes[..|bytes| - 1]);
      assert s.text + bytes == s.text + bytes[..|bytes| - 1] + [bytes[|bytes| - 1]];
    }
  }

  lemma {:induction false} OneByte(s: Partial, b: byte)
    ensures After(s, [b]) == Scan(s, b) && Lines(s, [b]) == Completed(s, b)
  {
    var one: Bytes := [b];
    assert one[..0] == [];
  }

  /** A first line over the limit fails the run at once. */
  lemma {:induction false} OverlongFirst(limits: Limits, stop: Frame -> bool, p: Pending, lines: seq<Bytes>)
    requires lines != [] && |lines[0]| > limits.maxLineBytes
    ensures RunLines(limits, stop, p, lines) == Run([], Broken(LineTooLarge(limits.maxLineBytes)))
  {
    SingleLine(limits, stop, p, lines[0]);
    RunLinesConcat(limits, stop, p, [lines[0]], lines[1..]);
    assert lines == [lines[0]] + lines[1..];
  }

  /** A line that outgrew a limit stays too long: it is the first line to complete, or it is
      still growing. */
  lemma {:induction false} LineOnlyGrows(s: Partial, more: Bytes)
    ensures var lines := Lines(s, more);
            if lines == [] then |After(s, more).text| >= |s.text| && (s.cr ==> more == [])
            else |lines[0]| >= |s.text|
  {
    if more != [] {
      LineOnlyGrows(s, more[..|more| - 1]);
    }
  }

  /** After the end of a line the next one starts afresh: LF, CRLF, or a CR that no LF follows. */
  ghost predicate Ends(end: Bytes, tail: Bytes) {
    end == [LF] || end == [CR, LF] || (end == [CR] && tail != [] && tail[0] != LF)
  }

  lemma {:induction false} LineThenTail(text: Bytes, end: Bytes, tail: Bytes)
    requires (forall i :: 0 <= i < |text| ==> !IsBreak(text[i])) && Ends(end, tail)
    ensures After(EMPTY, text + (end + tail)) == After(EMPTY, tail)
    ensures Lines(EMPTY, text + (end + tail)) == [text] + Lines(EMPTY, tail)
  {
    SplitConcat(EMPTY, text, end + tail);
    NoBreaks(EMPTY, text);
    assert EMPTY.text + text == text;
    EndThenTail(text, end, tail);
  }

  lemma {:induction false} EndThenTail(text: Bytes, end: Bytes, tail: Bytes)
    requires Ends(end, tail)
    ensures After(Partial(text, false), end + tail) == After(EMPTY, tail)
    ensures Lines(Partial(text, false), end + tail) == [text] + Lines(EMPTY, tail)
  {
    SplitConcat(Partial(text, false), end, tail);
    if end == [CR] {
      OneByte(Partial(text, false), CR);
      LoneCr(text, tail);
    } else {
      OneLineEnd(text, end);
    }
  }

  lemma {:induction false} OneLineEnd(text: Bytes, end: Bytes)
    requires end == [LF] || end == [CR, LF]
    ensures After(Partial(text, false), end) == EMPTY && Lines(Partial(text, false), end) == [text]
  {
    OneByte(Partial(text, false), LF);
    if end == [CR, LF] {
      var cr, lf: Bytes := [CR], [LF];
      assert end == cr + lf;
      SplitConcat(Partial(text, false), cr, lf);
      OneByte(Partial(text, false), CR);
      OneByte(Partial(text, true), LF);
    }
  }

  lemma {:induction false} LoneCr(text: Bytes, tail: Bytes)
    requires tail != [] && tail[0] != LF
    ensures After(Partial(text, true), tail) == After(EMPTY, tail)
    ensures Lines(Partial(text, true), tail) == [text] + Lines(EMPTY, tail)
  {
    var first, rest: Bytes := [tail[0]], tail[1..];
    assert tail == first + rest;
    SplitConcat(Partial(text, true), first, rest);
    SplitConcat(EMPTY, first, rest);
    OneByte(Partial(text, true), tail[0]);
    OneByte(EMPTY, tail[0]);
    assert EMPTY.text + first == first;
    assert [] + Lines(Scan(EMPTY, tail[0]), rest) == Lines(Scan(EMPTY, tail[0]), rest);
  }

  /** The three ways to end a line. */
  datatype LineBreak = Lf | CrLf | Cr

  function BreakBytes(b: LineBreak): Bytes {
    match b case Lf => [LF] case CrLf => [CR, LF] case Cr => [CR]
  }

  /** A body written as lines with their ends, and what follows the last end. */
  function Body(lines: seq<Bytes>, ends: seq<LineBreak>, last: Bytes): Bytes
    requires |lines| == |ends|
  {
    if lines == [] then last else lines[0] + (BreakBytes(ends[0]) + Body(lines[1..], ends[1..], last))
  }

  ghost predicate BreakFree(bytes: Bytes) {
    forall i :: 0 <= i < |bytes| ==> !IsBreak(bytes[i])
  }

  /** The lines hold no break, and no CR end stands right before an LF. */
  ghost predicate Separated(lines: seq<Bytes>, ends: seq<LineBreak>, last: Bytes) {
    && |lines| == |ends| && BreakFree(last) && (forall i :: 0 <= i < |lines| ==> BreakFree(lines[i]))
    && forall i :: 0 <= i < |lines| - 1 ==> !(ends[i] == Cr && lines[i + 1] == [] && ends[i + 1] == Lf)
  }

  /** A finished body splits into exactly the lines it is written as, by LF, CRLF or CR in any
      mixture, and an unterminated last line if there is one. */
  lemma {:induction false} BodySplits(lines: seq<Bytes>, ends: seq<LineBreak>, last: Bytes)
    requires Separated(lines, ends, last)
    ensures AllLines(Body(lines, ends, last)) == lines + if last == [] then [] else [last]
  {
    if lines == [] {
      NoBreaks(EMPTY, last);
      assert EMPTY.text + last == last;
    } else {
      var more, moreEnds := lines[1..], ends[1..];
      BodySplits(more, moreEnds, last);
      OnlyNothingIsEmpty(more, moreEnds, last);
      BodyStart(more, moreEnds, last);
      OneLineMore(lines[0], ends[0], Body(more, moreEnds, last));
      SeqAssociative([lines[0]], more, if last == [] then [] else [last]);
      assert lines == [lines[0]] + more;
    }
  }

  /** One line with its end, before a body that does not turn a CR into a CRLF. */
  lemma {:induction false} OneLineMore(text: Bytes, end: LineBreak, tail: Bytes)
    requires BreakFree(text) && (end == Cr && tail != [] ==> tail[0] != LF)
    ensures AllLines(text + (BreakBytes(end) + tail)) == [text] + AllLines(tail)
  {
    if end == Cr && tail == [] {
      LastReturn(text);
      assert AllLines(tail) == [];
    } else {
      LineThenTail(text, BreakBytes(end), tail);
      SeqAssociative([text], Lines(EMPTY, tail), LastLine(After(EMPTY, tail)));
    }
  }

  lemma {:induction false} OnlyNothingIsEmpty(lines: seq<Bytes>, ends: seq<LineBreak>, last: Bytes)
    requires |lines| == |ends|
    ensures Body(lines, ends, last) == [] ==> lines == [] && last == []
  {
    assert lines != [] ==> |BreakBytes(ends[0])| > 0;
  }

  /** Only an empty line that ends in LF makes a body start with LF. */
  lemma {:induction false} BodyStart(lines: seq<Bytes>, ends: seq<LineBreak>, last: Bytes)
    requires Separated(lines, ends, last)
    ensures var body := Body(lines, ends, last); body != [] && body[0] == LF ==> lines != [] && lines[0] == [] && ends[0] == Lf
  {
  }

  lemma {:induction false} LastReturn(text: Bytes)
    requires BreakFree(text)
    ensures AllLines(text + ([CR] + [])) == [text]
  {
    var cr: Bytes := [CR];
    assert cr + [] == cr;
    NoBreaks(EMPTY, text);
    assert EMPTY.text + text == text;
    SplitConcat(EMPTY, text, cr);
    OneByte(Partial(text, false), CR);
  }

  /** Every body can be written so: `BodySplits` describes the lines of all bodies. */
  lemma {:induction false} EveryBodyIsSeparated(body: Bytes) returns (lines: seq<Bytes>, ends: seq<LineBreak>, last: Bytes)
    ensures Separated(lines, ends, last) && Body(lines, ends, last) == body
    decreases |body|
  {
    if BreakFree(body) {
      lines, ends, last := [], [], body;
    } else {
      var i := FirstBreak(body);
      var end := if body[i] == LF then Lf else if i + 1 < |body| && body[i + 1] == LF then CrLf else Cr;
      var tail := body[i + |BreakBytes(end)|..];
      var moreLines, moreEnds;
      moreLines, moreEnds, last := EveryBodyIsSeparated(tail);
      lines, ends := [body[..i]] + moreLines, [end] + moreEnds;
      assert body == body[..i] + (BreakBytes(end) + tail);
      SeparatedMore(body[..i], end, moreLines, moreEnds, last);
    }
  }

  lemma {:induction false} SeparatedMore(text: Bytes, end: LineBreak, lines: seq<Bytes>, ends: seq<LineBreak>, last: Bytes)
    requires BreakFree(text) && Separated(lines, ends, last)
    requires var tail := Body(lines, ends, last); end == Cr && tail != [] ==> tail[0] != LF
    ensures Separated([text] + lines, [end] + ends, last)
    ensures Body([text] + lines, [end] + ends, last) == text + (BreakBytes(end) + Body(lines, ends, last))
  {
    assert ([text] + lines)[1..] == lines && ([end] + ends)[1..] == ends;
    assert lines != [] && lines[0] == [] && ends[0] == Lf ==> Body(lines, ends, last)[0] == LF;
  }

  lemma {:induction false} FirstBreak(body: Bytes) returns (i: nat)
    requires !BreakFree(body)
    ensures i < |body| && IsBreak(body[i]) && BreakFree(body[..i])
  {
    i := 0;
    while !IsBreak(body[i])
      invariant i < |body| && BreakFree(body[..i]) && exists k :: i <= k < |body| && IsBreak(body[k])
      decreases |body| - i
    {
      i := i + 1;
    }
  }
}
