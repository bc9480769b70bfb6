/** The chat chunk fold. `TopOf`, `ChoiceOf` and `ToolOf` say in closed form what a
    whole run of chunks amounts to; the accumulator keeps that up to date one chunk at
    a time, with one state per choice index and one per tool-call index. */
module ChatFold {
  import opened JsonValue
  import opened DeltaMerge
  import opened Lanes

  type u32 = x: int | 0 <= x < 0x1_0000_0000
  type u64 = x: int | 0 <= x < 0x1_0000_0000_0000_0000

  datatype Omittable<+T> = Omitted | Present(value: T)
  datatype Nullable<+T> = JsonNull | NonNull(value: T)

  // ----- Wire chunks -----

  datatype Chunk = Chunk(
    id: string, created: u64, model: string, objectKind: string,
    serviceTier: Omittable<Json>, systemFingerprint: Omittable<string>,
    usage: Omittable<Nullable<Json>>, moderation: Omittable<Json>,
    extra: Fields, choices: seq<ChoiceDelta>)

  datatype ChoiceDelta = ChoiceDelta(
    index: u32, finishReason: Nullable<string>, logprobs: Omittable<Nullable<Logprobs>>,
    extra: Fields, delta: MessageDelta)

  datatype Logprobs = Logprobs(content: Nullable<seq<Json>>, refusal: Nullable<seq<Json>>)

  datatype MessageDelta = MessageDelta(
    role: Omittable<string>, content: Omittable<Nullable<string>>, refusal: Omittable<Nullable<string>>,
    functionCall: Omittable<FunctionDelta>, toolCalls: Omittable<seq<ToolDelta>>, extra: Fields)

  datatype FunctionDelta = FunctionDelta(name: Omittable<string>, arguments: Omittable<string>)

  datatype ToolDelta = ToolDelta(
    index: u32, id: Omittable<string>, kind: Omittable<string>,
    function_: Omittable<FunctionDelta>, extra: Fields)

  // ----- Accumulated state -----

  datatype TopState = TopState(
    id: Option<string>, created: Option<u64>, model: Option<string>, serviceTier: Option<Json>,
    systemFingerprint: Option<string>, usage: Option<Json>, moderation: Option<Json>, extra: Fields)

  datatype ChoiceState = ChoiceState(
    role: Option<string>, content: Option<string>, refusal: Option<Nullable<string>>,
    finishReason: Option<string>, toolCallsSeen: bool, toolCalls: map<int, ToolState>,
    legacy: Option<LegacyCall>, logprobs: Option<LogprobLists>, extra: Fields, messageExtra: Fields)

  datatype LegacyCall = LegacyCall(name: Option<string>, arguments: string)
  datatype LogprobLists = LogprobLists(content: Option<seq<Json>>, refusal: Option<seq<Json>>)

  datatype ToolState = ToolState(
    id: Option<string>, kind: Option<string>, functionSeen: bool, name: Option<string>,
    arguments: string, extra: Fields)

  // ----- Unknown fields where the first value wins -----

  function InsertAbsent(target: Fields, extra: Fields): Fields {
    if extra == [] then target
    else
      var sofar, f := InsertAbsent(target, extra[..|extra| - 1]), extra[|extra| - 1];
      if Has(sofar, f.key) then sofar else sofar + [f]
  }

  function FirstSeen(extras: seq<Fields>): Fields {
    if extras == [] then [] else InsertAbsent(FirstSeen(extras[..|extras| - 1]), extras[|extras| - 1])
  }

  /** `insert_first_seen` and the loops that fold unknown fields by first value. */
  method InsertFirstSeen(target: Fields, extra: Fields) returns (filled: Fields)
    ensures filled == InsertAbsent(target, extra)
  {
    filled := target;
    for i := 0 to |extra|
      invariant filled == InsertAbsent(target, extra[..i])
    {
      assert extra[..i + 1][..i] == extra[..i];
      if !Has(filled, extra[i].key) {
        filled := Put(filled, extra[i].key, extra[i].value);
      }
    }
    assert extra[..|extra|] == extra;
  }

  // ----- Lanes of one tool-call fragment -----

  function Given<T>(o: Omittable<T>): Option<T> {
    if o.Present? then Some(o.value) else None
  }

  function NonNullOf<T>(n: Nullable<T>): Option<T> {
    if n.NonNull? then Some(n.value) else None
  }

  function GivenNonNull<T>(o: Omittable<Nullable<T>>): Option<T> {
    if o.Present? then NonNullOf(o.value) else None
  }

  function TextOr(o: Option<string>): string {
    if o.Some? then o.value else ""
  }

  function ItemsOr(o: Option<seq<Json>>): seq<Json> {
    if o.Some? then o.value else []
  }

  function ToolId(t: ToolDelta): Option<string> { Given(t.id) }
  function ToolKind(t: ToolDelta): Option<string> { Given(t.kind) }
  predicate HasFunction(t: ToolDelta) { t.function_.Present? }
  function ToolName(t: ToolDelta): Option<string> { if HasFunction(t) then Given(t.function_.value.name) else None }
  function ToolArguments(t: ToolDelta): string {
    if HasFunction(t) then TextOr(Given(t.function_.value.arguments)) else ""
  }
  function ToolExtra(t: ToolDelta): seq<Fields> { [t.extra] }

  /** What all fragments of one tool call amount to. */
  function ToolOf(fragments: seq<ToolDelta>): ToolState {
    ToolState(
      First(fragments, ToolId), First(fragments, ToolKind), Any(fragments, HasFunction),
      First(fragments, ToolName), Joined(fragments, ToolArguments),
      MergeRun([], Joined(fragments, ToolExtra)))
  }

  // ----- Lanes of one choice delta -----

  function Finish(c: ChoiceDelta): Option<string> { NonNullOf(c.finishReason) }
  predicate HasFinish(c: ChoiceDelta) { Finish(c).Some? }
  function Role(c: ChoiceDelta): Option<string> { Given(c.delta.role) }
  predicate HasText(c: ChoiceDelta) { GivenNonNull(c.delta.content).Some? }
  function Text(c: ChoiceDelta): string { TextOr(GivenNonNull(c.delta.content)) }
  predicate MentionsRefusal(c: ChoiceDelta) { c.delta.refusal.Present? }
  predicate HasRefusal(c: ChoiceDelta) { GivenNonNull(c.delta.refusal).Some? }
  function Refusal(c: ChoiceDelta): string { TextOr(GivenNonNull(c.delta.refusal)) }
  predicate HasLegacy(c: ChoiceDelta) { c.delta.functionCall.Present? }
  function LegacyName(c: ChoiceDelta): Option<string> {
    if HasLegacy(c) then Given(c.delta.functionCall.value.name) else None
  }
  function LegacyArguments(c: ChoiceDelta): string {
    if HasLegacy(c) then TextOr(Given(c.delta.functionCall.value.arguments)) else ""
  }
  predicate HasLogprobs(c: ChoiceDelta) { GivenNonNull(c.logprobs).Some? }
  function ContentProbs(c: ChoiceDelta): Option<seq<Json>> {
    if HasLogprobs(c) then NonNullOf(c.logprobs.value.value.content) else None
  }
  function RefusalProbs(c: ChoiceDelta): Option<seq<Json>> {
    if HasLogprobs(c) then NonNullOf(c.logprobs.value.value.refusal) else None
  }
  predicate HasContentProbs(c: ChoiceDelta) { ContentProbs(c).Some? }
  predicate HasRefusalProbs(c: ChoiceDelta) { RefusalProbs(c).Some? }
  function ContentProbItems(c: ChoiceDelta): seq<Json> { ItemsOr(ContentProbs(c)) }
  function RefusalProbItems(c: ChoiceDelta): seq<Json> { ItemsOr(RefusalProbs(c)) }
  predicate HasTools(c: ChoiceDelta) { c.delta.toolCalls.Present? }
  function Fragments(c: ChoiceDelta): seq<ToolDelta> { if HasTools(c) then c.delta.toolCalls.value else [] }
  function ChoiceExtra(c: ChoiceDelta): seq<Fields> { [c.extra] }
  function MessageExtra(c: ChoiceDelta): seq<Fields> { [c.delta.extra] }

  function ToolIndex(t: ToolDelta): int { t.index }

  /** One tool-call state per tool-call index. */
  function ToolsOf(fragments: seq<ToolDelta>): map<int, ToolState> {
    Grouped(fragments, ToolIndex, ToolOf)
  }

  /** What all deltas of one choice amount to. */
  function ChoiceOf(events: seq<ChoiceDelta>): ChoiceState {
    ChoiceState(
      Last(events, Role),
      ContentOf(events),
      RefusalOf(events),
      Last(events, Finish),
      Any(events, HasTools),
      ToolsOf(Joined(events, Fragments)),
      LegacyOf(events),
      LogprobsOf(events),
      FirstSeen(Joined(events, ChoiceExtra)),
      MergeRun([], Joined(events, MessageExtra)))
  }

  function ContentOf(events: seq<ChoiceDelta>): Option<string> {
    if Any(events, HasText) then Some(Joined(events, Text)) else None
  }

  function RefusalOf(events: seq<ChoiceDelta>): Option<Nullable<string>> {
    if Any(events, HasRefusal) then Some(NonNull(Joined(events, Refusal)))
    else if Any(events, MentionsRefusal) then Some(JsonNull)
    else None
  }

  function LegacyOf(events: seq<ChoiceDelta>): Option<LegacyCall> {
    if Any(events, HasLegacy) then Some(LegacyCall(First(events, LegacyName), Joined(events, LegacyArguments))) else None
  }

  function LogprobsOf(events: seq<ChoiceDelta>): Option<LogprobLists> {
    if Any(events, HasLogprobs) then
      Some(LogprobLists(
        if Any(events, HasContentProbs) then Some(Joined(events, ContentProbItems)) else None,
        if Any(events, HasRefusalProbs) then Some(Joined(events, RefusalProbItems)) else None))
    else None
  }

  // ----- Lanes of one chunk -----

  /** Chunks of any other object kind are skipped. */
  predicate IsChunk(c: Chunk) { c.objectKind == "chat.completion.chunk" }

  function ChunkId(c: Chunk): Option<string> { Some(c.id) }
  function Created(c: Chunk): Option<u64> { Some(c.created) }
  function Model(c: Chunk): Option<string> { Some(c.model) }
  function ServiceTier(c: Chunk): Option<Json> { Given(c.serviceTier) }
  function Moderation(c: Chunk): Option<Json> { Given(c.moderation) }
  function Fingerprint(c: Chunk): Option<string> { Given(c.systemFingerprint) }
  function Usage(c: Chunk): Option<Json> { GivenNonNull(c.usage) }
  function ChunkExtra(c: Chunk): seq<Fields> { [c.extra] }
  function Choices(c: Chunk): seq<ChoiceDelta> { c.choices }

  function TopOf(chunks: seq<Chunk>): TopState {
    TopState(
      First(chunks, ChunkId), First(chunks, Created), First(chunks, Model),
      First(chunks, ServiceTier), Last(chunks, Fingerprint), Last(chunks, Usage),
      First(chunks, Moderation), FirstSeen(Joined(chunks, ChunkExtra)))
  }

  function ChoiceIndex(c: ChoiceDelta): int { c.index }

  /** One choice state per choice index. */
  function ChoicesOf(events: seq<ChoiceDelta>): map<int, ChoiceState> {
    Grouped(events, ChoiceIndex, ChoiceOf)
  }

  /** All choice deltas of the accepted chunks, in arrival order. */
  function EventsOf(history: seq<Chunk>): seq<ChoiceDelta> {
    Joined(Where(history, IsChunk), Choices)
  }

}
