/** What a completion says about the chunks it was folded from, lookup by lookup. */
module CompletionMeaning {
  import opened JsonValue
  import opened DeltaMerge
  import opened Lanes
  import opened Ordering
  import opened ChatFold
  import opened ChatFoldLaws
  import opened ChatSnapshot
  import opened ChatStream
  import opened ChatCollect

  // ----- Objects by their lookups -----

  /** The object holds exactly these values. */
  ghost predicate Is(o: Fields, known: map<string, Json>) {
    forall k :: Get(o, k) == if k in known then Some(known[k]) else None
  }

  /** The object holds these values, and for every other key what `others` holds. */
  ghost predicate Reads(o: Fields, known: map<string, Json>, others: Fields) {
    forall k :: Get(o, k) == if k in known then Some(known[k]) else Get(others, k)
  }

  lemma {:induction false} IsOne(f: Field)
    ensures Is([f], map[f.key := f.value])
  {
    forall k ensures Get([f], k) == if k == f.key then Some(f.value) else None {
      IndexOfIs([f], k, if k == f.key then 0 else 1);
    }
  }

  lemma {:induction false} GetConcat(a: Fields, b: Fields, k: string)
    ensures Get(a + b, k) == if Has(a, k) then Get(a, k) else Get(b, k)
  {
    var i, j := IndexOf(a, k), IndexOf(b, k);
    IndexOfIs(a + b, k, if i < |a| then i else |a| + j);
  }

  lemma {:induction false} IsConcat(a: Fields, one: map<string, Json>, b: Fields, two: map<string, Json>)
    requires Is(a, one) && Is(b, two) && one.Keys !! two.Keys
    ensures Is(a + b, one + two)
  {
    forall k ensures Get(a + b, k) == if k in one + two then Some((one + two)[k]) else None {
      GetConcat(a, b, k);
      assert k in one ==> k in one.Keys;
      assert k in two ==> k in two.Keys;
    }
  }

  lemma {:induction false} IsTwo(f: Field, g: Field)
    requires f.key != g.key
    ensures Is([f, g], map[f.key := f.value, g.key := g.value])
  {
    IsOne(f);
    IsOne(g);
    IsConcat([f], map[f.key := f.value], [g], map[g.key := g.value]);
    assert [f] + [g] == [f, g];
    assert map[f.key := f.value] + map[g.key := g.value] == map[f.key := f.value, g.key := g.value];
  }

  lemma {:induction false} IsMore(o: Fields, known: map<string, Json>, f: Field)
    requires Is(o, known) && f.key !in known
    ensures Is(o + [f], known[f.key := f.value])
  {
    IsOne(f);
    IsConcat(o, known, [f], map[f.key := f.value]);
    assert known + map[f.key := f.value] == known[f.key := f.value];
  }

  lemma {:induction false} IsThree(f: Field, g: Field, h: Field)
    requires f.key != g.key && f.key != h.key && g.key != h.key
    ensures Is([f, g, h], map[f.key := f.value, g.key := g.value] + map[h.key := h.value])
  {
    IsTwo(f, g);
    IsOne(h);
    IsConcat([f, g], map[f.key := f.value, g.key := g.value], [h], map[h.key := h.value]);
    assert [f, g] + [h] == [f, g, h];
  }

  lemma {:induction false} FilledReads(base: Fields, known: map<string, Json>, extra: Fields, passthrough: bool)
    requires Is(base, known)
    ensures Reads(WithExtra(base, extra, passthrough), known, if passthrough then extra else [])
  {
    forall k
      ensures Get(WithExtra(base, extra, passthrough), k) ==
              if k in known then Some(known[k]) else Get(if passthrough then extra else [], k)
    {
      GetInsertAbsent(base, extra, k);
    }
  }

  lemma {:induction false} PutReads(o: Fields, known: map<string, Json>, others: Fields, key: string, value: Json)
    requires Reads(o, known, others)
    ensures Reads(Put(o, key, value), known[key := value], others)
  {
    forall k ensures Get(Put(o, key, value), k) == if k == key then Some(value) else Get(o, k) {
      GetPut(o, key, value, k);
    }
  }

  // ----- What a completion holds, by the deltas it was folded from -----

  function TextOf(text: Option<string>, other: string): Json { Str(if text.Some? then text.value else other) }

  function Extras(extra: Fields, passthrough: bool): Fields { if passthrough then extra else [] }

  /** The text of a member of the object under `custom`, or nothing. */
  function CustomMember(extra: Fields, member: string): string {
    match Get(extra, "custom")
    case Some(Obj(fields)) => (match Get(fields, member) case Some(Str(text)) => text case _ => "")
    case _ => ""
  }

  /** The values of a tool call: its first kind and id; for a function its first name and all its
      arguments; for a custom call its name and input. */
  ghost function KnownCall(own: seq<ToolDelta>): map<string, Json> {
    var kind := if First(own, ToolKind).Some? then First(own, ToolKind).value else "function";
    var extra := MergeRun([], Joined(own, ToolExtra));
    map["type" := Str(kind), "id" := TextOf(First(own, ToolId), "")] +
    if kind == "function" then
      map["function" := Obj([Field("name", TextOf(First(own, ToolName), "")),
                         Field("arguments", Str(Joined(own, ToolArguments)))])]
    else if kind == "custom" then
      map["custom" := Obj([Field("name", Str(CustomMember(extra, "name"))), Field("input", Str(CustomMember(extra, "input")))])]
    else map[]
  }

  ghost predicate CallMeans(call: Json, own: seq<ToolDelta>, passthrough: bool) {
    call.Obj? && Reads(call.fields, KnownCall(own), Extras(MergeRun([], Joined(own, ToolExtra)), passthrough))
  }

  /** The fragments of a tool call announced a kind or a function. */
  ghost predicate Announced(fragments: seq<ToolDelta>, j: int) {
    First(With(fragments, ToolIndex, j), ToolKind).Some? || Any(With(fragments, ToolIndex, j), HasFunction)
  }

  /** The announced tool calls, by ascending index. */
  ghost predicate CallsMean(calls: seq<Json>, order: seq<int>, fragments: seq<ToolDelta>, passthrough: bool) {
    && Sorted(order, IntLess) && |calls| == |order|
    && (forall j :: j in order <==> Announced(fragments, j))
    && forall n :: 0 <= n < |order| ==> CallMeans(calls[n], With(fragments, ToolIndex, order[n]), passthrough)
  }

  /** The values of a message: the last role, all the content and refusal text, the tool calls and
      the legacy call, each only if some delta brought it. */
  ghost function KnownMessage(deltas: seq<ChoiceDelta>, calls: seq<Json>): map<string, Json> {
    KnownStart(deltas) + KnownRefusal(deltas) + KnownTools(deltas, calls) + KnownLegacy(deltas)
  }

  ghost function KnownStart(deltas: seq<ChoiceDelta>): map<string, Json> {
    map["role" := TextOf(Last(deltas, Role), "assistant"),
        "content" := if Any(deltas, HasText) then Str(Joined(deltas, Text)) else Null]
  }

  ghost function KnownTools(deltas: seq<ChoiceDelta>, calls: seq<Json>): map<string, Json> {
    if Any(deltas, HasTools) then map["tool_calls" := Arr(calls)] else map[]
  }

  ghost function KnownLegacy(deltas: seq<ChoiceDelta>): map<string, Json> {
    if Any(deltas, HasLegacy) then
      map["function_call" := Obj([Field("name", TextOf(First(deltas, LegacyName), "")),
                                  Field("arguments", Str(Joined(deltas, LegacyArguments)))])]
    else map[]
  }

  ghost function KnownRefusal(deltas: seq<ChoiceDelta>): map<string, Json> {
    if Any(deltas, HasRefusal) then map["refusal" := Str(Joined(deltas, Refusal))]
    else if Any(deltas, MentionsRefusal) then map["refusal" := Null]
    else map[]
  }

  ghost function KnownLogprobs(deltas: seq<ChoiceDelta>): Json {
    if Any(deltas, HasLogprobs) then
      Obj([Field("content", if Any(deltas, HasContentProbs) then Arr(Joined(deltas, ContentProbItems)) else Null),
           Field("refusal", if Any(deltas, HasRefusalProbs) then Arr(Joined(deltas, RefusalProbItems)) else Null)])
    else Null
  }

  ghost function KnownChoice(index: WireInt, deltas: seq<ChoiceDelta>, message: Fields): map<string, Json> {
    map["finish_reason" := TextOf(Last(deltas, ChatFold.Finish), "stop"), "index" := Num(Integer(index)),
        "message" := Obj(message), "logprobs" := KnownLogprobs(deltas)]
  }

  ghost predicate MessageMeans(message: Fields, deltas: seq<ChoiceDelta>, passthrough: bool) {
    exists calls: seq<Json>, order: seq<int> ::
      && CallsMean(calls, order, Joined(deltas, Fragments), passthrough)
      && Reads(message, KnownMessage(deltas, calls), Extras(MergeRun([], Joined(deltas, MessageExtra)), passthrough))
  }

  ghost predicate ChoiceMeans(choice: Json, index: WireInt, deltas: seq<ChoiceDelta>, passthrough: bool) {
    && choice.Obj?
    && exists message ::
         && MessageMeans(message, deltas, passthrough)
         && Reads(choice.fields, KnownChoice(index, deltas, message), Extras(FirstSeen(Joined(deltas, ChoiceExtra)), passthrough))
  }

  // ----- Tool calls -----

  lemma {:induction false} FunctionCall(own: seq<ToolDelta>)
    requires First(own, ToolKind) == Some("function") || (First(own, ToolKind).None? && Any(own, HasFunction))
    ensures ToolBase(ToolOf(own)).Some? && Is(ToolBase(ToolOf(own)).value, KnownCall(own))
  {
    FunctionBase(ToolOf(own));
    IsThree(Field("type", Str("function")), Field("id", TextOf(First(own, ToolId), "")),
            Field("function", Obj([Field("name", TextOf(First(own, ToolName), "")),
                                   Field("arguments", Str(Joined(own, ToolArguments)))])));
  }

  lemma {:induction false} FunctionBase(t: ToolState)
    requires t.kind == Some("function") || (t.kind.None? && t.functionSeen)
    ensures ToolBase(t) ==
            Some([Field("type", Str("function")), Field("id", TextOf(t.id, "")),
                  Field("function", Obj([Field("name", TextOf(t.name, "")), Field("arguments", Str(t.arguments))]))])
  {
  }

  lemma {:induction false} CustomCall(own: seq<ToolDelta>)
    requires First(own, ToolKind) == Some("custom")
    ensures ToolBase(ToolOf(own)).Some? && Is(ToolBase(ToolOf(own)).value, KnownCall(own))
  {
    var extra := ToolOf(own).extra;
    CustomReads(extra, "name");
    CustomReads(extra, "input");
    IsThree(Field("type", Str("custom")), Field("id", TextOf(First(own, ToolId), "")),
            Field("custom", Obj([Field("name", Str(CustomMember(extra, "name"))),
                                 Field("input", Str(CustomMember(extra, "input")))])));
  }

  lemma {:induction false} OtherCall(own: seq<ToolDelta>)
    requires First(own, ToolKind).Some? && First(own, ToolKind).value != "function" && First(own, ToolKind).value != "custom"
    ensures ToolBase(ToolOf(own)).Some? && Is(ToolBase(ToolOf(own)).value, KnownCall(own))
  {
    var type_, id := Field("type", Str(First(own, ToolKind).value)), Field("id", TextOf(First(own, ToolId), ""));
    IsTwo(type_, id);
    assert KnownCall(own) == map[type_.key := type_.value, id.key := id.value];
  }

  lemma {:induction false} CustomReads(extra: Fields, member: string)
    ensures CustomText(extra, member) == CustomMember(extra, member)
  {
  }

  lemma {:induction false} CallReads(own: seq<ToolDelta>, passthrough: bool)
    requires First(own, ToolKind).Some? || Any(own, HasFunction)
    ensures ToolSnapshot(ToolOf(own), passthrough).Some?
    ensures CallMeans(Obj(ToolSnapshot(ToolOf(own), passthrough).value), own, passthrough)
  {
    if First(own, ToolKind) == Some("custom") {
      CustomCall(own);
    } else if First(own, ToolKind).Some? && First(own, ToolKind).value != "function" {
      OtherCall(own);
    } else {
      FunctionCall(own);
    }
    FilledReads(ToolBase(ToolOf(own)).value, KnownCall(own), ToolOf(own).extra, passthrough);
  }

  lemma {:induction false} AnnouncedMeans(fragments: seq<ToolDelta>, j: int)
    ensures Representable(ToolsOf(fragments), j) <==> Announced(fragments, j)
  {
    WithNone(fragments, ToolIndex, j);
  }

  lemma {:induction false} CallsRead(fragments: seq<ToolDelta>, passthrough: bool) returns (order: seq<int>)
    ensures var tools := ToolsOf(fragments);
            CallsMean(ToolSnapshots(tools, Ascending(tools.Keys, IntLess), passthrough), order, fragments, passthrough)
  {
    var tools := ToolsOf(fragments);
    order := ToolCallsAscend(tools, passthrough);
    ListedCallsRead(fragments, tools, order, ToolSnapshots(tools, Ascending(tools.Keys, IntLess), passthrough), passthrough);
  }

  lemma {:induction false} ListedCallsRead(fragments: seq<ToolDelta>, tools: map<int, ToolState>, order: seq<int>,
                                           calls: seq<Json>, passthrough: bool)
    requires tools == ToolsOf(fragments) && RepresentableInOrder(tools, order) && ListsCalls(tools, order, calls, passthrough)
    ensures CallsMean(calls, order, fragments, passthrough)
  {
    forall j ensures Representable(tools, j) <==> Announced(fragments, j) {
      AnnouncedMeans(fragments, j);
    }
    forall n | 0 <= n < |order| ensures CallMeans(calls[n], With(fragments, ToolIndex, order[n]), passthrough) {
      assert order[n] in order;
      CallAtReads(fragments, order[n], calls[n], passthrough);
    }
  }

  lemma {:induction false} CallAtReads(fragments: seq<ToolDelta>, j: int, call: Json, passthrough: bool)
    requires Representable(ToolsOf(fragments), j) && [call] == CallAt(ToolsOf(fragments), j, passthrough)
    ensures CallMeans(call, With(fragments, ToolIndex, j), passthrough)
  {
    AnnouncedMeans(fragments, j);
    CallReads(With(fragments, ToolIndex, j), passthrough);
    assert call == CallAt(ToolsOf(fragments), j, passthrough)[0];
  }

  // ----- Messages and choices -----

  lemma {:induction false} RefusalReads(deltas: seq<ChoiceDelta>)
    ensures Is(RefusalField(ChoiceOf(deltas)), KnownRefusal(deltas))
  {
    if Any(deltas, HasRefusal) {
      IsOne(Field("refusal", Str(Joined(deltas, Refusal))));
    } else if Any(deltas, MentionsRefusal) {
      IsOne(Field("refusal", Null));
    }
  }

  lemma {:induction false} StartReads(deltas: seq<ChoiceDelta>) returns (start: Fields)
    ensures MessageStart(ChoiceOf(deltas)) == start + RefusalField(ChoiceOf(deltas)) && Is(start, KnownStart(deltas))
  {
    var role := Field("role", TextOf(Last(deltas, Role), "assistant"));
    var content := Field("content", if Any(deltas, HasText) then Str(Joined(deltas, Text)) else Null);
    start := [role, content];
    IsTwo(role, content);
  }

  lemma {:induction false} ToolsRead(deltas: seq<ChoiceDelta>, calls: seq<Json>, passthrough: bool)
    requires var tools := ToolsOf(Joined(deltas, Fragments));
             calls == ToolSnapshots(tools, Ascending(tools.Keys, IntLess), passthrough)
    ensures Is(ToolCallsField(ChoiceOf(deltas), passthrough), KnownTools(deltas, calls))
  {
    if Any(deltas, HasTools) { IsOne(Field("tool_calls", Arr(calls))); }
  }

  lemma {:induction false} LegacyReads(deltas: seq<ChoiceDelta>)
    ensures Is(LegacyField(ChoiceOf(deltas)), KnownLegacy(deltas))
  {
    if Any(deltas, HasLegacy) {
      IsOne(Field("function_call", Obj([Field("name", TextOf(First(deltas, LegacyName), "")),
                                        Field("arguments", Str(Joined(deltas, LegacyArguments)))])));
    }
  }

  ghost predicate OnlyKey(known: map<string, Json>, key: string) { forall k :: k in known ==> k == key }

  lemma {:induction false} KeysApart(deltas: seq<ChoiceDelta>, calls: seq<Json>)
    ensures OnlyKey(KnownRefusal(deltas), "refusal") && OnlyKey(KnownTools(deltas, calls), "tool_calls")
    ensures OnlyKey(KnownLegacy(deltas), "function_call")
    ensures "refusal" !in KnownStart(deltas) && "tool_calls" !in KnownStart(deltas) && "function_call" !in KnownStart(deltas)
  {
  }

  lemma {:induction false} MessageBaseReads(deltas: seq<ChoiceDelta>, calls: seq<Json>, passthrough: bool)
    requires var tools := ToolsOf(Joined(deltas, Fragments));
             calls == ToolSnapshots(tools, Ascending(tools.Keys, IntLess), passthrough)
    ensures Is(MessageBase(ChoiceOf(deltas), passthrough), KnownMessage(deltas, calls))
  {
    var start := StartReads(deltas);
    RefusalReads(deltas);
    ToolsRead(deltas, calls, passthrough);
    LegacyReads(deltas);
    KeysApart(deltas, calls);
    PartsRead(ChoiceOf(deltas), start, KnownStart(deltas), KnownRefusal(deltas), KnownTools(deltas, calls), KnownLegacy(deltas),
              passthrough, "refusal", "tool_calls", "function_call");
  }

  lemma {:induction false} PartsRead(s: ChoiceState, start: Fields, one: map<string, Json>, two: map<string, Json>,
                                     three: map<string, Json>, four: map<string, Json>, passthrough: bool,
                                     x: string, y: string, z: string)
    requires MessageStart(s) == start + RefusalField(s) && Is(start, one) && Is(RefusalField(s), two)
    requires Is(ToolCallsField(s, passthrough), three) && Is(LegacyField(s), four)
    requires x != y && x != z && y != z && x !in one && y !in one && z !in one
    requires OnlyKey(two, x) && OnlyKey(three, y) && OnlyKey(four, z)
    ensures Is(MessageBase(s, passthrough), one + two + three + four)
  {
    IsConcat(start, one, RefusalField(s), two);
    IsConcat(MessageStart(s), one + two, ToolCallsField(s, passthrough), three);
    IsConcat(MessageStart(s) + ToolCallsField(s, passthrough), one + two + three, LegacyField(s), four);
  }

  lemma {:induction false} MessageReads(deltas: seq<ChoiceDelta>, passthrough: bool)
    ensures MessageMeans(MessageFields(ChoiceOf(deltas), passthrough), deltas, passthrough)
  {
    var tools := ToolsOf(Joined(deltas, Fragments));
    var calls := ToolSnapshots(tools, Ascending(tools.Keys, IntLess), passthrough);
    var order := CallsRead(Joined(deltas, Fragments), passthrough);
    MessageBaseReads(deltas, calls, passthrough);
    FilledReads(MessageBase(ChoiceOf(deltas), passthrough), KnownMessage(deltas, calls),
                    ChoiceOf(deltas).messageExtra, passthrough);
  }

  lemma {:induction false} ChoiceReads(index: WireInt, deltas: seq<ChoiceDelta>, passthrough: bool)
    ensures ChoiceMeans(Obj(ChoiceFields(ChoiceOf(deltas), index, passthrough)), index, deltas, passthrough)
  {
    var s := ChoiceOf(deltas);
    var message := MessageFields(s, passthrough);
    MessageReads(deltas, passthrough);
    ChoiceBaseReads(index, deltas, message, passthrough);
    FilledReads(ChoiceBase(s, index, passthrough), KnownChoice(index, deltas, message), s.extra, passthrough);
  }

  lemma {:induction false} ChoiceBaseReads(index: WireInt, deltas: seq<ChoiceDelta>, message: Fields, passthrough: bool)
    requires message == MessageFields(ChoiceOf(deltas), passthrough)
    ensures Is(ChoiceBase(ChoiceOf(deltas), index, passthrough), KnownChoice(index, deltas, message))
  {
    IsFour(Field("finish_reason", TextOf(Last(deltas, ChatFold.Finish), "stop")), Field("index", Num(Integer(index))),
           Field("message", Obj(message)), Field("logprobs", KnownLogprobs(deltas)));
  }

  lemma {:induction false} IsFour(a: Field, b: Field, c: Field, d: Field)
    requires a.key != b.key && a.key != c.key && a.key != d.key && b.key != c.key && b.key != d.key && c.key != d.key
    ensures Is([a, b, c, d], map[a.key := a.value, b.key := b.value, c.key := c.value, d.key := d.value])
  {
    IsTwo(a, b);
    IsMore([a, b], map[a.key := a.value, b.key := b.value], c);
    IsMore([a, b] + [c], map[a.key := a.value, b.key := b.value][c.key := c.value], d);
    assert [a, b] + [c] + [d] == [a, b, c, d];
  }

  // ----- The whole completion -----

  /** The chunks that count: those of the chat completion chunk kind. */
  predicate Accepted(c: Chunk) { c.objectKind == "chat.completion.chunk" }

  ghost function AcceptedOf(history: seq<Chunk>): seq<Chunk> { Where(history, Accepted) }

  ghost function DeltasOf(history: seq<Chunk>): seq<ChoiceDelta> { Joined(AcceptedOf(history), Choices) }

  ghost predicate Increasing(order: seq<WireInt>) { forall m, n :: 0 <= m < n < |order| ==> order[m] < order[n] }

  ghost predicate IndicesOf(order: seq<WireInt>, deltas: seq<ChoiceDelta>) {
    forall i :: i in order <==> With(deltas, ChoiceIndex, i) != []
  }

  ghost predicate EachMeans(list: seq<Json>, order: seq<WireInt>, deltas: seq<ChoiceDelta>, passthrough: bool) {
    && |list| == |order|
    && forall n :: 0 <= n < |order| ==> ChoiceMeans(list[n], order[n], With(deltas, ChoiceIndex, order[n]), passthrough)
  }

  /** One choice for every index that some delta has, by ascending index, with what its deltas said. */
  ghost predicate ChoicesMean(list: seq<Json>, order: seq<WireInt>, deltas: seq<ChoiceDelta>, passthrough: bool) {
    Increasing(order) && IndicesOf(order, deltas) && EachMeans(list, order, deltas, passthrough)
  }

  function KnownIf(key: string, value: Option<Json>): map<string, Json> {
    if value.Some? then map[key := value.value] else map[]
  }

  ghost function LastText(text: Option<string>): Option<Json> { if text.Some? then Some(Str(text.value)) else None }

  /** The values of a completion: the first id, creation time and model, and what the accepted
      chunks first or last said about the service. */
  ghost function KnownTop(chunks: seq<Chunk>, list: seq<Json>): map<string, Json> {
    map["id" := TextOf(First(chunks, ChunkId), ""),
        "created" := Num(Integer(if First(chunks, Created).Some? then First(chunks, Created).value else 0)),
        "model" := TextOf(First(chunks, Model), ""), "object" := Str("chat.completion"), "choices" := Arr(list)]
    + KnownIf("service_tier", First(chunks, ServiceTier)) + KnownIf("system_fingerprint", LastText(Last(chunks, Fingerprint)))
    + KnownIf("usage", Last(chunks, Usage)) + KnownIf("moderation", First(chunks, Moderation))
  }

  ghost predicate CompletionMeans(o: Fields, history: seq<Chunk>, passthrough: bool) {
    exists list: seq<Json>, order: seq<WireInt> ::
      && ChoicesMean(list, order, DeltasOf(history), passthrough)
      && Reads(o, KnownTop(AcceptedOf(history), list), Extras(FirstSeen(Joined(AcceptedOf(history), ChunkExtra)), passthrough))
  }

  lemma {:induction false} WhereAgrees<E>(events: seq<E>, p: E -> bool, q: E -> bool)
    requires forall e :: p(e) <==> q(e)
    ensures Where(events, p) == Where(events, q)
  {
    if events != [] { WhereAgrees(events[..|events| - 1], p, q); }
  }

  lemma {:induction false} AcceptedAreChunks(history: seq<Chunk>)
    ensures AcceptedOf(history) == Where(history, IsChunk)
    ensures DeltasOf(history) == EventsOf(history)
  {
    WhereAgrees(history, Accepted, IsChunk);
  }

  lemma {:induction false} ChoicesRead(events: seq<ChoiceDelta>, passthrough: bool) returns (order: seq<WireInt>)
    requires WordKeys(ChoicesOf(events))
    ensures ChoicesMean(ChoiceSnapshots(ChoicesOf(events), passthrough), order, events, passthrough)
  {
    order := AsWords(ChoicesOf(events));
    IndexHasDeltas(events, order);
    EachChoiceReads(events, order, passthrough);
  }

  ghost predicate SameNumbers(order: seq<WireInt>, indices: seq<int>) {
    |order| == |indices| && forall n :: 0 <= n < |order| ==> order[n] == indices[n]
  }

  ghost predicate ListsKeys(order: seq<WireInt>, choices: map<int, ChoiceState>) { forall i :: i in order <==> i in choices }

  lemma {:induction false} IndexHasDeltas(events: seq<ChoiceDelta>, order: seq<WireInt>)
    requires ListsKeys(order, ChoicesOf(events))
    ensures IndicesOf(order, events)
  {
    forall i ensures i in order <==> With(events, ChoiceIndex, i) != [] { WithNone(events, ChoiceIndex, i); }
  }

  lemma {:induction false} EachChoiceReads(events: seq<ChoiceDelta>, order: seq<WireInt>, passthrough: bool)
    requires WordKeys(ChoicesOf(events)) && SameNumbers(order, Ascending(ChoicesOf(events).Keys, IntLess))
    ensures EachMeans(ChoiceSnapshots(ChoicesOf(events), passthrough), order, events, passthrough)
  {
    var indices := Ascending(ChoicesOf(events).Keys, IntLess);
    forall n | 0 <= n < |order|
      ensures ChoiceMeans(ChoiceSnapshots(ChoicesOf(events), passthrough)[n], order[n],
                          With(events, ChoiceIndex, order[n]), passthrough)
    {
      ChoiceAtReads(events, indices, n, order[n], passthrough);
    }
  }

  lemma {:induction false} AsWords(choices: map<int, ChoiceState>) returns (order: seq<WireInt>)
    requires WordKeys(choices)
    ensures SameNumbers(order, Ascending(choices.Keys, IntLess)) && Increasing(order) && ListsKeys(order, choices)
  {
    var indices := Ascending(choices.Keys, IntLess);
    assert forall n :: 0 <= n < |indices| ==> indices[n] in indices;
    order := WordsOf(indices);
    SameOrder(order, indices);
    SameMembers(order, indices);
  }

  lemma {:induction false} WordsOf(indices: seq<int>) returns (order: seq<WireInt>)
    requires forall n :: 0 <= n < |indices| ==> -0x8000_0000_0000_0000 <= indices[n] < 0x1_0000_0000_0000_0000
    ensures SameNumbers(order, indices)
  {
    order := seq(|indices|, n requires 0 <= n < |indices| => indices[n] as WireInt);
  }

  lemma {:induction false} SameOrder(order: seq<WireInt>, indices: seq<int>)
    requires SameNumbers(order, indices) && Sorted(indices, IntLess)
    ensures Increasing(order)
  {
  }

  lemma {:induction false} SameMembers(order: seq<WireInt>, indices: seq<int>)
    requires SameNumbers(order, indices)
    ensures forall i :: i in order <==> i in indices
  {
    forall i ensures i in order <==> i in indices {
      if i in indices { var n :| 0 <= n < |indices| && indices[n] == i; assert order[n] == i; }
    }
  }

  lemma {:induction false} ChoiceAtReads(events: seq<ChoiceDelta>, indices: seq<int>, n: nat, index: WireInt, passthrough: bool)
    requires WordKeys(ChoicesOf(events)) && indices == Ascending(ChoicesOf(events).Keys, IntLess)
             && n < |indices| && index == indices[n]
    ensures ChoiceMeans(ChoiceSnapshots(ChoicesOf(events), passthrough)[n], index, With(events, ChoiceIndex, index), passthrough)
  {
    assert indices[n] in indices;
    ChoiceReads(index, With(events, ChoiceIndex, index), passthrough);
  }

  lemma {:induction false} TopBaseReads(top: TopState, choices: map<int, ChoiceState>, passthrough: bool)
    requires WordKeys(choices)
    ensures Is(TopBase(top, choices, passthrough),
               map["id" := TextOf(top.id, ""), "created" := Num(Integer(Or(top.created, 0))), "model" := TextOf(top.model, ""),
                   "object" := Str("chat.completion"), "choices" := Arr(ChoiceSnapshots(choices, passthrough))])
  {
    var a, b := Field("id", TextOf(top.id, "")), Field("created", Num(Integer(Or(top.created, 0))));
    var c, d := Field("model", TextOf(top.model, "")), Field("object", Str("chat.completion"));
    var e := Field("choices", Arr(ChoiceSnapshots(choices, passthrough)));
    IsFour(a, b, c, d);
    IsMore([a, b, c, d], map[a.key := a.value, b.key := b.value, c.key := c.value, d.key := d.value], e);
    assert [a, b, c, d] + [e] == TopBase(top, choices, passthrough);
  }

  lemma {:induction false} PutOptionalReads(o: Fields, known: map<string, Json>, others: Fields, key: string, value: Option<Json>)
    requires Reads(o, known, others)
    ensures Reads(PutOptional(o, key, value), known + KnownIf(key, value), others)
  {
    if value.Some? {
      PutReads(o, known, others, key, value.value);
      assert known + KnownIf(key, value) == known[key := value.value];
    } else {
      assert known + KnownIf(key, value) == known;
    }
  }

  lemma {:induction false} OptionalsRead(o: Fields, known: map<string, Json>, others: Fields, tier: Option<Json>,
                                         fingerprint: Option<Json>, usage: Option<Json>, moderation: Option<Json>)
    requires Reads(o, known, others)
    ensures var tiered := PutOptional(o, "service_tier", tier);
            var printed := PutOptional(tiered, "system_fingerprint", fingerprint);
            Reads(PutOptional(PutOptional(printed, "usage", usage), "moderation", moderation),
                  known + KnownIf("service_tier", tier) + KnownIf("system_fingerprint", fingerprint) + KnownIf("usage", usage)
                  + KnownIf("moderation", moderation), others)
  {
    var tiered := PutOptional(o, "service_tier", tier);
    var printed := PutOptional(tiered, "system_fingerprint", fingerprint);
    var known1 := known + KnownIf("service_tier", tier);
    var known2 := known1 + KnownIf("system_fingerprint", fingerprint);
    PutOptionalReads(o, known, others, "service_tier", tier);
    PutOptionalReads(tiered, known1, others, "system_fingerprint", fingerprint);
    PutOptionalReads(printed, known2, others, "usage", usage);
    PutOptionalReads(PutOptional(printed, "usage", usage), known2 + KnownIf("usage", usage), others, "moderation", moderation);
  }

  /** The snapshot of any history, with or without passthrough, holds exactly what the accepted
      chunks said. */
  lemma {:induction false} SnapshotMeans(history: seq<Chunk>, passthrough: bool)
    ensures WordKeys(ChoicesOf(EventsOf(history)))
    ensures CompletionMeans(SnapshotObject(TopOf(Where(history, IsChunk)), ChoicesOf(EventsOf(history)), passthrough),
                            history, passthrough)
  {
    FoldedKeysAreWords(EventsOf(history));
    var order := ChoicesRead(EventsOf(history), passthrough);
    AcceptedAreChunks(history);
    TopReads(AcceptedOf(history), ChoicesOf(EventsOf(history)), passthrough);
  }

  lemma {:induction false} TopReads(chunks: seq<Chunk>, choices: map<int, ChoiceState>, passthrough: bool)
    requires WordKeys(choices)
    ensures Reads(SnapshotObject(TopOf(chunks), choices, passthrough), KnownTop(chunks, ChoiceSnapshots(choices, passthrough)),
                  Extras(FirstSeen(Joined(chunks, ChunkExtra)), passthrough))
  {
    var top := TopOf(chunks);
    var base, known := TopBase(top, choices, passthrough),
        map["id" := TextOf(top.id, ""), "created" := Num(Integer(Or(top.created, 0))), "model" := TextOf(top.model, ""),
            "object" := Str("chat.completion"), "choices" := Arr(ChoiceSnapshots(choices, passthrough))];
    TopBaseReads(top, choices, passthrough);
    FilledReads(base, known, top.extra, passthrough);
    OptionalsRead(WithExtra(base, top.extra, passthrough), known, Extras(top.extra, passthrough), top.serviceTier,
                  TextValue(top.systemFingerprint), top.usage, top.moderation);
  }

  /** A collected stream: the completion holds exactly what all delivered chunks said. */
  lemma {:induction false} CollectedMeans(past: seq<Chunk>, items: seq<Item>)
    ensures var collected := CollectedFrom(past, items);
            collected.Completion? ==> CompletionMeans(collected.snapshot, past + Joined(items, ChunkIn), true)
    ensures CollectedFrom(past, items).Completion? <==>
            (forall i :: 0 <= i < |items| ==> items[i].Yield?) && AcceptedOf(past + Joined(items, ChunkIn)) != []
  {
    var history := past + Joined(items, ChunkIn);
    SnapshotMeans(history, true);
    CollectSucceeds(past, items);
    AcceptedAreChunks(history);
    SomeAccepted(history);
  }

  lemma {:induction false} SomeAccepted(history: seq<Chunk>)
    ensures Where(history, IsChunk) != [] <==> Any(history, IsChunk)
  {
    if history != [] {
      var n := |history| - 1;
      SomeAccepted(history[..n]);
      AnySnoc(history[..n], history[n], IsChunk);
      assert history == history[..n] + [history[n]];
    }
  }
}
