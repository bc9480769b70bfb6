/** The completion object built from the accumulated state, with or without the unknown
    fields the run carried. */
module ChatSnapshot {
  import opened JsonValue
  import opened Lanes
  import opened Ordering
  import opened ChatFold
  import opened ChatFoldLaws

  function Or<T>(o: Option<T>, other: T): T {
    if o.Some? then o.value else other
  }

  function PutOptional(o: Fields, key: string, value: Option<Json>): Fields {
    if value.Some? then Put(o, key, value.value) else o
  }

  function WithExtra(o: Fields, extra: Fields, passthrough: bool): Fields {
    if passthrough then InsertAbsent(o, extra) else o
  }

  // ----- Tool calls -----

  function FunctionFields(t: ToolState): Fields {
    [Field("type", Str("function")), Field("id", Str(Or(t.id, ""))),
     Field("function", Obj([Field("name", Str(Or(t.name, ""))), Field("arguments", Str(t.arguments))]))]
  }

  /** An announced kind decides the shape; a function payload alone counts as a function
      call; a bare index is not represented. */
  function ToolBase(t: ToolState): Option<Fields> {
    match t.kind
    case Some(kind) =>
      if kind == "custom" then
        Some([Field("type", Str("custom")), Field("id", Str(Or(t.id, ""))),
              Field("custom", Obj([Field("name", Str(CustomText(t.extra, "name"))),
                                   Field("input", Str(CustomText(t.extra, "input")))]))])
      else if kind == "function" then Some(FunctionFields(t))
      else Some([Field("type", Str(kind)), Field("id", Str(Or(t.id, "")))])
    case None => if t.functionSeen then Some(FunctionFields(t)) else None
  }

  function ToolSnapshot(t: ToolState, passthrough: bool): Option<Fields> {
    var base := ToolBase(t);
    if base.Some? then Some(WithExtra(base.value, t.extra, passthrough)) else None
  }

  function CallAt(tools: map<int, ToolState>, j: int, passthrough: bool): seq<Json> {
    if j in tools && ToolSnapshot(tools[j], passthrough).Some? then [Obj(ToolSnapshot(tools[j], passthrough).value)] else []
  }

  /** The representable tool calls, in the order of the given indices. */
  function ToolSnapshots(tools: map<int, ToolState>, indices: seq<int>, passthrough: bool): seq<Json> {
    Joined(indices, (j: int) => CallAt(tools, j, passthrough))
  }

  // ----- Messages and choices -----

  function RefusalField(s: ChoiceState): Fields {
    match s.refusal
    case None => []
    case Some(JsonNull) => [Field("refusal", Null)]
    case Some(NonNull(text)) => [Field("refusal", Str(text))]
  }

  function ToolCallsField(s: ChoiceState, passthrough: bool): Fields {
    if s.toolCallsSeen then
      [Field("tool_calls", Arr(ToolSnapshots(s.toolCalls, Ascending(s.toolCalls.Keys, IntLess), passthrough)))]
    else []
  }

  function LegacyField(s: ChoiceState): Fields {
    if s.legacy.Some? then
      [Field("function_call", Obj([Field("name", Str(Or(s.legacy.value.name, ""))),
                                   Field("arguments", Str(s.legacy.value.arguments))]))]
    else []
  }

  function MessageStart(s: ChoiceState): Fields {
    [Field("role", Str(Or(s.role, "assistant"))),
     Field("content", if s.content.Some? then Str(s.content.value) else Null)]
    + RefusalField(s)
  }

  function MessageBase(s: ChoiceState, passthrough: bool): Fields {
    MessageStart(s) + ToolCallsField(s, passthrough) + LegacyField(s)
  }

  function MessageFields(s: ChoiceState, passthrough: bool): Fields {
    WithExtra(MessageBase(s, passthrough), s.messageExtra, passthrough)
  }

  function LogprobsList(list: Option<seq<Json>>): Json {
    if list.Some? then Arr(list.value) else Null
  }

  function LogprobsValue(s: ChoiceState): Json {
    if s.logprobs.None? then Null
    else Obj([Field("content", LogprobsList(s.logprobs.value.content)),
              Field("refusal", LogprobsList(s.logprobs.value.refusal))])
  }

  function ChoiceBase(s: ChoiceState, index: WireInt, passthrough: bool): Fields {
    [Field("finish_reason", Str(Or(s.finishReason, "stop"))), Field("index", Num(Integer(index))),
     Field("message", Obj(MessageFields(s, passthrough))), Field("logprobs", LogprobsValue(s))]
  }

  function ChoiceFields(s: ChoiceState, index: WireInt, passthrough: bool): Fields {
    WithExtra(ChoiceBase(s, index, passthrough), s.extra, passthrough)
  }

  /** Every choice index is a 32-bit word, so it is a JSON integer. */
  ghost predicate WordKeys(choices: map<int, ChoiceState>) {
    forall i :: i in choices ==> 0 <= i < 0x1_0000_0000
  }

  function ChoiceSnapshots(choices: map<int, ChoiceState>, passthrough: bool): (list: seq<Json>)
    requires WordKeys(choices)
    ensures |list| == |choices|
  {
    var order := Ascending(choices.Keys, IntLess);
    seq(|order|, n requires 0 <= n < |order| =>
      assert order[n] in order; Obj(ChoiceFields(choices[order[n]], order[n], passthrough)))
  }

  function TopBase(top: TopState, choices: map<int, ChoiceState>, passthrough: bool): Fields
    requires WordKeys(choices)
  {
    [Field("id", Str(Or(top.id, ""))), Field("created", Num(Integer(Or(top.created, 0)))),
     Field("model", Str(Or(top.model, ""))), Field("object", Str("chat.completion")),
     Field("choices", Arr(ChoiceSnapshots(choices, passthrough)))]
  }

  function TextValue(text: Option<string>): Option<Json> {
    if text.Some? then Some(Str(text.value)) else None
  }

  /** The completion object. Unknown fields come before the optional known ones, so those
      replace an unknown field of the same name. */
  function SnapshotObject(top: TopState, choices: map<int, ChoiceState>, passthrough: bool): Fields
    requires WordKeys(choices)
  {
    var extended := WithExtra(TopBase(top, choices, passthrough), top.extra, passthrough);
    var tiered := PutOptional(extended, "service_tier", top.serviceTier);
    var printed := PutOptional(tiered, "system_fingerprint", TextValue(top.systemFingerprint));
    PutOptional(PutOptional(printed, "usage", top.usage), "moderation", top.moderation)
  }

  /** Folded choices only ever have 32-bit indices. */
  lemma {:induction false} FoldedKeysAreWords(events: seq<ChoiceDelta>)
    ensures WordKeys(ChoicesOf(events))
  {
    forall i | i in ChoicesOf(events) ensures 0 <= i < 0x1_0000_0000 {
      var n :| 0 <= n < |events| && ChoiceIndex(events[n]) == i;
    }
  }

  // ----- Order -----

  /** Whatever the arrival order, the snapshot lists each choice once, by ascending index. */
  lemma {:induction false} ChoicesAscend(choices: map<int, ChoiceState>, passthrough: bool)
    requires WordKeys(choices)
    ensures var list, order := ChoiceSnapshots(choices, passthrough), Ascending(choices.Keys, IntLess);
            |list| == |order| == |choices| && Sorted(order, IntLess) &&
            forall n :: 0 <= n < |list| ==> IndexedBy(list[n], order[n])
  {
    var list, order := ChoiceSnapshots(choices, passthrough), Ascending(choices.Keys, IntLess);
    forall n | 0 <= n < |list| ensures IndexedBy(list[n], order[n]) {
      assert order[n] in order;
      ChoiceIndexField(choices[order[n]], order[n], passthrough);
    }
  }

  ghost predicate IndexedBy(choice: Json, index: int) {
    choice.Obj? && match Get(choice.fields, "index") case Some(Num(Integer(i))) => i == index case _ => false
  }

  lemma {:induction false} ChoiceIndexField(s: ChoiceState, index: WireInt, passthrough: bool)
    ensures IndexedBy(Obj(ChoiceFields(s, index, passthrough)), index)
  {
    var base := ChoiceBase(s, index, passthrough);
    assert base[0].key != "index" && base[1].key == "index";
    IndexOfIs(base, "index", 1);
    GetInsertAbsent(base, s.extra, "index");
  }

  /** A tool call that the snapshot can represent. */
  predicate Representable(tools: map<int, ToolState>, j: int) { j in tools && ToolBase(tools[j]).Some? }

  /** All of them, each once, by ascending index. */
  ghost predicate RepresentableInOrder(tools: map<int, ToolState>, order: seq<int>) {
    Sorted(order, IntLess) && forall j :: j in order <==> Representable(tools, j)
  }

  /** `list` holds the snapshots of the tool calls `order`, one by one. */
  ghost predicate ListsCalls(tools: map<int, ToolState>, order: seq<int>, list: seq<Json>, passthrough: bool) {
    |list| == |order| && forall n :: 0 <= n < |order| ==> [list[n]] == CallAt(tools, order[n], passthrough)
  }

  /** Whatever the arrival order, the snapshot lists each representable tool call once, by
      ascending index. */
  lemma {:induction false} ToolCallsAscend(tools: map<int, ToolState>, passthrough: bool) returns (order: seq<int>)
    ensures RepresentableInOrder(tools, order)
    ensures ListsCalls(tools, order, ToolSnapshots(tools, Ascending(tools.Keys, IntLess), passthrough), passthrough)
  {
    order := RepresentableAmong(tools, Ascending(tools.Keys, IntLess), passthrough);
  }

  lemma {:induction false} RepresentableAmong(tools: map<int, ToolState>, indices: seq<int>, passthrough: bool)
    returns (order: seq<int>)
    requires Sorted(indices, IntLess)
    ensures Sorted(order, IntLess) && forall j :: j in order <==> j in indices && Representable(tools, j)
    ensures ListsCalls(tools, order, ToolSnapshots(tools, indices, passthrough), passthrough)
  {
    order := [];
    if indices != [] {
      var init, j := indices[..|indices| - 1], indices[|indices| - 1];
      order := RepresentableAmong(tools, init, passthrough);
      assert indices == init + [j];
      assert forall i :: i in init ==> IntLess(i, j);
      if Representable(tools, j) {
        order := order + [j];
      }
    }
  }

  // ----- Passthrough only adds -----

  /** `big` has every key of `small`, with the same value, except that the value of the
      `special` key may itself be extended. */
  ghost predicate FieldsExtend(small: Fields, big: Fields, special: string, extends_: (Json, Json) -> bool) {
    forall k :: Has(small, k) ==>
      Has(big, k) && if k == special then extends_(Get(small, k).value, Get(big, k).value) else Get(big, k) == Get(small, k)
  }

  /** Same length, and each entry extends the one at its place. */
  ghost predicate ListExtends(small: Json, big: Json, extends_: (Json, Json) -> bool) {
    && small.Arr? && big.Arr? && |small.items| == |big.items|
    && forall n :: 0 <= n < |small.items| ==> extends_(small.items[n], big.items[n])
  }

  ghost predicate CallExtends(small: Json, big: Json) {
    small.Obj? && big.Obj? && FieldsExtend(small.fields, big.fields, "", (a, b) => a == b)
  }

  ghost predicate CallsExtend(small: Json, big: Json) { ListExtends(small, big, CallExtends) }

  ghost predicate MessageExtends(small: Json, big: Json) {
    small.Obj? && big.Obj? && FieldsExtend(small.fields, big.fields, "tool_calls", CallsExtend)
  }

  ghost predicate ChoiceExtends(small: Json, big: Json) {
    small.Obj? && big.Obj? && FieldsExtend(small.fields, big.fields, "message", MessageExtends)
  }

  ghost predicate ChoicesExtend(small: Json, big: Json) { ListExtends(small, big, ChoiceExtends) }

  /** For every accumulated state, the snapshot with passthrough has every key of the one
      without, with the same value all the way through choices, messages and tool calls. */
  lemma {:induction false} PassthroughOnlyAdds(top: TopState, choices: map<int, ChoiceState>)
    requires WordKeys(choices)
    ensures FieldsExtend(SnapshotObject(top, choices, false), SnapshotObject(top, choices, true), "choices", ChoicesExtend)
  {
    var small, big := TopBase(top, choices, false), TopBase(top, choices, true);
    ChoicesPassthrough(choices);
    SameShapeExtends(small, big, top.extra, "choices", ChoicesExtend);
    var grown := InsertAbsent(big, top.extra);
    PutExtends(small, grown, "service_tier", top.serviceTier, "choices", ChoicesExtend);
    var small1, big1 := PutOptional(small, "service_tier", top.serviceTier), PutOptional(grown, "service_tier", top.serviceTier);
    var fingerprint := TextValue(top.systemFingerprint);
    PutExtends(small1, big1, "system_fingerprint", fingerprint, "choices", ChoicesExtend);
    var small2, big2 :=
      PutOptional(small1, "system_fingerprint", fingerprint), PutOptional(big1, "system_fingerprint", fingerprint);
    PutExtends(small2, big2, "usage", top.usage, "choices", ChoicesExtend);
    PutExtends(PutOptional(small2, "usage", top.usage), PutOptional(big2, "usage", top.usage), "moderation", top.moderation,
               "choices", ChoicesExtend);
  }

  lemma {:induction false} ChoicesPassthrough(choices: map<int, ChoiceState>)
    requires WordKeys(choices)
    ensures ChoicesExtend(Arr(ChoiceSnapshots(choices, false)), Arr(ChoiceSnapshots(choices, true)))
  {
    var order := Ascending(choices.Keys, IntLess);
    forall n | 0 <= n < |order|
      ensures ChoiceExtends(ChoiceSnapshots(choices, false)[n], ChoiceSnapshots(choices, true)[n])
    {
      assert order[n] in order;
      ChoicePassthrough(choices[order[n]], order[n]);
    }
  }

  lemma {:induction false} ChoicePassthrough(s: ChoiceState, index: WireInt)
    ensures ChoiceExtends(Obj(ChoiceFields(s, index, false)), Obj(ChoiceFields(s, index, true)))
  {
    MessagePassthrough(s);
    SameShapeExtends(ChoiceBase(s, index, false), ChoiceBase(s, index, true), s.extra, "message", MessageExtends);
  }

  lemma {:induction false} MessagePassthrough(s: ChoiceState)
    ensures MessageExtends(Obj(MessageFields(s, false)), Obj(MessageFields(s, true)))
  {
    ToolCallsPassthrough(s);
    MessageKeys(s);
    MessageParts(MessageStart(s), ToolCallsField(s, false), ToolCallsField(s, true), LegacyField(s));
    SameShapeExtends(MessageBase(s, false), MessageBase(s, true), s.messageExtra, "tool_calls", CallsExtend);
  }

  lemma {:induction false} ToolCallsPassthrough(s: ChoiceState)
    ensures SameShape(ToolCallsField(s, false), ToolCallsField(s, true), "tool_calls", CallsExtend)
  {
    CallsPassthrough(s.toolCalls, Ascending(s.toolCalls.Keys, IntLess));
  }

  lemma {:induction false} MessageKeys(s: ChoiceState)
    ensures forall i :: 0 <= i < |MessageStart(s)| ==> MessageStart(s)[i].key != "tool_calls"
    ensures forall i :: 0 <= i < |LegacyField(s)| ==> LegacyField(s)[i].key != "tool_calls"
  {
  }

  lemma {:induction false} MessageParts(start: Fields, small: Fields, big: Fields, rest: Fields)
    requires SameShape(small, big, "tool_calls", CallsExtend)
    requires forall i :: 0 <= i < |start| ==> start[i].key != "tool_calls"
    requires forall i :: 0 <= i < |rest| ==> rest[i].key != "tool_calls"
    ensures SameShape(start + small + rest, start + big + rest, "tool_calls", CallsExtend)
  {
  }

  lemma {:induction false} CallsPassthrough(tools: map<int, ToolState>, indices: seq<int>)
    ensures CallsExtend(Arr(ToolSnapshots(tools, indices, false)), Arr(ToolSnapshots(tools, indices, true)))
  {
    if indices != [] {
      var init, j := indices[..|indices| - 1], indices[|indices| - 1];
      CallsPassthrough(tools, init);
      if j in tools && ToolBase(tools[j]).Some? {
        var base := ToolBase(tools[j]).value;
        SameShapeExtends(base, base, tools[j].extra, "", (a, b) => a == b);
        assert CallExtends(CallAt(tools, j, false)[0], CallAt(tools, j, true)[0]);
      }
    }
  }

  /** The same keys in the same places, with values equal or, under `special`, extended. */
  ghost predicate SameShape(small: Fields, big: Fields, special: string, extends_: (Json, Json) -> bool) {
    && |small| == |big|
    && forall i :: 0 <= i < |small| ==>
         small[i].key == big[i].key &&
         if small[i].key == special then extends_(small[i].value, big[i].value) else small[i].value == big[i].value
  }

  /** Objects of one shape, one of them filled up with extra fields. */
  lemma {:induction false} SameShapeExtends(small: Fields, big: Fields, extra: Fields, special: string,
                                            extends_: (Json, Json) -> bool)
    requires SameShape(small, big, special, extends_)
    ensures FieldsExtend(small, InsertAbsent(big, extra), special, extends_)
  {
    forall k | Has(small, k)
      ensures var filled := InsertAbsent(big, extra);
              Has(filled, k) &&
              if k == special then extends_(Get(small, k).value, Get(filled, k).value) else Get(filled, k) == Get(small, k)
    {
      var i := IndexOf(small, k);
      IndexOfIs(big, k, i);
      GetInsertAbsent(big, extra, k);
    }
  }

  lemma {:induction false} PutExtends(small: Fields, big: Fields, key: string, value: Option<Json>, special: string,
                                      extends_: (Json, Json) -> bool)
    requires FieldsExtend(small, big, special, extends_) && key != special
    ensures FieldsExtend(PutOptional(small, key, value), PutOptional(big, key, value), special, extends_)
  {
    if value.Some? {
      var more, most := Put(small, key, value.value), Put(big, key, value.value);
      forall k | Has(more, k)
        ensures Has(most, k) &&
                if k == special then extends_(Get(more, k).value, Get(most, k).value) else Get(most, k) == Get(more, k)
      {
        GetPut(small, key, value.value, k);
        GetPut(big, key, value.value, k);
      }
    }
  }

  // ----- Custom tool calls, end to end -----

  /** A custom call's name and input are the concatenations of what its fragments carried,
      with or without passthrough. */
  lemma {:induction false} CustomCallSnapshot(fragments: seq<ToolDelta>, passthrough: bool)
    requires First(fragments, ToolKind) == Some("custom")
    requires forall i :: 0 <= i < |fragments| ==>
      CustomShaped(fragments[i].extra, "name") && CustomShaped(fragments[i].extra, "input")
    ensures var call := ToolSnapshot(ToolOf(fragments), passthrough);
            && call.Some?
            && Get(call.value, "custom") == Some(Obj([
                 Field("name", Str(Joined(fragments, (t: ToolDelta) => CustomText(t.extra, "name")))),
                 Field("input", Str(Joined(fragments, (t: ToolDelta) => CustomText(t.extra, "input"))))]))
  {
    CustomTextRun(fragments, "name");
    CustomTextRun(fragments, "input");
    var t := ToolOf(fragments);
    var base := ToolBase(t).value;
    assert base[0].key != "custom" && base[1].key != "custom" && base[2].key == "custom";
    IndexOfIs(base, "custom", 2);
    GetInsertAbsent(base, t.extra, "custom");
  }
}
