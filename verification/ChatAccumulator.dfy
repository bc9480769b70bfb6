/** The accumulator itself: the in-place fold, proved against the closed form of the
    chunks it has seen. */
module ChatAccumulator {
  import opened JsonValue
  import opened DeltaMerge
  import opened Lanes
  import opened ChatFold

  const NEW_TOOL := ToolState(None, None, false, None, "", [])
  const NEW_CHOICE := ChoiceState(None, None, None, None, false, map[], None, None, [], [])

  // ----- One event, lane by lane -----

  function FirstWins<T>(kept: Option<T>, offered: Option<T>): Option<T> {
    if kept.Some? then kept else offered
  }

  function LastWins<T>(kept: Option<T>, offered: Option<T>): Option<T> {
    if offered.Some? then offered else kept
  }

  /** A list or text that is absent until its first piece arrives. */
  function Grown<T>(kept: Option<seq<T>>, offered: Option<seq<T>>): Option<seq<T>> {
    if offered.None? then kept else if kept.None? then offered else Some(kept.value + offered.value)
  }

  function ToolStep(s: ToolState, t: ToolDelta): ToolState {
    ToolState(FirstWins(s.id, ToolId(t)), FirstWins(s.kind, ToolKind(t)), s.functionSeen || HasFunction(t),
              FirstWins(s.name, ToolName(t)), s.arguments + ToolArguments(t), MergeFields(s.extra, t.extra))
  }

  function ToolsStep(states: map<int, ToolState>, t: ToolDelta): map<int, ToolState> {
    states[t.index as int := ToolStep(if t.index in states then states[t.index] else NEW_TOOL, t)]
  }

  function ToolsRun(states: map<int, ToolState>, calls: seq<ToolDelta>): map<int, ToolState> {
    if calls == [] then states else ToolsStep(ToolsRun(states, calls[..|calls| - 1]), calls[|calls| - 1])
  }

  function RefusalStep(kept: Option<Nullable<string>>, c: ChoiceDelta): Option<Nullable<string>> {
    if !MentionsRefusal(c) then kept
    else if !HasRefusal(c) then (if kept.Some? then kept else Some(JsonNull))
    else if kept.Some? && kept.value.NonNull? then Some(NonNull(kept.value.value + Refusal(c)))
    else Some(NonNull(Refusal(c)))
  }

  function LegacyStep(kept: Option<LegacyCall>, c: ChoiceDelta): Option<LegacyCall> {
    if !HasLegacy(c) then kept
    else
      var call := if kept.Some? then kept.value else LegacyCall(None, "");
      Some(LegacyCall(FirstWins(call.name, LegacyName(c)), call.arguments + LegacyArguments(c)))
  }

  function LogprobsStep(kept: Option<LogprobLists>, c: ChoiceDelta): Option<LogprobLists> {
    if !HasLogprobs(c) then kept
    else
      var lists := if kept.Some? then kept.value else LogprobLists(None, None);
      Some(LogprobLists(Grown(lists.content, ContentProbs(c)), Grown(lists.refusal, RefusalProbs(c))))
  }

  function ChoiceStep(s: ChoiceState, c: ChoiceDelta): ChoiceState {
    ChoiceState(
      LastWins(s.role, Role(c)), Grown(s.content, GivenNonNull(c.delta.content)), RefusalStep(s.refusal, c),
      LastWins(s.finishReason, Finish(c)), s.toolCallsSeen || HasTools(c), ToolsRun(s.toolCalls, Fragments(c)),
      LegacyStep(s.legacy, c), LogprobsStep(s.logprobs, c),
      InsertAbsent(s.extra, c.extra), MergeFields(s.messageExtra, c.delta.extra))
  }

  function ChoicesStep(states: map<int, ChoiceState>, c: ChoiceDelta): map<int, ChoiceState> {
    states[c.index as int := ChoiceStep(if c.index in states then states[c.index] else NEW_CHOICE, c)]
  }

  function ChoicesRun(states: map<int, ChoiceState>, deltas: seq<ChoiceDelta>): map<int, ChoiceState> {
    if deltas == [] then states else ChoicesStep(ChoicesRun(states, deltas[..|deltas| - 1]), deltas[|deltas| - 1])
  }

  function TopStep(s: TopState, c: Chunk): TopState {
    TopState(
      FirstWins(s.id, ChunkId(c)), FirstWins(s.created, Created(c)), FirstWins(s.model, Model(c)),
      FirstWins(s.serviceTier, ServiceTier(c)), LastWins(s.systemFingerprint, Fingerprint(c)),
      LastWins(s.usage, Usage(c)), FirstWins(s.moderation, Moderation(c)), InsertAbsent(s.extra, c.extra))
  }

  // ----- The in-place updates -----

  method ObserveTool(state: ToolState, call: ToolDelta) returns (next: ToolState)
    ensures next == ToolStep(state, call)
  {
    var ToolState(id, kind, functionSeen, name, arguments, extra) := state;
    if id.None? && call.id.Present? {
      id := Some(call.id.value);
    }
    if kind.None? && call.kind.Present? {
      kind := Some(call.kind.value);
    }
    if call.function_.Present? {
      functionSeen := true;
      if name.None? && call.function_.value.name.Present? {
        name := Some(call.function_.value.name.value);
      }
      if call.function_.value.arguments.Present? {
        arguments := arguments + call.function_.value.arguments.value;
      }
    }
    assert arguments == state.arguments + ToolArguments(call);
    extra := MergeDeltaObject(extra, call.extra);
    next := ToolState(id, kind, functionSeen, name, arguments, extra);
  }

  method ObserveTools(states: map<int, ToolState>, calls: seq<ToolDelta>) returns (next: map<int, ToolState>)
    ensures next == ToolsRun(states, calls)
  {
    next := states;
    for n := 0 to |calls|
      invariant next == ToolsRun(states, calls[..n])
    {
      assert calls[..n + 1][..n] == calls[..n];
      var call := calls[n];
      var tool := ObserveTool(if call.index in next then next[call.index] else NEW_TOOL, call);
      next := next[call.index as int := tool];
    }
    assert calls[..|calls|] == calls;
  }

  method ObserveText(state: ChoiceState, choice: ChoiceDelta) returns (content: Option<string>, refusal: Option<Nullable<string>>)
    ensures content == Grown(state.content, GivenNonNull(choice.delta.content))
    ensures refusal == RefusalStep(state.refusal, choice)
  {
    content, refusal := state.content, state.refusal;
    var delta := choice.delta;
    if delta.content.Present? && delta.content.value.NonNull? {
      var text := delta.content.value.value;
      content := if content.Some? then Some(content.value + text) else Some(text);
    }
    if delta.refusal.Present? {
      if delta.refusal.value.JsonNull? {
        refusal := if refusal.Some? then refusal else Some(JsonNull);
      } else {
        var text := delta.refusal.value.value;
        refusal := if refusal.Some? && refusal.value.NonNull? then Some(NonNull(refusal.value.value + text))
                   else Some(NonNull(text));
      }
    }
  }

  method ObserveLogprobs(state: ChoiceState, choice: ChoiceDelta) returns (logprobs: Option<LogprobLists>)
    ensures logprobs == LogprobsStep(state.logprobs, choice)
  {
    logprobs := state.logprobs;
    if choice.logprobs.Present? && choice.logprobs.value.NonNull? {
      var given := choice.logprobs.value.value;
      var LogprobLists(content, refusal) := if logprobs.Some? then logprobs.value else LogprobLists(None, None);
      if given.content.NonNull? {
        EmptyPieces([], given.content.value);
        content := Some((if content.Some? then content.value else []) + given.content.value);
      }
      if given.refusal.NonNull? {
        EmptyPieces([], given.refusal.value);
        refusal := Some((if refusal.Some? then refusal.value else []) + given.refusal.value);
      }
      logprobs := Some(LogprobLists(content, refusal));
    }
  }

  method ObserveLegacy(state: ChoiceState, choice: ChoiceDelta) returns (legacy: Option<LegacyCall>)
    ensures legacy == LegacyStep(state.legacy, choice)
  {
    legacy := state.legacy;
    if choice.delta.functionCall.Present? {
      var call := choice.delta.functionCall.value;
      var LegacyCall(name, arguments) := if legacy.Some? then legacy.value else LegacyCall(None, "");
      if name.None? && call.name.Present? {
        name := Some(call.name.value);
      }
      if call.arguments.Present? {
        arguments := arguments + call.arguments.value;
      } else {
        EmptyPieces(arguments, "");
      }
      legacy := Some(LegacyCall(name, arguments));
    }
  }

  method ObserveChoice(state: ChoiceState, choice: ChoiceDelta) returns (next: ChoiceState)
    ensures next == ChoiceStep(state, choice)
  {
    var finishReason, role := state.finishReason, state.role;
    if choice.finishReason.NonNull? {
      finishReason := Some(choice.finishReason.value);
    }
    var logprobs := ObserveLogprobs(state, choice);
    var extra := InsertFirstSeen(state.extra, choice.extra);
    if choice.delta.role.Present? {
      role := Some(choice.delta.role.value);
    }
    var content, refusal := ObserveText(state, choice);
    var legacy := ObserveLegacy(state, choice);
    var toolCallsSeen, toolCalls := state.toolCallsSeen, state.toolCalls;
    if choice.delta.toolCalls.Present? {
      toolCallsSeen := true;
      toolCalls := ObserveTools(toolCalls, choice.delta.toolCalls.value);
    }
    var messageExtra := MergeDeltaObject(state.messageExtra, choice.delta.extra);
    next := ChoiceState(role, content, refusal, finishReason, toolCallsSeen, toolCalls, legacy, logprobs, extra, messageExtra);
  }

  /** The fields whose first value wins. */
  method ObserveOnce(state: TopState, chunk: Chunk)
    returns (id: Option<string>, created: Option<u64>, model: Option<string>, serviceTier: Option<Json>, moderation: Option<Json>)
    ensures id == FirstWins(state.id, ChunkId(chunk)) && created == FirstWins(state.created, Created(chunk))
    ensures model == FirstWins(state.model, Model(chunk)) && serviceTier == FirstWins(state.serviceTier, ServiceTier(chunk))
    ensures moderation == FirstWins(state.moderation, Moderation(chunk))
  {
    id, created, model, serviceTier, moderation := state.id, state.created, state.model, state.serviceTier, state.moderation;
    if id.None? { id := Some(chunk.id); }
    if created.None? { created := Some(chunk.created); }
    if model.None? { model := Some(chunk.model); }
    if serviceTier.None? && chunk.serviceTier.Present? { serviceTier := Some(chunk.serviceTier.value); }
    if moderation.None? && chunk.moderation.Present? { moderation := Some(chunk.moderation.value); }
  }

  method ObserveTop(state: TopState, chunk: Chunk) returns (next: TopState)
    ensures next == TopStep(state, chunk)
  {
    var id, created, model, serviceTier, moderation := ObserveOnce(state, chunk);
    var systemFingerprint, usage := state.systemFingerprint, state.usage;
    if chunk.systemFingerprint.Present? { systemFingerprint := Some(chunk.systemFingerprint.value); }
    if chunk.usage.Present? && chunk.usage.value.NonNull? { usage := Some(chunk.usage.value.value); }
    var extra := InsertFirstSeen(state.extra, chunk.extra);
    next := TopState(id, created, model, serviceTier, systemFingerprint, usage, moderation, extra);
  }

  /** The per-choice loop of a push: each delta goes to the state of its index. */
  method ObserveChoices(states: map<int, ChoiceState>, deltas: seq<ChoiceDelta>) returns (next: map<int, ChoiceState>)
    ensures next == ChoicesRun(states, deltas)
  {
    next := states;
    for n := 0 to |deltas|
      invariant next == ChoicesRun(states, deltas[..n])
    {
      assert deltas[..n + 1][..n] == deltas[..n];
      var choice := deltas[n];
      var state := ObserveChoice(if choice.index in next then next[choice.index] else NEW_CHOICE, choice);
      next := next[choice.index as int := state];
    }
    assert deltas[..|deltas|] == deltas;
  }

  // ----- One more event in the closed form -----

  lemma {:induction false} EmptyPieces<T>(x: seq<T>, y: seq<T>)
    ensures [] + y == y && x + [] == x
  {
  }

  /** A lane that hands on every event's extra fields adds exactly one object per event. */
  lemma {:induction false} JoinedExtras<E>(past: seq<E>, e: E, lane: E -> seq<Fields>)
    requires |lane(e)| == 1
    ensures var before, after := Joined(past, lane), Joined(past + [e], lane);
            after != [] && after[..|after| - 1] == before && after[|after| - 1] == lane(e)[0]
  {
    JoinedSnoc(past, e, lane);
  }

  lemma {:induction false} TopOfSnoc(past: seq<Chunk>, c: Chunk)
    ensures TopOf(past + [c]) == TopStep(TopOf(past), c)
  {
    FirstSnoc(past, c, ChunkId);
    FirstSnoc(past, c, Created);
    FirstSnoc(past, c, Model);
    FirstSnoc(past, c, ServiceTier);
    LastSnoc(past, c, Fingerprint);
    LastSnoc(past, c, Usage);
    FirstSnoc(past, c, Moderation);
    JoinedExtras(past, c, ChunkExtra);
  }

  lemma {:induction false} ToolOfSnoc(past: seq<ToolDelta>, t: ToolDelta)
    ensures ToolOf(past + [t]) == ToolStep(ToolOf(past), t)
  {
    FirstSnoc(past, t, ToolId);
    FirstSnoc(past, t, ToolKind);
    AnySnoc(past, t, HasFunction);
    FirstSnoc(past, t, ToolName);
    JoinedSnoc(past, t, ToolArguments);
    JoinedExtras(past, t, ToolExtra);
  }

  lemma {:induction false} ToolsOfConcat(past: seq<ToolDelta>, calls: seq<ToolDelta>)
    ensures ToolsOf(past + calls) == ToolsRun(ToolsOf(past), calls)
  {
    if calls == [] {
      assert past + calls == past;
    } else {
      var init, t := calls[..|calls| - 1], calls[|calls| - 1];
      ToolsOfConcat(past, init);
      assert past + calls == (past + init) + [t];
      GroupedSnoc(past + init, t, ToolIndex, ToolOf);
      WithNone(past + init, ToolIndex, t.index);
      ToolOfSnoc(With(past + init, ToolIndex, t.index), t);
    }
  }

  /** A lane that is empty on every event without a payload stays empty until the first payload. */
  lemma {:induction false} NothingJoined<E, T>(events: seq<E>, has: E -> bool, lane: E -> seq<T>)
    requires forall i :: 0 <= i < |events| && !has(events[i]) ==> lane(events[i]) == []
    ensures !Any(events, has) ==> Joined(events, lane) == []
  {
    if events != [] && !Any(events, has) {
      var init := events[..|events| - 1];
      assert forall i :: 0 <= i < |init| ==> init[i] == events[i];
      NothingJoined(init, has, lane);
      assert !has(events[|events| - 1]);
    }
  }

  lemma {:induction false} TextSnoc(past: seq<ChoiceDelta>, c: ChoiceDelta)
    ensures ContentOf(past + [c]) == Grown(ContentOf(past), GivenNonNull(c.delta.content))
  {
    AnySnoc(past, c, HasText);
    JoinedSnoc(past, c, Text);
    NothingJoined(past, HasText, Text);
    EmptyPieces(Joined(past, Text), Text(c));
  }

  lemma {:induction false} RefusalSnoc(past: seq<ChoiceDelta>, c: ChoiceDelta)
    ensures RefusalOf(past + [c]) == RefusalStep(RefusalOf(past), c)
  {
    AnySnoc(past, c, HasRefusal);
    AnySnoc(past, c, MentionsRefusal);
    JoinedSnoc(past, c, Refusal);
    NothingJoined(past, HasRefusal, Refusal);
    EmptyPieces(Joined(past, Refusal), Refusal(c));
  }

  lemma {:induction false} LegacySnoc(past: seq<ChoiceDelta>, c: ChoiceDelta)
    ensures LegacyOf(past + [c]) == LegacyStep(LegacyOf(past), c)
  {
    AnySnoc(past, c, HasLegacy);
    FirstSnoc(past, c, LegacyName);
    JoinedSnoc(past, c, LegacyArguments);
    NothingJoined(past, HasLegacy, LegacyArguments);
    EmptyPieces(Joined(past, LegacyArguments), LegacyArguments(c));
    FirstMeans(past, LegacyName);
    if !Any(past, HasLegacy) {
      assert forall i :: 0 <= i < |past| ==> !HasLegacy(past[i]);
    }
  }

  lemma {:induction false} LogprobsSnoc(past: seq<ChoiceDelta>, c: ChoiceDelta)
    ensures LogprobsOf(past + [c]) == LogprobsStep(LogprobsOf(past), c)
  {
    AnySnoc(past, c, HasLogprobs);
    AnySnoc(past, c, HasContentProbs);
    AnySnoc(past, c, HasRefusalProbs);
    JoinedSnoc(past, c, ContentProbItems);
    JoinedSnoc(past, c, RefusalProbItems);
    NothingJoined(past, HasContentProbs, ContentProbItems);
    NothingJoined(past, HasRefusalProbs, RefusalProbItems);
    EmptyPieces(Joined(past, ContentProbItems), ContentProbItems(c));
    EmptyPieces(Joined(past, RefusalProbItems), RefusalProbItems(c));
    if !Any(past, HasLogprobs) {
      assert forall i :: 0 <= i < |past| ==> !HasLogprobs(past[i]);
    }
  }

  lemma {:induction false} ChoiceOfSnoc(past: seq<ChoiceDelta>, c: ChoiceDelta)
    ensures ChoiceOf(past + [c]) == ChoiceStep(ChoiceOf(past), c)
  {
    LastSnoc(past, c, Role);
    TextSnoc(past, c);
    RefusalSnoc(past, c);
    LastSnoc(past, c, Finish);
    AnySnoc(past, c, HasTools);
    JoinedSnoc(past, c, Fragments);
    ToolsOfConcat(Joined(past, Fragments), Fragments(c));
    LegacySnoc(past, c);
    LogprobsSnoc(past, c);
    JoinedExtras(past, c, ChoiceExtra);
    JoinedExtras(past, c, MessageExtra);
  }

  /** If one more event of a group is one more step of its state, the grouped states take that
      step at the key of the event. */
  lemma {:induction false} GroupedStep<E, S>(past: seq<E>, e: E, key: E -> int, reduce: seq<E> -> S, step: (S, E) -> S, fresh_: S)
    requires reduce([]) == fresh_ && reduce(With(past, key, key(e)) + [e]) == step(reduce(With(past, key, key(e))), e)
    ensures var states := Grouped(past, key, reduce);
            Grouped(past + [e], key, reduce) == states[key(e) := step(if key(e) in states then states[key(e)] else fresh_, e)]
  {
    WithNone(past, key, key(e));
    GroupedSnoc(past, e, key, reduce);
  }

  lemma {:induction false} ChoicesOfSnoc(past: seq<ChoiceDelta>, c: ChoiceDelta)
    ensures ChoicesOf(past + [c]) == ChoicesStep(ChoicesOf(past), c)
  {
    ChoiceOfSnoc(With(past, ChoiceIndex, c.index), c);
    GroupedStep(past, c, ChoiceIndex, ChoiceOf, ChoiceStep, NEW_CHOICE);
  }

  /** Running the per-index steps over more deltas is the closed form of all of them. */
  lemma {:induction false} ChoicesOfConcat(past: seq<ChoiceDelta>, deltas: seq<ChoiceDelta>)
    ensures ChoicesOf(past + deltas) == ChoicesRun(ChoicesOf(past), deltas)
  {
    if deltas == [] {
      assert past + deltas == past;
    } else {
      var init, c := deltas[..|deltas| - 1], deltas[|deltas| - 1];
      ChoicesOfConcat(past, init);
      assert past + deltas == (past + init) + [c];
      ChoicesOfSnoc(past + init, c);
    }
  }

  /** The accumulated fields are the closed form of `history`. */
  ghost predicate Folds(history: seq<Chunk>, top: TopState, choices: map<int, ChoiceState>, started: bool) {
    && top == TopOf(Where(history, IsChunk))
    && choices == ChoicesOf(EventsOf(history))
    && started == Any(history, IsChunk)
  }

  lemma {:induction false} FoldsSnoc(history: seq<Chunk>, chunk: Chunk, top: TopState, choices: map<int, ChoiceState>,
                                     started: bool)
    requires Folds(history, top, choices, started)
    ensures IsChunk(chunk) ==> Folds(history + [chunk], TopStep(top, chunk), ChoicesRun(choices, chunk.choices), true)
    ensures !IsChunk(chunk) ==> Folds(history + [chunk], top, choices, started)
  {
    AnySnoc(history, chunk, IsChunk);
    Snoc(history, chunk);
    var before := Where(history, IsChunk);
    if IsChunk(chunk) {
      TopOfSnoc(before, chunk);
      JoinedSnoc(before, chunk, Choices);
      ChoicesOfConcat(EventsOf(history), chunk.choices);
    } else {
      assert before + [] == before;
    }
  }

  /** Folding one chunk: a chunk of another kind is skipped. */
  method ObserveChunk(top: TopState, choices: map<int, ChoiceState>, started: bool, chunk: Chunk, ghost history: seq<Chunk>)
    returns (nextTop: TopState, nextChoices: map<int, ChoiceState>, nextStarted: bool)
    requires Folds(history, top, choices, started)
    ensures Folds(history + [chunk], nextTop, nextChoices, nextStarted)
  {
    FoldsSnoc(history, chunk, top, choices, started);
    if !IsChunk(chunk) {
      return top, choices, started;
    }
    nextTop := ObserveTop(top, chunk);
    nextChoices := ObserveChoices(choices, chunk.choices);
    nextStarted := true;
  }

  class Accumulator {
    var top: TopState
    var choices: map<int, ChoiceState>
    var started: bool
    var done: bool
    /** Every chunk pushed so far, accepted or not. */
    ghost var history: seq<Chunk>

    /** The fields are the closed form of the history. */
    ghost predicate Valid()
      reads this
    {
      Folds(history, top, choices, started)
    }

    constructor ()
      ensures Valid() && history == [] && !done
    {
      top := TopState(None, None, None, None, None, None, None, []);
      choices := map[];
      started, done := false, false;
      history := [];
    }

    /** Folds one chunk: the state stays the closed form of everything pushed. */
    method Push(chunk: Chunk)
      requires Valid()
      modifies this
      ensures Valid() && history == old(history) + [chunk] && done == old(done)
    {
      var nextTop, nextChoices, nextStarted := ObserveChunk(top, choices, started, chunk, history);
      ghost var grown := history + [chunk];
      assert Folds(grown, nextTop, nextChoices, nextStarted);
      top := nextTop;
      choices := nextChoices;
      started := nextStarted;
      history := grown;
    }

    method MarkDone()
      requires Valid()
      modifies `done
      ensures Valid() && done
    {
      done := true;
    }

    /** A terminal condition was seen: the end-of-stream mark, or a stop reason somewhere in the history. */
    method IsDone() returns (answer: bool)
      requires Valid()
      ensures answer <==> done || Any(EventsOf(history), HasFinish)
    {
      answer := done || exists i :: i in choices && choices[i].finishReason.Some?;
      StopReasonSeen(EventsOf(history));
    }
  }

  /** Some choice has a stop reason exactly when some delta carried one. */
  lemma {:induction false} StopReasonSeen(events: seq<ChoiceDelta>)
    ensures (exists i :: i in ChoicesOf(events) && ChoicesOf(events)[i].finishReason.Some?) <==>
            Any(events, HasFinish)
  {
    var states := ChoicesOf(events);
    if Any(events, HasFinish) {
      var n :| 0 <= n < |events| && Finish(events[n]).Some?;
      var i := ChoiceIndex(events[n]);
      assert i in KeySet(events, ChoiceIndex);
      WithHas(events, ChoiceIndex, n);
      LastMeans(With(events, ChoiceIndex, i), Finish);
      assert states[i].finishReason.Some?;
    }
    if i :| i in states && states[i].finishReason.Some? {
      var group := With(events, ChoiceIndex, i);
      LastMeans(group, Finish);
      var n :| 0 <= n < |group| && Finish(group[n]).Some?;
      var m := WithFrom(events, ChoiceIndex, i, n);
      assert Finish(events[m]).Some?;
    }
  }

  lemma {:induction false} WithHas<E>(events: seq<E>, key: E -> int, n: nat)
    requires n < |events|
    ensures events[n] in With(events, key, key(events[n]))
  {
    if n < |events| - 1 {
      WithHas(events[..|events| - 1], key, n);
    }
  }

  lemma {:induction false} WithFrom<E>(events: seq<E>, key: E -> int, k: int, n: nat) returns (m: nat)
    requires n < |With(events, key, k)|
    ensures m < |events| && events[m] == With(events, key, k)[n]
  {
    var init := events[..|events| - 1];
    if n < |With(init, key, k)| {
      m := WithFrom(init, key, k, n);
    } else {
      m := |events| - 1;
    }
  }
}
