/** What no single push shows: the folded state does not depend on how the deltas of
    different indices interleave, nor on how a text was cut into deltas. */
module ChatFoldLaws {
  import opened JsonValue
  import opened DeltaMerge
  import DeltaMergeLaws
  import opened Lanes
  import opened ChatFold
  import opened ChatAccumulator

  // ----- Chunks of another object kind -----

  /** A foreign chunk contributes nothing, wherever it arrives. */
  lemma {:induction false} ForeignChunkVanishes(before: seq<Chunk>, foreign: Chunk, after: seq<Chunk>)
    requires !IsChunk(foreign)
    ensures Where(before + [foreign] + after, IsChunk) == Where(before + after, IsChunk)
    ensures EventsOf(before + [foreign] + after) == EventsOf(before + after)
    ensures Any(before + [foreign] + after, IsChunk) <==> Any(before + after, IsChunk)
  {
    WhereConcat(before + [foreign], after, IsChunk);
    WhereConcat(before, [foreign], IsChunk);
    WhereConcat(before, after, IsChunk);
    assert Where(before, IsChunk) + [] == Where(before, IsChunk);
    AnyConcat(before + [foreign], after, IsChunk);
    AnyConcat(before, [foreign], IsChunk);
    AnyConcat(before, after, IsChunk);
  }

  // ----- Interleaving -----

  /** Two runs that keep the order of the deltas of each choice fold to the same choices,
      however the choices interleave and however the deltas are spread over chunks. */
  lemma {:induction false} InterleavingInvariance(one: seq<Chunk>, two: seq<Chunk>)
    requires forall i :: With(EventsOf(one), ChoiceIndex, i) == With(EventsOf(two), ChoiceIndex, i)
    ensures ChoicesOf(EventsOf(one)) == ChoicesOf(EventsOf(two))
  {
    SameGroups(EventsOf(one), EventsOf(two), ChoiceIndex, ChoiceOf);
  }

  lemma {:induction false} SameGroups<E, S>(one: seq<E>, two: seq<E>, key: E -> int, reduce: seq<E> -> S)
    requires forall k :: With(one, key, k) == With(two, key, k)
    ensures Grouped(one, key, reduce) == Grouped(two, key, reduce)
  {
    forall k ensures k in KeySet(one, key) <==> k in KeySet(two, key) {
      WithNone(one, key, k);
      WithNone(two, key, k);
      assert With(one, key, k) == With(two, key, k);
    }
  }

  const QUIET := MessageDelta(Omitted, Omitted, Omitted, Omitted, Omitted, [])

  /** A delta that carries nothing but the given message fields. */
  function Only(index: u32, delta: MessageDelta): ChoiceDelta {
    ChoiceDelta(index, JsonNull, Omitted, [], delta)
  }

  /** A delta without its tool-call fragments. */
  function Stripped(c: ChoiceDelta): ChoiceDelta {
    c.(delta := c.delta.(toolCalls := Omitted))
  }

  /** A delta that carries at most tool-call fragments. */
  predicate ToolsOnly(c: ChoiceDelta) { Stripped(c) == Only(c.index, QUIET) }

  /** What the deltas carry besides tool-call fragments. */
  function WithoutTools(events: seq<ChoiceDelta>): seq<ChoiceDelta> {
    if events == [] then []
    else WithoutTools(events[..|events| - 1]) + if ToolsOnly(events[|events| - 1]) then [] else [Stripped(events[|events| - 1])]
  }

  /** Deltas that agree apart from tool calls, and fragments that agree per tool-call index. */
  ghost predicate SameApartFromToolOrder(one: seq<ChoiceDelta>, two: seq<ChoiceDelta>) {
    && WithoutTools(one) == WithoutTools(two) && (Any(one, HasTools) <==> Any(two, HasTools))
    && forall j :: With(Joined(one, Fragments), ToolIndex, j) == With(Joined(two, Fragments), ToolIndex, j)
  }

  /** Within one choice, fragments of different tool calls may interleave, move between deltas,
      and travel in deltas of their own: only their order per tool-call index matters. */
  lemma {:induction false} ToolInterleavingInvariance(one: seq<ChoiceDelta>, two: seq<ChoiceDelta>)
    requires SameApartFromToolOrder(one, two)
    ensures ChoiceOf(one) == ChoiceOf(two)
  {
    SameGroups(Joined(one, Fragments), Joined(two, Fragments), ToolIndex, ToolOf);
    WithoutToolsRun(one);
    WithoutToolsRun(two);
    ChoiceRunIsChoiceOf(one);
    ChoiceRunIsChoiceOf(two);
    SameTools(one, two);
  }

  lemma {:induction false} SameTools(one: seq<ChoiceDelta>, two: seq<ChoiceDelta>)
    requires Grouped(Joined(one, Fragments), ToolIndex, ToolOf) == Grouped(Joined(two, Fragments), ToolIndex, ToolOf)
    requires Any(one, HasTools) <==> Any(two, HasTools)
    requires SameButTools(ChoiceOf(one), ChoiceOf(two))
    ensures ChoiceOf(one) == ChoiceOf(two)
  {
    assert ChoiceOf(one).toolCalls == ChoiceOf(two).toolCalls && ChoiceOf(one).toolCallsSeen == ChoiceOf(two).toolCallsSeen;
  }

  /** Whole runs: if each choice keeps its deltas apart from tool calls, and the order of the
      fragments of each of its tool calls, the runs fold to the same choices. */
  lemma {:induction false} ToolRunInvariance(one: seq<Chunk>, two: seq<Chunk>)
    requires forall i :: SameApartFromToolOrder(With(EventsOf(one), ChoiceIndex, i), With(EventsOf(two), ChoiceIndex, i))
    requires forall i :: With(EventsOf(one), ChoiceIndex, i) == [] <==> With(EventsOf(two), ChoiceIndex, i) == []
    ensures ChoicesOf(EventsOf(one)) == ChoicesOf(EventsOf(two))
  {
    forall i ensures ChoiceOf(With(EventsOf(one), ChoiceIndex, i)) == ChoiceOf(With(EventsOf(two), ChoiceIndex, i)) {
      ToolInterleavingInvariance(With(EventsOf(one), ChoiceIndex, i), With(EventsOf(two), ChoiceIndex, i));
    }
    SameReductions(EventsOf(one), EventsOf(two), ChoiceIndex, ChoiceOf);
  }

  lemma {:induction false} SameReductions<E, S>(one: seq<E>, two: seq<E>, key: E -> int, reduce: seq<E> -> S)
    requires forall k :: reduce(With(one, key, k)) == reduce(With(two, key, k))
    requires forall k :: With(one, key, k) == [] <==> With(two, key, k) == []
    ensures Grouped(one, key, reduce) == Grouped(two, key, reduce)
  {
    forall k ensures k in KeySet(one, key) <==> k in KeySet(two, key) {
      WithNone(one, key, k);
      WithNone(two, key, k);
    }
  }

  /** The deltas of one choice, folded step by step. */
  ghost function ChoiceRun(events: seq<ChoiceDelta>): ChoiceState {
    if events == [] then NEW_CHOICE else ChoiceStep(ChoiceRun(events[..|events| - 1]), events[|events| - 1])
  }

  lemma {:induction false} ChoiceRunSnoc(past: seq<ChoiceDelta>, c: ChoiceDelta)
    ensures ChoiceRun(past + [c]) == ChoiceStep(ChoiceRun(past), c)
  {
    assert (past + [c])[..|past|] == past;
  }

  /** Two readings that start alike and stay alike are alike. */
  lemma {:induction false} SameReading<E, S>(events: seq<E>, one: seq<E> -> S, two: seq<E> -> S)
    requires one([]) == two([]) && forall past: seq<E>, e: E :: one(past) == two(past) ==> one(past + [e]) == two(past + [e])
    ensures one(events) == two(events)
  {
    if events != [] {
      var n := |events| - 1;
      SameReading(events[..n], one, two);
      assert events == events[..n] + [events[n]];
    }
  }

  lemma {:induction false} ChoiceRunIsChoiceOf(events: seq<ChoiceDelta>)
    ensures ChoiceRun(events) == ChoiceOf(events)
  {
    assert ChoiceRun([]) == ChoiceOf([]);
    forall past, c | ChoiceRun(past) == ChoiceOf(past) ensures ChoiceRun(past + [c]) == ChoiceOf(past + [c]) {
      ChoiceOfSnoc(past, c);
      ChoiceRunSnoc(past, c);
    }
    SameReading(events, ChoiceRun, ChoiceOf);
  }

  lemma {:induction false} WithoutToolsRun(events: seq<ChoiceDelta>)
    ensures SameButTools(ChoiceRun(events), ChoiceRun(WithoutTools(events)))
  {
    if events != [] {
      var n := |events| - 1;
      var init, c := events[..n], events[n];
      WithoutToolsRun(init);
      if ToolsOnly(c) {
        assert WithoutTools(init) + [] == WithoutTools(init);
        ToolsOnlyStep(ChoiceRun(init), c);
      } else {
        ChoiceRunSnoc(WithoutTools(init), Stripped(c));
        StrippedStep(ChoiceRun(init), ChoiceRun(WithoutTools(init)), c, Stripped(c));
      }
    }
  }

  lemma {:induction false} ToolsOnlyStep(s: ChoiceState, c: ChoiceDelta)
    requires ToolsOnly(c)
    ensures SameButTools(ChoiceStep(s, c), s)
  {
    assert c.delta == QUIET.(toolCalls := c.delta.toolCalls);
  }

  ghost predicate SameButTools(s: ChoiceState, t: ChoiceState) {
    s.(toolCallsSeen := t.toolCallsSeen, toolCalls := t.toolCalls) == t
  }

  lemma {:induction false} StrippedStep(s: ChoiceState, t: ChoiceState, c: ChoiceDelta, d: ChoiceDelta)
    requires SameButTools(s, t) && Stripped(c) == Stripped(d)
    ensures SameButTools(ChoiceStep(s, c), ChoiceStep(t, d))
  {
    assert c == d.(delta := d.delta.(toolCalls := c.delta.toolCalls));
  }

  // ----- Re-fragmentation -----

  /** Cutting a content text anywhere in a run, from any state, changes nothing. */
  lemma {:induction false} CutContentInvariance(states: map<int, ChoiceState>, before: seq<ChoiceDelta>, c: ChoiceDelta,
                                                u: string, v: string, after: seq<ChoiceDelta>)
    requires c.delta.content == Present(NonNull(u + v))
    ensures var head := c.(delta := c.delta.(content := Present(NonNull(u))));
            var tail := Only(c.index, QUIET.(content := Present(NonNull(v))));
            ChoicesRun(states, before + [c] + after) == ChoicesRun(states, before + [head, tail] + after)
  {
    var head := c.(delta := c.delta.(content := Present(NonNull(u))));
    var tail := Only(c.index, QUIET.(content := Present(NonNull(v))));
    forall s: ChoiceState ensures ChoiceStep(ChoiceStep(s, head), tail) == ChoiceStep(s, c) {
      if s.content.Some? { assert (s.content.value + u) + v == s.content.value + (u + v); }
    }
    CutInvariance(states, before, c, head, tail, after);
  }

  /** Cutting a refusal text anywhere in a run, from any state, changes nothing. */
  lemma {:induction false} CutRefusalInvariance(states: map<int, ChoiceState>, before: seq<ChoiceDelta>, c: ChoiceDelta,
                                                u: string, v: string, after: seq<ChoiceDelta>)
    requires c.delta.refusal == Present(NonNull(u + v))
    ensures var head := c.(delta := c.delta.(refusal := Present(NonNull(u))));
            var tail := Only(c.index, QUIET.(refusal := Present(NonNull(v))));
            ChoicesRun(states, before + [c] + after) == ChoicesRun(states, before + [head, tail] + after)
  {
    var head := c.(delta := c.delta.(refusal := Present(NonNull(u))));
    var tail := Only(c.index, QUIET.(refusal := Present(NonNull(v))));
    forall s: ChoiceState ensures ChoiceStep(ChoiceStep(s, head), tail) == ChoiceStep(s, c) {
      if s.refusal.Some? && s.refusal.value.NonNull? {
        assert (s.refusal.value.value + u) + v == s.refusal.value.value + (u + v);
      }
    }
    CutInvariance(states, before, c, head, tail, after);
  }

  /** Cutting a legacy arguments text anywhere in a run, from any state, changes nothing. */
  lemma {:induction false} CutLegacyInvariance(states: map<int, ChoiceState>, before: seq<ChoiceDelta>, c: ChoiceDelta,
                                                name: Omittable<string>, u: string, v: string, after: seq<ChoiceDelta>)
    requires c.delta.functionCall == Present(FunctionDelta(name, Present(u + v)))
    ensures var head := c.(delta := c.delta.(functionCall := Present(FunctionDelta(name, Present(u)))));
            var tail := Only(c.index, QUIET.(functionCall := Present(FunctionDelta(Omitted, Present(v)))));
            ChoicesRun(states, before + [c] + after) == ChoicesRun(states, before + [head, tail] + after)
  {
    var head := c.(delta := c.delta.(functionCall := Present(FunctionDelta(name, Present(u)))));
    var tail := Only(c.index, QUIET.(functionCall := Present(FunctionDelta(Omitted, Present(v)))));
    forall s: ChoiceState ensures ChoiceStep(ChoiceStep(s, head), tail) == ChoiceStep(s, c) {
      var base := if s.legacy.Some? then s.legacy.value.arguments else "";
      assert (base + u) + v == base + (u + v);
    }
    CutInvariance(states, before, c, head, tail, after);
  }

  lemma {:induction false} CutInvariance(states: map<int, ChoiceState>, before: seq<ChoiceDelta>, c: ChoiceDelta,
                                         head: ChoiceDelta, tail: ChoiceDelta, after: seq<ChoiceDelta>)
    requires c.index == head.index == tail.index
    requires forall s: ChoiceState :: ChoiceStep(ChoiceStep(s, head), tail) == ChoiceStep(s, c)
    ensures ChoicesRun(states, before + [c] + after) == ChoicesRun(states, before + [head, tail] + after)
  {
    ChoicesRunConcat(states, before, [c]);
    ChoicesRunConcat(states, before, [head, tail]);
    CutSteps(ChoicesRun(states, before), c, head, tail);
    ChoicesRunConcat(states, before + [c], after);
    ChoicesRunConcat(states, before + [head, tail], after);
  }

  lemma {:induction false} CutSteps(mid: map<int, ChoiceState>, c: ChoiceDelta, head: ChoiceDelta, tail: ChoiceDelta)
    requires c.index == head.index == tail.index
    requires forall s: ChoiceState :: ChoiceStep(ChoiceStep(s, head), tail) == ChoiceStep(s, c)
    ensures ChoicesRun(mid, [head, tail]) == ChoicesRun(mid, [c])
  {
    assert [c][..0] == [] && [head][..0] == [] && [head, tail][..1] == [head];
    assert ChoicesRun(mid, [head]) == ChoicesStep(mid, head);
    assert ChoicesRun(mid, [head, tail]) == ChoicesStep(ChoicesRun(mid, [head]), tail);
    UpdateTwice(mid, c.index, ChoiceStep, c, head, tail, NEW_CHOICE);
  }

  lemma {:induction false} UpdateTwice<E, S>(states: map<int, S>, i: int, step: (S, E) -> S, e: E, head: E, tail: E, fresh_: S)
    requires forall s: S :: step(step(s, head), tail) == step(s, e)
    ensures var mid := states[i := step(if i in states then states[i] else fresh_, head)];
            mid[i := step(mid[i], tail)] == states[i := step(if i in states then states[i] else fresh_, e)]
  {
  }

  lemma {:induction false} ChoicesRunSnoc(states: map<int, ChoiceState>, past: seq<ChoiceDelta>, c: ChoiceDelta)
    ensures ChoicesRun(states, past + [c]) == ChoicesStep(ChoicesRun(states, past), c)
  {
    assert (past + [c])[..|past|] == past;
  }

  lemma {:induction false} ChoicesRunConcat(states: map<int, ChoiceState>, a: seq<ChoiceDelta>, b: seq<ChoiceDelta>)
    ensures ChoicesRun(states, a + b) == ChoicesRun(ChoicesRun(states, a), b)
  {
    var mid := ChoicesRun(states, a);
    assert a + [] == a;
    forall past, c | ChoicesRun(states, a + past) == ChoicesRun(mid, past)
      ensures ChoicesRun(states, a + (past + [c])) == ChoicesRun(mid, past + [c])
    {
      ChoicesRunSnoc(states, a + past, c);
      ChoicesRunSnoc(mid, past, c);
      assert a + (past + [c]) == (a + past) + [c];
    }
    SameReading(b, past => ChoicesRun(states, a + past), past => ChoicesRun(mid, past));
  }

  /** Cutting the arguments text of one tool-call fragment changes no tool call. */
  lemma {:induction false} CutToolInvariance(states: map<int, ToolState>, before: seq<ToolDelta>, t: ToolDelta,
                                             name: Omittable<string>, u: string, v: string, after: seq<ToolDelta>)
    requires t.function_ == Present(FunctionDelta(name, Present(u + v)))
    ensures var head := t.(function_ := Present(FunctionDelta(name, Present(u))));
            var tail := ToolDelta(t.index, Omitted, Omitted, Present(FunctionDelta(Omitted, Present(v))), []);
            ToolsRun(states, before + [t] + after) == ToolsRun(states, before + [head, tail] + after)
  {
    var head := t.(function_ := Present(FunctionDelta(name, Present(u))));
    var tail := ToolDelta(t.index, Omitted, Omitted, Present(FunctionDelta(Omitted, Present(v))), []);
    forall s: ToolState ensures ToolStep(ToolStep(s, head), tail) == ToolStep(s, t) {
      assert (s.arguments + u) + v == s.arguments + (u + v);
    }
    CutFragmentInvariance(states, before, t, head, tail, after);
  }

  /** The fragments of one delta may be spread over two. */
  lemma {:induction false} SplitToolsStep(s: ChoiceState, c: ChoiceDelta, first: seq<ToolDelta>, rest: seq<ToolDelta>)
    requires HasTools(c) && ToolsRun(ToolsRun(s.toolCalls, first), rest) == ToolsRun(s.toolCalls, Fragments(c))
    ensures var head := c.(delta := c.delta.(toolCalls := Present(first)));
            ChoiceStep(ChoiceStep(s, head), Only(c.index, QUIET.(toolCalls := Present(rest)))) == ChoiceStep(s, c)
  {
  }

  /** Cutting the arguments text of a tool-call fragment between two deltas of a run, from any
      state, changes nothing: the first delta keeps everything up to the cut, the second brings
      the rest of the text and the fragments after it. */
  lemma {:induction false} CutToolRunInvariance(states: map<int, ChoiceState>, before: seq<ChoiceDelta>, c: ChoiceDelta,
                                                pre: seq<ToolDelta>, t: ToolDelta, name: Omittable<string>, u: string, v: string,
                                                post: seq<ToolDelta>, after: seq<ChoiceDelta>)
    requires c.delta.toolCalls == Present(pre + [t] + post)
    requires t.function_ == Present(FunctionDelta(name, Present(u + v)))
    ensures var one := t.(function_ := Present(FunctionDelta(name, Present(u))));
            var two := ToolDelta(t.index, Omitted, Omitted, Present(FunctionDelta(Omitted, Present(v))), []);
            var head := c.(delta := c.delta.(toolCalls := Present(pre + [one])));
            var tail := Only(c.index, QUIET.(toolCalls := Present([two] + post)));
            ChoicesRun(states, before + [c] + after) == ChoicesRun(states, before + [head, tail] + after)
  {
    var one := t.(function_ := Present(FunctionDelta(name, Present(u))));
    var two := ToolDelta(t.index, Omitted, Omitted, Present(FunctionDelta(Omitted, Present(v))), []);
    var head := c.(delta := c.delta.(toolCalls := Present(pre + [one])));
    var tail := Only(c.index, QUIET.(toolCalls := Present([two] + post)));
    assert pre + [one, two] + post == (pre + [one]) + ([two] + post);
    forall s: ChoiceState ensures ChoiceStep(ChoiceStep(s, head), tail) == ChoiceStep(s, c) {
      CutToolInvariance(s.toolCalls, pre, t, name, u, v, post);
      ToolsRunConcat(s.toolCalls, pre + [one], [two] + post);
      SplitToolsStep(s, c, pre + [one], [two] + post);
    }
    CutInvariance(states, before, c, head, tail, after);
  }

  lemma {:induction false} CutFragmentInvariance(states: map<int, ToolState>, before: seq<ToolDelta>, t: ToolDelta,
                                                 head: ToolDelta, tail: ToolDelta, after: seq<ToolDelta>)
    requires t.index == head.index == tail.index
    requires forall s: ToolState :: ToolStep(ToolStep(s, head), tail) == ToolStep(s, t)
    ensures ToolsRun(states, before + [t] + after) == ToolsRun(states, before + [head, tail] + after)
  {
    var mid := ToolsRun(states, before);
    ToolsRunConcat(states, before, [t]);
    ToolsRunConcat(states, before, [head, tail]);
    CutFragmentSteps(mid, t, head, tail);
    ToolsRunConcat(states, before + [t], after);
    ToolsRunConcat(states, before + [head, tail], after);
  }

  lemma {:induction false} CutFragmentSteps(states: map<int, ToolState>, t: ToolDelta, head: ToolDelta, tail: ToolDelta)
    requires t.index == head.index == tail.index
    requires forall s: ToolState :: ToolStep(ToolStep(s, head), tail) == ToolStep(s, t)
    ensures ToolsRun(states, [head, tail]) == ToolsRun(states, [t])
  {
    assert [t][..0] == [] && [head][..0] == [] && [head, tail][..1] == [head];
    assert ToolsRun(states, [head]) == ToolsStep(states, head);
    assert ToolsStep(ToolsStep(states, head), tail) == ToolsStep(states, t);
  }

  lemma {:induction false} ToolsRunConcat(states: map<int, ToolState>, a: seq<ToolDelta>, b: seq<ToolDelta>)
    ensures ToolsRun(states, a + b) == ToolsRun(ToolsRun(states, a), b)
  {
    if b == [] {
      assert a + b == a;
    } else {
      ToolsRunConcat(states, a, b[..|b| - 1]);
      assert (a + b)[..|a + b| - 1] == a + b[..|b| - 1];
    }
  }

  // ----- Unknown fields: the first value of each key -----

  /** Looking a key up in first-seen fields finds the value of the first object that has it. */
  lemma {:induction false} FirstSeenMeans(extras: seq<Fields>, key: string)
    ensures Get(FirstSeen(extras), key) == First(extras, (o: Fields) => Get(o, key))
  {
    if extras != [] {
      FirstSeenMeans(extras[..|extras| - 1], key);
      GetInsertAbsent(FirstSeen(extras[..|extras| - 1]), extras[|extras| - 1], key);
    }
  }

  /** Filling in absent keys never replaces a value and takes the first offered one. */
  lemma {:induction false} GetInsertAbsent(target: Fields, extra: Fields, key: string)
    ensures Get(InsertAbsent(target, extra), key) == FirstWins(Get(target, key), Get(extra, key))
  {
    if extra != [] {
      var n := |extra| - 1;
      var init, f := extra[..n], extra[n];
      GetInsertAbsent(target, init, key);
      assert extra == init + [f];
      GetSnoc(init, f, key);
      GetSnoc(InsertAbsent(target, init), f, key);
    }
  }

  /** A field added at the end is seen only if its key is new. */
  lemma {:induction false} GetSnoc(o: Fields, f: Field, key: string)
    ensures Get(o + [f], key) == if Has(o, key) then Get(o, key) else if key == f.key then Some(f.value) else None
  {
    var j := IndexOf(o, key);
    IndexOfIs(o + [f], key, if j < |o| || key == f.key then j else |o| + 1);
  }

  // ----- Custom tool calls -----

  /** The text of one member of an object-shaped payload, or nothing. */
  function MemberText(payload: Option<Json>, member: string): string {
    match payload
    case Some(Obj(fields)) => (match Get(fields, member) case Some(Str(text)) => text case _ => "")
    case _ => ""
  }

  function CustomText(extra: Fields, member: string): string {
    MemberText(Get(extra, "custom"), member)
  }

  /** The payload is absent, null, or an object whose `member` is absent, null or a string. */
  ghost predicate MemberShaped(payload: Option<Json>, member: string) {
    match payload
    case None => true
    case Some(Obj(fields)) =>
      UniqueKeys(fields) && (match Get(fields, member) case None => true case Some(v) => v.Null? || v.Str?)
    case Some(v) => v.Null?
  }

  ghost predicate CustomShaped(extra: Fields, member: string) {
    UniqueKeys(extra) && MemberShaped(Get(extra, "custom"), member)
  }

  lemma {:induction false} MemberTextMerged(acc: Json, delta: Json, member: string)
    requires MemberShaped(Some(acc), member) && MemberShaped(Some(delta), member) && !ReplacedKey(member)
    ensures MemberShaped(Some(MergeValue(acc, delta)), member)
    ensures MemberText(Some(MergeValue(acc, delta)), member) == MemberText(Some(acc), member) + MemberText(Some(delta), member)
  {
    if acc.Obj? && delta.Obj? {
      DeltaMergeLaws.GetMerged(acc.fields, delta.fields, member);
      DeltaMergeLaws.KeysMerged(acc.fields, delta.fields);
    }
  }

  lemma {:induction false} MemberTextCombined(acc: Option<Json>, delta: Option<Json>, key: string, member: string)
    requires MemberShaped(acc, member) && MemberShaped(delta, member) && !ReplacedKey(key) && !ReplacedKey(member)
    ensures var merged := DeltaMergeLaws.Combine(key, acc, delta);
            MemberShaped(merged, member) && MemberText(merged, member) == MemberText(acc, member) + MemberText(delta, member)
  {
    if acc.Some? && delta.Some? {
      MemberTextMerged(acc.value, delta.value, member);
    }
  }

  lemma {:induction false} CustomTextMerged(acc: Fields, delta: Fields, member: string)
    requires CustomShaped(acc, member) && CustomShaped(delta, member) && !ReplacedKey(member)
    ensures CustomShaped(MergeFields(acc, delta), member)
    ensures CustomText(MergeFields(acc, delta), member) == CustomText(acc, member) + CustomText(delta, member)
  {
    DeltaMergeLaws.GetMerged(acc, delta, "custom");
    DeltaMergeLaws.KeysMerged(acc, delta);
    MemberTextCombined(Get(acc, "custom"), Get(delta, "custom"), "custom", member);
  }

  /** The `custom` payload folds through the generic merge to the concatenation of its members. */
  lemma {:induction false} CustomTextRun(fragments: seq<ToolDelta>, member: string)
    requires forall i :: 0 <= i < |fragments| ==> CustomShaped(fragments[i].extra, member)
    requires !ReplacedKey(member)
    ensures CustomShaped(ToolOf(fragments).extra, member)
    ensures CustomText(ToolOf(fragments).extra, member) == Joined(fragments, (t: ToolDelta) => CustomText(t.extra, member))
  {
    if fragments != [] {
      var init, last := fragments[..|fragments| - 1], fragments[|fragments| - 1];
      CustomTextRun(init, member);
      assert fragments == init + [last];
      ToolOfSnoc(init, last);
      CustomTextMerged(ToolOf(init).extra, last.extra, member);
    }
  }
}
