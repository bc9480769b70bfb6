# Verified model of the client's protocol engines

A Dafny model of the stateful parts of the Rust client and its specification tooling, with proofs
about every input, every run and every reachable state:

- the **chat chunk fold** (`DeltaMerge*`, `DeltaGrowth`, `DeltaArrays`, `Lanes`, `ChatFold*`, `ChatAccumulator`,
  `ChatSnapshot`, `CompletionMeaning`): a stream of chunks is reduced in place to one completion; the reducer is proved
  equal to a closed form of the whole history, and every key of the completion is read off that history;
- the **event-stream decoder and the chat stream** (`Sse*`, `Utf8Meaning`, `ChatStream`, `ChatMeaning`, `ChatCollect`):
  bytes to frames to chunks to a completion, independent of how the transport cuts the bytes, and every item of a
  stream read off the blocks of its body;
- the **provenance tooling** (`Calendar`, `Text`, `Timestamp`, `JsonString`, `JsonForms`, `ManifestText`, `Manifest`,
  `ManifestMeaning`, `Drift`, `DriftLaws`, `DriftLists`): the date formula against a calendar walked day by day, a
  printer and a parser that undo each other and what each of them accepts and writes, and the differ of two API
  descriptions with what each of its lists means;
- the **administration request engine** (`AdminRetry`, `AdminDelays`, `AdminQuery`, `AdminBody`): retries under one
  deadline and the waits between them read off the headers, query flattening and bounded reading;
- the **beta WebSocket session** (`BetaSocket`, `BetaConnect`): the connection under any calls, frames and
  faults, and the initial connection loop.

`Json`, `Octets`, `Sequences` and `Ordering` are shared. Methods and classes follow the in-place code; each is tied by its
`ensures` to a function of the inputs or of the old state, and the lemmas are about those functions. A loop over an
ordered map is a loop over the ascending sequence of its keys. `dafny verify dfyconfig.toml` checks everything.

Inputs that come from outside are parameters over which every statement quantifies: the JSON text parser and the
typed chunk decoder (`Codec`), the number printer of the query encoder, the clock, the replies and the wall-clock
fraction of each turn (`turns`), the frames and the success of each write (`Wire`), the event decoder (`Rules`), the
pinned constants of the provenance manifest (`Pins`), its leading comment lines (`notes`) and the table of printable
characters beyond ASCII (`shown`).

## Where the code and what is said about it differ

- A failed write is documented to retire the WebSocket, and a failed `send` does; a failed `close` returns before it
  marks the connection (`beta_responses.rs:1242-1248`), so the connection stays open. `WriteFaultRetires` gives the
  exact condition and `FailedCloseStaysOpen` a whole family of runs.
- The reconnect policy is documented as at most `1 + max_retries` handshakes. A credential refresh adds one:
  `ExtraHandshake` says for which scripts of replies, and `RefreshCostsOne` shows it without any retries.
- The manifest printer quotes as Rust debug text and the parser reads JSON text. They agree exactly on printable
  characters, tab, line feed and carriage return (`QuotingAgrees`); a manifest with any other character prints to a text
  that is rejected, never to one that parses to another manifest (`ManifestRoundTrip`).
- A fresh manifest passes its own check exactly before year 10000 (`FreshManifestVerifies`).
- Batching deltas is not an unconditional law of the merge: `BatchingNeedsItsConditions` shows two failures, `BatchValue`
  gives the exact condition wherever arrays are appended, and `BatchEntries` a condition for object arrays.
- An overstated declared length makes the bounded read refuse a body that fits; `DeclaredLength` says exactly when.

## Model

| member | source | states |
|---|---|---|
| `DeltaMerge.MergeDeltaObject` | crates/openai-rs-client/src/chat_accumulator.rs:660-675 | the object loop computes `MergeFields`, whose lookups, key order, growth and batching are proved below |
| `DeltaMerge.MergeDeltaValue` | crates/openai-rs-client/src/chat_accumulator.rs:677-699 | the value merge computes `MergeValue`, by kinds of the two sides |
| `DeltaMerge.MergeDeltaArray` | crates/openai-rs-client/src/chat_accumulator.rs:701-730 | scalar arrays are appended, object arrays merged by `index`, entries without one skipped |
| `DeltaMergeLaws.NullIsIdentity` | crates/openai-rs-client/src/chat_accumulator.rs:677-699 | JSON null is a two-sided identity |
| `DeltaMergeLaws.GetMerged` | crates/openai-rs-client/src/chat_accumulator.rs:660-675 | looking up any key after a merge combines the two lookups |
| `DeltaMergeLaws.MergedAt` | crates/openai-rs-client/src/chat_accumulator.rs:660-699 | what is under each key after a merge, by kinds: `index` and `type` replaced, texts joined, numbers summed, objects and arrays merged, any other delta ignored |
| `DeltaMergeLaws.ArrayMerged` | crates/openai-rs-client/src/chat_accumulator.rs:701-730 | one entry of an array delta: appended to scalars, merged at or appended for its `index`, skipped without one |
| `DeltaMergeLaws.KeysMerged` | crates/openai-rs-client/src/chat_accumulator.rs:660-675 | known keys keep their places, new ones follow in the delta's order, and keys stay unique |
| `DeltaMergeLaws.MergeValueWellFormed` | crates/openai-rs-client/src/chat_accumulator.rs:677-699 | merging keeps keys unique at every depth |
| `DeltaMergeLaws.NeutralMeans` | crates/openai-rs-client/src/chat_accumulator.rs:677-730 | a merge changes nothing if and only if the delta is empty, zero, of another kind, or an object of known keys that change nothing |
| `DeltaMergeLaws.BatchValue` | crates/openai-rs-client/src/chat_accumulator.rs:656-753 | wherever arrays that meet are appended, merging two deltas in turn equals merging their merge if and only if no delta of a rejected kind hides a later one that changes something and sums leave the integer words alike, at every depth |
| `DeltaMergeLaws.BatchFields` | crates/openai-rs-client/src/chat_accumulator.rs:656-753 | the same if-and-only-if for objects, key order included |
| `DeltaMergeLaws.SumsAgreeMeans` | crates/openai-rs-client/src/chat_accumulator.rs:736-753 | two groupings of a sum agree if and only if both or neither stay within the integer words |
| `DeltaMergeLaws.SumMeans` | crates/openai-rs-client/src/chat_accumulator.rs:736-753 | a sum is an integer if and only if both addends are and they and the sum share one 64-bit word, unsigned or signed |
| `DeltaMergeLaws.OneKindBatches` | crates/openai-rs-client/src/chat_accumulator.rs:656-753 | deltas whose paths keep one kind, with non-negative totals within 64 bits and scalar arrays, always batch |
| `DeltaArrays.DenseMerge` | crates/openai-rs-client/src/chat_accumulator.rs:701-730 | merging entries whose positions are their indices merges position by position |
| `DeltaArrays.BatchEntries` | crates/openai-rs-client/src/chat_accumulator.rs:701-730 | object arrays batch when the first delta is dense, no index of the second jumps past it and every entry batches where it meets both |
| `DeltaMergeLaws.BatchingNeedsItsConditions` | crates/openai-rs-client/src/chat_accumulator.rs:677-730 | two concrete triples for which batching changes the result |
| `DeltaGrowth.MergeValueGrows` | crates/openai-rs-client/src/chat_accumulator.rs:660-730 | one merge loses nothing: kinds kept, strings and arrays extended, keys kept in place |
| `DeltaGrowth.GrowsAt` | crates/openai-rs-client/src/chat_accumulator.rs:660-730 | growth seen from any path without `index` and `type` keys |
| `DeltaGrowth.RunGrows` | crates/openai-rs-client/src/chat_accumulator.rs:660-730 | along any run of deltas, what was at such a path is still there at every later point |
| `DeltaGrowth.MergeEntryDense` | crates/openai-rs-client/src/chat_accumulator.rs:701-730 | merging one entry keeps position equal to index if and only if the index is absent or at most the length |
| `DeltaGrowth.DenseThroughoutIffNoJump` | crates/openai-rs-client/src/chat_accumulator.rs:701-730 | over a whole delta, density holds at every moment if and only if no index jumps past the end |
| `Lanes.FirstMeans` | crates/openai-rs-client/src/chat_accumulator.rs:276-298 | a first-wins lane holds the value of the earliest event that carries one |
| `Lanes.LastMeans` | crates/openai-rs-client/src/chat_accumulator.rs:299-308 | a last-wins lane holds the value of the latest event that carries one |
| `ChatFold.InsertFirstSeen` | crates/openai-rs-client/src/chat_accumulator.rs:640-644 | the insertion loop computes `InsertAbsent`, whose lookups `GetInsertAbsent` describes |
| `ChatAccumulator.ObserveTool` | crates/openai-rs-client/src/chat_accumulator.rs:506-530 | one fragment updates id, kind, name, arguments and extras of its call as `ToolStep` |
| `ChatAccumulator.ObserveTools` | crates/openai-rs-client/src/chat_accumulator.rs:400-405 | fragments go to the call of their index, in order |
| `ChatAccumulator.ObserveText` | crates/openai-rs-client/src/chat_accumulator.rs:367-386 | content and refusal grow by the delta, and an explicit null refusal is remembered |
| `ChatAccumulator.ObserveLogprobs` | crates/openai-rs-client/src/chat_accumulator.rs:341-355 | token lists are extended in order |
| `ChatAccumulator.ObserveLegacy` | crates/openai-rs-client/src/chat_accumulator.rs:387-399 | the legacy name is kept from its first value, the arguments concatenated |
| `ChatAccumulator.ObserveChoice` | crates/openai-rs-client/src/chat_accumulator.rs:335-407 | one delta updates all lanes of its choice as `ChoiceStep` |
| `ChatAccumulator.ObserveOnce` | crates/openai-rs-client/src/chat_accumulator.rs:280-298 | id, created, model, tier and moderation keep their first value |
| `ChatAccumulator.ObserveTop` | crates/openai-rs-client/src/chat_accumulator.rs:276-314 | one chunk updates the top-level fields as `TopStep` |
| `ChatAccumulator.ObserveChoices` | crates/openai-rs-client/src/chat_accumulator.rs:107-112 | deltas go to the choice of their index, in order |
| `ChatAccumulator.ObserveChunk` | crates/openai-rs-client/src/chat_accumulator.rs:101-113 | folding one more chunk keeps the state equal to the closed form of the longer history |
| `ChatAccumulator.TopOfSnoc` | crates/openai-rs-client/src/chat_accumulator.rs:276-314 | one more chunk in the closed form of the top level is one step |
| `ChatAccumulator.ToolOfSnoc` | crates/openai-rs-client/src/chat_accumulator.rs:506-530 | the same for the fragments of a tool call |
| `ChatAccumulator.ChoiceOfSnoc` | crates/openai-rs-client/src/chat_accumulator.rs:335-407 | the same for the deltas of a choice, all ten lanes |
| `ChatAccumulator.ChoicesOfConcat` | crates/openai-rs-client/src/chat_accumulator.rs:107-112 | running the per-index steps over more deltas gives the closed form of all deltas, grouped by index |
| `ChatAccumulator.Accumulator.constructor` | crates/openai-rs-client/src/chat_accumulator.rs:91-93 | a new accumulator is the closed form of the empty history |
| `ChatAccumulator.Accumulator.Push` | crates/openai-rs-client/src/chat_accumulator.rs:101-113 | after any pushes every field is the closed form of the whole history: concatenations, first values, last values, foreign chunks left out |
| `ChatAccumulator.Accumulator.MarkDone` | crates/openai-rs-client/src/chat_accumulator.rs:175-177 | only the done mark changes |
| `ChatAccumulator.Accumulator.IsDone` | crates/openai-rs-client/src/chat_accumulator.rs:169-171 | done if and only if marked or some delta of the history carried a stop reason |
| `ChatAccumulator.StopReasonSeen` | crates/openai-rs-client/src/chat_accumulator.rs:169-171 | some choice holds a stop reason if and only if some delta carried one |
| `ChatFoldLaws.ForeignChunkVanishes` | crates/openai-rs-client/src/chat_accumulator.rs:101-106 | a chunk with a foreign object kind anywhere in a run changes nothing |
| `ChatFoldLaws.InterleavingInvariance` | crates/openai-rs-client/src/chat_accumulator.rs:107-112 | runs with the same order of deltas per choice index fold to the same choices |
| `ChatFoldLaws.ToolInterleavingInvariance` | crates/openai-rs-client/src/chat_accumulator.rs:400-405 | within a choice, fragments of different tool calls may interleave, move between deltas and travel in deltas of their own |
| `ChatFoldLaws.ToolRunInvariance` | crates/openai-rs-client/src/chat_accumulator.rs:101-113 | the same over whole runs of chunks with any number of choices |
| `ChatFoldLaws.CutContentInvariance` | crates/openai-rs-client/src/chat_accumulator.rs:367-372 | cutting a content text anywhere in a run, from any state, changes nothing |
| `ChatFoldLaws.CutRefusalInvariance` | crates/openai-rs-client/src/chat_accumulator.rs:373-386 | the same for refusal texts |
| `ChatFoldLaws.CutLegacyInvariance` | crates/openai-rs-client/src/chat_accumulator.rs:387-399 | the same for legacy arguments |
| `ChatFoldLaws.CutToolInvariance` | crates/openai-rs-client/src/chat_accumulator.rs:506-530 | cutting tool-call arguments within a list of fragments changes no tool call |
| `ChatFoldLaws.CutToolRunInvariance` | crates/openai-rs-client/src/chat_accumulator.rs:400-405 | cutting tool-call arguments between two deltas of a run, from any state, changes nothing |
| `ChatFoldLaws.FirstSeenMeans` | crates/openai-rs-client/src/chat_accumulator.rs:309-313 | an unknown field holds the value of the first chunk that has it |
| `ChatFoldLaws.GetInsertAbsent` | crates/openai-rs-client/src/chat_accumulator.rs:640-644 | filling in absent keys replaces nothing and takes the first value offered |
| `ChatFoldLaws.CustomTextRun` | crates/openai-rs-client/src/chat_accumulator.rs:596-615 | the members of custom payloads fold through the generic merge to their concatenation |
| `ChatSnapshot.FoldedKeysAreWords` | crates/openai-rs-client/src/chat_accumulator.rs:107-112 | folded choices have 32-bit indices |
| `ChatSnapshot.ChoicesAscend` | crates/openai-rs-client/src/chat_accumulator.rs:233-237 | the snapshot lists every choice once, by strictly ascending index |
| `ChatSnapshot.ToolCallsAscend` | crates/openai-rs-client/src/chat_accumulator.rs:453-459 | the snapshot lists exactly the representable tool calls, once each, by ascending index |
| `ChatSnapshot.PassthroughOnlyAdds` | crates/openai-rs-client/src/chat_accumulator.rs:207-258 | for every state the object with passthrough has every key of the one without, with the same value, through choices, messages and tool calls |
| `ChatSnapshot.ChoicePassthrough` | crates/openai-rs-client/src/chat_accumulator.rs:409-429 | the same for one choice |
| `ChatSnapshot.MessagePassthrough` | crates/openai-rs-client/src/chat_accumulator.rs:431-477 | the same for one message |
| `ChatSnapshot.CallsPassthrough` | crates/openai-rs-client/src/chat_accumulator.rs:532-564 | the same for tool calls, with the same number and order |
| `ChatSnapshot.CustomCallSnapshot` | crates/openai-rs-client/src/chat_accumulator.rs:532-615 | a custom call's name and input are the in-order concatenations of what its fragments carried, with or without passthrough |
| `CompletionMeaning.CallReads` | crates/openai-rs-client/src/chat_accumulator.rs:532-615 | every key of one tool call, of whichever kind, as the first or the joined value of its fragments |
| `CompletionMeaning.CallsRead` | crates/openai-rs-client/src/chat_accumulator.rs:450-458 | the listed calls are those announced by a kind or a function payload, by ascending index, each read off its own fragments |
| `CompletionMeaning.MessageReads` | crates/openai-rs-client/src/chat_accumulator.rs:431-477 | role, content, refusal, tool calls and function call of a message, read off the deltas of its choice, null or absent where no delta has one |
| `CompletionMeaning.ChoiceReads` | crates/openai-rs-client/src/chat_accumulator.rs:409-429 | index, message, logprobs and finish reason of a choice, read off its deltas |
| `CompletionMeaning.TopReads` | crates/openai-rs-client/src/chat_accumulator.rs:207-258 | id, created, model, object, tier, fingerprint, usage and moderation as the first or the last value of the accepted chunks |
| `CompletionMeaning.SnapshotMeans` | crates/openai-rs-client/src/chat_accumulator.rs:207-258 | the whole object of any history, with or without passthrough: exactly these keys from the accepted chunks, and one such choice per index, ascending |
| `CompletionMeaning.CollectedMeans` | crates/openai-rs-client/src/chat_accumulator.rs:191-258 | a collected completion is such an object of the past and the delivered chunks |
| `SseFormat.BodySplits` | crates/openai-rs-client/src/sse.rs:417-444 | a body of lines ended by LF, CRLF or CR in any mixture, with or without an unterminated last line, splits into exactly those lines |
| `SseFormat.EveryBodyIsSeparated` | crates/openai-rs-client/src/sse.rs:417-444 | every body can be written so |
| `SseMeaning.FieldReads` | crates/openai-rs-client/src/sse.rs:469-479 | each way to write a field reads back as its name and value, and a leading colon is a comment |
| `SseMeaning.NamesAreText` | crates/openai-rs-client/src/sse.rs:484-538 | the four field names as text |
| `SseMeaning.FieldsSay` | crates/openai-rs-client/src/sse.rs:484-538 | what the line of each field contributes for any value: an id with a NUL and a retry that is not a word of digits contribute nothing |
| `SseMeaning.BlockMeans` | crates/openai-rs-client/src/sse.rs:446-538 | the lines of a block are taken if and only if each is short and valid UTF-8 and the data is within its limits; then the event under construction is made of their fields |
| `SseMeaning.ClosedBlockMeans` | crates/openai-rs-client/src/sse.rs:540-557 | a blank line emits the data values joined by line feeds, the last event name, the last accepted id and the last retry time, if there is data |
| `SseMeaning.FramesMean` | crates/openai-rs-client/src/sse.rs:446-557 | any blocks: the decoder gets through if and only if it takes all and no frame stops it, and emits the frames of the blocks in order |
| `SseMeaning.EveryBodyHasBlocks` | crates/openai-rs-client/src/sse.rs:446-457 | all lines fall into blocks ended by blank lines and a last one |
| `SseMeaning.StreamMeans` | crates/openai-rs-client/src/sse.rs:787-997 | a whole input whose blocks are taken delivers their events in order, the unended one included, up to the first that stops the stream |
| `SseMeaning.FailureMeans` | crates/openai-rs-client/src/sse.rs:446-538 | a body with a line that is not taken delivers the events of the blocks before it and fails with what is wrong with that line, whatever follows |
| `SseMeaning.TakenOrSpoiled` | crates/openai-rs-client/src/sse.rs:446-557 | every body is of one of these two forms |
| `Utf8Meaning.Utf8Means` | crates/openai-rs-client/src/sse.rs:457-460 | a line is accepted as text if and only if it is the encoding of some scalar values, section 3 of RFC 3629 |
| `Utf8Meaning.FaultMeans` | crates/openai-rs-client/src/sse.rs:457-460 | a reported fault lies right after the longest beginning that is encoded text |
| `Utf8Meaning.CutShortMeans` | crates/openai-rs-client/src/sse.rs:457-460 | a fault has no length if and only if the rest of the line begins the encoding of one scalar value |
| `Utf8Meaning.MarkMeans` | crates/openai-rs-client/src/sse.rs:397-415 | exactly the encoding of U+FEFF is removed from the beginning of a body |
| `SseFormat.RunLinesConcat` | crates/openai-rs-client/src/sse.rs:446-496 | processing lines in two batches is processing them in one |
| `SseDecoding.FeedConcat` | crates/openai-rs-client/src/sse.rs:348-358 | feeding two pieces is feeding their concatenation, including a split byte-order mark, a split CRLF and the first error |
| `SseDecoding.SseDecoder.constructor` | crates/openai-rs-client/src/sse.rs:234-248 | a new decoder is active and holds nothing |
| `SseDecoding.SseDecoder.Push` | crates/openai-rs-client/src/sse.rs:291-299 | the buffering decoder emits what feeding the bytes computes; an error is fail-stop and releases what was held |
| `SseDecoding.SseDecoder.PushSlice` | crates/openai-rs-client/src/sse.rs:348-358 | one slice, with the limit on an incomplete line |
| `SseDecoding.SseDecoder.DrainCompleteLines` | crates/openai-rs-client/src/sse.rs:377-395 | every complete line of the buffer is processed once and the rest is kept |
| `SseDecoding.SseDecoder.NextLine` | crates/openai-rs-client/src/sse.rs:417-444 | the resumable search finds the first line end of the buffer |
| `SseDecoding.SseDecoder.EnsureBomChecked` | crates/openai-rs-client/src/sse.rs:397-415 | a byte-order mark is removed once, when enough bytes are there to tell |
| `SseDecoding.SseDecoder.Finish` | crates/openai-rs-client/src/sse.rs:312-331 | the end of input emits the last line and the pending event |
| `SseDecoding.SseDecoder.Close` | crates/openai-rs-client/src/sse.rs:333-338 | closing releases what was held |
| `SseStream.SseStreamDecoder.PushWithFlushed` | crates/openai-rs-client/src/sse.rs:849-887 | the dispatches are those of feeding the chunk, up to the terminal frame; events before a framing error are kept with it |
| `SseStream.SseStreamDecoder.FeedLine` | crates/openai-rs-client/src/sse.rs:872-882 | one push of at most a line dispatches what feeding it emits |
| `SseStream.SseStreamDecoder.ClassifyFrames` | crates/openai-rs-client/src/sse.rs:970-997 | frames are dispatched up to and including the first terminal one, which closes the decoder |
| `SseStream.SseStreamDecoder.FinishWithFlushed` | crates/openai-rs-client/src/sse.rs:920-952 | the end of input flushes its events even when the missing terminal makes it a failure |
| `SseStream.DecoderIsReference` | crates/openai-rs-client/src/sse.rs:787-997 | feeding an input and ending it equals a reference that splits the whole input into lines at once |
| `ChatStream.YieldAll` | crates/openai-rs-client/src/chat_stream.rs:106-125 | the dispatches of one push are decoded and yielded up to the first failure |
| `ChatStream.DeliverMeans` | crates/openai-rs-client/src/chat_stream.rs:90-167 | delivery is in order, nothing skipped, nothing twice, and only the last item can be a failure |
| `ChatStream.OutputShape` | crates/openai-rs-client/src/chat_stream.rs:90-167 | every stream yields chunks followed by at most one error, which is last |
| `ChatMeaning.ItemMeans` | crates/openai-rs-client/src/chat_stream.rs:242-277 | what one dispatch yields, by `parse` and `typed` alone: a remote error if and only if it is dispatched as one or its object has an `error` other than null, false, zero, "", [] and {}; else the typed value, else a decode error |
| `ChatMeaning.OutputMeans` | crates/openai-rs-client/src/chat_stream.rs:90-167 | an error-free stream yields the typed values of its dispatches in order, and the last item is a remote error exactly when the first failing dispatch is of that form |
| `ChatStream.DriveChunk` | crates/openai-rs-client/src/chat_stream.rs:94-133 | one transport chunk: its dispatches are delivered before a framing error, and a stopped stream has yielded its whole output |
| `ChatStream.DriveEnd` | crates/openai-rs-client/src/chat_stream.rs:140-166 | the end of the body: flushed dispatches are delivered before the error |
| `ChatStream.Drive` | crates/openai-rs-client/src/chat_stream.rs:90-167 | the generator yields exactly the output of the bytes received, whatever the chunks |
| `ChatStream.ChatEvents` | crates/openai-rs-client/src/chat_stream.rs:66-172 | the same under the legacy policy of chat streams |
| `ChatMeaning.ChatStreamMeans` | crates/openai-rs-client/src/chat_stream.rs:66-167 | the whole stream from the blocks of its body: the items of the frames in order, ended by `[DONE]`, by an error, or by the end of the body as a failure |
| `ChatMeaning.ChatStreamBreaks` | crates/openai-rs-client/src/chat_stream.rs:66-167 | the same for a body with a line that is not taken: the items before it, and a failure with what is wrong with it |
| `ChatCollect.Finish` | crates/openai-rs-client/src/chat_accumulator.rs:191-205 | refused if and only if nothing terminal was seen; otherwise the snapshot of the closed form |
| `ChatCollect.CollectWith` | crates/openai-rs-client/src/chat_stream.rs:213-222 | the first error aborts, otherwise the completion of the past and all delivered chunks |
| `ChatCollect.CollectFinal` | crates/openai-rs-client/src/chat_stream.rs:197-199 | end to end from transport arrivals to the completion |
| `ChatCollect.CollectSucceeds` | crates/openai-rs-client/src/chat_stream.rs:213-222 | success if and only if no item is an error and some chunk was accepted; then every chunk is folded |
| `ChatCollect.CollectIgnoresChunking` | crates/openai-rs-client/src/chat_stream.rs:197-222 | the completion depends only on the bytes of the body |
| `Calendar.CivilIsCalendar` | xtask/src/spec.rs:836-858 | the closed-form date of every day is the one reached by stepping Gregorian days from 1970-01-01, and is valid |
| `Calendar.EraPeriod` | xtask/src/spec.rs:843-849 | 146097 days later is exactly 400 years later |
| `Calendar.LaterDaysLaterDates` | xtask/src/spec.rs:836-858 | later days have later dates |
| `Timestamp.TimestampShape` | xtask/src/spec.rs:836-858 | ASCII, ending in `Z`, and 20 characters if and only if before year 10000 |
| `Timestamp.TimestampReads` | xtask/src/spec.rs:836-858 | any timestamp reads back: its date is the calendar date of the day and its clock fields are the second of the day |
| `Timestamp.TimestampSlices` | xtask/src/spec.rs:836-858 | before year 10000 the same at fixed positions, separators included |
| `Timestamp.TimestampOrder` | xtask/src/spec.rs:836-858 | before year 10000 string order is time order |
| `Timestamp.FourDigitYears` | xtask/src/spec.rs:836-858 | the exact second at which years stop having four digits |
| `Text.PaddedReadsBack` | xtask/src/spec.rs:857-857 | a printed number reads back as itself, at every width |
| `JsonString.QuotingAgrees` | xtask/src/spec.rs:597-625 | JSON reads the debug quoting of a text back if and only if every character is printable, tab, line feed or carriage return, and rejects it otherwise |
| `JsonForms.StringsMean` | xtask/src/spec.rs:597-625 | the reader accepts exactly the JSON strings with blanks around them, section 7 of RFC 8259, and returns what they write |
| `JsonForms.EscapeMeans` | xtask/src/spec.rs:418-464 | how debug quoting writes each character: as itself, with one letter, or by its lower-case hexadecimal number |
| `ManifestText.LinesUnlines` | xtask/src/spec.rs:477-477 | splitting printed lines gives the lines back |
| `ManifestText.ReadTables` | xtask/src/spec.rs:472-512 | the parsing loop computes the fold of one line at a time, with its four errors |
| `ManifestText.ReadEntries` | xtask/src/spec.rs:496-511 | printed entries with different keys are read back into the table they came from |
| `Manifest.ParseManifest` | xtask/src/spec.rs:472-595 | the parser computes `Parse` for every input, error cases included |
| `Manifest.AssembleBack` | xtask/src/spec.rs:547-572 | the table of the printed fields assembles to the same fields if and only if every text is portable, and is rejected otherwise |
| `Manifest.OnlyMatch` | xtask/src/spec.rs:525-539 | sources with other ids are passed over |
| `Manifest.UnreadableId` | xtask/src/spec.rs:525-532 | a source whose id cannot be read fails the whole parse |
| `Manifest.FieldsRoundTrip` | xtask/src/spec.rs:418-595 | printing any distinct fields, followed by other sources, and parsing gives the fields back if and only if every text is portable, and an error otherwise |
| `Manifest.ManifestRoundTrip` | xtask/src/spec.rs:418-595 | a printed manifest, followed by any well-formed sources with other ids, parses back to itself if and only if its texts are portable, and is rejected otherwise |
| `ManifestMeaning.PrintedLines` | xtask/src/spec.rs:418-464 | the printed manifest line by line: each of the eighteen keys with the field it belongs to |
| `ManifestMeaning.NumbersMean` | xtask/src/spec.rs:627-650 | a number is accepted if and only if it is a decimal with any leading zeros and perhaps a plus sign that fits a machine word |
| `ManifestMeaning.SelectMeans` | xtask/src/spec.rs:510-595 | the selection succeeds if and only if every source has a readable id, exactly one has the wanted id, and that one holds a value of the right kind under every known key and has no other |
| `ManifestMeaning.TrimMeans` | xtask/src/spec.rs:472-508 | exactly the white space at both ends of a line is dropped |
| `ManifestMeaning.WhiteSpaceMeans` | xtask/src/spec.rs:472-508 | white space is the Unicode property of that name |
| `ManifestMeaning.LineEnds` | xtask/src/spec.rs:472-480 | a line ends in a line feed or in a carriage return and a line feed |
| `Manifest.VerifyManifest` | xtask/src/spec.rs:652-772 | no problem is reported if and only if the manifest is the fresh one of its summary with a well-shaped time |
| `Manifest.NoProblemsMeans` | xtask/src/spec.rs:652-772 | the same for the list of problems: no field is left unchecked |
| `Manifest.FreshManifestVerifies` | xtask/src/spec.rs:393-416 | a fresh manifest is read back if and only if its texts are portable, and then passes the check if and only if made before year 10000 |
| `Drift.ComputeDrift` | xtask/src/drift.rs:151-303 | the three lists are the log of all changes, sorted by severity |
| `Drift.CompareOperation` | xtask/src/drift.rs:166-242 | the checks and the three parameter loops of a kept operation log its changes |
| `Drift.CompareLocations` | xtask/src/drift.rs:205-221 | moved parameters and newly declared locations |
| `Drift.CompareRequired` | xtask/src/drift.rs:223-230 | new required parameters |
| `Drift.CompareOptional` | xtask/src/drift.rs:232-241 | new optional parameters that were not required before |
| `Drift.CompareOldOperations` | xtask/src/drift.rs:163-260 | kept and removed operations |
| `Drift.CompareNewOperations` | xtask/src/drift.rs:262-277 | added operations |
| `Drift.CompareSchemas` | xtask/src/drift.rs:279-300 | added and removed schemas |
| `Drift.DriftReport.Push` | xtask/src/drift.rs:170-298 | a change goes to the end of the list of its severity |
| `DriftLaws.LogMeans` | xtask/src/drift.rs:163-300 | the log holds exactly the changes that are true of the two descriptions, and none twice |
| `DriftLaws.ReportMeans` | xtask/src/drift.rs:163-300 | each list holds exactly the true changes of its severity, each once across the lists |
| `DriftLists.ListsMean` | xtask/src/drift.rs:163-300 | each list holds exactly the true changes of its own kinds |
| `DriftLists.NoBreakingMeans` | xtask/src/drift.rs:163-318 | nothing is breaking if and only if what is gone was retired or, for an operation, deprecated, and every kept operation keeps route, statuses and locations and requires no more |
| `DriftLists.NoLifecycleMeans` | xtask/src/drift.rs:163-318 | nothing is on the lifecycle list if and only if no operation or schema of a retired family goes, no operation of one comes, no deprecated operation goes and none becomes deprecated |
| `DriftLists.NoAdditiveMeans` | xtask/src/drift.rs:163-318 | nothing is additive if and only if no operation outside the retired families, no schema, location or optional parameter is new |
| `DriftLaws.OneEntryEach` | xtask/src/drift.rs:243-300 | an added or removed operation or schema has exactly one entry across the three lists |
| `DriftLaws.EmptyReportMeans` | xtask/src/drift.rs:43-47 | the report is empty if and only if the second description keeps the first |
| `DriftLaws.NoDriftReflexive` | xtask/src/drift.rs:163-300 | nothing drifts from a description to itself |
| `DriftLaws.NoDriftTransitive` | xtask/src/drift.rs:163-300 | no drift over two steps is no drift |
| `DriftLaws.NoDriftBothWays` | xtask/src/drift.rs:163-300 | empty both ways if and only if ids, schemas, routes, statuses, locations, required sets, deprecation and optional parameters beyond the required ones are equal |
| `AdminRetry.Send` | crates/openai-rs-client/src/admin.rs:2422-2509 | the loop makes the run that the declarative `IsRun` describes |
| `AdminRetry.RunIsUnique` | crates/openai-rs-client/src/admin.rs:2426-2509 | replies and times decide the run: attempts, sleeps and outcome |
| `AdminRetry.AttemptMade` | crates/openai-rs-client/src/admin.rs:2426-2509 | attempt k is made if and only if every turn up to it starts in time and every earlier turn goes on |
| `AdminRetry.RunIsSafe` | crates/openai-rs-client/src/admin.rs:2426-2509 | at most 1 + max_retries attempts, none at or past the deadline nor given time past it, every sleep planned to end before it, one attempt when replay is off |
| `AdminRetry.ServerDelayIsObeyed` | crates/openai-rs-client/src/admin.rs:2484-2508 | a valid server delay is slept unshortened; a too-long one ends the run with that reply |
| `AdminDelays.SleepsMean` | crates/openai-rs-client/src/admin.rs:2422-2509 | after reply k the run sleeps d seconds if and only if retries are allowed and left, the status and headers call for a retry, d is what the headers ask for within the bound or else the local wait, and it ends in time |
| `AdminDelays.MillisecondsObeyed` | crates/openai-rs-client/src/transport.rs:827-890 | a millisecond header decides alone: slept as such up to the bound, ending the run beyond it, a local wait if not positive or not finite |
| `AdminDelays.SecondsObeyed` | crates/openai-rs-client/src/transport.rs:827-890 | without it, a header of seconds likewise |
| `AdminDelays.DateObeyed` | crates/openai-rs-client/src/transport.rs:827-890 | without a number of seconds, a date likewise |
| `AdminDelays.LocalWaitMeans` | crates/openai-rs-client/src/admin.rs:2828-2836 | the local wait starts at three eighths of a second, doubles four times, and the wall clock adds up to a third |
| `AdminDelays.PresetsMean` | crates/openai-rs-client/src/retry.rs:16-42 | which replies each preset sleeps after, in numbers |
| `AdminRetry.ValidDelayIsBounded` | crates/openai-rs-client/src/transport.rs:827-890 | a valid delay is positive and within the bound |
| `AdminRetry.SuccessMeans` | crates/openai-rs-client/src/admin.rs:2479-2482 | the run succeeds if and only if some attempt got a success status, and that attempt is the last |
| `AdminRetry.SleepsFitTheDeadline` | crates/openai-rs-client/src/admin.rs:2838-2843 | on any clock that runs forward, all sleeps together are shorter than the budget |
| `AdminRetry.BackoffIncreases` | crates/openai-rs-client/src/admin.rs:2828-2836 | local waits strictly increase over the first five retries whatever the jitter, and later stay within six to eight seconds |
| `AdminRetry.BackoffTotal` | crates/openai-rs-client/src/admin.rs:2828-2836 | n local waits total between three quarters of a bound and the bound, which is (2^n - 1) / 2 seconds up to five waits |
| `AdminRetry.LocalRunTotal` | crates/openai-rs-client/src/admin.rs:2426-2509 | a run whose replies ask for no delay sleeps no longer than that bound |
| `AdminRetry.PresetAttempts` | crates/openai-rs-client/src/retry.rs:16-42 | attempts under the three presets |
| `AdminRetry.MoreRetriesReplayNothing` | crates/openai-rs-client/src/retry.rs:44-58 | setting the retry count or the longest server delay never makes a forbidden replay possible |
| `AdminQuery.AppendQueryValue` | crates/openai-rs-client/src/admin.rs:2700-2728 | the recursive appender adds exactly the pairs of the value |
| `AdminQuery.AppendItems` | crates/openai-rs-client/src/admin.rs:2714-2719 | the items of an array go under the name with empty brackets |
| `AdminQuery.AppendFields` | crates/openai-rs-client/src/admin.rs:2720-2725 | the fields of an object go under the name with the key in brackets |
| `AdminQuery.EncodeQuery` | crates/openai-rs-client/src/admin.rs:2660-2673 | an object gives the pairs of its fields in order, anything else an error |
| `AdminQuery.QueryMeans` | crates/openai-rs-client/src/admin.rs:2660-2728 | a list of pairs is the result if and only if it reads the kept scalar leaves at their places, in document order, under their bracketed paths |
| `AdminQuery.BracketedNames` | crates/openai-rs-client/src/admin.rs:2700-2728 | the name of a place: the key of the query, then the key in brackets for each object and empty brackets for each array entered |
| `AdminQuery.PairIsSent` | crates/openai-rs-client/src/admin.rs:2660-2728 | a pair is sent if and only if some leaf of the query, neither null nor the empty text, has that text and that name |
| `AdminQuery.NoEmptyValue` | crates/openai-rs-client/src/admin.rs:2700-2728 | no pair has an empty value |
| `AdminQuery.PruneKeepsPairs` | crates/openai-rs-client/src/admin.rs:2700-2728 | pruning dropped leaves and empty containers at every depth changes no pair of a value |
| `AdminQuery.PrunedQuery` | crates/openai-rs-client/src/admin.rs:2660-2728 | nor of a query; and there are no pairs if and only if nothing is left |
| `AdminBody.ReadUpTo` | crates/openai-rs-client/src/admin.rs:2773-2789 | the chunked reader does what reading the whole body would: the first limit bytes, truncation, or the break |
| `AdminBody.ReadLimited` | crates/openai-rs-client/src/admin.rs:2736-2763 | the body is returned if and only if the declared length allows it, it fits and it is unbroken |
| `AdminBody.CutsArrive` | crates/openai-rs-client/src/admin.rs:2777-2788 | every way of cutting arrives as the same bytes and the same break |
| `AdminBody.CutsDoNotMatter` | crates/openai-rs-client/src/admin.rs:2773-2789 | however an unbroken body is cut, its first limit bytes are read, truncated exactly when there are more |
| `AdminBody.DeclaredLength` | crates/openai-rs-client/src/admin.rs:2736-2763 | the limited read is right if and only if the declared length does not overstate a body that fits |
| `BetaSocket.BetaResponsesWebSocket.constructor` | crates/openai-rs-client/src/beta_responses.rs:952-960 | a fresh connection is open and untouched |
| `BetaSocket.BetaResponsesWebSocket.Recv` | crates/openai-rs-client/src/beta_responses.rs:1141-1211 | the receive loop does the step `Receive` to the connection and its socket |
| `BetaSocket.BetaResponsesWebSocket.SendEvent` | crates/openai-rs-client/src/beta_responses.rs:1105-1125 | a send does the step `SendStep`: closed, encoding, stream id, size, write, in this order |
| `BetaSocket.BetaResponsesWebSocket.CloseSocket` | crates/openai-rs-client/src/beta_responses.rs:1242-1248 | a close does the step `CloseStep` |
| `BetaSocket.BetaResponsesWebSocket.Session` | crates/openai-rs-client/src/beta_responses.rs:1105-1248 | any sequence of calls is the run of its steps |
| `BetaSocket.ClosedForGood` | crates/openai-rs-client/src/beta_responses.rs:1105-1248 | after closing, every later call leaves the connection and the socket as they were and says so |
| `BetaSocket.ReceiveMeans` | crates/openai-rs-client/src/beta_responses.rs:1145-1211 | a receive passes over pings and pongs only and is decided by the frame it stops at |
| `BetaSocket.ReceiveReports` | crates/openai-rs-client/src/beta_responses.rs:1145-1211 | which result each frame gives, as an if-and-only-if for every result |
| `BetaSocket.SendReports` | crates/openai-rs-client/src/beta_responses.rs:1105-1143 | which result a send gives: the first complaint, or the success of its write |
| `BetaSocket.BadStreamIdMeans` | crates/openai-rs-client/src/responses_websocket.rs:604-630 | a send is refused for its stream id if and only if that is not a text of 1 to 256 ASCII letters, digits, underscores, dots and hyphens |
| `BetaSocket.Retires` | crates/openai-rs-client/src/beta_responses.rs:1105-1248 | a call retires an open connection if and only if it neither succeeds nor fails recoverably |
| `BetaSocket.RefusedUntouched` | crates/openai-rs-client/src/beta_responses.rs:1105-1117 | a send changes nothing if and only if a local check refuses it |
| `BetaSocket.WriteFaultRetires` | crates/openai-rs-client/src/beta_responses.rs:1118-1248 | a fault on the way out retires the connection if and only if the call is not a close |
| `BetaSocket.FailedCloseStaysOpen` | crates/openai-rs-client/src/beta_responses.rs:1242-1248 | after a failed close a good event is still written and reported as sent |
| `BetaSocket.SessionIsSound` | crates/openai-rs-client/src/beta_responses.rs:1105-1248 | in every session: a recorded close belongs to the last frame read and implies closed, only the last frame read can retire, and the delivered events are exactly the decodable texts read, in order |
| `BetaSocket.DeliveryStopsAtFirstRetiring` | crates/openai-rs-client/src/beta_responses.rs:1141-1211 | deliveries are a prefix of the decodable texts before the first retiring frame, and all of them once it has been read |
| `BetaSocket.CloseRecordedOnce` | crates/openai-rs-client/src/beta_responses.rs:1186-1193 | once a close is recorded no later call changes it or anything else |
| `BetaSocket.WrittenMeans` | crates/openai-rs-client/src/beta_responses.rs:1105-1125 | what reached the socket is what the sends accepted, in order, within the limit, with no write after a failed one |
| `BetaConnect.Connect` | crates/openai-rs-client/src/beta_responses.rs:918-985 | the loop makes the attempt that the declarative `IsAttempt` describes |
| `BetaConnect.AttemptIsUnique` | crates/openai-rs-client/src/beta_responses.rs:930-985 | replies decide the attempt |
| `BetaConnect.AttemptIsBounded` | crates/openai-rs-client/src/beta_responses.rs:930-985 | handshakes are bounded by the retries plus one, plus one with a refresh; at most one generation is given up, one that was refused; every pause is the configured one |
| `BetaConnect.HandshakeMade` | crates/openai-rs-client/src/beta_responses.rs:918-985 | the handshake after k others is made if and only if the configuration is accepted, the first k replies are transient failures within the retries or one refused credential among them, and a credential is had |
| `BetaConnect.FirstHandshake` | crates/openai-rs-client/src/beta_responses.rs:861-935 | a first handshake is made if and only if every setting is in range and a credential is had |
| `BetaConnect.SecondHandshake` | crates/openai-rs-client/src/responses_websocket.rs:681-703 | which first replies lead to a second handshake, by status, timeout and transport failure |
| `BetaConnect.ExtraHandshake` | crates/openai-rs-client/src/beta_responses.rs:961-968 | the documented count is exceeded if and only if the script begins with one refused refreshable credential and as many transient failures as retries, before a turn with a credential |
| `BetaConnect.RefreshCostsOne` | crates/openai-rs-client/src/beta_responses.rs:961-968 | without retries, a refused refreshable credential means two handshakes |
| `BetaConnect.EveryAttemptEnds` | crates/openai-rs-client/src/beta_responses.rs:861-985 | whatever the configuration, at most twelve handshakes and ten pauses of at most a minute, ten minutes in all; a refused configuration attempts nothing |
| `BetaConnect.BoundsAreReached` | crates/openai-rs-client/src/beta_responses.rs:861-985 | these bounds are reached by a server that never answers, with and without a refused credential first |
| `BetaConnect.FailureIsFinal` | crates/openai-rs-client/src/beta_responses.rs:961-982 | which errors are reported only after every retry, and which only after the refresh |

## Left out

- The typed decoding of the snapshot object and its fallback: the model ends at the JSON object that is built.
- Floating-point rounding of backoff delays, which are reals.
- The choice, tool-call and top-level states are owned values inside the accumulator class, not objects: no aliasing is modelled because they have a single owner.
- `async` suspension: the stream generator and the loops are modelled as whole runs; a consumer that stops early sees a prefix.
- DeltaMerge.MergeDeltaValue: sums that leave the integer words are exact reals, so rounding, and a sum that no floating-point number represents, are not modelled.
- DeltaMergeLaws.BatchValue: says nothing where all three arrays are not empty and the first delta brings objects; there `DeltaArrays.BatchEntries` is a sufficient condition, because later entries can undo what earlier ones changed.
- AdminRetry.SleepsFitTheDeadline: needs a clock that runs forward; the other retry statements hold for any clock readings.
- BetaSocket.BetaResponsesWebSocket.Recv: frames are a finite script followed by the end of the stream; a receive that never returns because heartbeats never end is not a run.
- The wording of the manifest's comment lines, its pinned constants and the Unicode table of printable characters are parameters.
- Error message wording, request ids and body previews.
- `recv_into`, the `finish_reason` and `close_code` accessors, and the reply metadata: thin readers of modelled state.
- `extract_operations`: the differ starts from the extracted maps and makes no claim about parameter precedence.
- List pages and the pagination helper, `completions.rs`, the other resource facades and operation tables: repetitions of modelled loops or thin wrappers.
- URL building and percent-encoding, TLS, proxies, headers, tracing, file access, SHA-256: plumbing.
- `cli.rs`, `codegen.rs`, `codex_compat.rs`: argument and line scanners.
