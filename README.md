# Streaming chat relay, its client hook, and the verse helpers

This project is a Dafny model of the chat path of an Arabic Orthodox-priest assistant, with
proofs about that model.

- **Relay.** The server route `POST /api/chat` submits the user's message to an upstream
  model job. The job sends cumulative snapshots, and the route turns them into incremental
  `thinking` and `response` chunks by diffing each snapshot against the last emitted text.
  Each chunk goes out as a `text/event-stream` record `event: E\ndata: J\n\n`. The stream
  ends with `done` on `completed`, with `error` on an upstream error, or with a forced `done`
  when the job runs out.
- **Consumer.** The React hook `sendMessage` reads that stream. It keeps a rolling buffer cut
  on `"\n\n"`, parses each record's `event:`/`data:` lines, and folds the events into the
  conversation: a thinking message, a response message, the accumulated response, and the
  loading flags. It throws on `error`, and its `catch` block appends an apology.
- **Helpers around the chat path:**
  - the bag-of-words embedder;
  - cosine-similarity ranking of the verse index, with the top five kept after a stable
    descending sort;
  - the per-message verse store with its de-duplications;
  - the script that flattens the Bible corpus into one record per verse.

Modules, one per file:

- `wrappers.dfy` `Wrappers`: `Option`.
- `sequences.dfy` `Sequences`: regrouping and cutting facts about concatenation.
- `js_string.dfy` `JsString`: the JavaScript string built-ins the core uses (`split`, `trim`,
  `\s`, `slice`, `startsWith`, ASCII `toLowerCase`, UTF-16 `length`, number-to-string).
- `json_text.dfy` `JsonText`: `JSON.stringify` of a string, and the reading back of its
  escapes.
- `chat_route.dfy` `ChatRoute`: the route (`app/api/chat/route.ts`). It includes the method
  `RunRelay`, which follows the `for await` loop with its trackers and flag. It also holds
  `ChatRouteFacts`, the properties of the relay and the corrected ending.
- `chat_consumer.dfy` `ChatConsumer`: the hook (`hooks/useChat-remote.ts`). It includes:
  - `ParseSseChunk`, the line loop;
  - `ReadLoop`, the buffer and read loop;
  - the event reducer `Apply`;
  - the history pairing;
  - `SendMessage`.
- `pipeline.dfy` `Pipeline`: the consumer reading the relay's own output. Assuming only that
  `JSON.parse` reads back what `JSON.stringify` wrote, it proves the following:
  - a completed job shows the latest response snapshot;
  - an upstream error or a job failure ends in the apology with the right error text;
  - the route's stream never leaves the reader spinning.
- `payload_reader.dfy` `PayloadReader`: a concrete reader of the route's JSON bodies, which meets the one assumption the pipeline theorems make of `JSON.parse`.
- `retrieval.dfy` `Retrieval`: both `findSimilarVerses` files. `lib/send-message/findSimilarVerses.ts` (lines 2-23) is the same algorithm as `actions/findSimilarVerses.ts`, without the `"use server"` directive and the logging and with a relative index URL, so the table cites the latter only.
- `embedding.dfy` `Embedding`: `getEmbedding` (`lib/send-message/getVector.ts`).
- `verses_context.dfy` `VersesContext`: the verse store (`contexts/verses-contexts.tsx`). The
  class `VerseStore` holds the two pieces of state.
- `convert_bible.dfy` `ConvertBible`: `scripts/convert_bible.py`. The method `Convert` keeps
  the nested loops.

How the outside world enters the model:

- The upstream job is an input sequence of `UpstreamEvent`s: data snapshots, status events,
  or a thrown error.
- The relay's output is the sequence of records it pushes.
- The hook receives the stream as the sequence of strings that its reads decode to.
- `JSON.parse` is a parameter `parse: string -> Option<Payload>`.
- The `Date.now()` message ids are a parameter `Ids`.
- `Math.sqrt` is a parameter `sqrt: real -> real`.
- Regular-expression matches are inputs.

## Model

| member | source | states |
|---|---|---|
| ChatRoute.FindPayload | app/api/chat/route.ts:60-61 | the index found is the first entry whose value is an array of length at least two, and None exactly when no entry has one |
| ChatRoute.PartText | app/api/chat/route.ts:66-67 | the field is the content of the first part of the requested kind; with no such part it is empty, and a non-empty field always comes from such a part |
| ChatRouteFacts.DecodeFails | app/api/chat/route.ts:58-64 | a data event yields no snapshot exactly when no entry carries an array payload, or the first one that does has a non-message second element |
| ChatRouteFacts.SkippedData | app/api/chat/route.ts:61-64 | a data event that does not decode changes neither tracker and pushes nothing |
| ChatRouteFacts.AdvanceChunk | app/api/chat/route.ts:67-77 | a chunk is emitted exactly when the new text is non-empty and differs from the last; otherwise the tracker keeps its value; an emitted chunk is the new text minus its first `|last|` characters, and completes the old text when the new one extends it |
| ChatRouteFacts.NonPrefixDiverges | app/api/chat/route.ts:68 | there is no resynchronisation: when the new text does not extend the last one, a chunk is still emitted and the old text plus the chunk is not the new text |
| ChatRouteFacts.StepOrder | app/api/chat/route.ts:66-78 | one snapshot appends at most two chunk records to the output and keeps what was pushed; with two, `thinking` comes before `response` |
| ChatRouteFacts.ChunksOfStep | app/api/chat/route.ts:66-78 | one snapshot adds to the chunks of a field exactly the chunk its tracker advance emits, and sets the tracker to the advance's value |
| ChatRouteFacts.TrackerIsLatest | app/api/chat/route.ts:69-76 | after any job prefix, each tracker holds the latest non-empty snapshot of its field |
| ChatRouteFacts.ChainedChunksConcat | app/api/chat/route.ts:66-78 | when each snapshot of a field extends the previous one, the concatenated chunks of that field equal its latest snapshot |
| ChatRouteFacts.ChainedChunksAddUp | app/api/chat/route.ts:66-78 | when each snapshot of a field extends the previous one, the concatenated chunks of that field equal its tracker |
| ChatRouteFacts.ScanPushesChunks | app/api/chat/route.ts:57-79 | the loop over data events pushes only `thinking` and `response` chunk records |
| ChatRoute.StopAt | app/api/chat/route.ts:83-91 | the loop stops at the first `completed` or `error` status or thrown error, or at the end of the job |
| ChatRoute.RunRelay | app/api/chat/route.ts:38-107 | the imperative loop with its two trackers and the final-status flag pushes exactly the records of the relay function |
| ChatRouteFacts.CompletedCloses | app/api/chat/route.ts:83-87 | on `completed` one `done` follows the chunks, no later upstream event is read, and no forced done is pushed |
| ChatRouteFacts.CompletedAtOnce | app/api/chat/route.ts:83-87 | a job that completes at once yields exactly one `done` record |
| ChatRouteFacts.ErrorThenForcedDone | app/api/chat/route.ts:88-99 | on `error` the error record carrying the status message is pushed, and then the forced done as well |
| ChatRouteFacts.ExhaustedForcesDone | app/api/chat/route.ts:96-100 | a job that runs out without a final status ends with exactly one forced done |
| ChatRouteFacts.RunOutRelay | app/api/chat/route.ts:94-100 | when the loop runs to the end of the job, the forced done follows the loop's chunks |
| ChatRouteFacts.RaiseFails | app/api/chat/route.ts:102-106 | when the job throws, exactly one `Failed to process AI job.` error record follows the chunks |
| ChatRouteFacts.ClosingLast | app/api/chat/route.ts:83-106 | every stream ends in a closing record; the chunk records come first and no chunk record closes |
| ChatRouteFacts.HelloScenario | app/api/chat/route.ts:66-87 | the snapshots "", "H", "He", "Hello" and then `completed` yield the chunks "H", "e", "llo" and `done` |
| ChatRouteFacts.GrowingText | app/api/chat/route.ts:66-87 | three strictly growing text snapshots yield three chunks, each the new text minus the old, then `done` |
| ChatRouteFacts.ErrorClosesTwice | app/api/chat/route.ts:88-100 | as written, a job consisting of one upstream error yields two closing records: the error and a forced done |
| ChatRouteFacts.FixedClosesOnce | app/api/chat/route.ts:83-106 | with the corrected ending every stream holds exactly one closing record, its last |
| ChatRouteFacts.FixedErrorStops | app/api/chat/route.ts:88-91 | with the corrected ending an upstream error record is the last thing pushed |
| ChatRoute.StringifyOneLine | app/api/chat/route.ts:44 | the JSON text of every payload is free of line feeds, so each record's data fits on one line |
| JsonText.Escape | app/api/chat/route.ts:44 | the JSON escaping of a string contains no control character and is at least as long as the string |
| JsonText.UnescapeEscape | app/api/chat/route.ts:44 | reading the escapes of a JSON string literal back gives the original string |
| JsonText.ReadEscape | app/api/chat/route.ts:44 | reading a written literal gives back its string and stops at its closing quote, leaving whatever text follows it |
| ChatRoute.PairLines | app/api/chat/route.ts:33 | there is one `سائل:`/`كاهن:` line pair per context exchange, in order |
| ChatRouteFacts.HistoryShape | app/api/chat/route.ts:32-34 | the history is empty for an empty context, is the header and the pair's lines for one exchange, and grows by a line feed and the new pair's lines for each further exchange |
| ChatRouteFacts.PostAnswers | app/api/chat/route.ts:27-37 | a request is refused with 400 exactly when the message is missing; otherwise the system prompt starts with the given prompt, equals it exactly when there is no context, is followed by the history header when there is, and the stream is non-empty and ends in a closing record |
| ChatConsumer.ParseSseChunk | hooks/useChat-remote.ts:29-51 | the line loop with its pending event name produces the events of the line-parser function |
| ChatConsumer.EventLine | hooks/useChat-remote.ts:36-37 | an `event:` line sets the pending name and emits nothing |
| ChatConsumer.DataLineRead | hooks/useChat-remote.ts:38-47 | a `data:` line emits an event only with a pending name and parseable JSON, and then clears the name; otherwise it changes nothing |
| ChatConsumer.OneRecordOneEvent | hooks/useChat-remote.ts:35-44 | a record `event: E\ndata: J` with parseable J yields exactly one event (E, parse(J)) and leaves no pending name |
| ChatConsumer.OrphanDataIgnored | hooks/useChat-remote.ts:38 | a `data:` line with no pending event name is ignored |
| ChatConsumer.BadDataKeepsName | hooks/useChat-remote.ts:45-47 | an unparseable `data:` line is dropped and the pending name serves the next good one |
| ChatConsumer.RecordsAppend | hooks/useChat-remote.ts:201-203 | cutting the received text at any point gives the same complete records and the same leftover as reading it whole |
| ChatConsumer.PendingHasNoRecord | hooks/useChat-remote.ts:203 | the kept buffer contains no record separator |
| ChatConsumer.EventsAppend | hooks/useChat-remote.ts:201-207 | the events read after more text arrives are the earlier events followed by those of the records the new text completes |
| ChatConsumer.ProcessRecords | hooks/useChat-remote.ts:205-207 | the loop over the records skips blank ones and dispatches the events of each of the others, in order |
| ChatConsumer.Dispatch | hooks/useChat-remote.ts:208-263 | the switch over one record's events gives the reducer's outcome, and stops at the first thrown error |
| ChatConsumer.ReadChunks | hooks/useChat-remote.ts:183-206 | the outcome after any reads depends only on the concatenated text; while running, the buffer is the text after the last separator |
| ChatConsumer.ReadLoop | hooks/useChat-remote.ts:183-265 | the read loop as written ends as the digest of everything received, including the non-terminating case |
| ChatConsumer.UnterminatedRecordSpins | hooks/useChat-remote.ts:185-206 | as written, a stream ending in a record with no blank line after it never leaves the loop; the flushing version handles that record and ends |
| ChatConsumer.DigestFlushed | hooks/useChat-remote.ts:185-206 | the corrected loop always ends, and agrees with the loop as written whenever the leftover buffer is blank |
| ChatConsumer.ReadLoopFlushed | hooks/useChat-remote.ts:183-265 | the corrected read loop, which parses a non-blank leftover when the reader is done, computes the flushed digest |
| ChatConsumer.EndedReadChangesNothing | hooks/useChat-remote.ts:201-203 | a read after the stream has ended adds no record and leaves the buffer as it was |
| ChatConsumer.WithIdAppendTo | hooks/useChat-remote.ts:240-242 | after an append, the messages with any other id are unchanged and the one with the id gains the chunk |
| ChatConsumer.ThinkingOpens | hooks/useChat-remote.ts:212-219 | on the first `thinking` event, appending one thinking message holding the marker and the chunk keeps the turn built: earlier messages first, at most one thinking and one response message with the chunks so far |
| ChatConsumer.ThinkingAppends | hooks/useChat-remote.ts:220-223 | on a later `thinking` event, appending the chunk to the thinking message alone keeps the turn built |
| ChatConsumer.ResponseOpens | hooks/useChat-remote.ts:227-238 | on the first `response` event, appending one response message holding the chunk and adding the chunk to the accumulated response keeps the turn built |
| ChatConsumer.ResponseAppends | hooks/useChat-remote.ts:239-242 | on a later `response` event, appending the chunk to the response message and to the accumulated response keeps the turn built |
| ChatConsumer.ReducerStep | hooks/useChat-remote.ts:209-259 | every event other than `error` keeps the turn running and keeps the conversation invariant |
| ChatConsumer.ReducerBuilds | hooks/useChat-remote.ts:209-259 | with no `error` event, the earlier messages stay first, there is at most one thinking and one response message, and both the response content and the accumulated response equal the concatenated `response` chunks |
| ChatConsumer.TextIsConcat | hooks/useChat-remote.ts:228-229 | the accumulated text of an event name is the concatenation of that name's chunks |
| ChatConsumer.ThrowsIffError | hooks/useChat-remote.ts:260-261 | the reducer throws exactly when an `error` event occurs |
| ChatConsumer.ThrownIsFinal | hooks/useChat-remote.ts:260-267 | once an event has thrown, later events change nothing |
| ChatConsumer.ErrorText | hooks/useChat-remote.ts:261 | the thrown message is never empty, and is the event's own message whenever that is non-empty |
| ChatConsumer.ErrorEndsTurn | hooks/useChat-remote.ts:260-277 | an `error` event ends the turn: what was built before it stays, exactly one apology message is appended, the error is the event's message, and loading is reset to idle |
| ChatConsumer.StreamCloses | hooks/useChat-remote.ts:185-199 | with no `error` event, the loop ends exactly when the leftover is blank, and then loading is over |
| ChatConsumer.DoneDoesNotStop | hooks/useChat-remote.ts:245-259 | a `done` event sets the received-done flag and clears loading but does not leave the loop: the accumulated response still takes the chunks sent after it, and a later `response` event puts the stage back to generating |
| ChatConsumer.AfterDone | hooks/useChat-remote.ts:257-258 | after `done`, while no `error` follows, the turn keeps running with the received-done flag set and loading off |
| ChatConsumer.FlagsStay | hooks/useChat-remote.ts:209-244 | once `done` has set the received-done flag and cleared loading, no later non-error event undoes either |
| ChatConsumer.LastResponseGenerates | hooks/useChat-remote.ts:226-227 | when the last event is `response`, the loading stage is generating |
| ChatConsumer.Kept | hooks/useChat-remote.ts:143 | the history filter keeps exactly the user messages and the assistant response messages, each as many times as it occurs |
| ChatConsumer.KeptAppend | hooks/useChat-remote.ts:143 | the filter of a concatenation is the concatenation of the filters, and one message is kept exactly when it belongs in the history, so the order of the kept messages is their order in the conversation |
| ChatConsumer.PairsAdjacent | hooks/useChat-remote.ts:144-148 | a pair is in the history exactly when a user message is immediately followed by an assistant message in the filtered list |
| ChatConsumer.PairsBound | hooks/useChat-remote.ts:144-148 | the history has at most half as many pairs as the filtered list has messages |
| ChatConsumer.HistoryPairs | hooks/useChat-remote.ts:142-149 | the filter-and-reduce loop over the messages builds the pairs of the filtered list |
| ChatConsumer.HttpErrorText | hooks/useChat-remote.ts:158-161 | a failed response reports its non-empty `error` field, or else `HTTP <status>` |
| ChatConsumer.Opened | hooks/useChat-remote.ts:56-66 | a send opens a turn with no thinking or response message and no accumulated text, loading on, the error cleared, and the loading stage at context building |
| ChatConsumer.Request | hooks/useChat-remote.ts:151-278 | a refused or failed fetch goes to the catch block; a stream goes through the read loop |
| ChatConsumer.SendMessage | hooks/useChat-remote.ts:53-279 | a blank message is ignored; otherwise the history is paired from the earlier messages and the turn ends as the request settles |
| ChatConsumer.SendKeepsConversation | hooks/useChat-remote.ts:56-66 | however the turn ends, the earlier messages and then the user's message come first; a refused or failed fetch ends with exactly those and the apology, a non-empty error, and loading off |
| ChatConsumer.DigestKeepsBase | hooks/useChat-remote.ts:183-277 | whatever is received, the messages present when the stream started stay first |
| JsString.Trim | hooks/useChat-remote.ts:54 | a trimmed string is empty exactly when the string is blank; otherwise it is the middle of the string between blank ends, with non-space ends |
| JsString.JoinSplit | hooks/useChat-remote.ts:202 | joining the pieces of a split with the separator gives back the string |
| JsString.SplitPiecesFree | hooks/useChat-remote.ts:202 | every piece of a split except the last contains no separator |
| JsString.SplitAppend | hooks/useChat-remote.ts:201-202 | splitting a longer text keeps the earlier complete pieces and splits the old last piece plus the new text |
| JsString.IndexOfFirst | hooks/useChat-remote.ts:202 | the separator search returns the first occurrence, and none exactly when the text is free of the separator |
| JsString.Slice | app/api/chat/route.ts:68 | for k within the string, the first k characters followed by the slice give back the string; past the end the slice is empty |
| JsString.NatToStringValue | hooks/useChat-remote.ts:160 | the decimal digits of a status number read back as that number |
| JsString.NatToString | hooks/useChat-remote.ts:160 | a status number is written as a non-empty string of decimal digits without a leading zero |
| Pipeline.WireRecords | app/api/chat/route.ts:43-45 | the route's framed records split back into exactly their bodies, and the stream leaves nothing in the hook's buffer |
| Pipeline.FrameSplit | app/api/chat/route.ts:44 | splitting one framed record on the record separator gives its body and an empty tail |
| Pipeline.BodyFree | app/api/chat/route.ts:44 | a record body contains no record separator, because its name and its JSON each fit on one line |
| Pipeline.WireSplit | app/api/chat/route.ts:43-45 | splitting the route's stream on the record separator gives every body in order, then an empty tail |
| Pipeline.WireHeard | hooks/useChat-remote.ts:201-207 | the hook reads from the route's stream exactly one event per pushed record, with its name and payload |
| Pipeline.BodiesHeard | hooks/useChat-remote.ts:205-207 | parsing the bodies of the route's records gives one event per record, with its name and the payload it was sent with |
| PayloadReader.ReadsBack | hooks/useChat-remote.ts:41 | the concrete reader gives back, for every payload the route writes, the `chunk` and `message` fields the hook reads |
| PayloadReader.ReadPayloadParsesBack | hooks/useChat-remote.ts:41 | the concrete reader meets `ParsesBack`, so the end-to-end theorems that assume it are not vacuous |
| Pipeline.RelayWellNamed | app/api/chat/route.ts:43-104 | every record the route pushes is named `thinking`, `response`, `done` or `error` |
| Pipeline.RelayNeverSpins | hooks/useChat-remote.ts:185-206 | on the route's own stream the loop as written always ends, and agrees with the corrected loop |
| Pipeline.TextHeard | hooks/useChat-remote.ts:228-229 | the response text the hook accumulates is the concatenation of the route's `response` chunks |
| Pipeline.ClosedOutcome | hooks/useChat-remote.ts:183-259 | a stream without an `error` record ends with loading over, the earlier messages first, and at most one response message, holding the accumulated text |
| Pipeline.BuiltShows | hooks/useChat-remote.ts:185-199 | a built turn that leaves the loop shows loading over, keeps the earlier messages, and holds the accumulated text in its response message if there is one |
| Pipeline.CompletedRecords | app/api/chat/route.ts:66-87 | a completing job whose text snapshots each extend the last relays no error record, and the `response` chunks the hook reads add up to the latest snapshot |
| Pipeline.CompletedShowsLatest | app/api/chat/route.ts:66-87 | for a completing job whose text snapshots each extend the last, the hook ends showing the latest snapshot as its response |
| Pipeline.EventsAfter | hooks/useChat-remote.ts:201-261 | the events the hook reads around the first error record are those of the chunks, the error, and the rest, in order |
| Pipeline.FailedAfter | hooks/useChat-remote.ts:260-277 | the hook throws on the first error record with that record's text; nothing after it is read |
| Pipeline.FailedOutcome | hooks/useChat-remote.ts:260-277 | after chunk records, an error record with message m ends the turn failed with error m, the earlier messages first, the apology last, and loading over |
| Pipeline.AfterErrorUnread | hooks/useChat-remote.ts:260-261 | the records after an error record do not change how the turn ends |
| Pipeline.ErrorRelayed | app/api/chat/route.ts:88-99 | an upstream error relays the loop's chunks, then the error record, then the forced done |
| Pipeline.UpstreamErrorReported | app/api/chat/route.ts:88-99 | after an upstream error the hook reports the status message and appends the apology; the forced done the route adds is never read, so the outcome is the same as under the corrected ending |
| Pipeline.JobFailureReported | app/api/chat/route.ts:102-106 | after a failure of the job itself the hook reports `Failed to process AI job.` and appends the apology |
| Retrieval.Cosine | actions/findSimilarVerses.ts:4-10 | the similarity is zero when either magnitude is zero; otherwise it times the product of the magnitudes equals the dot product |
| Retrieval.CosineSymmetric | actions/findSimilarVerses.ts:4-10 | the similarity of equal-length vectors is symmetric |
| Retrieval.InsertMultiset | actions/findSimilarVerses.ts:28 | one insertion step of the sort adds exactly the inserted record |
| Retrieval.InsertDescending | actions/findSimilarVerses.ts:28 | inserting into a descending list keeps it descending |
| Retrieval.InsertStable | actions/findSimilarVerses.ts:28 | an inserted record goes after every record of equal similarity already in the list |
| Retrieval.SortDescends | actions/findSimilarVerses.ts:28 | the sort result is non-increasing by similarity |
| Retrieval.SortPermutes | actions/findSimilarVerses.ts:28 | the sort result is a permutation of its input |
| Retrieval.SortStable | actions/findSimilarVerses.ts:28 | records of equal similarity keep their index order, as `Array.prototype.sort` is stable |
| Retrieval.FindSimilarVerses | actions/findSimilarVerses.ts:27-29 | for n index records the result has min(n, 5) records |
| Retrieval.TopRanked | actions/findSimilarVerses.ts:27-29 | the result is descending, is drawn from the scored index without repetition, and every record left out scores at most the last one returned |
| Retrieval.OmittedBelow | actions/findSimilarVerses.ts:29 | cutting a descending list after k records leaves out only records that score at most the k-th |
| Retrieval.FindSimilarVersesStable | actions/findSimilarVerses.ts:20-29 | the results of any one similarity are the first of the index's records of that similarity, in index order |
| Embedding.Clean | lib/send-message/getVector.ts:18 | removing punctuation keeps only ASCII letters, digits and white space, and keeps a string made only of those unchanged |
| Embedding.CleanAppend | lib/send-message/getVector.ts:18 | the punctuation is removed character by character: the cleaned concatenation is the concatenation of the cleaned parts, and one character stays exactly when it is a letter, a digit or white space |
| Embedding.Words | lib/send-message/getVector.ts:19-20 | the split on white-space runs, with empty pieces removed, gives only non-empty words without white space |
| Embedding.WordsOfWord | lib/send-message/getVector.ts:19-20 | a non-empty string without white space splits into itself alone |
| Embedding.WordsAppend | lib/send-message/getVector.ts:19-20 | the words of two strings joined by a white-space character are the words of the first followed by those of the second |
| Embedding.WordsFrom | lib/send-message/getVector.ts:19-20 | every character of a word comes from the split string |
| Embedding.BlankHasNoWords | lib/send-message/getVector.ts:19-20 | a blank string has no words |
| Embedding.TokensAreAlnum | lib/send-message/getVector.ts:15-21 | every token is non-empty and made only of `a-z` and `0-9` |
| Embedding.NoAsciiNoTokens | lib/send-message/getVector.ts:17-18 | text with no ASCII letter or digit, such as pure Arabic, has no tokens |
| Embedding.TokensIgnoreCase | lib/send-message/getVector.ts:17 | two texts of the same length that differ at most in the ASCII case of their letters have the same tokens and the same embedding |
| Embedding.Distinct | lib/send-message/getVector.ts:7 | the unique words are the tokens without repetition |
| Embedding.DistinctInOrder | lib/send-message/getVector.ts:7 | the unique words are ordered by their first occurrence |
| Embedding.Count | lib/send-message/getVector.ts:23-25 | a word's count is positive exactly when it occurs, and at most the number of tokens |
| Embedding.CountOccurrences | lib/send-message/getVector.ts:23-25 | a word's count is its multiplicity among the tokens |
| Embedding.CountsSum | lib/send-message/getVector.ts:10 | the entries of the vector sum to the number of tokens |
| Embedding.GetEmbedding | lib/send-message/getVector.ts:1-13 | empty text is an error; otherwise the vector has one entry per distinct token in first-seen order, each its count and at least one |
| JsString.Lower | lib/send-message/getVector.ts:17 | lower-casing keeps the length, leaves no ASCII capital, and changes only ASCII capitals |
| JsString.LowerIdempotent | lib/send-message/getVector.ts:17 | lower-casing twice is the same as once |
| VersesContext.Without | contexts/verses-contexts.tsx:50 | the filter keeps exactly the entries of other ids |
| VersesContext.WithoutAppend | contexts/verses-contexts.tsx:50 | the filter of a concatenation is the concatenation of the filters, and one entry is kept exactly when its id differs, so the kept entries stay in their order and multiplicity |
| VersesContext.Find | contexts/verses-contexts.tsx:65 | the lookup returns the first entry of the id, and none exactly when there is no such entry |
| VersesContext.StoredLookup | contexts/verses-contexts.tsx:47-67 | after storing, the id has one entry if the verses are non-empty and none otherwise, and looking the id up gives the stored verses |
| VersesContext.StoredKeepsOthers | contexts/verses-contexts.tsx:50-53 | storing keeps the other ids' entries in their order and their lookups unchanged, and places a new entry last |
| VersesContext.WithoutTwice | contexts/verses-contexts.tsx:50 | removing an id's entries twice is the same as once |
| VersesContext.FindWithout | contexts/verses-contexts.tsx:50-65 | removing one id does not change the lookup of another |
| VersesContext.VerseStore.constructor | contexts/verses-contexts.tsx:36-37 | the store starts with no verses and no entries |
| VersesContext.VerseStore.SetMessageVerses | contexts/verses-contexts.tsx:47-62 | the table is replaced by the stored table, and the shown verses become the new list when it is non-empty |
| VersesContext.VerseStore.ClearMessageVerses | contexts/verses-contexts.tsx:69-72 | clearing empties both the table and the shown verses |
| VersesContext.FirstOfEach | contexts/verses-contexts.tsx:74-89 | the merged list has the same keys as its input, no key twice, and only input verses |
| VersesContext.FirstOfEachOrdered | contexts/verses-contexts.tsx:74-89 | the merged list is in the order in which its keys first occur in the input |
| VersesContext.FirstOfEachFirst | contexts/verses-contexts.tsx:81-84 | each verse of the merged list is the first input verse with its key |
| VersesContext.GetAllVerses | contexts/verses-contexts.tsx:74-89 | the loops with the seen-reference set return, for each reference, its first verse in message-then-verse order |
| VersesContext.FindText | contexts/verses-contexts.tsx:161 | `findIndex` returns the first verse with the given text, or none when no verse has it |
| VersesContext.FirstTextIffNew | contexts/verses-contexts.tsx:160-162 | a verse passes the filter exactly when its text does not occur earlier |
| VersesContext.UniqueIsFirstOfEach | contexts/verses-contexts.tsx:160-162 | the text de-duplication keeps the first verse of each text, in order |
| VersesContext.CollectVerses | contexts/verses-contexts.tsx:137-157 | the match loops push, in order, the trimmed reference and text of each match and the standalone quotes that pass the gate |
| VersesContext.ShortQuoteDropped | contexts/verses-contexts.tsx:141-149 | a standalone quote of at most 15 code units is not collected |
| VersesContext.VerseStore.StoreParsed | contexts/verses-contexts.tsx:159-171 | it returns the text-unique verses; nothing is stored when none are found; the per-message table is written only for a truthy message id |
| JsString.Utf16Length | contexts/verses-contexts.tsx:185 | the JavaScript length of a string lies between its number of characters and twice that, and equals the number of characters when every one is in the Basic Multilingual Plane |
| ConvertBible.Convert | scripts/convert_bible.py:77-87 | the nested loops append exactly the flattened records |
| ConvertBible.FlattenedLength | scripts/convert_bible.py:77-87 | the output has one record per verse string of the source |
| ConvertBible.RecordAt | scripts/convert_bible.py:80-86 | the record at a verse's offset carries the book name, the 1-based chapter and verse numbers, and the source text |
| ConvertBible.Ordered | scripts/convert_bible.py:77-87 | records are in book order, then chapter order, then verse order |

## Definitions

These members define the model and carry no contract of their own, or only one that spells out
their body. Each is characterised by the members of the "## Model" table named beside it.

| definition | source | characterised by |
|---|---|---|
| ChatRoute.Decode | app/api/chat/route.ts:58-64 | ChatRouteFacts.DecodeFails, ChatRouteFacts.SkippedData |
| ChatRoute.Advance | app/api/chat/route.ts:67-77 | ChatRouteFacts.AdvanceChunk, ChatRouteFacts.NonPrefixDiverges |
| ChatRoute.Step | app/api/chat/route.ts:66-78 | ChatRouteFacts.StepOrder, ChatRouteFacts.ChunksOfStep |
| ChatRoute.Scan | app/api/chat/route.ts:57-79 | ChatRouteFacts.ScanPushesChunks, ChatRouteFacts.TrackerIsLatest, ChatRouteFacts.ChainedChunksAddUp |
| ChatRoute.Closing | app/api/chat/route.ts:83-100 | ChatRouteFacts.CompletedCloses, ChatRouteFacts.ErrorThenForcedDone, ChatRouteFacts.ExhaustedForcesDone, ChatRouteFacts.RaiseFails |
| ChatRoute.Relay | app/api/chat/route.ts:38-107 | ChatRoute.RunRelay, ChatRouteFacts.ClosingLast, ChatRouteFacts.ErrorClosesTwice |
| ChatRoute.Stringify | app/api/chat/route.ts:44 | ChatRoute.StringifyOneLine, JsonText.UnescapeEscape, PayloadReader.ReadsBack |
| JsonText.ReadLiteral | hooks/useChat-remote.ts:41 | JsonText.ReadEscape |
| JsonText.Unescape | hooks/useChat-remote.ts:41 | JsonText.UnescapeEscape |
| PayloadReader.ReadPayload | hooks/useChat-remote.ts:41 | PayloadReader.ReadsBack, PayloadReader.ReadPayloadParsesBack |
| ChatRoute.Frame | app/api/chat/route.ts:43-45 | Pipeline.FrameSplit, Pipeline.BodyFree |
| ChatRoute.Wire | app/api/chat/route.ts:43-45 | Pipeline.WireSplit, Pipeline.WireRecords |
| ChatRoute.History | app/api/chat/route.ts:32-34 | ChatRouteFacts.HistoryShape, ChatRoute.PairLines |
| ChatRoute.Post | app/api/chat/route.ts:27-37 | ChatRouteFacts.PostAnswers |
| ChatConsumer.Records | hooks/useChat-remote.ts:201-203 | ChatConsumer.RecordsAppend, Pipeline.WireRecords |
| ChatConsumer.Pending | hooks/useChat-remote.ts:201-203 | ChatConsumer.PendingHasNoRecord, ChatConsumer.EndedReadChangesNothing |
| ChatConsumer.AppendTo | hooks/useChat-remote.ts:221-223 | ChatConsumer.WithIdAppendTo |
| ChatConsumer.Apply | hooks/useChat-remote.ts:209-261 | ChatConsumer.ReducerStep, ChatConsumer.ThinkingOpens, ChatConsumer.ResponseOpens, ChatConsumer.ThrowsIffError |
| ChatConsumer.ApplyAll | hooks/useChat-remote.ts:205-263 | ChatConsumer.ReducerBuilds, ChatConsumer.ThrownIsFinal, ChatConsumer.TextIsConcat |
| ChatConsumer.Catch | hooks/useChat-remote.ts:267-277 | ChatConsumer.ErrorEndsTurn |
| ChatConsumer.Finish | hooks/useChat-remote.ts:185-199 | ChatConsumer.StreamCloses, Pipeline.BuiltShows |
| ChatConsumer.Digest | hooks/useChat-remote.ts:183-265 | ChatConsumer.ReadLoop, ChatConsumer.ReadChunks, ChatConsumer.UnterminatedRecordSpins, ChatConsumer.DigestFlushed |
| ChatConsumer.Pairs | hooks/useChat-remote.ts:144-149 | ChatConsumer.PairsAdjacent, ChatConsumer.PairsBound, ChatConsumer.HistoryPairs |
| Retrieval.Dot | actions/findSimilarVerses.ts:5 | Retrieval.Cosine, Retrieval.CosineSymmetric |
| Retrieval.SumSquares | actions/findSimilarVerses.ts:6-7 | Retrieval.Cosine |
| Retrieval.ScoreAll | actions/findSimilarVerses.ts:20-23 | Retrieval.TopRanked, Retrieval.FindSimilarVersesStable |
| Retrieval.SortDescending | actions/findSimilarVerses.ts:28 | Retrieval.SortDescends, Retrieval.SortPermutes, Retrieval.SortStable |
| Embedding.Tokenize | lib/send-message/getVector.ts:15-21 | Embedding.TokensAreAlnum, Embedding.NoAsciiNoTokens, Embedding.TokensIgnoreCase |
| Embedding.Counts | lib/send-message/getVector.ts:10 | Embedding.CountsSum, Embedding.GetEmbedding |
| VersesContext.Stored | contexts/verses-contexts.tsx:47-56 | VersesContext.StoredLookup, VersesContext.StoredKeepsOthers |
| VersesContext.Lookup | contexts/verses-contexts.tsx:64-67 | VersesContext.Find, VersesContext.StoredLookup |
| VersesContext.VerseStore.GetMessageVerses | contexts/verses-contexts.tsx:64-67 | VersesContext.StoredLookup, through VersesContext.VerseStore.SetMessageVerses |
| VersesContext.UniqueFrom | contexts/verses-contexts.tsx:160-162 | VersesContext.FirstTextIffNew, VersesContext.UniqueIsFirstOfEach |
| VersesContext.IsLikelyVerse | contexts/verses-contexts.tsx:185 | VersesContext.ShortQuoteDropped, VersesContext.CollectVerses |
| ConvertBible.BookName | scripts/convert_bible.py:79 | ConvertBible.RecordAt |
| ConvertBible.ChapterRecords | scripts/convert_bible.py:81-87 | ConvertBible.RecordAt, ConvertBible.FlattenedLength |
| ConvertBible.Flattened | scripts/convert_bible.py:77-87 | ConvertBible.Convert, ConvertBible.FlattenedLength, ConvertBible.RecordAt, ConvertBible.Ordered |

## Left out

- The upstream Gradio client (`Client.connect`, `client.submit`) and its own behaviour. The job is an input sequence of events. Module-level client caching is not modelled; the client is reassigned on every call anyway.
- `ReadableStream` controller semantics. The model is the sequence of records `pushData` is called with, and `pushData` is treated as never throwing. In a real stream, records still queued when the stream errors are discarded, and an enqueue after `controller.error` throws. On an upstream `error` status that makes three calls where the model has two: the error record (route.ts:89), the forced done (route.ts:98), whose enqueue throws, and then, from the `catch` block (route.ts:102-105), a `Failed to process AI job.` record, whose enqueue throws as well. The model stops at the forced done and does not push the third record.
- The catch block at the top level of `POST` (status 500), which has no logic beyond building its response.
- `TextDecoder` byte decoding. The hook's reads are the strings they decode to.
- `fetch`, the network, and the large system-prompt literal, including its date and time. The prompt is a string parameter of the route.
- React state, `useCallback` and concurrency. The hook's state for one `sendMessage` call is the `Turn` value.
- The 30-second watchdog timer, which only clears the loading flags.
- `parseVersesFromText` as called from the hook. A turn records each requested verse scan (message text and id) and does not run it. The store side of the scan is `StoreParsed`.
- The hook scans for verses at `done` and again at loop exit. Both calls are recorded; nothing depends on the double scan.
- `clearChat`, which only resets state and calls `clearMessageVerses` (modelled).
- `setVerses`, `clearVerses` and `hasVerses`, which are direct state setters and a length test.
- The regular-expression engines of the four extraction patterns and of the indicator patterns. Matches, and whether an indicator matched, are inputs.
- `JSON.parse`, which is an oracle parameter. The end-to-end theorems assume only that it reads back the route's own `JSON.stringify` output (`Pipeline.ParsesBack`). `PayloadReader.ReadPayload`, a reader of the three object texts the route writes, meets that assumption; it is not a full JSON parser. Payloads are modelled as JSON objects with optional `chunk` and `message` fields; other JSON values are out of scope.
- JsonText.ReadLiteral: does not accept `\u` escapes of surrogate halves, and neither does `JsonText.Unescape`, which is defined through it. Strings are sequences of Unicode scalar values, so such an escape has no value of its own.
- JsString.Lower: folds only ASCII capitals. The few non-ASCII characters whose JavaScript lower case is an ASCII letter (U+0130, U+212A) are not modelled.
- Dafny strings are sequences of scalar values and JavaScript strings are UTF-16. `slice` and `split` agree with JavaScript for text in the Basic Multilingual Plane, which includes Arabic. The length gate counts UTF-16 code units.
- Retrieval.Cosine: uses exact `real` arithmetic instead of IEEE-754 doubles, and `sqrt` is a parameter with no properties.
- Retrieval.FindSimilarVerses: requires, through `Comparable`, every index embedding to have the query's length. The source does not demand this: the dot product runs over the query, so only an index embedding shorter than the query makes it read `undefined` and yield NaN, while a shorter query gives a finite score. At the call site (`app/(preview)/actions.tsx:38-39`) the query is the bag-of-words vector, and the index holds 512-dimensional sentence embeddings (`scripts/index_bible.py:10,16`), so `Comparable` does not hold there. For an Arabic query the vector is empty, every record scores 0, and the stable sort returns the first five index records. Mismatched lengths are not modelled. `fetch` and the JSON loading of the index are left out; the index is an input.
- ChatConsumer.FreshIds: the reducer theorems assume that the thinking and response ids are non-zero, distinct, and unused by earlier messages. In the source they are `Date.now() + 1` and `Date.now() + 2` (useChat-remote.ts:213, 232), taken when the first event of each kind is handled. They collide when the first `response` event is handled exactly one millisecond before the first `thinking` event; then one append by id changes both messages. The model does not cover that case.
- ConvertBible.Convert: file reading and writing, and the JSON formatting of the output, are left out.
- Embedding.GetEmbedding: the non-string check is not modelled, because the input is typed as a string. Empty text is the error case.

## Findings

| source | as written | input that shows it | evidently intended | confidence | as-written member | corrected member |
|---|---|---|---|---|---|---|
| app/api/chat/route.ts:88-100 | the `error` branch breaks without setting the final-status flag, so the route goes on to push the forced `done` after the error record, on a controller it has already errored; in a real stream that enqueue throws and the `catch` block tries a third push, `Failed to process AI job.`, which throws too (the model treats `pushData` as never throwing, see Left out) | a job consisting of one `error` status gives the records `error` then `done` ("Forced done") | an upstream error is the only closing record | not executed | ChatRouteFacts.ErrorClosesTwice | ChatRouteFacts.FixedClosesOnce |
| hooks/useChat-remote.ts:185-206 | the loop leaves only when the reader is done and the buffer is blank; a final record without a trailing blank line stays in the buffer, every later read decodes to nothing, and the loop never ends | a stream whose whole text is `event: response\ndata: {"chunk":"x"}` | parse the leftover record when the reader is done, then leave | not executed | ChatConsumer.UnterminatedRecordSpins | ChatConsumer.DigestFlushed |

The relay and the hook are modelled as written, as `ChatRoute.Relay` and `ChatConsumer.Digest`. Two Pipeline theorems connect each corrected member to the as-written one:

- `Pipeline.UpstreamErrorReported` proves that the hook ends the same way on the as-written relay as on the corrected one (`ChatRouteFacts.RelayFixed`, also covered by `ChatRouteFacts.FixedErrorStops`).
- `Pipeline.RelayNeverSpins` proves that the route's own stream always ends in a blank buffer, so the as-written loop and the corrected loop agree on it.

Both defects therefore show only with other producers or with real stream semantics.
