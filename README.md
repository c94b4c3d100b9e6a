# Chat stream decoding and request shaping, modelled in Dafny

This project models the core of a chat web application whose browser page
streams a model's reply over Server-Sent Events, and whose server-side proxy
shapes the request to the model's completion API.

* **The stream decoder** in `streamResponse` (src/pages/Chat.tsx). Decoded
  text chunks are appended to a carry buffer. Complete lines are cut off one
  at a time; a trailing `\r` is stripped. Blank lines, `:` comments and lines
  without the exact `data: ` prefix are skipped. `[DONE]` ends the current
  chunk. Every other payload is parsed, and each choice's reasoning and
  content are appended to `thinkingContent` and `assistantContent`, with the
  shown message list updated after each one. A payload that fails is pushed
  back onto the buffer and the chunk ends.
  * Module `Sse` is the specification on values. `Classify` is one line's
    checks, `Drain` the inner loop over one buffer, `Step` one chunk and
    `Run` the whole stream; the properties are lemmas about them.
  * Module `Decoding` is the loop as the code runs it. `class StreamDecoder`
    holds the buffer, the two accumulators and the shown list, which its
    methods reassign inside `while` loops. Each method is proved against the
    functions of `Sse`.
* **The list and string helpers** of the same page (module `ChatPage`): the
  history sent with a request, the conversation title, the clean-up after a
  failed send, the per-id updates while streaming, the guard on storing the
  reply, and regenerate's cut.
* **The chat proxy** (supabase/functions/chat/index.ts, module `ChatProxy`):
  the search query, the search-result context, the context appended to the
  last message, the request body with the system prompt and thinking flag,
  and the response for each upstream outcome.

Inputs and effects are modelled as follows:

* `JSON.parse` together with the `choices` lookup is a parameter
  `parse: string -> Option<seq<Choice>>`. `None` is a parse that throws.
  `Some([])` stands for a missing `choices`.
* A `Choice` is `Delta(reasoning, content)`, with `""` for a missing or
  falsy field, or `Throws`. `Throws` is a choice whose `.delta` access throws
  (a `null` element).
* The network body is a sequence of already decoded text chunks.
* Storage writes are returned as values (`Persist`) instead of performed.

Shared pieces live in `common.dfy` (`Option`, roles, API messages) and
`text.dfy` (JavaScript's `trim` white space, `startsWith`, `indexOf`,
`join`, and decimal rendering).

Three behaviours of the code are modelled as written, where a plain reading
might expect otherwise:

* **A partly applied payload is applied again.** When a choice after the
  first throws, the choices before it have already been applied inside the
  `try`. The line is pushed back, so on every later chunk the same line is
  extracted again and the same prefix is applied again (`StalledForever`).
  A payload that fails therefore does not always leave the accumulators
  unchanged.
* **A stall is permanent.** There is no retry cap: once a complete line
  fails, nothing after it is ever applied (`FailureIsFinal`).
* **Lines after `[DONE]` are not dropped at once.** They stay in the buffer,
  are handled when the next chunk arrives (`SentinelThenLineApplied`), and
  are lost only if the stream ends first (`SentinelThenLineLost`).

In the proxy, a search context found for an empty message list is appended
to nothing and is dropped (`QueryThenContext`).

## Model

| member | source | states |
|---|---|---|
| Text.IndexOf | src/pages/Chat.tsx:179 | the result is -1 exactly when the character is absent, and otherwise is the position of its first occurrence |
| Text.IndexOfAppend | src/pages/Chat.tsx:176-179 | text appended after the first newline does not move it |
| Text.TrimEmptyIffBlank | src/pages/Chat.tsx:184 | `trim()` is empty exactly when every character is JavaScript white space |
| Text.TrimIgnoresTrailingSpace | src/pages/Chat.tsx:187 | one more trailing white-space character does not change the trimmed text |
| Text.TrimStartRemovesBlankPrefix | src/pages/Chat.tsx:184 | trimming the start removes a white-space prefix and stops at the first other character |
| Text.TrimEndRemovesBlankSuffix | src/pages/Chat.tsx:184 | trimming the end removes a white-space suffix and stops at the last other character |
| Text.Decimal | supabase/functions/chat/index.ts:61 | the rendered number is a non-empty string of digits with no leading zero |
| Text.DecimalRoundTrip | supabase/functions/chat/index.ts:61 | reading a rendered number back gives the number |
| Text.Join | supabase/functions/chat/index.ts:62 | a join starts with its first part, one part is joined to itself, and joining nothing gives "" |
| Text.TrimStart | src/pages/Chat.tsx:184 | no contract of its own; `TrimStartRemovesBlankPrefix` states what it removes |
| Text.TrimEnd | src/pages/Chat.tsx:184 | no contract of its own; `TrimEndRemovesBlankSuffix` states what it removes |
| Text.Trim | src/pages/Chat.tsx:184-187 | no contract of its own; `TrimEmptyIffBlank` and `TrimIgnoresTrailingSpace` characterise it |
| Sse.StripCR | src/pages/Chat.tsx:183 | exactly one trailing `\r` is removed, and one is removed exactly when the line ends with `\r` |
| Sse.Classify | src/pages/Chat.tsx:183-188 | no contract of its own; `SkippedLineIgnored`, `DataLineNotSkipped`, `SentinelEndsChunk` and `ClassifyStripStable` characterise its four outcomes |
| Sse.DeltaIncrements | src/pages/Chat.tsx:195-215 | one delta applies only non-empty texts, its reasoning first |
| Sse.Emitted | src/pages/Chat.tsx:192-216 | the choices before the first throwing one apply only non-empty texts (see `EmittedStopsAtThrow` for what the throw cuts off) |
| Sse.DeltaAccumulators | src/pages/Chat.tsx:197-215 | one delta adds exactly its reasoning to `thinkingContent` and exactly its content to `assistantContent` |
| Sse.EmittedStopsAtThrow | src/pages/Chat.tsx:194-219 | nothing after a throwing choice is applied, whatever follows it |
| Sse.ChoicesInOrder | src/pages/Chat.tsx:194-215 | choices apply in order; within one, reasoning comes before content; empty fields apply nothing |
| Sse.Reasonings | src/pages/Chat.tsx:198-205 | no contract of its own; `AccumulatorsAppend`, `DeltaAccumulators` and `AccumulatorsOnlyGrow` state how `thinkingContent` grows |
| Sse.Answers | src/pages/Chat.tsx:208-215 | no contract of its own; `AccumulatorsAppend`, `DeltaAccumulators` and `AccumulatorsOnlyGrow` state how `assistantContent` grows |
| Sse.AccumulatorsAppend | src/pages/Chat.tsx:199-209 | both accumulators of two runs of increments are the first run's followed by the second's |
| Sse.HandleLine | src/pages/Chat.tsx:180-220 | no contract of its own; `DrainByLine` ties it to `Drain`, and `StreamDecoder.TakeLine` is proved against it |
| Sse.Drain | src/pages/Chat.tsx:179-221 | no contract of its own; `DrainByLine`, `DrainLeavesOnlyTail`, `TerminatedBufferEmptied`, `DrainAppend` and `DrainStalls` characterise it |
| Sse.DrainByLine | src/pages/Chat.tsx:179-221 | the inner loop is its first line's handling, then, unless the loop breaks, the loop over the shorter rest |
| Sse.DrainLeavesOnlyTail | src/pages/Chat.tsx:179-181 | when the loop runs out of newlines, what is left holds no newline and is a suffix of the buffer |
| Sse.TerminatedBufferEmptied | src/pages/Chat.tsx:179-181 | a newline-terminated buffer is consumed entirely unless `[DONE]` or a failure stops the loop |
| Sse.SkippedLineIgnored | src/pages/Chat.tsx:183-185 | a blank, `:` comment or non-`data: ` line changes neither accumulator and the loop goes on as if it were absent |
| Sse.SkippedLineInvisible | src/pages/Chat.tsx:183-185 | inserting such a line at any line boundary of the text changes nothing that is applied |
| Sse.DataLineNotSkipped | src/pages/Chat.tsx:184-185 | a line with the `data: ` prefix is neither a comment nor blank |
| Sse.SentinelEndsChunk | src/pages/Chat.tsx:187-188 | `[DONE]` is never parsed, applies nothing, and leaves the rest of the buffer in place |
| Sse.SentinelAloneEndsEmpty | src/pages/Chat.tsx:187-188 | a stream that is only the `[DONE]` line ends with an empty buffer and nothing applied |
| Sse.SentinelThenLineLost | src/pages/Chat.tsx:172-188 | a line after `[DONE]` in the same last chunk is never applied |
| Sse.SentinelThenLineApplied | src/pages/Chat.tsx:172-188 | a line after `[DONE]` that arrives in the next chunk is applied |
| Sse.FailurePushesBack | src/pages/Chat.tsx:190-219 | a payload that does not parse leaves the stripped line, a newline and the rest in the buffer, and stops the chunk |
| Sse.DataLineApplied | src/pages/Chat.tsx:187-216 | a parsed payload without a throwing choice applies its choices, and the loop goes on |
| Sse.DrainAppend | src/pages/Chat.tsx:176-221 | appending text never changes what the lines already complete in the buffer do |
| Sse.ClassifyStripStable | src/pages/Chat.tsx:183-218 | the pushed-back, already stripped line classifies to the same payload |
| Sse.DrainStalls | src/pages/Chat.tsx:217-219 | a loop that stops on a failure leaves a buffer whose first line is that failing payload |
| Sse.StallRepeats | src/pages/Chat.tsx:179-219 | a stalled decoder, fed any chunk, re-extracts the same line, re-applies the same prefix, and stays stalled |
| Sse.StalledForever | src/pages/Chat.tsx:172-222 | after a stall, every later chunk keeps it and re-applies exactly that line's prefix of choices |
| Sse.StalledStep | src/pages/Chat.tsx:176-219 | one chunk fed to a stalled decoder keeps it stalled and re-applies the failing line's prefix |
| Sse.StalledAt | src/pages/Chat.tsx:217-219 | the chunk on which a payload stalls leaves the decoder stalled on it |
| Sse.FailureIsFinal | src/pages/Chat.tsx:172-222 | after a payload that does not parse, no later chunk applies anything |
| Sse.Step | src/pages/Chat.tsx:176-221 | no contract of its own; `TracksStep` and `StalledStep` state its effect, and `StreamDecoder.Feed` is proved against it |
| Sse.RunFrom | src/pages/Chat.tsx:172-222 | no contract of its own; `RunOnlyAppends`, `RunFromAppend` and `StalledForever` characterise it |
| Sse.Run | src/pages/Chat.tsx:171-222 | no contract of its own; `RunTracksDrain`, `ChunkingInvariance`, `FailureIsFinal` and `AccumulatorsOnlyGrow` characterise it, and `StreamResponse` is proved against it |
| Sse.RunOnlyAppends | src/pages/Chat.tsx:171-222 | later chunks only add increments, never undo one |
| Sse.RunFromAppend | src/pages/Chat.tsx:172-222 | feeding two runs of chunks is feeding the first, then the second from where the first left off |
| Sse.AccumulatorsOnlyGrow | src/pages/Chat.tsx:199-209 | after more chunks, each accumulator is its earlier value followed by what was added |
| Sse.TrailingPartialLineDropped | src/pages/Chat.tsx:172-181 | a final line without a newline stays in the buffer and applies nothing |
| Sse.TracksStep | src/pages/Chat.tsx:176-221 | one more chunk keeps the chunk-by-chunk state in step with one pass over all the text so far |
| Sse.RunTracksDrain | src/pages/Chat.tsx:172-222 | for chunk-safe text, chunk by chunk, the decoder applies what one pass over the text so far applies |
| Sse.ChunkingInvariance | src/pages/Chat.tsx:176-221 | for chunk-safe text, feeding it in chunks applies what feeding it whole applies |
| Sse.SameTextSameResult | src/pages/Chat.tsx:176-221 | two splittings of the same chunk-safe text end with the same `thinkingContent` and `assistantContent` |
| Decoding.StreamDecoder.constructor | src/pages/Chat.tsx:161-171 | the empty buffer and accumulators, and the empty assistant message appended to the shown list |
| Decoding.StreamDecoder.AddReasoning | src/pages/Chat.tsx:198-205 | the reasoning is appended to `thinkingContent` and shown on the reply only |
| Decoding.StreamDecoder.AddAnswer | src/pages/Chat.tsx:208-215 | the content is appended to `assistantContent` and shown on the reply only |
| Decoding.StreamDecoder.ApplyDelta | src/pages/Chat.tsx:195-215 | one delta applies its reasoning, then its content |
| Decoding.StreamDecoder.ApplyChoices | src/pages/Chat.tsx:194-216 | the loop reports a throw exactly when a choice throws, having applied the choices before it |
| Decoding.StreamDecoder.TryPayload | src/pages/Chat.tsx:190-220 | reaching the `catch` is exactly failing, and what was applied is the payload's prefix of choices |
| Decoding.StreamDecoder.TakeLine | src/pages/Chat.tsx:180-220 | one line is cut off and handled as `HandleLine` says, keeping the accumulators and the shown list consistent |
| Decoding.StreamDecoder.Feed | src/pages/Chat.tsx:176-221 | one chunk takes the decoder from its state to `Step` of it |
| Decoding.StreamResponse | src/pages/Chat.tsx:125-231 | the request is the history, the shown list ends with the reply showing what `Run` applied, and the stored row is what the persist guard gives |
| ChatPage.Sent | src/pages/Chat.tsx:127-132 | only messages with content are sent, as role and content; when all have content, all are sent in order |
| ChatPage.History | src/pages/Chat.tsx:127-134 | the sent messages followed by the new user message |
| ChatPage.SentAppend | src/pages/Chat.tsx:127-132 | filtering keeps the order: the history of two runs is the first's followed by the second's |
| ChatPage.SentMembership | src/pages/Chat.tsx:127-132 | an API message is sent exactly when it has content and comes from a shown message |
| ChatPage.Title | src/pages/Chat.tsx:101 | up to 50 characters are kept as they are; longer messages give their first 50 characters and `...` |
| ChatPage.NewTitle | src/pages/Chat.tsx:92-107 | a title is stored only for a stored conversation with no message shown before |
| ChatPage.Survives | src/pages/Chat.tsx:119 | no contract of its own; `KeepAfterError` keeps exactly the messages it accepts |
| ChatPage.KeepAfterError | src/pages/Chat.tsx:119 | a message is kept exactly when it is not an empty assistant message |
| ChatPage.KeepAfterErrorFixes | src/pages/Chat.tsx:119 | a list in which every message survives is left as it is |
| ChatPage.KeepAfterErrorAppend | src/pages/Chat.tsx:119 | the clean-up keeps the order of what it keeps |
| ChatPage.SetThinking | src/pages/Chat.tsx:200-204 | only the message with the id gets the new thinking; all others are unchanged and in order |
| ChatPage.SetContent | src/pages/Chat.tsx:210-214 | only the message with the id gets the new content; all others are unchanged and in order |
| ChatPage.SetOverwrites | src/pages/Chat.tsx:200-214 | a later update of the same field replaces an earlier one |
| ChatPage.SetCommute | src/pages/Chat.tsx:200-214 | the two kinds of update commute |
| ChatPage.Streaming | src/pages/Chat.tsx:166-214 | no contract of its own; `StreamingShowsOnlyReply`, `StreamingStartsEmpty` and `StreamingUpdates` characterise it |
| ChatPage.StreamingShowsOnlyReply | src/pages/Chat.tsx:166-214 | with a fresh id, the list is the earlier messages unchanged, then the reply with the text so far |
| ChatPage.StreamingStartsEmpty | src/pages/Chat.tsx:166-169 | the placeholder is the streaming list with nothing received |
| ChatPage.StreamingUpdates | src/pages/Chat.tsx:200-214 | each update of the streaming list replaces one of its two texts |
| ChatPage.Persist | src/pages/Chat.tsx:225-230 | the reply is stored exactly when there is a conversation and the content is non-empty |
| ChatPage.FindAssistant | src/pages/Chat.tsx:239 | -1 exactly when there is no assistant message, else the first one's index |
| ChatPage.Reverse | src/pages/Chat.tsx:239 | the list read backwards |
| ChatPage.CutForRegenerate | src/pages/Chat.tsx:238-245 | no contract of its own; `CutRemovesLastReply` and `CutShrinks` characterise it |
| ChatPage.CutRemovesLastReply | src/pages/Chat.tsx:238-245 | the cut removes the last assistant message and everything after it, and nothing else; without one, the list is unchanged |
| ChatPage.CutShrinks | src/pages/Chat.tsx:238-245 | the cut never lengthens the list, and changes it exactly when it holds an assistant message |
| ChatProxy.SearchQuery | supabase/functions/chat/index.ts:36 | the last message's content, or "" without messages |
| ChatProxy.Entry | supabase/functions/chat/index.ts:60-61 | an entry starts with its number and `. ` |
| ChatProxy.Entries | supabase/functions/chat/index.ts:60-61 | the results are numbered from 1 in order |
| ChatProxy.EntriesNumbered | supabase/functions/chat/index.ts:60-61 | the i-th entry opens with a numeral that reads back as i + 1, then `. ` |
| ChatProxy.SearchContext | supabase/functions/chat/index.ts:34-66 | the context is non-empty exactly when search is on and results came back; it then starts with the header and entry 1, and one result gives exactly the header and that entry |
| ChatProxy.ContextGrows | supabase/functions/chat/index.ts:60-62 | one more result adds the separator and one more numbered entry at the end |
| ChatProxy.ProcessMessages | supabase/functions/chat/index.ts:73-78 | the same length; all but the last unchanged; the last gets the context; no context leaves the list as it is |
| ChatProxy.QueryThenContext | supabase/functions/chat/index.ts:36-78 | the last message becomes the searched-for text followed by the context; without messages the context is dropped |
| ChatProxy.BuildRequest | supabase/functions/chat/index.ts:21-95 | the model, the streaming flags, the system prompt followed by the processed messages, and thinking enabled exactly when `think` |
| ChatProxy.RequestKeepsHistory | supabase/functions/chat/index.ts:73-90 | the model sees the client's messages unchanged except possibly the last; without search, all of them |
| ChatProxy.IsOk | supabase/functions/chat/index.ts:108 | no contract of its own; `Respond` and `UpstreamStatusMapped` state what an ok and a failing status lead to |
| ChatProxy.Failure | supabase/functions/chat/index.ts:133-138 | a thrown error becomes 500 with its message, anything else 500 with `未知错误` |
| ChatProxy.Respond | supabase/functions/chat/index.ts:13-138 | the event stream is passed on with 200 exactly when the body was read, a key is set, and upstream answered ok; an unreadable body, a missing key and a thrown upstream call each give their own 500 error |
| ChatProxy.UpstreamStatusMapped | supabase/functions/chat/index.ts:108-128 | 429 and 401 keep their status and fixed message; any other failing status gives 500 with the prefix and the upstream text |
| ChatProxy.EarlyFailureIgnoresUpstream | supabase/functions/chat/index.ts:13-138 | an unreadable body or a missing key gives 500, whatever upstream would have done |

## Left out

- Rendering, hooks, refs, scrolling and toasts, and every component other than the two modelled files: user interface only.
- The Supabase queries, inserts and deletes: external storage. The stored reply and title are returned as values (`Persist`, `NewTitle`).
- `fetch`, `reader.read()` and `TextDecoder`: transport and UTF-8 decoding. The body is a sequence of already decoded chunks, and a string is a sequence of `char`, not of UTF-16 code units.
- The `!response.ok` branch on the page, which throws the proxy's error message, and the case of a response without a body (`while (reader)` with no reader): no chunks are modelled for them.
- `JSON.parse` and the shape of the parsed object: a foreign library. It is the `parse` parameter. JavaScript truthiness is reduced to "empty string means absent".
- React's stale closures: the history sent is passed in as a parameter, separately from the shown list that the updates extend.
- `crypto.randomUUID()`: the reply's id is a parameter, required to differ from every shown message's id.
- `handleSend`'s guard against blank input and its `try`/`catch`/`finally`, apart from the clean-up filter (`KeepAfterError`) it applies.
- In the proxy: the async `serve` handler, CORS, logging, and the web-search and completion calls themselves. Their outcomes are parameters (`found`, `upstream`).
- In the proxy, `think` and `search` are booleans. Other JSON values and their truthiness are not modelled.
- supabase/functions/generate-image/index.ts is not part of this model.
- A retry cap or a bound on the buffer: the code has none.
