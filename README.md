# Prism RAG chat UI: a verified model of its client-side logic

Prism is a browser chat front end for retrieval-augmented generation. Users upload documents to be
chunked into a vector store, then ask questions about them. This project models in Dafny the logic
that lives in four of its React components, and proves properties of that model:

- **File upload dialog** (`FileUpload`).
  - Admission: only PDF, plain-text and JSON files of at most 50 MiB are accepted. The type is
    tested first.
  - The per-file pipeline. In an uninterrupted run it issues 19 id-keyed updates of the dialog's
    `files` list:
    - eleven upload steps at 0, 10, …, 100 %;
    - the switch to `processing`;
    - six chunking steps at 0, 20, …, 100 %, each showing `ceil(estimate * p / 100)` chunks;
    - the completion with the full estimate, where the estimate is `ceil(size / 1000)`.
  - The `catch` block. It marks the entry as failed, with `Failed to process file`.
  - Removal of a file by id, and the status line shown for an entry.
  - The list is a `FileTable` class with a `files: seq<UploadedFile>` field. Its methods
    (`Append`, `Update`, `Remove`, `ProcessFile`, `HandleFileSelect`) reassign that field. Each
    method is proved against a specification function on sequences (`UpdateById`, `ApplyTrace`,
    `RemoveById`, `ProcessAll`).
- **Chat area** (`ChatArea`).
  - The send guard: the trimmed input must be non-empty, and no reply may be under way.
  - The user message the send appends, and the empty streaming placeholder for the reply.
  - The word-by-word streaming of the canned reply. The reply is split on single spaces. Each
    word is appended to the text so far, and the placeholder is rewritten with that text.
  - The `isLoading` flag is cleared at the last word.
  - The state is a `Conversation` class with `messages`, `inputValue` and `isLoading`.
- **Context panel** (`ContextPanel`, `RelativeTime`).
  - The colour class of a similarity score.
  - The badge of a document status.
  - The relative time (`5m ago`, `3h ago`, `2d ago`).
- **Chat sidebar** (`ChatSidebar`, `RelativeTime`).
  - The case-insensitive substring search over session titles.
  - The same relative-time formatting. The sidebar and the context panel define identical
    `formatTime` functions, so it is modelled once.

The supporting modules model the JavaScript runtime behaviour the components depend on:

- `Text` has `trim` over the full ECMAScript whitespace set, ASCII `toLowerCase`, `includes`,
  and `split(' ')` with the left-to-right join that the streaming accumulator performs.
- `Decimal` has template-literal rendering of integers.
- `Seqs` has order-preserving `filter`.
- `Wrappers` has `Option`.

Clocks and random ids are parameters: `now`, `sendAt`, `replyAt`, a file's `id`. Where an
exception strikes is also a parameter: `fault` is the number of pipeline updates that go through
before it.

## Model

| member | source | states |
|---|---|---|
| FileUpload.Screen | src/components/chat/FileUploadDialog.tsx:110-134 | a file is rejected for its type exactly when the type is not one of the three accepted; rejected for size exactly when the type is accepted and the size exceeds 52428800 bytes; admitted otherwise |
| FileUpload.Admissible | src/components/chat/FileUploadDialog.tsx:110-134 | definition with no contract of its own: a file passes the type test and the size test |
| FileUpload.AdmitFiles | src/components/chat/FileUploadDialog.tsx:107-134 | the admitted files are a subsequence of the selection in their original order; every one has an accepted type and size at most 50 MiB; every admissible selected file is among them; their number is the number of admissible selected files, so identical files are all kept |
| FileUpload.SizeLimitInclusive | src/components/chat/FileUploadDialog.tsx:122-131 | a file of exactly 50 MiB is admitted, and one byte more is rejected as too large |
| FileUpload.OtherTypesRejected | src/components/chat/FileUploadDialog.tsx:112-120 | a PNG image is rejected for its type whatever its size |
| FileUpload.Apply | src/components/chat/FileUploadDialog.tsx:56-97 | every update keeps the entry's id, name, size and type |
| FileUpload.UpdateById | src/components/chat/FileUploadDialog.tsx:56-58 | the list keeps its length and order; every entry with the id is updated and every other entry is unchanged |
| FileUpload.ApplyAll | src/components/chat/FileUploadDialog.tsx:54-97 | a sequence of updates keeps the entry's identity |
| FileUpload.ApplyTrace | src/components/chat/FileUploadDialog.tsx:54-97 | after a sequence of id-keyed updates, the entries with the id have had all of them applied in order and every other entry is untouched |
| FileUpload.ApplyTraceSnoc | src/components/chat/FileUploadDialog.tsx:56-58 | issuing one more update is one more `UpdateById` on the current list |
| FileUpload.RemoveById | src/components/chat/FileUploadDialog.tsx:155-157 | the result is an order-preserving subsequence without the id; every entry with a different id survives; exactly the entries with the id are dropped (length count) |
| FileUpload.CountComplement | src/components/chat/FileUploadDialog.tsx:155-157 | the entries with and without an id add up to the whole list |
| FileUpload.RemoveAbsentId | src/components/chat/FileUploadDialog.tsx:155-157 | removing an id that is not in the list changes nothing |
| FileUpload.CeilDivBounds | src/components/chat/FileUploadDialog.tsx:69 | the ceiling quotient is the least count of pieces that cover the dividend |
| FileUpload.CeilDiv | src/components/chat/FileUploadDialog.tsx:69 | definition with no contract of its own: `Math.ceil(a / b)` on naturals, characterised by `CeilDivBounds` |
| FileUpload.EstimatedChunks | src/components/chat/FileUploadDialog.tsx:69 | definition with no contract of its own: `Math.ceil(file.size / 1000)` |
| FileUpload.ChunksAt | src/components/chat/FileUploadDialog.tsx:75 | definition with no contract of its own: `Math.ceil(estimatedChunks * (progress / 100))`, characterised by `ChunksAtBounds` |
| FileUpload.CeilDivMonotone | src/components/chat/FileUploadDialog.tsx:75 | the ceiling quotient never decreases as the dividend grows |
| FileUpload.ChunksAtBounds | src/components/chat/FileUploadDialog.tsx:69-83 | the chunk count shown during processing never decreases with progress and never exceeds the estimate; at 100 % it equals the estimate |
| FileUpload.UploadStep | src/components/chat/FileUploadDialog.tsx:54-59 | the j-th upload update sets progress 10·j |
| FileUpload.ChunkingStep | src/components/chat/FileUploadDialog.tsx:71-77 | each chunking update sets the progress reached and the chunk count for that progress |
| FileUpload.PlanStep | src/components/chat/FileUploadDialog.tsx:54-85 | definition with no contract of its own: the j-th update of an uninterrupted run (upload at 10·j %, the switch to processing, chunking at 20·(j−12) %, the completion); its meaning is stated by `UploadStep`, `ChunkingStep` and `Stages` |
| FileUpload.Plan | src/components/chat/FileUploadDialog.tsx:54-85 | the first k pipeline updates, with the j-th being the j-th step of the pipeline |
| FileUpload.Trace | src/components/chat/FileUploadDialog.tsx:52-97 | definition with no contract of its own: the updates a run issues, all of `Plan` without a fault, or the first `fault` of them followed by the `catch` update |
| FileUpload.Initial | src/components/chat/FileUploadDialog.tsx:41-48 | definition with no contract of its own: the new entry, uploading at 0 % with the file's name, size and type under its id |
| FileUpload.FinalEntry | src/components/chat/FileUploadDialog.tsx:41-97 | definition with no contract of its own: the initial entry with the whole trace applied; stated by `CompletedOutcome` and `FailedOutcome` |
| FileUpload.StateAfter | src/components/chat/FileUploadDialog.tsx:41-85 | definition with no contract of its own: the new entry after the first k updates of an uninterrupted run; stated by `Stages`, `UploadProgressIncreasing`, `ChunksNonDecreasing`, `FailedOutcome` and `PipelineTexts` |
| FileUpload.Stages | src/components/chat/FileUploadDialog.tsx:41-85 | the new entry's state after k updates of an uninterrupted run: uploading at 10·(k−1) % with no chunks, then processing at 0 %, then processing at 20·(k−13) % with the matching chunk count, then completed at 100 % with the estimate; never an error |
| FileUpload.UploadProgressIncreasing | src/components/chat/FileUploadDialog.tsx:54-59 | upload progress strictly increases from update to update and ends at 100 |
| FileUpload.ChunksNonDecreasing | src/components/chat/FileUploadDialog.tsx:71-78 | during processing the chunk count never decreases and stays within the estimate |
| FileUpload.CompletedOutcome | src/components/chat/FileUploadDialog.tsx:80-85 | without an exception the entry ends completed, at 100 %, with the estimated chunk count and no error |
| FileUpload.TenThousandByteFile | src/components/chat/FileUploadDialog.tsx:69-85 | a 10,000-byte text file ends completed with 10 chunks |
| FileUpload.FailedOutcome | src/components/chat/FileUploadDialog.tsx:92-97 | after an exception the entry is in error with `Failed to process file`, keeps the progress and chunk count of the last update that went through, and shows that message |
| FileUpload.StatusText | src/components/chat/FileUploadDialog.tsx:171-182 | an entry in error shows its message when there is a non-empty one, and otherwise `Error` |
| FileUpload.PipelineTexts | src/components/chat/FileUploadDialog.tsx:171-182 | along an uninterrupted run the status line reads `Uploading...`, then `Processing... (0 chunks)`, then the chunk count reached, then `Completed (<estimate> chunks stored)`, so `undefined` never appears |
| FileUpload.ProcessStep | src/components/chat/FileUploadDialog.tsx:38-105 | one processed file adds exactly one entry at the end, which carries the file's identity; no existing entry changes its identity |
| FileUpload.JobOf | src/components/chat/FileUploadDialog.tsx:38-97 | definition with no contract of its own: one `processFile(file)` call, the entry it appends at :50 and the updates it issues under its id and fault point |
| FileUpload.ProcessAll | src/components/chat/FileUploadDialog.tsx:136 | processing n files adds n entries |
| FileUpload.ProcessAllSnoc | src/components/chat/FileUploadDialog.tsx:136 | processing one more file is one more step of the fold |
| FileUpload.ProcessAllKeeps | src/components/chat/FileUploadDialog.tsx:136 | entries already listed keep their identity whatever is processed after them |
| FileUpload.ProcessAllEntries | src/components/chat/FileUploadDialog.tsx:136 | the i-th new entry carries the identity of the i-th processed file: each file exactly once, in order |
| FileUpload.ProcessStepFresh | src/components/chat/FileUploadDialog.tsx:38-105 | with an id new to the list, processing appends the file's final entry and leaves every other entry unchanged |
| FileUpload.RemoveUndoesProcess | src/components/chat/FileUploadDialog.tsx:155-157 | removing a freshly processed file restores the list as it was before |
| FileUpload.Outcomes | src/components/chat/FileUploadDialog.tsx:136 | the i-th outcome is the i-th job's final entry |
| FileUpload.LastIdFresh | src/components/chat/FileUploadDialog.tsx:136 | with distinct fresh ids, the last file's id is new to the list the earlier files leave |
| FileUpload.ProcessAllFresh | src/components/chat/FileUploadDialog.tsx:136 | with distinct ids new to the list, the files do not disturb one another: the old list followed by one final entry per file, in order |
| FileUpload.Jobs | src/components/chat/FileUploadDialog.tsx:136 | the i-th job is the i-th admitted file under the i-th id and fault point |
| FileUpload.ProcessFilesIdentity | src/components/chat/FileUploadDialog.tsx:136 | after `handleFileSelect` the old entries keep their identity and the i-th new entry is the i-th admitted file under the i-th id |
| FileUpload.ProcessFilesFresh | src/components/chat/FileUploadDialog.tsx:136 | with distinct fresh ids, the list after `handleFileSelect` is the old list followed by one outcome per admitted file |
| FileUpload.OutcomeOfFile | src/components/chat/FileUploadDialog.tsx:38-105 | the outcome of the i-th admitted file is its final entry under its own id and fault point |
| FileUpload.JobsFresh | src/components/chat/FileUploadDialog.tsx:39 | distinct fresh run ids make the jobs' ids distinct and fresh |
| FileUpload.FileTable.constructor | src/components/chat/FileUploadDialog.tsx:26 | the list starts empty |
| FileUpload.FileTable.Append | src/components/chat/FileUploadDialog.tsx:50 | `setFiles(prev => [...prev, entry])`: the entry is appended |
| FileUpload.FileTable.Update | src/components/chat/FileUploadDialog.tsx:56-58 | the list becomes `UpdateById` of the old list |
| FileUpload.FileTable.Remove | src/components/chat/FileUploadDialog.tsx:155-157 | the list becomes `RemoveById` of the old list |
| FileUpload.FileTable.ProcessFile | src/components/chat/FileUploadDialog.tsx:38-105 | `processFile`: the list becomes the old list plus the initial entry, with the trace of issued updates applied under the file's id (the full pipeline, or the updates before the fault followed by the failure) |
| FileUpload.FileTable.UploadStage | src/components/chat/FileUploadDialog.tsx:54-59 | the upload loop issues the first eleven pipeline updates, or stops at the fault with the failure applied |
| FileUpload.FileTable.ChunkStage | src/components/chat/FileUploadDialog.tsx:68-78 | the chunking loop issues pipeline updates 12 to 17, or stops at the fault with the failure applied |
| FileUpload.FileTable.Issue | src/components/chat/FileUploadDialog.tsx:56-58 | issuing the next planned update extends the applied trace by it |
| FileUpload.FileTable.Interrupt | src/components/chat/FileUploadDialog.tsx:92-97 | the `catch` block appends the failure to the applied trace |
| FileUpload.FileTable.HandleFileSelect | src/components/chat/FileUploadDialog.tsx:107-137 | a missing file list changes nothing; otherwise each admitted file is processed once, in order |
| FileUpload.FileTable.ProcessEach | src/components/chat/FileUploadDialog.tsx:136 | the `forEach` leaves the list equal to `ProcessAll` of the files |
| ChatArea.SetContentById | src/components/chat/ChatArea.tsx:87-91 | every message with the id gets the new content and streaming flag; every other message and the order are unchanged |
| ChatArea.SetContentTwice | src/components/chat/ChatArea.tsx:84-91 | a later rewrite of the same message overrides an earlier one |
| ChatArea.SetContentAbsent | src/components/chat/ChatArea.tsx:87-91 | rewriting an id that no message has changes nothing |
| ChatArea.InitialMessages | src/components/chat/ChatArea.tsx:21-28 | definition with no contract of its own: the greeting with id `1`, five minutes before the mount clock |
| ChatArea.CanSend | src/components/chat/ChatArea.tsx:53 | definition with no contract of its own: the negation of the early return: the trimmed input is non-empty and nothing is loading; characterised by `CanSendIff` |
| ChatArea.CanSendIff | src/components/chat/ChatArea.tsx:53 | a message can be sent exactly when the input is not all whitespace and no reply is loading |
| ChatArea.ResponseText | src/components/chat/ChatArea.tsx:79 | definition with no contract of its own: the template literal at ChatArea.tsx:79, the fixed opening, the question verbatim, then the fixed closing |
| ChatArea.Words | src/components/chat/ChatArea.tsx:82 | definition with no contract of its own: `responseText.split(' ')` |
| ChatArea.Partial | src/components/chat/ChatArea.tsx:84-86 | definition with no contract of its own: `currentText` after the first k word timers, the left-to-right join of those words; stated by `PartialSnoc` and `StreamPrefix` |
| ChatArea.PartialSnoc | src/components/chat/ChatArea.tsx:86 | one more word extends the streamed text by a space (except before the first word) and that word |
| ChatArea.StreamPrefix | src/components/chat/ChatArea.tsx:81-97 | the streamed text only grows, is always a prefix of the reply, and after the last word equals the reply exactly |
| ChatArea.UserMessage | src/components/chat/ChatArea.tsx:55-60 | definition with no contract of its own: the user message, with the clock reading as id and timestamp |
| ChatArea.Placeholder | src/components/chat/ChatArea.tsx:68-74 | definition with no contract of its own: the empty streaming assistant message with id clock+1 |
| ChatArea.ReplyLandsOnPlaceholder | src/components/chat/ChatArea.tsx:62-91 | when the placeholder's id is new and differs from the user message's, the exchange leaves the earlier messages untouched, then the user message, then the finished, non-streaming reply |
| ChatArea.Conversation.constructor | src/components/chat/ChatArea.tsx:21-30 | the conversation starts with the greeting, an empty input and nothing loading |
| ChatArea.Conversation.SetInput | src/components/chat/ChatArea.tsx:29 | typing changes only the input |
| ChatArea.Conversation.HandleSend | src/components/chat/ChatArea.tsx:52-64 | the send goes through exactly when the guard holds; then the trimmed, non-empty input is appended as a user message with the clock as id, the input is cleared and loading starts; otherwise nothing changes |
| ChatArea.Conversation.AppendPlaceholder | src/components/chat/ChatArea.tsx:67-76 | an empty streaming assistant message with id clock+1 is appended; nothing else changes |
| ChatArea.Conversation.DeliverWord | src/components/chat/ChatArea.tsx:85-95 | one word's timer extends the text, rewrites the placeholder with it, keeps it streaming unless this is the last word, and clears loading at the last word |
| ChatArea.Conversation.StreamResponse | src/components/chat/ChatArea.tsx:78-97 | after all words the placeholder holds exactly the reply and is no longer streaming, and loading is over |
| ChatArea.Conversation.Exchange | src/components/chat/ChatArea.tsx:52-99 | a whole send: either nothing changes, or the user message and the placeholder are appended and the placeholder ends with the full reply, the input empty and loading over |
| ContextPanel.SimilarityBand | src/components/chat/ContextPanel.tsx:116-120 | strong exactly from 0.8 up, moderate exactly on [0.6, 0.8), weak exactly below 0.6 |
| ContextPanel.BandClass | src/components/chat/ContextPanel.tsx:117-119 | definition with no contract of its own: the colour class of each band |
| ContextPanel.SimilarityColor | src/components/chat/ContextPanel.tsx:116-120 | `text-success` exactly from 0.8 up, `text-warning` exactly on [0.6, 0.8), `text-text-muted` exactly below 0.6 |
| ContextPanel.SimilarityBandMonotone | src/components/chat/ContextPanel.tsx:116-120 | a higher score never gets a lower band |
| ContextPanel.StatusBadge | src/components/chat/ContextPanel.tsx:122-131 | every status gets a badge whose caption reads back as that status; only `failed` is destructive |
| ContextPanel.StatusBadgeInjective | src/components/chat/ContextPanel.tsx:122-131 | distinct statuses get distinct captions |
| RelativeTime.FloorDiv | src/components/chat/ContextPanel.tsx:107-109 | `Math.floor(a / b)`: the quotient brackets the dividend |
| RelativeTime.Bucket | src/components/chat/ContextPanel.tsx:104-114 | minutes exactly when less than an hour has passed, hours exactly between one hour and one day, days from one day on; each count brackets the elapsed time, with 1–23 hours and at least one day |
| RelativeTime.BucketThresholds | src/components/chat/ContextPanel.tsx:107-113 | the form is chosen by the source's tests on the floored counts: minutes < 60, else hours < 24, else days |
| RelativeTime.Render | src/components/chat/ContextPanel.tsx:111-113 | definition with no contract of its own: the template literals `${n}m ago`, `${n}h ago`, `${n}d ago` |
| RelativeTime.RenderRoundTrip | src/components/chat/ContextPanel.tsx:111-113 | the rendered text reads back as the same form and count |
| RelativeTime.ParseAgoCanonical | src/components/chat/ContextPanel.tsx:111-113 | a text that reads back as a form is exactly that form's rendering, so with `FormatTime` the text is pinned to the template literal |
| RelativeTime.SuffixParts | src/components/chat/ContextPanel.tsx:111-113 | a count followed by a unit suffix splits back into the count and the unit |
| RelativeTime.FormatTime | src/components/chat/ChatSidebar.tsx:62-72 | `formatTime` (identical in the context panel) renders exactly the form `Bucket` chooses |
| RelativeTime.BucketMonotone | src/components/chat/ContextPanel.tsx:104-114 | as time passes the form never moves back towards minutes |
| ChatSidebar.FilterSessions | src/components/chat/ChatSidebar.tsx:58-60 | the shown sessions are a subsequence in the original order, all match the query, and every matching session is shown |
| ChatSidebar.Matches | src/components/chat/ChatSidebar.tsx:59 | definition with no contract of its own: the lowered title includes the lowered query |
| ChatSidebar.ShownIff | src/components/chat/ChatSidebar.tsx:58-60 | a session is shown exactly when its lower-cased title contains the lower-cased query |
| ChatSidebar.EmptyQueryKeepsAll | src/components/chat/ChatSidebar.tsx:58-60 | an empty search shows every session in order |
| ChatSidebar.CaseInsensitive | src/components/chat/ChatSidebar.tsx:58-60 | queries that differ only in letter case show the same sessions |
| ChatSidebar.FilteredCount | src/components/chat/ChatSidebar.tsx:58-60 | the number shown is the number of matching sessions |
| Text.TextStart | src/components/chat/ChatArea.tsx:53 | the first non-whitespace position at or after i, with only whitespace before it |
| Text.IsWhitespace | src/components/chat/ChatArea.tsx:53 | definition with no contract of its own: the characters `trim()` removes, ECMAScript WhiteSpace and LineTerminator |
| Text.TextEnd | src/components/chat/ChatArea.tsx:53 | the position after the last non-whitespace character before j, with only whitespace after it |
| Text.Trim | src/components/chat/ChatArea.tsx:53 | the trimmed text neither starts nor ends with whitespace; it is empty exactly when the input is all whitespace; it is the input with whitespace removed from both ends only |
| Text.LowerChar | src/components/chat/ChatSidebar.tsx:59 | an upper-case ASCII letter becomes its lower-case letter; every other character is unchanged |
| Text.Lower | src/components/chat/ChatSidebar.tsx:59 | `toLowerCase` keeps the length and lowers each character |
| Text.LowerEqualIff | src/components/chat/ChatSidebar.tsx:59 | two strings lower to the same string exactly when they differ only in letter case |
| Text.Contains | src/components/chat/ChatSidebar.tsx:59 | `includes` holds exactly when the needle occurs as a contiguous substring |
| Text.ContainsEmpty | src/components/chat/ChatSidebar.tsx:59 | every string includes the empty string |
| Text.IndexOf | src/components/chat/ChatArea.tsx:82 | the first position of the character, or the length when it does not occur |
| Text.Split | src/components/chat/ChatArea.tsx:82 | `split(' ')` gives at least one piece, and no piece contains the separator |
| Text.JoinCons | src/components/chat/ChatArea.tsx:86 | joining a piece in front is that piece, the separator, then the rest |
| Text.Join | src/components/chat/ChatArea.tsx:86 | definition with no contract of its own: the left-to-right accumulation `acc + (index > 0 ? sep : '') + word`; stated by `JoinCons`, `SplitThenJoin`, `JoinThenSplit` and `JoinPrefix` |
| Text.SplitThenJoin | src/components/chat/ChatArea.tsx:82-86 | joining the split pieces gives back the original string |
| Text.SplitThenJoinStep | src/components/chat/ChatArea.tsx:82-86 | the round trip extends over the first separator |
| Text.JoinThenSplit | src/components/chat/ChatArea.tsx:82-86 | splitting joined pieces that contain no separator gives back the pieces |
| Text.IndexOfAfter | src/components/chat/ChatArea.tsx:82 | the first separator of `w + sep + t` is right after `w` when `w` has none |
| Text.JoinPrefix | src/components/chat/ChatArea.tsx:86 | each left-to-right partial join is a prefix of the full join |
| Decimal.DigitChar | src/components/chat/FileUploadDialog.tsx:176 | a digit value is rendered as its decimal digit |
| Decimal.NatToString | src/components/chat/FileUploadDialog.tsx:176 | a count renders as at least one decimal digit with no leading zero |
| Decimal.NatToStringValue | src/components/chat/FileUploadDialog.tsx:176 | the rendered digits denote the number rendered |
| Decimal.IntToString | src/components/chat/ChatArea.tsx:56 | `Date.now().toString()` renders a non-empty text with a minus sign exactly for negative values |
| Decimal.IntToStringRoundTrip | src/components/chat/ChatArea.tsx:56 | reading the rendered integer gives it back |
| Decimal.ParseIntCanonical | src/components/chat/ChatArea.tsx:56 | only the rendering of an integer reads back as it: the reader accepts no leading zeros and no `-0`, so the round trip pins the exact text |
| Decimal.ParseInt | src/components/chat/ChatArea.tsx:56 | definition with no contract of its own: the reader of rendered integers, the partner of `IntToString` |
| Decimal.IntToStringInjective | src/components/chat/ChatArea.tsx:56-69 | distinct clock readings give distinct message ids |
| Seqs.CountIf | src/components/chat/ChatSidebar.tsx:58 | the count of kept elements is at most the length |
| Seqs.Filter | src/components/chat/ChatSidebar.tsx:58 | `filter` keeps an order-preserving subsequence of exactly the elements that satisfy the predicate |
| Seqs.FilterKeepsAll | src/components/chat/ChatSidebar.tsx:58 | filtering by a predicate every element meets is the identity |
| Seqs.FilterDropsAll | src/components/chat/FileUploadDialog.tsx:156 | filtering by a predicate no element meets gives the empty list |
| Seqs.FilterCongruent | src/components/chat/ChatSidebar.tsx:58 | filtering depends only on the predicate's values on the elements |
| Seqs.FilterAppend | src/components/chat/FileUploadDialog.tsx:156 | filtering distributes over concatenation |

Proof helpers with no source counterpart, and so no row: `FileUpload.MulMonotone`, `Text.SliceAround`,
`RelativeTime.SuffixSplit`, `Decimal.LeadingDigitPositive` and `Decimal.CanonicalDigits`.

## Left out

- Rendering is left out: the JSX markup, icons (`getStatusIcon`), CSS, dialog open state,
  drag-and-drop highlighting, textarea auto-resize and scroll-to-bottom. None of it computes
  program state.
- Timers and concurrency are left out. Every `setTimeout` and `await` is abstracted away:
  - One loop iteration of the pipeline is one update of the list.
  - One word's timer is one `DeliverWord` call.
  - The files of one selection are processed one after the other. In the browser they interleave.
    Interleaving is harmless when the ids are distinct, because each pipeline only touches its own
    entry (`ProcessAllFresh`), but the model does not cover the interleavings themselves.
  - Input typed or other events arriving between two word timers are not modelled.
  - `FileTable.ProcessFile` runs a file's whole pipeline as one atomic method. So a `removeFile` on
    an entry that is still uploading or processing, and a second `handleFileSelect` while a pipeline
    runs, are not modelled. The source allows both, because the remove button is shown during the
    upload.
- Toasts are left out. `toast(...)` is UI. Only its position inside the `try` is kept, by allowing
  an exception after the last update (fault point 19).
- `UserMessage` and `Placeholder` each take their id and timestamp from one clock reading. The source
  reads `Date.now()` for the id and `new Date()` for the timestamp separately, so the two can differ
  by a millisecond.
- `Math.random().toString(36)` and `Date.now()` are left out. Ids and clock readings are
  parameters, and the model allows id collisions. `formatTime` takes `now` explicitly.
- `FileUpload.EstimatedChunks` and `FileUpload.ChunksAt` use exact integer ceilings for `Math.ceil(size / 1000)`
  and `Math.ceil(estimated * (progress / 100))`. The source computes these in IEEE double
  arithmetic.
- `ContextPanel.SimilarityBand` and `ContextPanel.SimilarityColor` take the similarity score as an
  exact real, not a double.
- `formatFileSize` (both copies) is not modelled, because it is pure floating point (`Math.log`,
  `toFixed`).
- The chat area's `formatTime` is not modelled, because it is `toLocaleTimeString`, which depends
  on the locale.
- `Text.Lower` lowers only ASCII letters. `toLowerCase` also lowers non-ASCII letters.
- `FileUpload.StatusText`: its contract covers only the error case. The other three cases are
  stated along the pipeline by `PipelineTexts`.
- The mock data the components are seeded with (sessions, chunks, documents) is left out. So are
  the `currentChatId` prop, `handleKeyDown` (Enter calls `handleSend`), and ChatLayout.tsx, which
  only wires the components together. None of them is part of this model.
- A missing `isStreaming` on a message is modelled as `false`. A missing `chunks` or `error` on an
  entry is modelled as `None`.
