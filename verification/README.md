# A verified model of The Protocol Master

The Protocol Master is a proxy that records the traffic between clients and servers of many protocols, and
later plays it back, or answers from mocks. This project models its shared engine in Dafny and proves what
that engine is meant to guarantee. Classes of the program that change in place are classes here; each
method is proved against a function or a relation, and the properties of whole runs are proved of those.

- **Templates** (`Text`, `TemplateParse`, `TemplateLaws`, `TemplateMatch`, `TemplateExact`): cutting a query
  template into literals and placeholders, and matching it with a query. Parsing and concatenation undo each
  other on exactly the canonical lists; the leftmost matcher is sound and complete.
- **Buffer** (`Endian`, `Borders`, `Buffers`, `TypedStream`, `Ascii`): the growing byte buffer with its cursor, typed
  values of either byte order as bit patterns, and the Knuth-Morris-Pratt search.
- **Frames** (`Framing`, `FrameMailbox`): cutting a TCP stream into messages, independently of how it arrives
  in chunks, and the mailbox between the socket and its readers.
- **Events and recordings** (`EventsQueue`, `PaddedNames`, `FileNames`, `Storage`, `RecordPlugin`,
  `Recording`, `RecordReplay`): the event queue and its counter, the repository with its single-thread
  executor, and the round trip from a recording session to its replay. Concurrency is a transition system:
  a step is one action of one thread, and theorems hold for every list of steps.
- **Replay** (`Tags`, `Callbacks`, `Replay`, `Fidelity`, `NetworkProxy`): choosing the recorded call that
  answers a request, scheduling the callbacks recorded after it, getting back what was recorded, in the order
  it was or in any other, and keeping the real server out of it.
- **Mocks** (`Mock`, `JdbcMock`): when a mock answers, and which mock is chosen.

`Wrappers`, `JavaInt` and `Sorting` hold what the others share. Exceptions are values (`None`, `Err`,
`Throws`, `Thrown`, or a false `ok`). Integers of the buffer are bit vectors; other integers are unbounded,
with the casts and overflows of 32-bit ones written out by `Int32`.

## What the code does otherwise than expected

- `write(byte[], offset)` puts a block past the end at the old end, and throws after growing the buffer for a
  block that straddles the end; `writePartial` decides by the length of its source array, and can shrink the
  buffer and clear it (`WriteIsOverlayIff`, `PartialIsOverlayIff`).
- A placeholder left open at the end of a template loses its sigil (`ParseKeepsText`), and a literal such as
  `${1}` is taken for a placeholder by the matcher (`MatchFaithfulIff`).
- `clean()` called by the handler of an event leaves the counter of the queue one too low
  (`CleanKeepsBarrierIff`, `CleanInsideHandler`).
- A write that is still in the executor when its instance is opened again gets into the new session
  (`OnlySessionLinesIff`), a null line makes every later wait for the executor time out (`WaitSucceedsIff`),
  and a finalization whose wait timed out leaves the waiting lines out of the index (`LateLineIsLost`).
- A call recorded under an index beyond 32 bits is never marked as used and answers again and again
  (`EachCallOnceIff`, `OversizedAnswersTwice`).
- Of recorded calls of one type and caller with the same tags the first unused one answers, whichever of them
  is asked for; only then does the order of the requests matter (`FaithfulInAnyOrderIff`).
- An instance whose id hides `.json` can leak its recordings into another one (`HiddenExtensionLeaks`).

## Model

| member | source | states |
|---|---|---|
| `TemplateParse.ScanPlaceholder` | protocol-common/src/main/java/org/kendar/utils/ExtraStringReplacer.java:18-40 | the inner loop tells a complete placeholder, one left open and plain text apart, for every position of every text |
| `TemplateParse.Parse` | protocol-common/src/main/java/org/kendar/utils/ExtraStringReplacer.java:10-61 | the loops compute the token list of the specification function, or its failure |
| `TemplateLaws.ParseFailsIff` | protocol-common/src/main/java/org/kendar/utils/ExtraStringReplacer.java:25-28 | parsing throws exactly when two complete placeholders touch somewhere in the text |
| `TemplateLaws.ParseKeepsText` | protocol-common/src/main/java/org/kendar/utils/ExtraStringReplacer.java:10-61 | a parsed template alternates non-empty literals and placeholders (only the first literal may be empty), no literal hides a placeholder, and concatenation gives the input back exactly when no placeholder is left open at its end; otherwise it loses just the sigil of that one |
| `TemplateLaws.ParseOfConcat` | protocol-common/src/main/java/org/kendar/utils/ExtraStringReplacer.java:10-61 | the lists that survive concatenation and parsing are exactly the canonical ones whose closing literal leaves nothing open |
| `TemplateMatch.Match` | protocol-common/src/main/java/org/kendar/utils/ExtraStringReplacer.java:63-89 | the loop computes the segments of the specification function, and the empty list when a literal is missing |
| `TemplateMatch.GreedyComplete` | protocol-common/src/main/java/org/kendar/utils/ExtraStringReplacer.java:69-82 | exchange argument: an instance of the pattern never starts a segment before the greedy one, so the greedy one exists |
| `TemplateMatch.MatchIsLeftmostInstance` | protocol-common/src/main/java/org/kendar/utils/ExtraStringReplacer.java:63-89 | a full-length answer comes exactly when the query contains an instance of the pattern; it is then contiguous, keeps the literals, starts every segment leftmost among all instances and gives every capture its shortest value; otherwise the answer is empty |
| `TemplateExact.MatchFaithfulIff` | protocol-common/src/main/java/org/kendar/utils/ExtraStringReplacer.java:63-93 | on a parsed template the matcher is right for every query exactly when no literal of the template looks like a placeholder |
| `TemplateExact.DigitPlaceholderDefeats` | protocol-common/src/main/java/org/kendar/utils/ExtraStringReplacer.java:91-93 | `${1}` parses to a literal that then matches the empty query |
| `Endian.Swap2Bytes` | protocol-common/src/main/java/org/kendar/buffers/BBEndiannessConverter.java:33-38 | two bytes are reversed in place |
| `Endian.Swap4BytesAt` | protocol-common/src/main/java/org/kendar/buffers/BBEndiannessConverter.java:23-31 | four bytes at an offset are reversed in place and all others stay |
| `Endian.Swap8Bytes` | protocol-common/src/main/java/org/kendar/buffers/BBEndiannessConverter.java:7-17 | reversing the halves and exchanging them reverses all eight bytes |
| `Endian.JoinBytes2` | protocol-common/src/main/java/org/kendar/buffers/BBuffer.java:274-285 | the two bytes of a short accumulate to it again, with 32-bit wrap-around and the cast back |
| `Endian.JoinBytes4` | protocol-common/src/main/java/org/kendar/buffers/BBuffer.java:257-261 | the four bytes of an integer accumulate to it again |
| `Endian.JoinBytes8` | protocol-common/src/main/java/org/kendar/buffers/BBuffer.java:302-309 | the eight bytes of a long sum up to it again |
| `Buffers.BBuffer.WriteAt` | protocol-common/src/main/java/org/kendar/buffers/BBuffer.java:158-170 | the whole buffer after a write at any offset, and when it throws |
| `Buffers.BBuffer.Write` | protocol-common/src/main/java/org/kendar/buffers/BBuffer.java:128-134 | the write starts at the cursor, -1 meaning the start, and moves it past the bytes |
| `Buffers.BBuffer.WritePartialAt` | protocol-common/src/main/java/org/kendar/buffers/BBuffer.java:144-156 | the whole buffer after a partial write of any length: shrunk and emptied in the branch that sizes by the wrong length, replaced before a length the source lacks makes it throw |
| `Buffers.BBuffer.WriteByte` | protocol-common/src/main/java/org/kendar/buffers/BBuffer.java:119-125 | one byte at the cursor |
| `Buffers.BBuffer.WriteShort` | protocol-common/src/main/java/org/kendar/buffers/BBuffer.java:323-340 | the two bytes of the value at the cursor: from the highest bits down in a big-endian buffer, from the lowest up in a little-endian one |
| `Buffers.BBuffer.WriteInt` | protocol-common/src/main/java/org/kendar/buffers/BBuffer.java:442-461 | the four bytes of the value at the cursor: from the highest bits down in a big-endian buffer, from the lowest up in a little-endian one |
| `Buffers.BBuffer.WriteLong` | protocol-common/src/main/java/org/kendar/buffers/BBuffer.java:342-365 | the eight bytes of the value at the cursor: from the highest bits down in a big-endian buffer, from the lowest up in a little-endian one |
| `Buffers.BBuffer.GetBytesAt` | protocol-common/src/main/java/org/kendar/buffers/BBuffer.java:196-200 | a copy of the bytes asked for, or failure when they are not all there |
| `Buffers.BBuffer.GetBytes` | protocol-common/src/main/java/org/kendar/buffers/BBuffer.java:172-179 | the bytes at the cursor, which moves past them |
| `Buffers.BBuffer.Get` | protocol-common/src/main/java/org/kendar/buffers/BBuffer.java:181-194 | the byte at the cursor |
| `Buffers.BBuffer.GetShort` | protocol-common/src/main/java/org/kendar/buffers/BBuffer.java:265-285 | the value whose highest byte is the first of the two at the cursor in a big-endian buffer, the last in a little-endian one; the bytes stay as they are |
| `Buffers.BBuffer.GetInt` | protocol-common/src/main/java/org/kendar/buffers/BBuffer.java:240-263 | the value whose highest byte is the first of the four at the cursor in a big-endian buffer, the last in a little-endian one; the bytes stay as they are |
| `Buffers.BBuffer.GetLong` | protocol-common/src/main/java/org/kendar/buffers/BBuffer.java:287-310 | the value whose highest byte is the first of the eight at the cursor in a big-endian buffer, the last in a little-endian one; the bytes stay as they are |
| `Buffers.BBuffer.FindNextCharPosition` | protocol-common/src/main/java/org/kendar/buffers/BBuffer.java:401-408 | the first index of the byte from the offset on, or -1; failure exactly for an offset before the start |
| `Buffers.BBuffer.GetString` | protocol-common/src/main/java/org/kendar/buffers/BBuffer.java:372-378 | the text up to the first NUL or the end, decoded, the cursor one past it; failure exactly for a cursor outside the buffer |
| `Buffers.BBuffer.GetRemaining` | protocol-common/src/main/java/org/kendar/buffers/BBuffer.java:104-109 | a copy of the unread bytes; the buffer itself while the cursor is before the start |
| `Buffers.BBuffer.TruncateAt` | protocol-common/src/main/java/org/kendar/buffers/BBuffer.java:222-238 | everything before the position is dropped, all of it for a position past the end |
| `Buffers.BBuffer.Truncate` | protocol-common/src/main/java/org/kendar/buffers/BBuffer.java:218-220 | everything before the cursor is dropped and the cursor reset |
| `Buffers.WriteIsOverlayIff` | protocol-common/src/main/java/org/kendar/buffers/BBuffer.java:158-170 | a write puts its bytes at the offset exactly when it fits, starts at the end, or is all zeros past the end |
| `Buffers.PartialIsOverlayIff` | protocol-common/src/main/java/org/kendar/buffers/BBuffer.java:144-156 | a partial write does so exactly for a length the source has, when the whole source block would have fitted, at the end, or for zeros past the end |
| `Buffers.BBuffer.BuildFailure` | protocol-common/src/main/java/org/kendar/buffers/BBuffer.java:495-507 | every entry of the failure table is the longest border of its prefix, in fewer inner rounds than the needle is long |
| `Buffers.BBuffer.IndexOf` | protocol-common/src/main/java/org/kendar/buffers/BBuffer.java:486-523 | the least index where the needle occurs, or -1 when it occurs nowhere, in at most two rounds a byte |
| `TypedStream.WriteItem` | protocol-common/src/main/java/org/kendar/buffers/BBuffer.java:119-134 | a value of any kind is appended as its encoding |
| `TypedStream.ReadItem` | protocol-common/src/main/java/org/kendar/buffers/BBuffer.java:172-190 | a value of any kind is read back as the specification function decodes it |
| `TypedStream.RoundTripIff` | protocol-common/src/main/java/org/kendar/buffers/BBuffer.java:240-378 | decoding with the same schema gives the written list again, ending at the end, exactly when every character of every text comes back from its code and none has that of the terminator |
| `TypedStream.WriteThenRead` | protocol-common/src/main/java/org/kendar/buffers/BBuffer.java:119-190 | the same on one buffer of either byte order: written, rewound and read |
| `Ascii.PlainIff` | protocol-common/src/main/java/org/kendar/buffers/BBuffer.java:375 | in US-ASCII these are the characters from 1 to 127 |
| `Framing.ProxySocket.FindState` | protocol-common/src/main/java/org/kendar/proxy/BaseProxySocket.java:56-69 | the first state that runs on the buffer |
| `Framing.ProxySocket.FindEvent` | protocol-common/src/main/java/org/kendar/proxy/BaseProxySocket.java:74-91 | the first event some state accepts, with the first such state |
| `Framing.DecideMeans` | protocol-common/src/main/java/org/kendar/proxy/BaseProxySocket.java:52-101 | the message cut off is that of the first state that runs on the buffer; only if none does, the frame, as its first event that some state accepts, by the first such state; it is queued only when every state declines every event, and nothing is cut off exactly when no state runs and there is no frame |
| `Framing.ProxySocket.ReadOne` | protocol-common/src/main/java/org/kendar/proxy/BaseProxySocket.java:52-101 | one round hands over exactly the message decided on and cuts it off the buffer, or changes nothing |
| `Framing.ProxySocket.OnRead` | protocol-common/src/main/java/org/kendar/proxy/BaseProxySocket.java:32-108 | a read appends its chunk and hands over all complete messages, in order, leaving the rest |
| `Framing.ProxySocket.OnReads` | protocol-common/src/main/java/org/kendar/proxy/BaseProxySocket.java:32-108 | the same for any number of reads in a row |
| `Framing.ChunkingIrrelevantIff` | protocol-common/src/main/java/org/kendar/proxy/BaseProxySocket.java:52-102 | however a stream is cut into chunks, messages and leftover are those of the whole, exactly for protocols whose decisions are stable under more input |
| `Framing.FeedConserves` | protocol-common/src/main/java/org/kendar/proxy/BaseProxySocket.java:40-102 | messages handed over and leftover together are all the bytes received, in order |
| `FrameMailbox.MailboxConserves` | protocol-common/src/main/java/org/kendar/proxy/BaseProxySocket.java:94-137 | in every interleaving of socket and reader, received and queued frames are those added and not yet returned, in order of arrival |
| `FrameMailbox.ScanTakesEarliest` | protocol-common/src/main/java/org/kendar/proxy/BaseProxySocket.java:127-144 | a scan removes just the earliest pending frame its state accepts, or nothing; it succeeds exactly when such a frame was queued before the queue was seen empty |
| `FrameMailbox.FrameReader.ReadPass` | protocol-common/src/main/java/org/kendar/proxy/BaseProxySocket.java:119-145 | one pass empties the queue and takes the first accepted frame |
| `FrameMailbox.FrameReader.Read` | protocol-common/src/main/java/org/kendar/proxy/BaseProxySocket.java:110-147 | the passes of a read, with frames arriving between them |
| `FrameMailbox.ReadGivesUpIff` | protocol-common/src/main/java/org/kendar/proxy/BaseProxySocket.java:117-158 | a read gives up exactly when no frame pending or arriving in time is accepted, and then keeps all |
| `EventsQueue.CounterIsBarrier` | protocol-common/src/main/java/org/kendar/events/EventsQueue.java:32-39 | in every interleaving without cleaning the counter is the number of events half sent, queued or in flight, handling follows queueing order, and an empty-looking queue means everything sent was handled |
| `EventsQueue.CleanKeepsBarrierIff` | protocol-common/src/main/java/org/kendar/events/EventsQueue.java:132-141 | cleaning leaves a working barrier exactly when no event is half sent or in flight |
| `EventsQueue.CleanInsideHandler` | protocol-common/src/main/java/org/kendar/events/EventsQueue.java:94-103 | cleaning from inside a handler drives the counter to -1, and the queue then looks empty while an event waits |
| `PaddedNames.PadLeftZeros` | protocol-common/src/main/java/org/kendar/storage/FileStorageRepository.java:76-87 | the loop computes the zero-padded text |
| `PaddedNames.NameIs` | protocol-common/src/main/java/org/kendar/storage/FileStorageRepository.java:303 | padded ids below 10^10 have ten digits and read back as the id |
| `PaddedNames.NamesSortAsNumbers` | protocol-common/src/main/java/org/kendar/storage/FileStorageRepository.java:345-352 | padded ids below 10^10 are ordered and told apart as numbers |
| `PaddedNames.TenDigitsIff` | protocol-common/src/main/java/org/kendar/storage/FileStorageRepository.java:76-87 | all ids below a bound sort correctly exactly when the bound is at most 10^10 |
| `FileNames.ItemNamesDiffer` | protocol-common/src/main/java/org/kendar/storage/FileStorageRepository.java:303-312 | recordings with different ids or instances have different names, never that of an index |
| `FileNames.ItemIsReadIff` | protocol-common/src/main/java/org/kendar/storage/FileStorageRepository.java:350-361 | exactly which instances read a recording: those whose suffix ends its own one and leaves only digits of it, in range, once taken out |
| `FileNames.OwnItemIsRead` | protocol-common/src/main/java/org/kendar/storage/FileStorageRepository.java:350-361 | the name filter lets every recording of the instance pass |
| `FileNames.ForeignItemIsSkipped` | protocol-common/src/main/java/org/kendar/storage/FileStorageRepository.java:350-361 | it skips every recording of another instance whose id hides no `.json` |
| `FileNames.IndexIsNotRead` | protocol-common/src/main/java/org/kendar/storage/FileStorageRepository.java:350-361 | it skips every index |
| `FileNames.HiddenExtensionLeaks` | protocol-common/src/main/java/org/kendar/storage/FileStorageRepository.java:355 | without that condition any instance reads what `<it>.json.<it>` recorded |
| `Storage.FileStorageRepository.GenerateIndex` | protocol-common/src/main/java/org/kendar/storage/FileStorageRepository.java:276-280 | the counter and the id after a 32-bit increment |
| `Storage.FileStorageRepository.InitializeContentForWrite` | protocol-common/src/main/java/org/kendar/storage/FileStorageRepository.java:215-232 | the whole store after opening an instance for recording: a closed one gets the index on disk, an open one keeps its own |
| `Storage.FileStorageRepository.ReadAllItems` | protocol-common/src/main/java/org/kendar/storage/FileStorageRepository.java:345-370 | the recordings of an instance, over the sorted listing |
| `Storage.FileStorageRepository.InitializeContentForReplay` | protocol-common/src/main/java/org/kendar/storage/FileStorageRepository.java:180-213 | the whole store after opening an instance for replay; a closed one gets the index on disk, no timestamp in it above a later one, lines of one time as they stood |
| `Storage.FileStorageRepository.RecordInteraction` | protocol-common/src/main/java/org/kendar/storage/FileStorageRepository.java:288-290 | one more task waits in the executor and is counted |
| `Storage.FileStorageRepository.RunTask` | protocol-common/src/main/java/org/kendar/storage/FileStorageRepository.java:290-318 | the whole store after one task, null lines, closed instances and negative ids included |
| `Storage.FileStorageRepository.FinalizeRecording` | protocol-common/src/main/java/org/kendar/storage/FileStorageRepository.java:378-402 | the wait, whatever the executor does in each of its rounds; then the instance is closed, and if anything was added its index is written, no timestamp in it above a later one, with just its lines, those of one time in the order they were added |
| `Storage.FileStorageRepository.FinalizePlay` | protocol-common/src/main/java/org/kendar/storage/FileStorageRepository.java:167-172 | the instance is closed |
| `Storage.FileStorageRepository.ReadFromScenarioById` | protocol-common/src/main/java/org/kendar/storage/FileStorageRepository.java:412-431 | the item found in memory under any id, or in its file for a closed instance |
| `Storage.ListingUnique` | protocol-common/src/main/java/org/kendar/storage/FileStorageRepository.java:347-352 | a directory has one sorted listing |
| `Sorting.SortIs` | protocol-common/src/main/java/org/kendar/storage/FileStorageRepository.java:202 | the list sort used for indexes orders it and keeps every element |
| `Sorting.SortIsStable` | protocol-common/src/main/java/org/kendar/storage/FileStorageRepository.java:202 | elements of equal key keep their order |
| `Storage.SortsByTime` | protocol-common/src/main/java/org/kendar/storage/FileStorageRepository.java:392 | the sort by time puts no line before one of a smaller timestamp, keeps all lines and the order of those of one time |
| `Recording.QueueKeepsOrder` | protocol-common/src/main/java/org/kendar/events/EventsQueue.java:94-103 | events are handled in the order they were sent |
| `Recording.WaitIsRun` | protocol-common/src/main/java/org/kendar/storage/FileStorageRepository.java:380 | the wait of a finalization is a run of steps of the executor, so handling it as one step loses no interleaving |
| `Recording.WaitSucceedsIff` | protocol-common/src/main/java/org/kendar/storage/FileStorageRepository.java:288-319 | the wait of a finalization can succeed exactly when the executor is idle and no null line was ever handled; after one the wait always times out |
| `Recording.RecordingLosesNothing` | protocol-common/src/main/java/org/kendar/storage/FileStorageRepository.java:288-402 | in every interleaving, timed-out waits included, the index written has the lines loaded at the start and those of the session already run, each timestamp at most the next, lines of one time in the order they were added; it has them all exactly when no line of the instance still waits in the executor |
| `Recording.SuccessfulWaitIsIdle` | protocol-common/src/main/java/org/kendar/storage/FileStorageRepository.java:380 | none waits after a wait that succeeded |
| `Recording.LateLineIsLost` | protocol-common/src/main/java/org/kendar/storage/FileStorageRepository.java:378-394 | a run in which the wait ends with a line still waiting: the index lacks it, and its task is dropped |
| `Recording.OnlySessionLinesIff` | protocol-common/src/main/java/org/kendar/storage/FileStorageRepository.java:288-319 | when nothing waits at the end, just the queued writes are added exactly when no write of the instance waited in the executor at its start |
| `RecordReplay.ReplayLoadsRecordings` | protocol-common/src/main/java/org/kendar/storage/FileStorageRepository.java:180-213 | replay of a closed instance loads its index in the order of timestamps, lines of one time as they stood, and under every id exactly what was recorded there, responses apart from the rest, nothing of other instances |
| `RecordReplay.NextReplayLoadsAnew` | protocol-common/src/main/java/org/kendar/storage/FileStorageRepository.java:167-213 | after a replay has ended the instance is closed, nothing else has changed, and whatever happens before it is played again, the next replay loads what is on disk then |
| `RecordReplay.ItemsAscend` | protocol-common/src/main/java/org/kendar/storage/FileStorageRepository.java:345-370 | the items of an instance are read in the order of their ids |
| `RecordReplay.RecordThenReplay` | protocol-common/src/main/java/org/kendar/storage/FileStorageRepository.java:180-431 | after a session replay has the old and new lines in the order of timestamps, lines of one time as they were added, exactly when none still waited at its end, and under the id of a recorded write its item exactly when that write did not wait |
| `RecordReplay.IdsAreFresh` | protocol-common/src/main/java/org/kendar/storage/FileStorageRepository.java:276-280 | over every run whose start and length leave the 32-bit counter room, the counter never falls and generated ids grow strictly |
| `RecordReplay.RoomIsEnough` | protocol-common/src/main/java/org/kendar/storage/FileStorageRepository.java:203-228 | a cap on the ids there are at the start, and one more for each step, keeps the counter from wrapping, openings of instances included |
| `RecordReplay.DrawnIdsGrowIff` | protocol-common/src/main/java/org/kendar/storage/FileStorageRepository.java:276-280 | of any number of ids drawn in a row all lie above the counter exactly while it does not wrap |
| `RecordReplay.IdsExceedLoadedIndex` | protocol-common/src/main/java/org/kendar/storage/FileStorageRepository.java:203-228 | ids generated after an instance was opened exceed every index it loaded |
| `RecordReplay.FileNamesAreFresh` | protocol-common/src/main/java/org/kendar/storage/FileStorageRepository.java:303 | no id generated after an instance was opened names a file of the instance on disk, and no two of them name the same file |
| `RecordReplay.SessionKeepsCovered` | protocol-common/src/main/java/org/kendar/storage/FileStorageRepository.java:288-402 | a session, timed out or not, keeps it that every recording of the instance on disk has a line in its index |
| `RecordPlugin.Plugin.Handle` | protocol-common/src/main/java/org/kendar/plugins/BasicRecordPlugin.java:58-94 | ids are drawn before a call and for a callback, one event is sent after a call and for a callback, negative ids included |
| `RecordPlugin.EventIsSent` | protocol-common/src/main/java/org/kendar/plugins/BasicRecordPlugin.java:58-94 | in any interleaving every call that comes back with an id, and every callback, sends its event, behind those sent before |
| `RecordPlugin.IdsOfRunDiffer` | protocol-common/src/main/java/org/kendar/plugins/BasicRecordPlugin.java:61-68 | no two calls or callbacks of a run are recorded under the same id |
| `RecordPlugin.SentWritesOwnTheirIds` | protocol-common/src/main/java/org/kendar/plugins/BasicRecordPlugin.java:58-94 | however calls interleave, and whatever other instances, the queue and the executor do to the shared counter, no two lines sent for an instance carry the same id |
| `RecordPlugin.RecordedCallIsFresh` | protocol-common/src/main/java/org/kendar/plugins/BasicRecordPlugin.java:58-94 | the id of a recorded call is that of no other pending line and of no file of the instance |
| `RecordPlugin.PostedCallIsReplayed` | protocol-common/src/main/java/org/kendar/plugins/BasicRecordPlugin.java:96-129 | a call of the run that came back has, under its id, a line with its type, caller, tags and the time it came back, and an item with its start, type and content, unless it was trivial and to be ignored, its line still waited when the recording was finalized, or it came after that |
| `RecordPlugin.CallbackIsReplayed` | protocol-common/src/main/java/org/kendar/plugins/BasicRecordPlugin.java:74-94 | so has a callback, as a RESPONSE with its start and content, found among the responses |
| `Text.EqualsIgnoreCaseIff` | protocol-common/src/main/java/org/kendar/plugins/BasicReplayPlugin.java:532-560 | texts are equal up to case exactly when they are as long and every two characters are equal or the cases of one letter |
| `Tags.TagsMatching` | protocol-common/src/main/java/org/kendar/plugins/BasicReplayPlugin.java:545-560 | the number of keys of the query that the line has too, null in both or equal up to case |
| `Tags.ScoreIsFullIff` | protocol-common/src/main/java/org/kendar/plugins/BasicReplayPlugin.java:545-560 | a line has the highest score there can be exactly when every tag of the query is among its own, null in both or equal up to case |
| `Replay.ReplayPlugin.Clean` | protocol-common/src/main/java/org/kendar/plugins/BasicReplayPlugin.java:155-169 | the responses in front of the first call are dropped, repeatable lines collected |
| `Replay.ReplayPlugin.HandleActivation` | protocol-common/src/main/java/org/kendar/plugins/BasicReplayPlugin.java:144-174 | activation loads the index from the first call on and the repeatable lines; activation and deactivation reset what is used |
| `Replay.ReplayPlugin.FindIndex` | protocol-common/src/main/java/org/kendar/plugins/BasicReplayPlugin.java:472-519 | the unused candidate of highest score and, among equals, lowest index; else the best repeatable one; nothing exactly in the remaining cases (spelled out in `FoundIs`) |
| `Replay.FoundIs` | protocol-common/src/main/java/org/kendar/plugins/BasicReplayPlugin.java:472-543 | nothing is found exactly when a line that may be repeated is left to the real server, or every line of the type and caller asked for is used and none may be repeated; what is found is of that type and caller, no response, used only if it is repeated, and no other such line has more tags in common, or as many and a lower 32-bit index |
| `Replay.OnlyMatchIsFound` | protocol-common/src/main/java/org/kendar/plugins/BasicReplayPlugin.java:491-519 | a single unused line of the type and caller asked for that agrees on all tags of the request is what is found |
| `Replay.ReplayPlugin.SendAndExpect` | protocol-common/src/main/java/org/kendar/plugins/BasicReplayPlugin.java:223-266 | which requests are refused, and for the others the answer, the calls and responses then used, also when it throws |
| `Replay.ReplayPlugin.SendAndForget` | protocol-common/src/main/java/org/kendar/plugins/BasicReplayPlugin.java:404-430 | the same for a request without an answer |
| `Replay.ReplayPlugin.Handle` | protocol-common/src/main/java/org/kendar/plugins/BasicReplayPlugin.java:126-136 | what is served and used, and whether the request stops here, throws or goes on |
| `Replay.EachCallOnce` | protocol-common/src/main/java/org/kendar/plugins/BasicReplayPlugin.java:472-519 | between activations each recorded call is the first answer of at most one request, if lines of oversized index are out of reach |
| `Replay.EachCallOnceIff` | protocol-common/src/main/java/org/kendar/plugins/BasicReplayPlugin.java:485 | over all runs of all requests first answers are distinct exactly when every request that fits a line whose index exceeds 32 bits is forwarded |
| `Replay.BlockedEachCallOnceIff` | protocol-common/src/main/java/org/kendar/plugins/BasicReplayPlugin.java:485-489 | with external calls blocked: exactly when the index of every call fits 32 bits |
| `Replay.OversizedAnswersTwice` | protocol-common/src/main/java/org/kendar/plugins/BasicReplayPlugin.java:249-250 | a run in which a call of index 2^32 answers two requests as if it were new |
| `Callbacks.ReadResponsesFromScenario` | protocol-common/src/main/java/org/kendar/storage/FileStorageRepository.java:441-462 | the loop computes the responses of the specification function |
| `Callbacks.ResponsesFound` | protocol-common/src/main/java/org/kendar/storage/FileStorageRepository.java:441-462 | for any index whatever: of the later lines by index, the unused responses before the first unused line that is none; an exception exactly when that line has no type |
| `Callbacks.ResponsesAre` | protocol-common/src/main/java/org/kendar/storage/FileStorageRepository.java:441-462 | the responses found are exactly the unused ones recorded after the call and before the next call |
| `Replay.ReplayPlugin.LoadAndPrepareTheAsyncResponses` | protocol-common/src/main/java/org/kendar/plugins/BasicReplayPlugin.java:275-321 | the batch scheduled, and its responses marked as used |
| `Replay.ReplayPlugin.IsResponseAwaited` | protocol-common/src/main/java/org/kendar/plugins/BasicReplayPlugin.java:295-305 | some connection has a tag in common with the line of the response |
| `Callbacks.BatchIs` | protocol-common/src/main/java/org/kendar/plugins/BasicReplayPlugin.java:291-309 | a batch rises by timestamp and, at the same timestamp, by index, and holds exactly the awaited responses to its call |
| `Callbacks.IsAwaitedIff` | protocol-common/src/main/java/org/kendar/plugins/BasicReplayPlugin.java:295-305 | a response is awaited exactly when the first line with its index and some connection have a key in common, null in both or equal up to case |
| `Callbacks.ScheduledAtMostOnce` | protocol-common/src/main/java/org/kendar/plugins/BasicReplayPlugin.java:286-303 | over any list of replayed calls no response is scheduled twice, and each follows some of them |
| `Replay.CallbacksFollowTheirCall` | protocol-common/src/main/java/org/kendar/plugins/BasicReplayPlugin.java:275-321 | over any run of the plugin no response is scheduled twice, and a response is scheduled exactly when some request was answered by the last call recorded before it while a connection waited for it |
| `Callbacks.FollowsIffLastCall` | protocol-common/src/main/java/org/kendar/storage/FileStorageRepository.java:446-460 | a response follows a call exactly when that is the last call recorded before it |
| `Callbacks.LastCallIsUnique` | protocol-common/src/main/java/org/kendar/storage/FileStorageRepository.java:446-460 | the responses of different calls do not meet |
| `Callbacks.LastCallExists` | protocol-common/src/main/java/org/kendar/storage/FileStorageRepository.java:446-460 | every line after the first call belongs to some call |
| `Mock.MockPlugin.LoadMocks` | protocol-common/src/main/java/org/kendar/plugins/BasicMockPlugin.java:129-147 | mocks are loaded with counters at zero exactly when no id is used twice |
| `Mock.MockPlugin.Handle` | protocol-common/src/main/java/org/kendar/plugins/BasicMockPlugin.java:70-94 | the state of all mocks after a request, and whether it is answered |
| `Mock.AfterIsClosedForm` | protocol-common/src/main/java/org/kendar/plugins/BasicMockPlugin.java:75-91 | counter, nth and count of a mock after any number of requests, in closed form |
| `Mock.KthRequestIff` | protocol-common/src/main/java/org/kendar/plugins/BasicMockPlugin.java:75-91 | the k-th request of a mock is answered exactly from the nth on, max(1, count) times, or count times without nth |
| `Mock.ScheduleIsKept` | protocol-common/src/main/java/org/kendar/plugins/BasicMockPlugin.java:58-95 | the same for every mock in any interleaving of requests over many mocks |
| `JdbcMock.VerifyQuery` | protocol-common-jdbc/src/main/java/org/kendar/plugins/JdbcMockPlugin.java:82-101 | the verdict on the query: exact, template, none or an exception |
| `JdbcMock.MatchParameters` | protocol-common-jdbc/src/main/java/org/kendar/plugins/JdbcMockPlugin.java:58-80 | the points of all parameters, or an exception |
| `JdbcMock.CheckMatching` | protocol-common-jdbc/src/main/java/org/kendar/plugins/JdbcMockPlugin.java:38-56 | the best mock so far after one more |
| `JdbcMock.SelectMock` | protocol-common/src/main/java/org/kendar/plugins/BasicMockPlugin.java:66-70 | the first mock of maximal score, or -1 when none matches; an exception exactly when some mock throws |
| `JdbcMock.QueryVerdictIs` | protocol-common-jdbc/src/main/java/org/kendar/plugins/JdbcMockPlugin.java:82-117 | exact for the query of the mock up to case; else an exception for a template that cannot be parsed, or for a section that throws behind sections that fit; a match exactly when every piece is its section up to case, stands for a variable, or fits the pattern |
| `JdbcMock.BetterParameterWins` | protocol-common-jdbc/src/main/java/org/kendar/plugins/JdbcMockPlugin.java:58-80 | of two matching mocks that differ in one parameter the second is selected exactly when its parameter outranks the other: equal or null in both before a pattern that fits, that before a variable, that before anything else |
| `JdbcMock.MockThrowsIff` | protocol-common-jdbc/src/main/java/org/kendar/plugins/JdbcMockPlugin.java:72-76 | a mock whose query matches throws exactly when one of its patterns meets null, is too short, or holds a malformed regular expression |
| `JdbcMock.TemplateAcceptsIff` | protocol-common-jdbc/src/main/java/org/kendar/plugins/JdbcMockPlugin.java:87-100 | a template of variables accepts exactly the queries that contain an instance of it |
| `JdbcMock.ExactAlwaysWinsIff` | protocol-common-jdbc/src/main/java/org/kendar/plugins/JdbcMockPlugin.java:58-101 | a matching exact mock always outscores every matching template exactly up to 2999 parameters |
| `NetworkProxy.Proxy.RunPreCall` | protocol-common/src/main/java/org/kendar/proxy/NetworkProxy.java:140-144 | handlers run up to the first that does not let the call pass, the replay plugin among them, which serves the request when its turn comes |
| `NetworkProxy.Proxy.RunPostCall` | protocol-common/src/main/java/org/kendar/proxy/NetworkProxy.java:152-156 | the same after the call |
| `NetworkProxy.Proxy.Send` | protocol-common/src/main/java/org/kendar/proxy/NetworkProxy.java:135-158 | the whole effect of a call on each of the three send paths (spelled out in `EffectsOfCall`), and what the replay plugin has used after it |
| `NetworkProxy.EffectsOfCall` | protocol-common/src/main/java/org/kendar/proxy/NetworkProxy.java:135-268 | for each call of any run: a handler before it runs exactly when those before that handler let it pass; the server is read from exactly when it is written to and the path waits for an answer; a handler after it runs exactly when the server is written to, an answer waited for has come, and those before that handler let it pass; handlers before the call by number, then the write, the read, and handlers after it by number |
| `NetworkProxy.Proxy.SendAllBlocked` | protocol-common/src/main/java/org/kendar/proxy/NetworkProxy.java:187-268 | any calls sent while the plugin is active and blocks external calls log handlers of the first phase only |
| `NetworkProxy.SilentIff` | protocol-common/src/main/java/org/kendar/plugins/BasicReplayPlugin.java:485-517 | while external calls are allowed the plugin neither answers nor throws exactly for a repeatable call, without an unused line that fits, or for a line of index -1 with nothing to answer |
| `NetworkProxy.ServerIsReachedIff` | protocol-common/src/main/java/org/kendar/proxy/NetworkProxy.java:187-227 | in any run of calls each is written to the server exactly when it is connected, all other handlers let it pass, and the replay plugin is off, or allows external calls and stays silent; otherwise only handlers of the first phase run |
| `NetworkProxy.RunReachesServerIff` | protocol-common/src/main/java/org/kendar/proxy/NetworkProxy.java:135-268 | over a whole run the server is written to exactly when some call goes through |
| `NetworkProxy.ReplayIsolatesServer` | protocol-common/src/main/java/org/kendar/proxy/NetworkProxy.java:243-268 | with an active replay plugin that blocks external calls, over any run, also when the plugin throws, the server is never touched and no later handler runs |
| `Fidelity.ReplayIsFaithful` | protocol-common/src/main/java/org/kendar/plugins/BasicReplayPlugin.java:472-519 | the calls of a recording, sent again in order with external calls blocked, are each answered by exactly the call recorded |
| `Fidelity.FaithfulInAnyOrderIff` | protocol-common/src/main/java/org/kendar/plugins/BasicReplayPlugin.java:472-519 | calls of a recording, some or all, sent again in any order are each answered by their own line exactly when no call fits the request of a later one in type, caller and all tags |
| `Fidelity.CallsAreKept` | protocol-common/src/main/java/org/kendar/plugins/BasicReplayPlugin.java:154-169 | the lines the plugin keeps of the index it gets hold every call |
| `Fidelity.DiskIsReplayed` | protocol-common/src/main/java/org/kendar/plugins/BasicReplayPlugin.java:342-361 | so what is on disk of a closed instance is replayed call by call, each with the item recorded under its id |
| `Fidelity.RecordedCallIsAnswered` | protocol-common/src/main/java/org/kendar/plugins/BasicReplayPlugin.java:223-266 | from the calls of a run to their replay: made again by the clients in the order of ids, the request of each call, its type, caller and tags, finds the line with that type, caller and tags, its id and the time it came back, and is answered with its start, type and content |
| `Fidelity.RecordedCallsInAnyOrder` | protocol-common/src/main/java/org/kendar/plugins/BasicReplayPlugin.java:223-266 | the same for any of the calls in any order, while no line fits the request of a later one with all its tags |
| `Fidelity.RecordedCallbackIsScheduled` | protocol-common/src/main/java/org/kendar/plugins/BasicReplayPlugin.java:275-321 | from the callbacks of a run to any replay of it: a callback the plugin holds is scheduled, with its start and content, exactly when some request is answered by the last call recorded before it while a connection is open that has a tag in common with it |
| `Fidelity.SessionKeepsRecording` | protocol-common/src/main/java/org/kendar/plugins/BasicRecordPlugin.java:58-94 | a session keeps it that every line of the index has a type and an index of its own |

## Left out

- ForeignItemIsSkipped: one direction only; an id that hides `.json` leaks for some instances and not for
  others, depending on which of its parts repeat. `ItemIsReadIff` is the exact condition on both ids.
- GetString: the character set is a parameter; `Ascii` gives the one the program uses.
- ResponsesAre: for recordings as the plugin makes them, where every line has a type and an index of its own;
  `ResponsesFound` is about any index. `BatchIs` and `CallbacksFollowTheirCall` are about recordings, too.
- DiskIsReplayed: for an index whose lines have types and indexes of their own.
- PostedCallIsReplayed: names of at most ten digits, and instances whose ids hide no `.json`.
- CallbackIsReplayed: the same.
- RecordedCallIsAnswered: for sessions none of whose lines is late (`PostedCallIsReplayed` tells what becomes
  of those), of an instance whose index was in order before; `SessionKeepsRecording` keeps it so.
- FaithfulInAnyOrderIff: with external calls blocked; otherwise a repeatable call is left to the real server.
- SendAndExpect: the input of the request, which takes the place of the recorded one in a repeated item.
- Opening an instance, finalizing it once the wait is over, and each handler of an event is one atomic step;
  the counter of the repository is in fact read and set separately, and after a timed-out wait the executor
  may add a line while the index is written.
- One replay plugin among the handlers of a call; other handlers are given by how they react.
- Protocol states, splitters and the events built from a frame enter the framing model as functions; the
  states themselves (`ProtoState`, `ProtoContext`) are not part of this model, nor are effects they may have
  on later decisions.
- The dispatch of events to registered handlers, and handlers that throw.
- Buffers larger than 2^31 bytes; null needles and null arrays; `float` and `double`; `writeUnsignedInt`; hex dumps.
- Regular expressions inside `@{...}` are a function parameter; filling a mock's answer with captured values.
- The file system is a map, JSON is the identity; I/O errors, encryption, directories, deletion and update of
  recordings, and clean-up of the whole storage.
- Letter case is folded for ASCII only.
- The time a replayed answer or callback waits, connection ids put into items, and sending callbacks back.
- Other plugins (latency, errors, rewrite, forward), servers, command line, user interface.
